/** Values shared by the components of the model. */
module Common {

  datatype Option<+T> = None | Some(value: T)

  datatype Result<+T, +E> = Ok(value: T) | Err(error: E)

  /** The rollout ladder shared by the quota and authorization checks. */
  datatype Mode = Disabled | Permissive | Enforce

  /** What names an object within its kind. */
  datatype Target = Target(namespace: string, name: string)

  /** Position-by-position selection: keeps `s[i]` exactly where `keep[i]`. */
  function Select<T>(s: seq<T>, keep: seq<bool>): (r: seq<T>)
    requires |s| == |keep|
  {
    if s == [] then []
    else
      var n := |s| - 1;
      if keep[n] then Select(s[..n], keep[..n]) + [s[n]] else Select(s[..n], keep[..n])
  }
}
