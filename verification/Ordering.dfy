/** The (namespace, name) order in which a batch is written. */
module Ordering {
  import opened Common

  /** Rust's `str` order: character by character, a proper prefix first. */
  predicate LexLe(a: string, b: string) {
    a == [] || (b != [] && (a[0] < b[0] || (a[0] == b[0] && LexLe(a[1..], b[1..]))))
  }

  /** One string comes before another if it is a prefix of it, or smaller at the first
      place where they differ. */
  lemma {:induction false} LexMeaning(a: string, b: string)
    ensures LexLe(a, b) <==> a <= b || exists i :: 0 <= i < |a| && i < |b| && a[..i] == b[..i] && a[i] < b[i]
  {
    if a != [] && b != [] && a[0] == b[0] {
      LexMeaning(a[1..], b[1..]);
      assert a == [a[0]] + a[1..] && b == [b[0]] + b[1..];
      if i :| 0 <= i < |a| - 1 && i < |b| - 1 && a[1..][..i] == b[1..][..i] && a[1..][i] < b[1..][i] {
        assert a[..i + 1] == [a[0]] + a[1..][..i] && b[..i + 1] == [b[0]] + b[1..][..i];
      }
      if i :| 0 <= i < |a| && i < |b| && a[..i] == b[..i] && a[i] < b[i] {
        assert a[1..][..i - 1] == a[..i][1..] && b[1..][..i - 1] == b[..i][1..];
      }
    } else if a != [] && b != [] {
      if a[0] < b[0] { assert a[..0] == b[..0]; }
      forall i | 0 < i < |a| && i < |b| ensures a[..i] != b[..i] { assert a[..i][0] != b[..i][0]; }
    }
  }

  lemma {:induction false} LexTotal(a: string, b: string)
    ensures LexLe(a, b) || LexLe(b, a)
    ensures LexLe(a, b) && LexLe(b, a) ==> a == b
  {
    if a != [] && b != [] {
      LexTotal(a[1..], b[1..]);
      assert a == [a[0]] + a[1..] && b == [b[0]] + b[1..];
    }
  }

  lemma {:induction false} LexTransitive(a: string, b: string, c: string)
    requires LexLe(a, b) && LexLe(b, c)
    ensures LexLe(a, c)
  {
    if a != [] && a[0] == b[0] && b[0] == c[0] {
      LexTransitive(a[1..], b[1..], c[1..]);
    }
  }

  /** Namespace first, name second. */
  predicate Le(s: Target, t: Target) {
    if s.namespace == t.namespace then LexLe(s.name, t.name) else LexLe(s.namespace, t.namespace)
  }

  lemma LeTotalOrder(s: Target, t: Target, u: Target)
    ensures Le(s, t) || Le(t, s)
    ensures Le(s, t) && Le(t, s) ==> s == t
    ensures Le(s, t) && Le(t, u) ==> Le(s, u)
  {
    LexTotal(s.namespace, t.namespace);
    LexTotal(s.name, t.name);
    if Le(s, t) && Le(t, u) {
      if s.namespace == t.namespace == u.namespace {
        LexTransitive(s.name, t.name, u.name);
      } else if s.namespace != t.namespace && t.namespace != u.namespace {
        LexTransitive(s.namespace, t.namespace, u.namespace);
      }
    }
  }

  /** The namespace decides, and only within one namespace the name: in both, a prefix comes
      first, else the smaller character at the first difference. */
  lemma LeMeaning(s: Target, t: Target)
    ensures var (a, b) := if s.namespace != t.namespace then (s.namespace, t.namespace) else (s.name, t.name);
            Le(s, t) <==> a <= b || exists i :: 0 <= i < |a| && i < |b| && a[..i] == b[..i] && a[i] < b[i]
  {
    LexMeaning(s.namespace, t.namespace);
    LexMeaning(s.name, t.name);
  }
}
