/**
 The per-identity token bucket in front of Apply (rust/konfig/quota.rs, second half).

 Tokens and instants are modelled as reals.  Nothing below assumes that instants
 are ordered unless a lemma says so: a call whose instant lies before the stored
 one refills nothing, yet still becomes the stored instant.
 */
module ApplyLimiter {
  import opened Common
  import opened QuotaTable

  datatype Bucket = Bucket(tokens: real, last: real)

  datatype Call = Call(rate: nat, burst: nat, cost: nat, now: real)

  // ── Specification: one identity ────────────────────────────────────────────

  /** Duration from `from` to `to`, zero when it would be negative. */
  function Elapsed(from: real, to: real): (d: real) {
    if from <= to then to - from else 0.0
  }

  function Min(a: real, b: real): (m: real) {
    if a <= b then a else b
  }

  /** `rate` tokens a second for `elapsed` seconds, as a sum. */
  function Gain(elapsed: real, rate: nat): (tokens: real)
    ensures 0.0 <= elapsed ==> 0.0 <= tokens
  {
    if rate == 0 then 0.0 else elapsed + Gain(elapsed, rate - 1)
  }

  function Product(elapsed: real, rate: nat): (tokens: real) {
    elapsed * rate as real
  }

  lemma {:induction false} GainIsProduct(elapsed: real, rate: nat)
    ensures Gain(elapsed, rate) == Product(elapsed, rate)
    ensures Gain(elapsed, 1) == elapsed
  {
    if rate != 0 {
      GainIsProduct(elapsed, rate - 1);
      assert rate as real == (rate - 1) as real + 1.0;
    }
  }

  lemma {:induction false} GainAdds(x: real, y: real, rate: nat)
    ensures Gain(x, rate) + Gain(y, rate) == Gain(x + y, rate)
  {
    if rate != 0 { GainAdds(x, y, rate - 1); }
  }

  /** Tokens available to a call; an identity never seen starts full. */
  function Refilled(b: Option<Bucket>, c: Call): (tokens: real) {
    match b
    case None => c.burst as real
    case Some(k) => Min(k.tokens + Gain(Elapsed(k.last, c.now), c.rate), c.burst as real)
  }

  predicate Admits(b: Option<Bucket>, c: Call) {
    c.cost as real <= Refilled(b, c)
  }

  function Spend(b: Option<Bucket>, c: Call): (cost: real) {
    if Admits(b, c) then c.cost as real else 0.0
  }

  function After(b: Option<Bucket>, c: Call): (k: Bucket) {
    Bucket(Refilled(b, c) - Spend(b, c), c.now)
  }

  /** The bucket left by a run of calls that starts at a fresh identity. */
  function Final(s: seq<Call>): (b: Option<Bucket>) {
    if s == [] then None else Some(After(Final(s[..|s| - 1]), s[|s| - 1]))
  }

  function Decisions(s: seq<Call>): (d: seq<bool>)
    ensures |d| == |s|
  {
    if s == [] then [] else Decisions(s[..|s| - 1]) + [Admits(Final(s[..|s| - 1]), s[|s| - 1])]
  }

  // ── Windows ────────────────────────────────────────────────────────────────

  /** Cost admitted by the calls from index `i` on. */
  function Spent(s: seq<Call>, i: nat): (cost: real) {
    if |s| <= i then 0.0
    else Spent(s[..|s| - 1], i) + Spend(Final(s[..|s| - 1]), s[|s| - 1])
  }

  /** Tokens earned between the calls from index `i` on. */
  function Earned(s: seq<Call>, i: nat): (tokens: real) {
    if |s| <= i + 1 then 0.0
    else
      var n := |s| - 1;
      Earned(s[..n], i) + Gain(Elapsed(s[n - 1].now, s[n].now), s[n].rate)
  }

  lemma {:induction false} TokensNonNegative(s: seq<Call>)
    requires s != []
    ensures Final(s).value.tokens >= 0.0
  {
    var n := |s| - 1;
    if n > 0 {
      TokensNonNegative(s[..n]);
    }
  }

  /** Over any run of consecutive calls, what is admitted plus what is left never
      exceeds the first call's burst plus the tokens earned since: whatever the
      rates, the bursts and the order of the instants. */
  lemma {:induction false} WindowBound(s: seq<Call>, i: nat)
    requires i < |s|
    ensures Spent(s, i) + Final(s).value.tokens <= s[i].burst as real + Earned(s, i)
    ensures Spent(s, i) <= s[i].burst as real + Earned(s, i)
  {
    var n := |s| - 1;
    TokensNonNegative(s);
    if i == n {
      assert Spent(s[..n], i) == 0.0;
    } else {
      WindowBound(s[..n], i);
    }
  }

  /** Some window is used up to the last token: the level of the bucket is exactly
      the least slack of all windows. */
  lemma {:induction false} TightestWindow(s: seq<Call>) returns (i: nat)
    requires s != []
    ensures i < |s| && Spent(s, i) + Final(s).value.tokens == s[i].burst as real + Earned(s, i)
  {
    var n := |s| - 1;
    assert Spent(s[..n], n) == 0.0;
    if Refilled(Final(s[..n]), s[n]) == s[n].burst as real {
      i := n;
    } else {
      i := TightestWindow(s[..n]);
    }
  }

  /** The limiter denies a call exactly when admitting it would overdraw some
      window ending with it. */
  lemma AdmittedIffNoWindowOverdrawn(s: seq<Call>, c: Call)
    ensures Admits(Final(s), c) <==>
            forall i :: 0 <= i <= |s| ==>
              Spent(s, i) + c.cost as real <= (s + [c])[i].burst as real + Earned(s + [c], i)
  {
    var t := s + [c];
    assert t[..|s|] == s && t[|s|] == c;
    if Admits(Final(s), c) {
      forall i | 0 <= i <= |s|
        ensures Spent(s, i) + c.cost as real <= t[i].burst as real + Earned(t, i)
      {
        WindowBound(t, i);
      }
    } else {
      var i := TightestWindow(t);
      assert Spent(t, i) == Spent(s, i);
    }
  }

  ghost predicate FixedLimits(s: seq<Call>, rate: nat, burst: nat) {
    forall i :: 0 <= i < |s| ==> s[i].rate == rate && s[i].burst == burst
  }

  ghost predicate Chronological(s: seq<Call>) {
    forall i, j :: 0 <= i <= j < |s| ==> s[i].now <= s[j].now
  }

  /** With fixed limits and an ordered clock a window admits at most the burst plus
      the rate times the length of the window. */
  lemma ClassicBound(s: seq<Call>, i: nat, rate: nat, burst: nat)
    requires i < |s| && FixedLimits(s, rate, burst) && Chronological(s)
    ensures Spent(s, i) <= burst as real + Product(s[|s| - 1].now - s[i].now, rate)
  {
    WindowBound(s, i);
    EarnedOverWindow(s, i, rate, burst);
    BoundAsProduct(Spent(s, i), burst as real, s[|s| - 1].now - s[i].now, rate);
  }

  lemma BoundAsProduct(spent: real, burst: real, window: real, rate: nat)
    requires spent <= burst + Gain(window, rate)
    ensures spent <= burst + Product(window, rate)
  {
    GainIsProduct(window, rate);
  }

  lemma {:induction false} EarnedOverWindow(s: seq<Call>, i: nat, rate: nat, burst: nat)
    requires i < |s| && FixedLimits(s, rate, burst) && Chronological(s)
    ensures Earned(s, i) == Gain(s[|s| - 1].now - s[i].now, rate)
  {
    var n := |s| - 1;
    if i < n {
      EarnedOverWindow(s[..n], i, rate, burst);
      GainAdds(s[n - 1].now - s[i].now, s[n].now - s[n - 1].now, rate);
    } else {
      GainAdds(0.0, 0.0, rate);
    }
  }

  /** A tenant that stays idle long enough gets its whole burst back. */
  lemma IdleTenantRecovers(s: seq<Call>, c: Call)
    requires s != [] && c.cost <= c.burst
    requires s[|s| - 1].now <= c.now
    requires Product(c.now - s[|s| - 1].now, c.rate) >= c.burst as real
    ensures Admits(Final(s), c)
  {
    TokensNonNegative(s);
    GainIsProduct(c.now - s[|s| - 1].now, c.rate);
    assert Final(s).value.last == s[|s| - 1].now;
  }

  // ── Denied calls leave no trace ────────────────────────────────────────────

  /** Refilling in two steps is refilling in one. */
  lemma RefillInTwoSteps(b: Option<Bucket>, c1: Call, c2: Call)
    requires c1.rate == c2.rate && c1.burst == c2.burst && c1.now <= c2.now
    requires b.Some? ==> b.value.last <= c1.now
    ensures Refilled(Some(Bucket(Refilled(b, c1), c1.now)), c2) == Refilled(b, c2)
  {
    if b.Some? { GainAdds(c1.now - b.value.last, c2.now - c1.now, c1.rate); }
  }

  /** With fixed limits and an ordered clock, removing any set of denied calls from
      a run changes neither the other decisions nor what a later call finds. */
  lemma DeniedCallsAreInvisible(s: seq<Call>, keep: seq<bool>, rate: nat, burst: nat, c: Call)
    requires |s| == |keep|
    requires FixedLimits(s + [c], rate, burst) && Chronological(s + [c])
    requires OnlyDeniedDropped(s, keep)
    ensures Decisions(Select(s, keep)) == Select(Decisions(s), keep)
    ensures Refilled(Final(Select(s, keep)), c) == Refilled(Final(s), c)
  {
    RegularIfFixed(s + [c], rate, burst);
    assert (s + [c])[..|s|] == s;
    InvisibleInRegular(s, keep, c);
  }

  /** `c` has the limits of the last call of `s` and comes no earlier. */
  predicate Follows(s: seq<Call>, c: Call) {
    s == [] || (var x := s[|s| - 1]; x.rate == c.rate && x.burst == c.burst && x.now <= c.now)
  }

  predicate Regular(s: seq<Call>) {
    s == [] || (Regular(s[..|s| - 1]) && Follows(s[..|s| - 1], s[|s| - 1]))
  }

  lemma {:induction false} RegularIfFixed(s: seq<Call>, rate: nat, burst: nat)
    requires FixedLimits(s, rate, burst) && Chronological(s)
    ensures Regular(s)
  {
    if s != [] {
      RegularIfFixed(s[..|s| - 1], rate, burst);
    }
  }

  lemma {:induction false} InvisibleInRegular(s: seq<Call>, keep: seq<bool>, c: Call)
    requires |s| == |keep| && Regular(s) && Follows(s, c) && OnlyDeniedDropped(s, keep)
    ensures Decisions(Select(s, keep)) == Select(Decisions(s), keep)
    ensures Refilled(Final(Select(s, keep)), c) == Refilled(Final(s), c)
    decreases |s|
  {
    if s != [] {
      var n := |s| - 1;
      PrefixDropped(s, keep);
      InvisibleInRegular(s[..n], keep[..n], s[n]);
      InvisibleInRegular(s[..n], keep[..n], c);
      SameDecisions(s, keep);
      if keep[n] {
        SameBucket(s, keep);
      } else {
        RefillInTwoSteps(Final(s[..n]), s[n], c);
      }
    }
  }

  /** Every call that is not kept was denied. */
  ghost predicate OnlyDeniedDropped(s: seq<Call>, keep: seq<bool>)
    requires |s| == |keep|
  {
    forall i :: 0 <= i < |s| && !keep[i] ==> !Decisions(s)[i]
  }

  lemma PrefixDropped(s: seq<Call>, keep: seq<bool>)
    requires s != [] && |s| == |keep| && OnlyDeniedDropped(s, keep)
    ensures OnlyDeniedDropped(s[..|s| - 1], keep[..|s| - 1])
    ensures keep[|s| - 1] || !Admits(Final(s[..|s| - 1]), s[|s| - 1])
  {
    var n := |s| - 1;
    assert Decisions(s) == Decisions(s[..n]) + [Admits(Final(s[..n]), s[n])];
  }

  lemma SameDecisions(s: seq<Call>, keep: seq<bool>)
    requires |s| == |keep| && s != []
    requires var n := |s| - 1; var s', keep' := s[..n], keep[..n];
             && Decisions(Select(s', keep')) == Select(Decisions(s'), keep')
             && Admits(Final(Select(s', keep')), s[n]) == Admits(Final(s'), s[n])
    ensures Decisions(Select(s, keep)) == Select(Decisions(s), keep)
  {
    var n := |s| - 1;
    SelectLast(s, s[..n], s[n], keep);
    SelectLast(Decisions(s), Decisions(s[..n]), Admits(Final(s[..n]), s[n]), keep);
    if keep[n] { OneMoreCall(Select(s[..n], keep[..n]), s[n]); }
  }

  lemma SelectLast<T>(t: seq<T>, t': seq<T>, x: T, keep: seq<bool>)
    requires t == t' + [x] && |t| == |keep|
    ensures Select(t, keep) == if keep[|t'|] then Select(t', keep[..|t'|]) + [x] else Select(t', keep[..|t'|])
  {
    assert t[..|t'|] == t';
  }

  lemma SameBucket(s: seq<Call>, keep: seq<bool>)
    requires |s| == |keep| && s != [] && keep[|s| - 1]
    requires var n := |s| - 1;
             Refilled(Final(Select(s[..n], keep[..n])), s[n]) == Refilled(Final(s[..n]), s[n])
    ensures Final(Select(s, keep)) == Final(s)
  {
    OneMoreCall(Select(s[..|s| - 1], keep[..|s| - 1]), s[|s| - 1]);
  }

  lemma OneMoreCall(s: seq<Call>, c: Call)
    ensures Decisions(s + [c]) == Decisions(s) + [Admits(Final(s), c)]
    ensures Final(s + [c]) == Some(After(Final(s), c))
  {
    assert (s + [c])[..|s|] == s;
  }

  /** A run whose second call carries an instant before the first one's. */
  const REWOUND: seq<Call> := [Call(1, 1, 1, 10.0), Call(1, 1, 1, 0.0), Call(1, 1, 1, 10.0)]

  /** Without an ordered clock a denied call is visible: its earlier instant becomes
      the stored one, so the next call earns tokens for time already counted. */
  lemma BackwardsClockCounterexample()
    ensures var keep := [true, false, true];
            && FixedLimits(REWOUND, 1, 1) && Decisions(REWOUND) == [true, false, true]
            && Decisions(Select(REWOUND, keep)) == [true, false]
            && Select(Decisions(REWOUND), keep) == [true, true]
  {
    var a, b, c := Call(1, 1, 1, 10.0), Call(1, 1, 1, 0.0), Call(1, 1, 1, 10.0);
    assert REWOUND == [a, b, c];
    assert [a, b, c][..2] == [a, b] && [a, b][..1] == [a] && [a][..0] == [] && [a, c][..1] == [a];
    assert Gain(10.0, 1) == 10.0 && Gain(0.0, 1) == 0.0;
    assert Final([a]) == Some(Bucket(0.0, 10.0)) && Decisions([a]) == [true];
    assert Final([a, b]) == Some(Bucket(0.0, 0.0)) && Decisions([a, b]) == [true, false];
    assert Decisions([a, b, c]) == [true, false, true] && Decisions([a, c]) == [true, false];
    SelectFirstAndLast(a, b, c);
    SelectFirstAndLast(true, false, true);
  }

  lemma SelectFirstAndLast<T>(x: T, y: T, z: T)
    ensures Select([x, y, z], [true, false, true]) == [x, z]
  {
    var k := [true, false, true];
    assert [x, y, z][..2] == [x, y] && [x, y][..1] == [x] && [x][..0] == [];
    assert k[..2] == [true, false] && [true, false][..1] == [true] && [true][..0] == [];
    assert Select([x], [true]) == [x];
    assert Select([x, y], [true, false]) == [x];
  }

  /** When a call `c` cannot tell whether the denied call `d` was made: nothing is
      earned, the three instants are in order one way or the other, or the bucket is
      full either way.  A bucket never seen before starts full. */
  predicate Unnoticed(b: Option<Bucket>, d: Call, c: Call) {
    match b
    case None => true
    case Some(k) =>
      || c.rate == 0
      || k.last <= d.now <= c.now
      || c.now <= d.now <= k.last
      || Refilled(b, c) == c.burst as real
  }

  lemma {:induction false} GainGrows(x: real, y: real, rate: nat)
    requires x < y && 0 < rate
    ensures Gain(x, rate) < Gain(y, rate)
  {
    if rate > 1 { GainGrows(x, y, rate - 1); }
  }

  /** Earning from `k` to `d` and then from `d` to `c`, against earning from `k` to `c`. */
  lemma DetourGain(k: real, d: real, c: real, rate: nat)
    ensures var detour := Gain(Elapsed(k, d), rate) + Gain(Elapsed(d, c), rate);
            && Gain(Elapsed(k, c), rate) <= detour
            && (detour == Gain(Elapsed(k, c), rate) <==> rate == 0 || k <= d <= c || c <= d <= k)
  {
    GainAdds(Elapsed(k, d), Elapsed(d, c), rate);
    if 0 < rate && Elapsed(k, c) < Elapsed(k, d) + Elapsed(d, c) {
      GainGrows(Elapsed(k, c), Elapsed(k, d) + Elapsed(d, c), rate);
    }
  }

  /** For any order of the instants, a denied call is invisible to the next one
      exactly if `Unnoticed` says so. */
  lemma DeniedCallInvisibleIff(b: Option<Bucket>, d: Call, c: Call)
    requires d.rate == c.rate && d.burst == c.burst && !Admits(b, d)
    ensures Refilled(Some(After(b, d)), c) == Refilled(b, c) <==> Unnoticed(b, d, c)
  {
    if b.Some? { DetourGain(b.value.last, d.now, c.now, c.rate); }
  }

  /** For any run: deleting a denied call leaves what every later call finds, and so
      every later decision, as it was, exactly if the next call cannot notice it. */
  lemma DeletedCallIff(pre: seq<Call>, d: Call, rest: seq<Call>)
    requires rest != [] && d.rate == rest[0].rate && d.burst == rest[0].burst
    requires !Admits(Final(pre), d)
    ensures (forall j :: 0 <= j < |rest| ==>
                           Refilled(Final(pre + [d] + rest[..j]), rest[j]) == Refilled(Final(pre + rest[..j]), rest[j]))
            <==> Unnoticed(Final(pre), d, rest[0])
  {
    OneMoreCall(pre, d);
    DeniedCallInvisibleIff(Final(pre), d, rest[0]);
    assert pre + [d] + rest[..0] == pre + [d] && pre + rest[..0] == pre;
    if Unnoticed(Final(pre), d, rest[0]) {
      forall j | 0 <= j < |rest|
        ensures Refilled(Final(pre + [d] + rest[..j]), rest[j]) == Refilled(Final(pre + rest[..j]), rest[j])
      {
        if 0 < j { SameFromThere(pre + [d], pre, rest, j); }
      }
    }
  }

  /** `c` carries the limits of `d`, comes no earlier, and is decided differently after it. */
  predicate Tells(k: Bucket, d: Call, c: Call) {
    && c.rate == d.rate && c.burst == d.burst && d.now <= c.now
    && Admits(Some(After(Some(k), d)), c) != Admits(Some(k), c)
  }

  lemma QuotientBack(x: real, r: real)
    requires r != 0.0
    ensures x / r * r == x
  {
  }

  lemma GainReaches(x: real, rate: nat)
    requires 0 < rate && 0.0 < x
    ensures 0.0 < x / rate as real && Gain(x / rate as real, rate) == x
  {
    GainIsProduct(x / rate as real, rate);
    QuotientBack(x, rate as real);
  }

  /** With the clock in order from `d` on, a denied call changes some later decision exactly
      if it rewinds the stored instant of a bucket that earns tokens and is not full. */
  lemma DeniedCallDecidesIff(k: Bucket, d: Call)
    requires !Admits(Some(k), d)
    ensures (exists c :: Tells(k, d, c)) <==> 0 < d.rate && d.now < k.last && k.tokens < d.burst as real
  {
    if 0 < d.rate && d.now < k.last && k.tokens < d.burst as real {
      RewoundCallTells(k, d);
    }
    forall c | Tells(k, d, c) ensures 0 < d.rate && d.now < k.last && k.tokens < d.burst as real {
      DeniedCallInvisibleIff(Some(k), d, c);
    }
  }

  /** The call that tells: the whole burst, asked for when it has been earned since `d`. */
  lemma RewoundCallTells(k: Bucket, d: Call)
    requires !Admits(Some(k), d) && 0 < d.rate && d.now < k.last && k.tokens < d.burst as real
    ensures exists c :: Tells(k, d, c)
  {
    var missing := d.burst as real - k.tokens;
    GainReaches(missing, d.rate);
    var wait := missing / d.rate as real;
    var c := Call(d.rate, d.burst, d.burst, d.now + wait);
    GainAdds(0.0, 0.0, d.rate);
    GainGrows(Elapsed(k.last, c.now), wait, d.rate);
    assert Elapsed(d.now, c.now) == wait;
    assert Tells(k, d, c);
  }

  /** Two runs whose next call finds the same tokens leave the same bucket from then on. */
  lemma {:induction false} SameFromThere(s: seq<Call>, t: seq<Call>, rest: seq<Call>, j: nat)
    requires 0 < j <= |rest| && Refilled(Final(s), rest[0]) == Refilled(Final(t), rest[0])
    ensures Final(s + rest[..j]) == Final(t + rest[..j])
  {
    assert rest[..j] == rest[..j - 1] + [rest[j - 1]];
    assert s + rest[..j] == (s + rest[..j - 1]) + [rest[j - 1]];
    assert t + rest[..j] == (t + rest[..j - 1]) + [rest[j - 1]];
    OneMoreCall(s + rest[..j - 1], rest[j - 1]);
    OneMoreCall(t + rest[..j - 1], rest[j - 1]);
    if j == 1 {
      assert s + rest[..0] == s && t + rest[..0] == t;
    } else {
      SameFromThere(s, t, rest, j - 1);
    }
  }

  // ── Many identities ────────────────────────────────────────────────────────

  datatype Request = Request(identity: string, call: Call)

  function Lookup(m: map<string, Bucket>, identity: string): (b: Option<Bucket>) {
    if identity in m then Some(m[identity]) else None
  }

  function RunAll(trace: seq<Request>): (m: map<string, Bucket>) {
    if trace == [] then map[]
    else
      var m, r := RunAll(trace[..|trace| - 1]), trace[|trace| - 1];
      m[r.identity := After(Lookup(m, r.identity), r.call)]
  }

  function CallsOf(trace: seq<Request>, identity: string): (s: seq<Call>) {
    if trace == [] then []
    else
      var s, r := CallsOf(trace[..|trace| - 1], identity), trace[|trace| - 1];
      if r.identity == identity then s + [r.call] else s
  }

  /** Tenants do not share a bucket: in any interleaving each identity is left with
      the bucket its own calls would have left. */
  lemma {:induction false} TenantsAreIsolated(trace: seq<Request>, identity: string)
    ensures Lookup(RunAll(trace), identity) == Final(CallsOf(trace, identity))
  {
    if trace != [] {
      var n := |trace| - 1;
      TenantsAreIsolated(trace[..n], identity);
      var s, c := CallsOf(trace[..n], identity), trace[n].call;
      assert (s + [c])[..|s|] == s;
    }
  }

  // ── The limiter, in place ──────────────────────────────────────────────────

  datatype ApplyDecision = Allowed(overBudget: bool) | Denied

  datatype ApplyOutcome = Pass | OverBudget(rate: nat, burst: nat) | Exhausted(rate: nat, burst: nat)

  class Limiter {
    var inner: map<string, Bucket>

    constructor ()
      ensures inner == map[]
    {
      inner := map[];
    }

    /** Refill, then take `cost` tokens if they are there. */
    method TryAcquireAt(identity: string, rate: nat, burst: nat, cost: nat, now: real) returns (ok: bool)
      modifies this
      ensures ok == Admits(Lookup(old(inner), identity), Call(rate, burst, cost, now))
      ensures inner == old(inner)[identity := After(Lookup(old(inner), identity), Call(rate, burst, cost, now))]
    {
      var cap := burst as real;
      if identity !in inner {
        inner := inner[identity := Bucket(cap, now)];
      }
      var e := inner[identity];
      var elapsed := Elapsed(e.last, now);
      GainIsProduct(elapsed, rate);
      var tokens := Min(e.tokens + Product(elapsed, rate), cap);
      ok := tokens >= cost as real;
      if ok {
        tokens := tokens - cost as real;
      }
      inner := inner[identity := Bucket(tokens, now)];
    }

    /** The mode decides the answer only: the bucket moves the same way in every
        mode, and Permissive reports over budget exactly where Enforce denies. */
    method AdmitAt(identity: string, mode: Mode, rate: nat, burst: nat, cost: nat, now: real)
      returns (d: ApplyDecision)
      modifies this
      ensures inner == old(inner)[identity := After(Lookup(old(inner), identity), Call(rate, burst, cost, now))]
      ensures var ok := Admits(Lookup(old(inner), identity), Call(rate, burst, cost, now));
              && (mode == Enforce ==> (d == Denied <==> !ok) && (d == Allowed(false) <==> ok))
              && (mode != Enforce ==> d == Allowed(!ok))
    {
      var ok := TryAcquireAt(identity, rate, burst, cost, now);
      match mode {
        case Enforce => d := if ok then Allowed(false) else Denied;
        case Permissive => d := Allowed(!ok);
        case Disabled => d := Allowed(!ok);
      }
    }

    /** The whole policy.  Quotas off and unlimited tenants never touch a bucket. */
    method ApplyAdmission(table: map<string, TenantQuota>, synced: bool, mode: Mode, defaultRate: nat,
                          identity: string, cost: nat, now: real) returns (o: ApplyOutcome)
      modifies this
      ensures var (rate, burst) := EffectiveApplyRate(table, synced, defaultRate, identity);
              var call := Call(rate, burst, cost, now);
              if mode == Disabled || rate == 0 then o == Pass && inner == old(inner)
              else
                && inner == old(inner)[identity := After(Lookup(old(inner), identity), call)]
                && (o == Pass <==> Admits(Lookup(old(inner), identity), call))
                && (o == Exhausted(rate, burst) <==> mode == Enforce && o != Pass)
                && (o == OverBudget(rate, burst) <==> mode == Permissive && o != Pass)
    {
      if mode == Disabled { return Pass; }
      var (rate, burst) := EffectiveApplyRate(table, synced, defaultRate, identity);
      if rate == 0 { return Pass; }
      var d := AdmitAt(identity, mode, rate, burst, cost, now);
      match d {
        case Allowed(false) => o := Pass;
        case Allowed(true) => o := OverBudget(rate, burst);
        case Denied => o := Exhausted(rate, burst);
      }
    }
  }
}
