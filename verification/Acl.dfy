/**
 Access control (rust/konfig/acl.rs, rust/konfig/grpc/authz.rs).

 ConfigACL objects carry raw rules: verb tokens and "<namespace>/<name>" patterns.  They
 are lowered when loaded, concatenated per identity when published, and looked up per
 call.  The results below say that none of this changes what the raw policy grants.
 */
module Acl {
  import opened Common
  import opened Mirror

  datatype Verb = Read | Write

  datatype RuleSpec = RuleSpec(verbs: seq<string>, patterns: seq<string>)

  datatype AclSpec = AclSpec(identity: string, rules: seq<RuleSpec>)

  datatype Rule = Rule(verbs: seq<Verb>, patterns: seq<string>)

  datatype AclEntry = AclEntry(identity: string, rules: seq<Rule>)

  type Table = map<string, seq<Rule>>

  // ── Text ───────────────────────────────────────────────────────────────────

  /** The characters with the Unicode White_Space property. */
  predicate IsSpace(c: char) {
    var n := c as int;
    || 9 <= n <= 13 || n == 32 || n == 0x85 || n == 0xA0 || n == 0x1680 || 0x2000 <= n <= 0x200A
    || n == 0x2028 || n == 0x2029 || n == 0x202F || n == 0x205F || n == 0x3000
  }

  lemma SpaceMeaning(c: char)
    ensures IsSpace(c) <==>
            c as int in {0x9, 0xA, 0xB, 0xC, 0xD, 0x20, 0x85, 0xA0, 0x1680, 0x2000, 0x2001, 0x2002, 0x2003, 0x2004,
                         0x2005, 0x2006, 0x2007, 0x2008, 0x2009, 0x200A, 0x2028, 0x2029, 0x202F, 0x205F, 0x3000}
  {
  }

  function TrimLeft(s: string): (t: string) {
    if s != "" && IsSpace(s[0]) then TrimLeft(s[1..]) else s
  }

  function TrimRight(s: string): (t: string) {
    if s != "" && IsSpace(s[|s| - 1]) then TrimRight(s[..|s| - 1]) else s
  }

  function Trim(s: string): (t: string) {
    TrimRight(TrimLeft(s))
  }

  function LowerCase(s: string): (t: string)
    ensures |t| == |s|
  {
    seq(|s|, i requires 0 <= i < |s| => if 'A' <= s[i] <= 'Z' then (s[i] as int + 32) as char else s[i])
  }

  function ParseVerb(token: string): (v: Option<Verb>) {
    var t := LowerCase(Trim(token));
    if t == "read" then Some(Read) else if t == "write" then Some(Write) else None
  }

  ghost predicate AllSpace(s: string) {
    forall i :: 0 <= i < |s| ==> IsSpace(s[i])
  }

  /** `w` starts and ends with something other than a space, if it has anything. */
  ghost predicate Tight(w: string) {
    w != "" ==> !IsSpace(w[0]) && !IsSpace(w[|w| - 1])
  }

  lemma {:induction false} TrimLeftMeaning(s: string) returns (a: string)
    ensures s == a + TrimLeft(s) && AllSpace(a)
    ensures TrimLeft(s) != "" ==> !IsSpace(TrimLeft(s)[0])
  {
    if s != "" && IsSpace(s[0]) {
      var rest := TrimLeftMeaning(s[1..]);
      a := [s[0]] + rest;
    } else {
      a := "";
    }
  }

  lemma {:induction false} TrimRightMeaning(s: string) returns (b: string)
    ensures s == TrimRight(s) + b && AllSpace(b)
    ensures TrimRight(s) != "" ==> !IsSpace(TrimRight(s)[|TrimRight(s)| - 1])
  {
    if s != "" && IsSpace(s[|s| - 1]) {
      var rest := TrimRightMeaning(s[..|s| - 1]);
      b := rest + [s[|s| - 1]];
    } else {
      b := "";
    }
  }

  /** Trimming takes off spaces at both ends and all of them. */
  lemma TrimMeaning(s: string) returns (a: string, b: string)
    ensures s == a + Trim(s) + b && AllSpace(a) && AllSpace(b) && Tight(Trim(s))
  {
    a := TrimLeftMeaning(s);
    b := TrimRightMeaning(TrimLeft(s));
    assert TrimLeft(s) == Trim(s) + b;
    assert Trim(s) != "" ==> Trim(s)[0] == TrimLeft(s)[0];
  }

  lemma {:induction false} TrimLeftOf(a: string, w: string)
    requires AllSpace(a) && (w != "" ==> !IsSpace(w[0]))
    ensures TrimLeft(a + w) == w
  {
    if a == "" {
      assert a + w == w;
    } else {
      assert (a + w)[1..] == a[1..] + w;
      TrimLeftOf(a[1..], w);
    }
  }

  lemma {:induction false} TrimRightOf(w: string, b: string)
    requires AllSpace(b) && (w != "" ==> !IsSpace(w[|w| - 1]))
    ensures TrimRight(w + b) == w
  {
    if b == "" {
      assert w + b == w;
    } else {
      assert (w + b)[..|w + b| - 1] == w + b[..|b| - 1];
      TrimRightOf(w, b[..|b| - 1]);
    }
  }

  /** `w` is the verb's name, each letter in either ASCII case. */
  ghost predicate Spells(w: string, v: Verb) {
    var name := if v == Read then "read" else "write";
    |w| == |name| && forall i :: 0 <= i < |w| ==> w[i] == name[i] || w[i] as int == name[i] as int - 32
  }

  lemma SpellsLower(w: string, v: Verb)
    ensures Spells(w, v) <==> LowerCase(w) == if v == Read then "read" else "write"
  {
    var name := if v == Read then "read" else "write";
    if Spells(w, v) {
      forall i | 0 <= i < |w| ensures LowerCase(w)[i] == name[i] {
        assert w[i] == name[i] || w[i] as int == name[i] as int - 32;
      }
    } else if LowerCase(w) == name {
      forall i | 0 <= i < |w| ensures w[i] == name[i] || w[i] as int == name[i] as int - 32 {
        assert LowerCase(w)[i] == name[i];
      }
    }
  }

  /** A token names a verb exactly when it is that verb's name in any ASCII case, with any
      space around it. */
  lemma VerbMeaning(token: string, v: Verb)
    ensures ParseVerb(token) == Some(v) <==>
            exists a, w, b :: token == a + w + b && AllSpace(a) && AllSpace(b) && Spells(w, v)
  {
    if ParseVerb(token) == Some(v) {
      var a, b := TrimMeaning(token);
      SpellsLower(Trim(token), v);
      assert token == a + Trim(token) + b && Spells(Trim(token), v);
    }
    forall a, w, b | token == a + w + b && AllSpace(a) && AllSpace(b) && Spells(w, v)
      ensures ParseVerb(token) == Some(v)
    {
      SpellsLower(w, v);
      SpelledIsTight(w, v);
      assert token == a + (w + b) && (w + b)[0] == w[0];
      TrimLeftOf(a, w + b);
      TrimRightOf(w, b);
    }
  }

  lemma SpelledIsTight(w: string, v: Verb)
    requires Spells(w, v)
    ensures w != "" && !IsSpace(w[0]) && !IsSpace(w[|w| - 1])
  {
  }

  // ── Patterns ───────────────────────────────────────────────────────────────

  function Slash(p: string): (n: nat)
    ensures n <= |p|
    ensures forall i :: 0 <= i < n ==> p[i] != '/'
    ensures n < |p| ==> p[n] == '/'
  {
    if p == "" || p[0] == '/' then 0 else 1 + Slash(p[1..])
  }

  predicate SegmentMatches(pat: string, value: string) {
    pat == "*" || pat == value
  }

  predicate PatternMatches(p: string, namespace: string, name: string) {
    var n := Slash(p);
    n < |p| && SegmentMatches(p[..n], namespace) && SegmentMatches(p[n + 1..], name)
  }

  /** A pattern matches exactly when it reads as a namespace segment, a slash and a name
      segment, the first without a slash, each a star or the value itself. */
  lemma PatternMeaning(p: string, namespace: string, name: string)
    ensures PatternMatches(p, namespace, name) <==>
            exists a, b :: SplitsAs(p, a, b) && (a == "*" || a == namespace) && (b == "*" || b == name)
  {
    if PatternMatches(p, namespace, name) {
      var n := Slash(p);
      assert SplitsAs(p, p[..n], p[n + 1..]);
    }
    forall a, b | SplitsAs(p, a, b) ensures Slash(p) == |a| && p[..|a|] == a && p[|a| + 1..] == b {
      assert p[|a|] == '/' && forall i :: 0 <= i < |a| ==> p[i] == a[i];
    }
  }

  ghost predicate SplitsAs(p: string, a: string, b: string) {
    p == a + "/" + b && '/' !in a
  }

  // ── The raw policy ─────────────────────────────────────────────────────────

  ghost predicate RawRuleGrants(r: RuleSpec, verb: Verb, namespace: string, name: string) {
    && (exists token :: token in r.verbs && ParseVerb(token) == Some(verb))
    && (exists p :: p in r.patterns && PatternMatches(p, namespace, name))
  }

  ghost predicate RawGrants(spec: AclSpec, verb: Verb, namespace: string, name: string) {
    exists r :: r in spec.rules && RawRuleGrants(r, verb, namespace, name)
  }

  // ── Lowering ───────────────────────────────────────────────────────────────

  function KnownVerbs(tokens: seq<string>): (verbs: seq<Verb>) {
    if tokens == [] then []
    else
      match ParseVerb(tokens[0])
      case Some(v) => [v] + KnownVerbs(tokens[1..])
      case None => KnownVerbs(tokens[1..])
  }

  function WithSlash(patterns: seq<string>): (r: seq<string>) {
    if patterns == [] then []
    else if '/' in patterns[0] then [patterns[0]] + WithSlash(patterns[1..])
    else WithSlash(patterns[1..])
  }

  function Lower(r: RuleSpec): (rule: Option<Rule>) {
    var verbs, patterns := KnownVerbs(r.verbs), WithSlash(r.patterns);
    if verbs == [] || patterns == [] then None else Some(Rule(verbs, patterns))
  }

  function LowerAll(rs: seq<RuleSpec>): (rules: seq<Rule>) {
    if rs == [] then []
    else
      match Lower(rs[0])
      case Some(rule) => [rule] + LowerAll(rs[1..])
      case None => LowerAll(rs[1..])
  }

  /** An object with a blank identity is ignored. */
  function ParseAcl(spec: AclSpec): (entry: Option<AclEntry>) {
    var identity := Trim(spec.identity);
    if identity == "" then None else Some(AclEntry(identity, LowerAll(spec.rules)))
  }

  predicate RuleGrants(rule: Rule, verb: Verb, namespace: string, name: string) {
    verb in rule.verbs && exists i :: 0 <= i < |rule.patterns| && PatternMatches(rule.patterns[i], namespace, name)
  }

  predicate AnyGrants(rules: seq<Rule>, verb: Verb, namespace: string, name: string) {
    exists i :: 0 <= i < |rules| && RuleGrants(rules[i], verb, namespace, name)
  }

  predicate Grants(table: Table, identity: string, verb: Verb, namespace: string, name: string) {
    identity in table && AnyGrants(table[identity], verb, namespace, name)
  }

  lemma {:induction false} KnownVerbsMeaning(tokens: seq<string>, verb: Verb)
    ensures verb in KnownVerbs(tokens) <==> exists token :: token in tokens && ParseVerb(token) == Some(verb)
  {
    if tokens != [] {
      KnownVerbsMeaning(tokens[1..], verb);
      assert tokens == [tokens[0]] + tokens[1..];
    }
  }

  lemma {:induction false} WithSlashMeaning(patterns: seq<string>, p: string)
    ensures p in WithSlash(patterns) <==> p in patterns && '/' in p
  {
    if patterns != [] {
      WithSlashMeaning(patterns[1..], p);
      assert patterns == [patterns[0]] + patterns[1..];
    }
  }

  /** Lowering one rule, or dropping it, keeps what it grants. */
  lemma LowerKeepsMeaning(r: RuleSpec, verb: Verb, namespace: string, name: string)
    ensures RawRuleGrants(r, verb, namespace, name) <==>
            Lower(r).Some? && RuleGrants(Lower(r).value, verb, namespace, name)
  {
    var verbs, patterns := KnownVerbs(r.verbs), WithSlash(r.patterns);
    KnownVerbsMeaning(r.verbs, verb);
    if RawRuleGrants(r, verb, namespace, name) {
      var p :| p in r.patterns && PatternMatches(p, namespace, name);
      assert p[Slash(p)] == '/';
      WithSlashMeaning(r.patterns, p);
      var i :| 0 <= i < |patterns| && patterns[i] == p;
      assert PatternMatches(patterns[i], namespace, name);
    }
    if Lower(r).Some? && RuleGrants(Lower(r).value, verb, namespace, name) {
      var i :| 0 <= i < |patterns| && PatternMatches(patterns[i], namespace, name);
      WithSlashMeaning(r.patterns, patterns[i]);
    }
  }

  lemma {:induction false} LowerAllKeepsMeaning(rs: seq<RuleSpec>, verb: Verb, namespace: string, name: string)
    ensures AnyGrants(LowerAll(rs), verb, namespace, name) <==>
            exists r :: r in rs && RawRuleGrants(r, verb, namespace, name)
  {
    if rs != [] {
      LowerAllKeepsMeaning(rs[1..], verb, namespace, name);
      LowerKeepsMeaning(rs[0], verb, namespace, name);
      assert rs == [rs[0]] + rs[1..];
      match Lower(rs[0]) {
        case Some(rule) =>
          ConcatGrants([rule], LowerAll(rs[1..]), verb, namespace, name);
          assert RuleGrants([rule][0], verb, namespace, name) <==> AnyGrants([rule], verb, namespace, name);
        case None =>
      }
    }
  }

  lemma ConcatGrants(a: seq<Rule>, b: seq<Rule>, verb: Verb, namespace: string, name: string)
    ensures AnyGrants(a + b, verb, namespace, name) <==>
            AnyGrants(a, verb, namespace, name) || AnyGrants(b, verb, namespace, name)
  {
    if i :| 0 <= i < |a| && RuleGrants(a[i], verb, namespace, name) {
      assert (a + b)[i] == a[i];
    }
    if i :| 0 <= i < |b| && RuleGrants(b[i], verb, namespace, name) {
      assert (a + b)[|a| + i] == b[i];
    }
  }

  // ── Publishing ─────────────────────────────────────────────────────────────

  /** Some mirrored object of the identity grants the call. */
  ghost predicate ObjectGrants(objects: map<string, AclEntry>, identity: string,
                               verb: Verb, namespace: string, name: string)
  {
    exists k :: k in objects && objects[k].identity == identity && AnyGrants(objects[k].rules, verb, namespace, name)
  }

  /** The table grants what the mirrored objects grant.  Tables built in different orders
      differ in the order of their rules, but in no decision. */
  ghost predicate Publishes(objects: map<string, AclEntry>, table: Table) {
    forall id, verb, namespace, name ::
      Grants(table, id, verb, namespace, name) <==> ObjectGrants(objects, id, verb, namespace, name)
  }

  lemma PublishOneMore(seen: map<string, AclEntry>, key: string, entry: AclEntry, table: Table, next: Table)
    requires key !in seen && Publishes(seen, table)
    requires next == table[entry.identity :=
      (if entry.identity in table then table[entry.identity] else []) + entry.rules]
    ensures Publishes(seen[key := entry], next)
  {
    forall id, verb, namespace, name
      ensures Grants(next, id, verb, namespace, name) <==> ObjectGrants(seen[key := entry], id, verb, namespace, name)
    {
      OneMoreGrants(seen, key, entry, id, verb, namespace, name);
      assert Grants(table, id, verb, namespace, name) <==> ObjectGrants(seen, id, verb, namespace, name);
      var earlier := if entry.identity in table then table[entry.identity] else [];
      ConcatGrants(earlier, entry.rules, verb, namespace, name);
    }
  }

  lemma OneMoreGrants(seen: map<string, AclEntry>, key: string, entry: AclEntry,
                      id: string, verb: Verb, namespace: string, name: string)
    requires key !in seen
    ensures ObjectGrants(seen[key := entry], id, verb, namespace, name) <==>
            ObjectGrants(seen, id, verb, namespace, name) ||
            (entry.identity == id && AnyGrants(entry.rules, verb, namespace, name))
  {
    var seen' := seen[key := entry];
    assert seen'[key] == entry;
    if k :| k in seen && seen[k].identity == id && AnyGrants(seen[k].rules, verb, namespace, name) {
      assert seen'[k] == seen[k];
    }
  }

  // ── The watcher ────────────────────────────────────────────────────────────

  /** An event as the mirror sees it once the object's spec has been parsed. */
  function Parsed(e: Event<AclSpec>): (r: Event<AclEntry>) {
    match e
    case Apply(name, spec) => Event.Apply(name, ParsedSpec(spec))
    case InitApply(name, spec) => Event.InitApply(name, ParsedSpec(spec))
    case Delete(name) => Event.Delete(name)
    case Init => Event.Init
    case InitDone => Event.InitDone
  }

  function ParsedSpec(spec: Option<AclSpec>): (entry: Option<AclEntry>) {
    match spec case Some(s) => ParseAcl(s) case None => None
  }

  function ParsedAll(events: seq<Event<AclSpec>>): (r: seq<Event<AclEntry>>)
    ensures |r| == |events| && forall i :: 0 <= i < |events| ==> r[i] == Parsed(events[i])
  {
    seq(|events|, i requires 0 <= i < |events| => Parsed(events[i]))
  }

  class AclWatcher {
    var objects: map<string, AclEntry>
    var table: Table
    var synced: bool

    constructor ()
      ensures objects == map[] && table == map[] && !synced
    {
      objects, table, synced := map[], map[], false;
    }

    /** Rebuilds the table, taking the objects in any order. */
    method Publish()
      modifies this`table
      ensures Publishes(objects, table)
    {
      var next: Table := map[];
      var rest := objects.Keys;
      ghost var seen: map<string, AclEntry> := map[];
      while rest != {}
        invariant rest <= objects.Keys
        invariant seen == map k | k in objects && k !in rest :: objects[k]
        invariant Publishes(seen, next)
        decreases |rest|
      {
        var k :| k in rest;
        var entry := objects[k];
        var updated := next[entry.identity :=
          (if entry.identity in next then next[entry.identity] else []) + entry.rules];
        PublishOneMore(seen, k, entry, next, updated);
        next := updated;
        rest := rest - {k};
        seen := seen[k := entry];
      }
      assert seen == objects;
      table := next;
    }

    method HandleEvent(e: Event<AclSpec>) returns (changed: bool)
      modifies this`objects, this`synced
      ensures objects == Handle(old(objects), Parsed(e))
      ensures changed == Mutating(e)
      ensures synced == (old(synced) || e.InitDone?)
    {
      changed := e.Apply? || e.InitApply? || e.Delete?;
      if e.InitDone? {
        synced := true;
      } else if e.Delete? {
        objects := objects - {e.name};
      } else if changed {
        var entry := ParsedSpec(e.parsed);
        match entry {
          case Some(x) => objects := objects[e.name := x];
          case None => objects := objects - {e.name};
        }
      }
    }

    /** One connection: a fresh mirror, then every event in turn.  Until an event changes
        the mirror the table of the previous connection stays in force. */
    method Pump(events: seq<Event<AclSpec>>)
      modifies this
      ensures synced == (old(synced) || Completes(events))
      ensures if Changes(events) then Publishes(Live(ParsedAll(events)), table)
              else table == old(table)
    {
      objects := map[];
      for n := 0 to |events|
        invariant objects == Live(ParsedAll(events[..n]))
        invariant synced == (old(synced) || Completes(events[..n]))
        invariant if Changes(events[..n]) then Publishes(objects, table) else table == old(table)
      {
        OneMoreEvent(events, n);
        assert ParsedAll(events[..n + 1])[..n] == ParsedAll(events[..n]);
        var changed := HandleEvent(events[n]);
        if changed { Publish(); }
      }
      assert events[..|events|] == events;
    }

    /** The reconnect loop from the start, up to any point of the last connection. */
    method Run(conns: seq<seq<Event<AclSpec>>>)
      requires table == map[] && !synced
      modifies this
      ensures Publishes(Live(ParsedAll(InForce(conns))), table) && synced == SyncedBy(conns)
    {
      for n := 0 to |conns|
        invariant Publishes(Live(ParsedAll(InForce(conns[..n]))), table) && synced == SyncedBy(conns[..n])
      {
        assert conns[..n + 1][..n] == conns[..n];
        Pump(conns[n]);
      }
      assert conns[..|conns|] == conns;
    }
  }

  // ── Compilation preserves the policy ───────────────────────────────────────

  /** The raw policy of an event history: some object's latest version, still live, names
      the identity and has a raw rule granting the call. */
  ghost predicate PolicyGrants(events: seq<Event<AclSpec>>, id: string, verb: Verb, namespace: string, name: string) {
    exists k, spec :: Latest(events, k, spec) && Trim(spec.identity) == id && RawGrants(spec, verb, namespace, name)
  }

  /** A parsed object is live exactly when its raw version is and parses. */
  lemma LatestParsed(events: seq<Event<AclSpec>>, k: string, entry: AclEntry)
    ensures Latest(ParsedAll(events), k, entry) <==>
            exists spec :: Latest(events, k, spec) && ParseAcl(spec) == Some(entry)
  {
    var parsed := ParsedAll(events);
    if Latest(parsed, k, entry) {
      var i :| LastWord(parsed, i, k, entry);
      var spec := events[i].parsed.value;
      LastWordParsed(events, i, k, spec, entry);
      assert Latest(events, k, spec);
    }
    if spec :| Latest(events, k, spec) && ParseAcl(spec) == Some(entry) {
      var i :| LastWord(events, i, k, spec);
      LastWordParsed(events, i, k, spec, entry);
    }
  }

  lemma LastWordParsed(events: seq<Event<AclSpec>>, i: nat, k: string, spec: AclSpec, entry: AclEntry)
    requires i < |events| && ParseAcl(spec) == Some(entry)
    requires (events[i].Apply? || events[i].InitApply?) && events[i].parsed == Some(spec)
    ensures LastWord(events, i, k, spec) <==> LastWord(ParsedAll(events), i, k, entry)
  {
    forall j | 0 <= j < |events| ensures SameWord(events[j], ParsedAll(events)[j]) {}
  }

  /** Parsing leaves alone what an event is about. */
  predicate SameWord(e: Event<AclSpec>, p: Event<AclEntry>) {
    (Mutating(e) <==> Mutating(p)) && (Mutating(e) && Mutating(p) ==> e.name == p.name)
  }

  lemma EntryGrants(spec: AclSpec, verb: Verb, namespace: string, name: string)
    ensures AnyGrants(LowerAll(spec.rules), verb, namespace, name) <==> RawGrants(spec, verb, namespace, name)
  {
    LowerAllKeepsMeaning(spec.rules, verb, namespace, name);
  }

  /** After any events of one connection, a table published from them grants a call
      exactly when the raw policy does. */
  lemma CompilationPreservesPolicy(events: seq<Event<AclSpec>>, table: Table,
                                   id: string, verb: Verb, namespace: string, name: string)
    requires Publishes(Live(ParsedAll(events)), table)
    ensures Grants(table, id, verb, namespace, name) <==> id != "" && PolicyGrants(events, id, verb, namespace, name)
  {
    var objects := Live(ParsedAll(events));
    assert Grants(table, id, verb, namespace, name) <==> ObjectGrants(objects, id, verb, namespace, name);
    if ObjectGrants(objects, id, verb, namespace, name) {
      var k :| k in objects && objects[k].identity == id && AnyGrants(objects[k].rules, verb, namespace, name);
      MirrorIsLatest(ParsedAll(events), k, objects[k]);
      LatestParsed(events, k, objects[k]);
      var spec :| Latest(events, k, spec) && ParseAcl(spec) == Some(objects[k]);
      EntryGrants(spec, verb, namespace, name);
      assert Trim(spec.identity) == id && RawGrants(spec, verb, namespace, name);
    }
    if id != "" && PolicyGrants(events, id, verb, namespace, name) {
      var k, spec :| Latest(events, k, spec) && Trim(spec.identity) == id && RawGrants(spec, verb, namespace, name);
      var entry := AclEntry(id, LowerAll(spec.rules));
      LatestParsed(events, k, entry);
      MirrorIsLatest(ParsedAll(events), k, entry);
      EntryGrants(spec, verb, namespace, name);
    }
  }

  // ── The guard ──────────────────────────────────────────────────────────────

  datatype Verdict = Allow | Unavailable | PermissionDenied

  datatype ClientIdentity = ClientIdentity(id: string, anonymous: bool)

  function Check(mode: Mode, table: Table, synced: bool, identity: ClientIdentity,
                 verb: Verb, namespace: string, name: string): (v: Verdict)
  {
    if mode == Disabled then Allow
    else if mode == Enforce && !synced then Unavailable
    else if !identity.anonymous && Grants(table, identity.id, verb, namespace, name) then Allow
    else if mode == Permissive then Allow
    else PermissionDenied
  }

  /** Enforcing, after any run of connections: a call is served exactly when some list has
      completed and the raw policy behind the table in force grants it to a caller who is
      not anonymous; a call is never served unsynced. */
  lemma EnforceFollowsPolicy(conns: seq<seq<Event<AclSpec>>>, table: Table, who: ClientIdentity,
                             verb: Verb, namespace: string, name: string)
    requires Publishes(Live(ParsedAll(InForce(conns))), table)
    ensures Check(Enforce, table, SyncedBy(conns), who, verb, namespace, name) == Allow <==>
            && SyncedBy(conns) && !who.anonymous && who.id != ""
            && PolicyGrants(InForce(conns), who.id, verb, namespace, name)
    ensures Check(Enforce, table, SyncedBy(conns), who, verb, namespace, name) == Unavailable <==> !SyncedBy(conns)
  {
    CompilationPreservesPolicy(InForce(conns), table, who.id, verb, namespace, name);
  }

  /** Every mode: off, everything passes; permissive denies nothing; enforcing fails safe
      until synced, and then lets a call pass exactly if some rule of the table that names
      the caller has the verb and a pattern for the target. */
  lemma CheckMeaning(mode: Mode, table: Table, synced: bool, who: ClientIdentity,
                     verb: Verb, namespace: string, name: string)
    ensures var v := Check(mode, table, synced, who, verb, namespace, name);
            match mode
            case Disabled => v == Allow
            case Permissive => v == Allow
            case Enforce =>
              && (v == Unavailable <==> !synced)
              && (v == Allow <==>
                    && synced && !who.anonymous && who.id in table
                    && exists i :: 0 <= i < |table[who.id]| && verb in table[who.id][i].verbs &&
                         exists j :: 0 <= j < |table[who.id][i].patterns| &&
                           PatternMatches(table[who.id][i].patterns[j], namespace, name))
  {
  }

  /** A call that was served is denied while the next connection has delivered `events`
      exactly if something has arrived and nothing that arrived grants it: the relist
      replaces the whole table at its first object, and the guard keeps deciding. */
  lemma DeniedDuringRelistIff(conns: seq<seq<Event<AclSpec>>>, events: seq<Event<AclSpec>>, before: Table, now: Table,
                              who: ClientIdentity, verb: Verb, namespace: string, name: string)
    requires Publishes(Live(ParsedAll(InForce(conns))), before)
    requires Publishes(Live(ParsedAll(InForce(conns + [events]))), now)
    requires Check(Enforce, before, SyncedBy(conns), who, verb, namespace, name) == Allow
    ensures Check(Enforce, now, SyncedBy(conns + [events]), who, verb, namespace, name) ==
            if Changes(events) && !PolicyGrants(events, who.id, verb, namespace, name) then PermissionDenied else Allow
  {
    assert (conns + [events])[..|conns|] == conns;
    EnforceFollowsPolicy(conns, before, who, verb, namespace, name);
    EnforceFollowsPolicy(conns + [events], now, who, verb, namespace, name);
  }

  /** Two objects listed completely, and a relist that has named only the second so far. */
  function ListedBoth(a: AclSpec, b: AclSpec): (events: seq<Event<AclSpec>>) {
    [Init, InitApply("a", Some(a)), InitApply("b", Some(b)), InitDone]
  }

  function RelistedOne(b: AclSpec): (events: seq<Event<AclSpec>>) {
    [Init, InitApply("b", Some(b))]
  }

  lemma ListedBothInForce(a: AclSpec, b: AclSpec)
    ensures var conns := [ListedBoth(a, b)]; SyncedBy(conns) && InForce(conns) == ListedBoth(a, b)
    ensures var conns := [ListedBoth(a, b), RelistedOne(b)]; SyncedBy(conns) && InForce(conns) == RelistedOne(b)
  {
    var first, again := ListedBoth(a, b), RelistedOne(b);
    assert first[3].InitDone? && Mutating(first[1]) && Mutating(again[1]);
    assert Completes(first) && Changes(first) && Changes(again);
    assert [first, again][..1] == [first];
  }

  /** It does happen: the guard serves a caller granted by the first object, and denies the
      same call once the relist has named the second one. */
  lemma RelistDenialCounterexample(a: AclSpec, b: AclSpec, before: Table, now: Table,
                                   verb: Verb, namespace: string, name: string)
    requires RawGrants(a, verb, namespace, name) && Trim(a.identity) != "" && Trim(b.identity) != Trim(a.identity)
    requires Publishes(Live(ParsedAll(InForce([ListedBoth(a, b)]))), before)
    requires Publishes(Live(ParsedAll(InForce([ListedBoth(a, b), RelistedOne(b)]))), now)
    ensures var who, first, again := ClientIdentity(Trim(a.identity), false), ListedBoth(a, b), RelistedOne(b);
            && Check(Enforce, before, SyncedBy([first]), who, verb, namespace, name) == Allow
            && Check(Enforce, now, SyncedBy([first, again]), who, verb, namespace, name) == PermissionDenied
  {
    var who, first, again := ClientIdentity(Trim(a.identity), false), ListedBoth(a, b), RelistedOne(b);
    ListedBothInForce(a, b);
    EnforceFollowsPolicy([first], before, who, verb, namespace, name);
    EnforceFollowsPolicy([first, again], now, who, verb, namespace, name);
    ListedPolicies(a, b, verb, namespace, name);
  }

  lemma ListedPolicies(a: AclSpec, b: AclSpec, verb: Verb, namespace: string, name: string)
    requires RawGrants(a, verb, namespace, name) && Trim(b.identity) != Trim(a.identity)
    ensures PolicyGrants(ListedBoth(a, b), Trim(a.identity), verb, namespace, name)
    ensures !PolicyGrants(RelistedOne(b), Trim(a.identity), verb, namespace, name)
  {
    assert LastWord(ListedBoth(a, b), 1, "a", a) && Latest(ListedBoth(a, b), "a", a);
    forall k, spec | Latest(RelistedOne(b), k, spec) ensures spec == b {
      var i :| LastWord(RelistedOne(b), i, k, spec);
    }
  }
}
