/**
 Where the RPC handlers put quotas to use (rust/konfig/grpc/mod.rs): stream admission and
 cache accounting resolve a tenant's limit from the published table and hand it on.
 */
module Server {
  import opened Common
  import QuotaTable
  import Mirror
  import SubscriberCounts
  import TenantCache

  class KonfigServer {
    const mode: Mode
    const counts: SubscriberCounts.Counts
    const ledger: TenantCache.TenantCacheLedger
    const defaultMaxSubscribers: nat
    const defaultCacheBudget: nat
    var table: map<string, QuotaTable.TenantQuota>
    var synced: bool

    constructor (mode: Mode, counts: SubscriberCounts.Counts, ledger: TenantCache.TenantCacheLedger,
                 defaultMaxSubscribers: nat, defaultCacheBudget: nat)
      ensures this.mode == mode && this.counts == counts && this.ledger == ledger
      ensures this.defaultMaxSubscribers == defaultMaxSubscribers && this.defaultCacheBudget == defaultCacheBudget
      ensures table == map[] && !synced
    {
      this.mode, this.counts, this.ledger := mode, counts, ledger;
      this.defaultMaxSubscribers, this.defaultCacheBudget := defaultMaxSubscribers, defaultCacheBudget;
      table, synced := map[], false;
    }

    /** A guard for one more stream of `identity`, or the count and limit that forbid it.
        With quotas off nothing is counted and no guard is needed. */
    method AdmitSubscriber(identity: string) returns (r: Result<Option<string>, (nat, nat)>)
      modifies counts
      ensures mode == Disabled ==> r == Ok(None) && counts.inner == old(counts.inner)
      ensures mode != Disabled ==>
                var limit :=
                  if synced && identity in table then table[identity].maxSubscribers else defaultMaxSubscribers;
                var held := if identity in old(counts.inner) then old(counts.inner)[identity] else 0;
                if mode == Enforce && limit != 0 && held >= limit
                then r == Err((held, limit)) && counts.inner == old(counts.inner)
                else r == Ok(Some(identity)) && counts.inner == old(counts.inner)[identity := held + 1]
    {
      if mode == Disabled { return Ok(None); }
      var limit := QuotaTable.EffectiveSubscriberLimit(table, synced, defaultMaxSubscribers, identity);
      var a := counts.Admit(identity, mode, limit);
      match a {
        case Allowed(_, _, _) => r := Ok(Some(identity));
        case Denied(current, limit) => r := Err((current, limit));
      }
    }

    /** The accountant that rides one RPC; none with quotas off. */
    method CacheAccountantFor(identity: string, kind: string) returns (a: Option<TenantCache.CacheAccountant>)
      ensures a.None? <==> mode == Disabled
      ensures a.Some? ==>
                && a.value.ledger == ledger && a.value.identity == identity
                && a.value.mode == mode && a.value.kind == kind
                && a.value.budget ==
                   if synced && identity in table then table[identity].cacheBudgetBytes else defaultCacheBudget
    {
      if mode == Disabled { return None; }
      var budget := QuotaTable.EffectiveCacheBudget(table, synced, defaultCacheBudget, identity);
      var accountant := new TenantCache.CacheAccountant(ledger, identity, mode, budget, kind);
      a := Some(accountant);
    }
  }

  // ── From declared quotas to what tenants hold ──────────────────────────────

  /** The connections behind the table at some moment, and that table. */
  datatype Policy = Policy(conns: seq<seq<Mirror.Event<QuotaTable.QuotaEntry>>>,
                           table: map<string, QuotaTable.TenantQuota>)

  ghost predicate InEffect(p: Policy) {
    QuotaTable.Publishes(Mirror.Live(Mirror.InForce(p.conns)), p.table) && Mirror.SyncedBy(p.conns)
  }

  /** Some latest object allows the tenant between 1 and `most` streams. */
  ghost predicate DeclaresStreams(p: Policy, id: string, most: nat) {
    exists name, x :: Mirror.Latest(Mirror.InForce(p.conns), name, x) && x.identity == id &&
                      0 < x.quota.maxSubscribers <= most
  }

  ghost predicate DeclaresBytes(p: Policy, id: string, most: nat) {
    exists name, x :: Mirror.Latest(Mirror.InForce(p.conns), name, x) && x.identity == id &&
                      0 < x.quota.cacheBudgetBytes <= most
  }

  /** The step is an enforced admission under the policy of its moment. */
  ghost predicate Governed(step: SubscriberCounts.Step, p: Policy, default_: nat, id: string, most: nat) {
    step.Admit? && step.id == id ==>
      && step.mode == Enforce && InEffect(p) && DeclaresStreams(p, id, most)
      && step.limit == QuotaTable.EffectiveSubscriberLimit(p.table, true, default_, id)
  }

  /** In every interleaving of admissions and releases, under tables that may change at every
      step: a tenant to whom an object always allows at most `most` streams never holds more. */
  lemma StreamsStayWithinDeclared(steps: seq<SubscriberCounts.Step>, policies: seq<Policy>,
                                  default_: nat, id: string, most: nat)
    requires SubscriberCounts.Legal(steps) && |policies| == |steps|
    requires forall i :: 0 <= i < |steps| ==> Governed(steps[i], policies[i], default_, id, most)
    ensures SubscriberCounts.Run(steps).live[id] <= most
  {
    forall i | 0 <= i < |steps| && steps[i].Admit? && steps[i].id == id
      ensures steps[i].mode == Enforce && 0 < steps[i].limit <= most
    {
      assert Governed(steps[i], policies[i], default_, id, most);
      LimitWithinDeclared(policies[i], default_, id, most);
    }
    SubscriberCounts.EnforcedLimitHolds(steps, id, most);
  }

  lemma LimitWithinDeclared(p: Policy, default_: nat, id: string, most: nat)
    requires InEffect(p) && DeclaresStreams(p, id, most)
    ensures 0 < QuotaTable.EffectiveSubscriberLimit(p.table, true, default_, id) <= most
  {
    QuotaTable.SubscriberLimitFollowsObjects(p.conns, p.table, default_, id);
    var name, x :| Mirror.Latest(Mirror.InForce(p.conns), name, x) && x.identity == id &&
                   0 < x.quota.maxSubscribers <= most;
    assert QuotaTable.NamedByLatest(Mirror.InForce(p.conns), id);
  }

  /** After an enforced serve under a policy whose objects allow the tenant at most `most`
      bytes, its view holds no more than that, or the entry just served alone. */
  lemma BytesStayWithinDeclared(v: seq<TenantCache.Entry>, e: TenantCache.Entry, p: Policy,
                                default_: nat, id: string, most: nat)
    requires InEffect(p) && DeclaresBytes(p, id, most)
    ensures var r := TenantCache.Served(v, e, Some(QuotaTable.EffectiveCacheBudget(p.table, true, default_, id)));
            TenantCache.Bytes(r) <= most || r == [e]
  {
    QuotaTable.CacheBudgetFollowsObjects(p.conns, p.table, default_, id);
    var name, x :| Mirror.Latest(Mirror.InForce(p.conns), name, x) && x.identity == id &&
                   0 < x.quota.cacheBudgetBytes <= most;
    assert QuotaTable.NamedByLatest(Mirror.InForce(p.conns), id);
    TenantCache.ServeRespectsBudget(v, e, QuotaTable.EffectiveCacheBudget(p.table, true, default_, id));
  }
}
