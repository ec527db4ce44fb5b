// The budget resolver as it runs: repositories, caches and the clock are
// objects, and every call updates them step by step.
module BudgetResolver {
  import opened Common
  import opened SnapshotCache
  import opened Budget

  class TenantBudgetSnapshotRepository {
    var rows: map<Key, Snap>
    var usage: map<Key, nat>

    constructor ()
      ensures rows == map[] && usage == map[]
    {
      rows, usage := map[], map[];
    }

    method GetForTenantPeriod(k: Key) returns (snap: Option<Snap>)
      ensures snap == if k in rows then Some(rows[k]) else None
    {
      snap := if k in rows then Some(rows[k]) else None;
    }

    // A missing timestamp leaves the stored one alone.
    method SetTokensUsed(k: Key, tokens: nat, warnedAt: Option<int>)
      modifies `rows
      ensures rows.Keys == old(rows).Keys + {k} && forall j <- old(rows) :: j != k ==> rows[j] == old(rows)[j]
      ensures rows[k].tokensUsed == tokens
      ensures warnedAt.Some? ==> rows[k].warnedAt == warnedAt
      ensures warnedAt.None? && k in old(rows) ==> rows[k].warnedAt == old(rows)[k].warnedAt
      ensures warnedAt.None? && k !in old(rows) ==> rows[k].warnedAt == None
    {
      var keep := if warnedAt.None? && k in rows then rows[k].warnedAt else warnedAt;
      rows := rows[k := Snap(tokens, keep)];
    }

    method Refresh(k: Key) returns (snap: Snap)
      modifies `rows
      ensures rows == old(rows)[k := snap]
      ensures snap == Snap(if k in usage then usage[k] else 0, if k in old(rows) then old(rows)[k].warnedAt else None)
    {
      var total := if k in usage then usage[k] else 0;
      snap := Snap(total, if k in rows then rows[k].warnedAt else None);
      rows := rows[k := snap];
    }
  }

  class CreditService {
    var credits: seq<Credit>

    constructor ()
      ensures credits == []
    {
      credits := [];
    }

    method Grant(k: Key, tokens: int, hasNote: bool, now: int) returns (ok: bool)
      modifies this
      ensures ok <==> tokens > 0 && hasNote
      ensures credits == if ok then old(credits) + [Credit(k, tokens, now)] else old(credits)
    {
      ok := tokens > 0 && hasNote;
      if ok { credits := credits + [Credit(k, tokens, now)]; }
    }

    method SumForPeriod(k: Key) returns (total: int)
      ensures total == CreditSum(credits, k)
    {
      total := 0;
      var i := 0;
      while i < |credits|
        invariant 0 <= i <= |credits| && total == CreditSum(credits[..i], k)
      {
        assert credits[..i + 1][..i] == credits[..i];
        if credits[i].key == k { total := total + credits[i].tokens; }
        i := i + 1;
      }
      assert credits[..i] == credits;
    }
  }

  class PrecheckCache {
    const ttl: int
    var store: map<Key, Held>

    constructor (ttl: int)
      ensures this.ttl == ttl && store == map[]
    {
      this.ttl, store := ttl, map[];
    }

    // The first half of get-or-load: serve a fresh entry, drop a stale one.
    method Fetch(k: Key, now: int) returns (held: Option<Held>)
      modifies this
      ensures held.Some? <==> k in old(store) && now - old(store)[k].at < ttl
      ensures held.Some? ==> held.value == old(store)[k] && store == old(store)
      ensures held.None? ==> store == old(store) - {k}
    {
      if k in store {
        if now - store[k].at < ttl { return Some(store[k]); }
        store := store - {k};
      }
      assert store == old(store) - {k};
      return None;
    }

    // The second half: the entry carries the instant the load began.
    method Keep(k: Key, began: int, snap: Snap, cap: int)
      modifies this
      ensures store == old(store)[k := Held(began, snap, cap)]
    {
      store := store[k := Held(began, snap, cap)];
    }

    method Invalidate(k: Key)
      modifies this
      ensures store == old(store) - {k}
    {
      store := store - {k};
    }
  }

  class Clock {
    var now: int

    constructor ()
      ensures now == 0
    {
      now := 0;
    }
  }

  class BudgetResolver {
    const cfg: Config
    const tenant: string
    const repo: TenantBudgetSnapshotRepository
    const snapshotCache: TenantBudgetSnapshotCache
    const precheckCache: PrecheckCache
    const creditService: CreditService
    const clock: Clock

    constructor (cfg: Config, tenant: string, repo: TenantBudgetSnapshotRepository,
                 snapshotCache: TenantBudgetSnapshotCache, precheckCache: PrecheckCache,
                 creditService: CreditService, clock: Clock)
      requires snapshotCache.Valid() && snapshotCache.ttl == cfg.snapTtl && snapshotCache.maxsize == cfg.maxsize
      requires precheckCache.ttl == cfg.preTtl
      ensures Valid() && this.cfg == cfg && this.tenant == tenant && this.repo == repo
      ensures this.snapshotCache == snapshotCache && this.precheckCache == precheckCache
      ensures this.creditService == creditService && this.clock == clock
    {
      this.cfg, this.tenant, this.repo, this.snapshotCache := cfg, tenant, repo, snapshotCache;
      this.precheckCache, this.creditService, this.clock := precheckCache, creditService, clock;
    }

    ghost predicate Valid()
      reads snapshotCache
    {
      && snapshotCache.Valid() && snapshotCache.ttl == cfg.snapTtl && snapshotCache.maxsize == cfg.maxsize
      && precheckCache.ttl == cfg.preTtl
    }

    ghost function State(): World
      reads repo, snapshotCache, precheckCache, creditService, clock
    {
      World(repo.rows, repo.usage, creditService.credits, snapshotCache.entries, precheckCache.store, clock.now)
    }

    method LoadRow(k: Key) returns (snap: Snap)
      requires Valid()
      modifies repo
      ensures Valid() && State() == Loaded(old(State()), k) && snap == State().rows[k]
    {
      var found := repo.GetForTenantPeriod(k);
      if found.Some? { return found.value; }
      snap := repo.Refresh(k);
    }

    method LoadCached(k: Key) returns (snap: Snap)
      requires Valid()
      modifies repo, snapshotCache
      ensures Valid() && (State(), snap) == LoadedCached(cfg, old(State()), k)
    {
      var hit := snapshotCache.Get(k, clock.now);
      if hit.Some? { return hit.value; }
      snap := LoadRow(k);
      snapshotCache.Put(k, snap, clock.now);
    }

    method ComputeEffectiveCap(k: Key) returns (cap: int)
      ensures cap == Cap(cfg, State(), k)
    {
      cap := 0;
      if k.0 in cfg.budgets && cfg.budgets[k.0].hardCap.Some? { cap := cfg.budgets[k.0].hardCap.value; }
      if cfg.hasCredits {
        var credits := creditService.SumForPeriod(k);
        cap := cap + credits;
      }
    }

    method LoadCapDecision(k: Key) returns (snap: Snap, cap: int)
      requires Valid()
      modifies repo, snapshotCache
      ensures Valid() && (State(), snap, cap) == LoadDecision(cfg, old(State()), k)
    {
      if cfg.useDb { snap := LoadRow(k); } else { snap := LoadCached(k); }
      cap := ComputeEffectiveCap(k);
    }

    method CapDecision(k: Key) returns (snap: Snap, cap: int)
      requires Valid()
      modifies repo, snapshotCache, precheckCache
      ensures Valid() && (State(), snap, cap) == Decide(cfg, old(State()), k)
    {
      if !cfg.hasPrecheck {
        snap, cap := LoadCapDecision(k);
      } else {
        var began := clock.now;
        var held := precheckCache.Fetch(k, began);
        if held.Some? { return held.value.snap, held.value.cap; }
        snap, cap := LoadCapDecision(k);
        precheckCache.Keep(k, began, snap, cap);
      }
    }

    method Check(k: Key) returns (verdict: Verdict)
      requires Valid() && k.0 in cfg.budgets
      modifies repo, snapshotCache, precheckCache
      ensures Valid() && (State(), verdict) == PreCheck(cfg, old(State()), k)
    {
      if cfg.budgets[k.0].hardCap.None? { return Admitted; }
      var snap, cap := CapDecision(k);
      return if snap.tokensUsed >= cap then Rejected(snap.tokensUsed, cap) else Admitted;
    }

    method Record(k: Key, tokens: nat, saved: bool)
      requires Valid() && k.0 in cfg.budgets
      modifies repo, snapshotCache, precheckCache
      ensures Valid() && State() == PostRecord(cfg, old(State()), k, tokens, saved)
    {
      var snap := LoadRow(k);
      ghost var loaded := State();
      var newUsed := snap.tokensUsed + tokens;
      var limit := cfg.budgets[k.0].softWarn;
      var warnedAt := snap.warnedAt;
      if limit.Some? && snap.warnedAt.None? && snap.tokensUsed < limit.value <= newUsed {
        warnedAt := Some(clock.now);
      }
      if !saved { return; }
      repo.SetTokensUsed(k, newUsed, warnedAt);
      assert repo.rows == loaded.rows[k := Snap(newUsed, warnedAt)];
      snapshotCache.Invalidate(k);
      precheckCache.Invalidate(k);
    }

    method BudgetGate(k: Key) returns (r: Outcome)
      requires Valid()
      modifies repo
      ensures Valid() && (State(), r) == Gate(cfg, old(State()), k)
    {
      if cfg.gateThreshold == 0 { return RateLimited; }
      var snap := LoadRow(k);
      var cap := ComputeEffectiveCap(k);
      var remaining := cap - snap.tokensUsed;
      return if remaining < cfg.gateThreshold then Gated(remaining) else RateLimited;
    }

    // The reply and the time it takes are the provider's.
    method Ainvoke(period: string, reply: Reply, latency: nat) returns (r: Outcome)
      requires Valid()
      modifies repo, snapshotCache, precheckCache, clock
      ensures Valid() && (State(), r) == PlainCall(cfg, old(State()), (tenant, period), reply, latency)
    {
      var k := (tenant, period);
      if tenant !in cfg.budgets {
        clock.now := clock.now + latency;
        return if reply.Answer? then Done else if reply.TooManyRequests? then RateLimited else Errored;
      }
      var verdict := Check(k);
      if verdict.Rejected? { return OverBudget(verdict.used, verdict.cap); }
      clock.now := clock.now + latency;
      match reply {
        case TooManyRequests =>
          r := BudgetGate(k);
        case ProviderError =>
          r := Errored;
        case Answer(item) =>
          if item.tokens > 0 { Record(k, item.tokens, item.saved); }
          r := if item.tokens > 0 && !item.saved then PostFailed else Done;
      }
    }

    // Every final response of a stream, in turn. A failed post-record is logged
    // and swallowed: the stream goes on.
    method RecordAll(k: Key, items: seq<Item>)
      requires Valid() && k.0 in cfg.budgets
      modifies repo, snapshotCache, precheckCache
      ensures Valid() && State() == PostedAll(cfg, old(State()), k, items)
    {
      hide PostRecord;
      var i := 0;
      while i < |items|
        invariant 0 <= i <= |items| && Valid()
        invariant State() == PostedAll(cfg, old(State()), k, items[..i])
      {
        assert items[..i + 1][..i] == items[..i];
        if items[i].tokens > 0 { Record(k, items[i].tokens, items[i].saved); }
        i := i + 1;
      }
      assert items[..i] == items;
    }

    method AinvokeStream(period: string, items: seq<Item>, latency: nat, breaks: bool) returns (r: Outcome)
      requires Valid()
      modifies repo, snapshotCache, precheckCache, clock
      ensures Valid() && (State(), r) == StreamCall(cfg, old(State()), (tenant, period), items, latency, breaks)
    {
      var k := (tenant, period);
      if tenant !in cfg.budgets || cfg.budgets[tenant].hardCap.None? {
        clock.now := clock.now + latency;
        return if breaks then Broken else Done;
      }
      hide PreCheck, PostedAll;
      var verdict := Check(k);
      if verdict.Rejected? { return OverBudget(verdict.used, verdict.cap); }
      clock.now := clock.now + latency;
      RecordAll(k, items);
      return if breaks then Broken else Done;
    }
  }
}
