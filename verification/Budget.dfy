// Monthly token budgets, one call after the other: pre-check through up to two
// caches, delegation, post-record, credits and a clock.
module Budget {
  import opened Common
  import opened SnapshotCache

  datatype Limits = Limits(softWarn: Option<int>, hardCap: Option<int>)

  // The deployment: per-tenant limits, which are fixed, and the wiring.
  datatype Config = Config(budgets: map<string, Limits>, useDb: bool, hasPrecheck: bool, hasCredits: bool,
                           snapTtl: int, maxsize: nat, preTtl: int, gateThreshold: int)

  datatype Credit = Credit(key: Key, tokens: int, at: int)

  // A cached pre-check decision and the instant its load began.
  datatype Held = Held(at: int, snap: Snap, cap: int)

  datatype World = World(rows: map<Key, Snap>, usage: map<Key, nat>, credits: seq<Credit>,
                         lru: seq<Entry>, pre: map<Key, Held>, clock: int)

  // ---- Reads -------------------------------------------------------------------

  function Usage(w: World, k: Key): nat { if k in w.usage then w.usage[k] else 0 }

  function CreditSum(credits: seq<Credit>, k: Key): int {
    if credits == [] then 0
    else
      var last := credits[|credits| - 1];
      CreditSum(credits[..|credits| - 1], k) + if last.key == k then last.tokens else 0
  }

  // base + credits; an unlimited tenant counts as base 0.
  function Cap(cfg: Config, w: World, k: Key): int {
    (if k.0 in cfg.budgets && cfg.budgets[k.0].hardCap.Some? then cfg.budgets[k.0].hardCap.value else 0)
    + if cfg.hasCredits then CreditSum(w.credits, k) else 0
  }

  // The usage total becomes the row; a warning already fired stays recorded.
  function Refreshed(w: World, k: Key): World {
    w.(rows := w.rows[k := Snap(Usage(w, k), if k in w.rows then w.rows[k].warnedAt else None)])
  }

  function Loaded(w: World, k: Key): (w': World)
    ensures k in w'.rows
  {
    if k in w.rows then w else Refreshed(w, k)
  }

  function LoadedCached(cfg: Config, w: World, k: Key): (World, Snap) {
    var (lru, hit) := Lookup(w.lru, k, w.clock);
    if hit.Some? then (w.(lru := lru), hit.value)
    else
      var w' := Loaded(w.(lru := lru), k);
      (w'.(lru := Insert(lru, k, w'.rows[k], w.clock, cfg.snapTtl, cfg.maxsize)), w'.rows[k])
  }

  function LoadDecision(cfg: Config, w: World, k: Key): (World, Snap, int) {
    var (w', snap) := if cfg.useDb then (Loaded(w, k), Loaded(w, k).rows[k]) else LoadedCached(cfg, w, k);
    (w', snap, Cap(cfg, w', k))
  }

  function Decide(cfg: Config, w: World, k: Key): (World, Snap, int) {
    if !cfg.hasPrecheck then LoadDecision(cfg, w, k)
    else if k in w.pre && w.clock - w.pre[k].at < cfg.preTtl then (w, w.pre[k].snap, w.pre[k].cap)
    else
      var (w', snap, cap) := LoadDecision(cfg, w.(pre := w.pre - {k}), k);
      (w'.(pre := w'.pre[k := Held(w.clock, snap, cap)]), snap, cap)
  }

  datatype Verdict = Admitted | Rejected(used: nat, cap: int)

  function PreCheck(cfg: Config, w: World, k: Key): (World, Verdict)
    requires k.0 in cfg.budgets
  {
    if cfg.budgets[k.0].hardCap.None? then (w, Admitted)
    else
      var (w', snap, cap) := Decide(cfg, w, k);
      (w', if snap.tokensUsed >= cap then Rejected(snap.tokensUsed, cap) else Admitted)
  }

  // ---- Writes ------------------------------------------------------------------

  function FiresWarning(limits: Limits, snap: Snap, tokens: nat): bool {
    limits.softWarn.Some? && snap.warnedAt.None?
    && snap.tokensUsed < limits.softWarn.value <= snap.tokensUsed + tokens
  }

  // Both caches drop the key.
  function Invalidated(w: World, k: Key): World {
    w.(lru := Without(w.lru, k), pre := w.pre - {k})
  }

  // A write that fails is rolled back before any cache is invalidated.
  function PostRecord(cfg: Config, w: World, k: Key, tokens: nat, saved: bool): World
    requires k.0 in cfg.budgets
  {
    var w' := Loaded(w, k);
    var snap := w'.rows[k];
    var warnedAt := if FiresWarning(cfg.budgets[k.0], snap, tokens) then Some(w.clock) else snap.warnedAt;
    if saved then Invalidated(w'.(rows := w'.rows[k := Snap(snap.tokensUsed + tokens, warnedAt)]), k) else w'
  }

  // ---- Events ------------------------------------------------------------------

  // A provider response's tokens, and whether recording them succeeds.
  datatype Item = Item(tokens: nat, saved: bool)

  datatype Reply = Answer(item: Item) | TooManyRequests | ProviderError

  datatype Event =
    | Plain(key: Key, reply: Reply, latency: nat)
    | Stream(key: Key, items: seq<Item>, latency: nat, breaks: bool)
    | Grant(key: Key, granted: int, hasNote: bool)
    | Tick(n: nat)
    | Record(key: Key, tokens: nat)

  datatype Outcome =
    | Done | OverBudget(used: nat, cap: int) | RateLimited | Gated(remaining: int)
    | Errored | PostFailed | Broken | Invalid

  function Posted(cfg: Config, w: World, k: Key, item: Item): World
    requires k.0 in cfg.budgets
  {
    if item.tokens > 0 then PostRecord(cfg, w, k, item.tokens, item.saved) else w
  }

  function PostedAll(cfg: Config, w: World, k: Key, items: seq<Item>): World
    requires k.0 in cfg.budgets
  {
    if items == [] then w else Posted(cfg, PostedAll(cfg, w, k, items[..|items| - 1]), k, items[|items| - 1])
  }

  // After a 429: a tenant close to its cap gets the budget error instead.
  function Gate(cfg: Config, w: World, k: Key): (World, Outcome) {
    if cfg.gateThreshold == 0 then (w, RateLimited)
    else
      var w' := Loaded(w, k);
      var remaining := Cap(cfg, w', k) - w'.rows[k].tokensUsed;
      (w', if remaining < cfg.gateThreshold then Gated(remaining) else RateLimited)
  }

  function PlainCall(cfg: Config, w: World, k: Key, reply: Reply, latency: nat): (World, Outcome) {
    if k.0 !in cfg.budgets then
      (w.(clock := w.clock + latency),
       if reply.Answer? then Done else if reply.TooManyRequests? then RateLimited else Errored)
    else
      var (checked, verdict) := PreCheck(cfg, w, k);
      if verdict.Rejected? then (checked, OverBudget(verdict.used, verdict.cap))
      else
        var later := checked.(clock := checked.clock + latency);
        match reply
        case Answer(item) =>
          (Posted(cfg, later, k, item), if item.tokens > 0 && !item.saved then PostFailed else Done)
        case TooManyRequests => Gate(cfg, later, k)
        case ProviderError => (later, Errored)
  }

  // A stream may break off with a provider error after any of its responses.
  function StreamCall(cfg: Config, w: World, k: Key, items: seq<Item>, latency: nat, breaks: bool): (World, Outcome) {
    var end := if breaks then Broken else Done;
    if k.0 !in cfg.budgets || cfg.budgets[k.0].hardCap.None? then (w.(clock := w.clock + latency), end)
    else
      var (checked, verdict) := PreCheck(cfg, w, k);
      if verdict.Rejected? then (checked, OverBudget(verdict.used, verdict.cap))
      else (PostedAll(cfg, checked.(clock := checked.clock + latency), k, items), end)
  }

  function Step(cfg: Config, w: World, e: Event): (World, Outcome) {
    match e
    case Plain(k, reply, latency) => PlainCall(cfg, w, k, reply, latency)
    case Stream(k, items, latency, breaks) => StreamCall(cfg, w, k, items, latency, breaks)
    case Grant(k, tokens, hasNote) =>
      if tokens <= 0 || !hasNote then (w, Invalid)
      else (w.(credits := w.credits + [Credit(k, tokens, w.clock)]), Done)
    case Tick(n) => (w.(clock := w.clock + n), Done)
    case Record(k, tokens) => (w.(usage := w.usage[k := Usage(w, k) + tokens]), Done)
  }

  function After(cfg: Config, w: World, es: seq<Event>): World {
    if es == [] then w else Step(cfg, After(cfg, w, es[..|es| - 1]), es[|es| - 1]).0
  }

  // ---- Coherence of the two caches -----------------------------------------------

  // Whatever either cache holds is the stored row; a held cap was the effective
  // cap once, and only a credit granted since can have raised it.
  ghost predicate Coherent(cfg: Config, w: World) {
    && Distinct(w.lru)
    && (forall e <- w.lru :: e.key in w.rows && e.snap == w.rows[e.key])
    && (forall k <- w.pre :: HeldIsCurrent(cfg, w, k))
    && (forall c <- w.credits :: c.tokens > 0 && c.at <= w.clock)
  }

  ghost predicate HeldIsCurrent(cfg: Config, w: World, k: Key)
    requires k in w.pre
  {
    var held := w.pre[k];
    && k in w.rows && held.snap == w.rows[k] && held.at <= w.clock
    && held.cap <= Cap(cfg, w, k)
    && (held.cap < Cap(cfg, w, k) ==> exists c <- w.credits :: c.key == k && c.at >= held.at)
  }

  lemma LoadedKeepsCoherence(cfg: Config, w: World, k: Key)
    requires Coherent(cfg, w)
    ensures Coherent(cfg, Loaded(w, k))
  {
    forall j | j in w.pre ensures HeldIsCurrent(cfg, Loaded(w, k), j) { assert HeldIsCurrent(cfg, w, j); }
  }

  lemma LruReplaced(cfg: Config, w: World, lru: seq<Entry>)
    requires Coherent(cfg, w) && Distinct(lru) && forall e <- lru :: e.key in w.rows && e.snap == w.rows[e.key]
    ensures Coherent(cfg, w.(lru := lru))
  {
    forall j | j in w.pre ensures HeldIsCurrent(cfg, w.(lru := lru), j) { assert HeldIsCurrent(cfg, w, j); }
  }

  lemma LoadCachedKeepsCoherence(cfg: Config, w: World, k: Key)
    requires Coherent(cfg, w)
    ensures var (w', snap) := LoadedCached(cfg, w, k);
      && Coherent(cfg, w') && k in w'.rows && snap == w'.rows[k]
      && w'.pre == w.pre && w'.clock == w.clock && w'.credits == w.credits
      && w'.rows == Loaded(w, k).rows
  {
    hide Lookup, Insert, Without, HeldIsCurrent;
    var (lru, hit) := Lookup(w.lru, k, w.clock);
    GetDistinct(w.lru, k, w.clock);
    if hit.Some? {
      LruReplaced(cfg, w, lru);
    } else {
      LoadedKeepsCoherence(cfg, w, k);
      var loaded := Loaded(w, k);
      PutDistinct(lru, k, loaded.rows[k], w.clock, cfg.snapTtl, cfg.maxsize);
      LruReplaced(cfg, loaded, Insert(lru, k, loaded.rows[k], w.clock, cfg.snapTtl, cfg.maxsize));
    }
  }

  lemma LoadKeepsCoherence(cfg: Config, w: World, k: Key)
    requires Coherent(cfg, w)
    ensures var (w', snap, cap) := LoadDecision(cfg, w, k);
      && Coherent(cfg, w') && k in w'.rows && snap == w'.rows[k] && cap == Cap(cfg, w', k)
      && w'.pre == w.pre && w'.clock == w.clock && w'.credits == w.credits
      && w'.rows == Loaded(w, k).rows
  {
    LoadedKeepsCoherence(cfg, w, k);
    LoadCachedKeepsCoherence(cfg, w, k);
    hide Coherent, LoadedCached;
  }

  lemma DecideKeepsCoherence(cfg: Config, w: World, k: Key)
    requires Coherent(cfg, w)
    ensures var (w', snap, cap) := Decide(cfg, w, k);
      && Coherent(cfg, w') && k in w'.rows && snap == w'.rows[k] && cap <= Cap(cfg, w', k)
      && w'.clock == w.clock && w'.credits == w.credits && w'.rows == Loaded(w, k).rows
      && ((forall c <- w.credits :: c.key == k ==> c.at <= w.clock - cfg.preTtl) ==> cap == Cap(cfg, w', k))
  {
    hide LoadDecision, Distinct, CreditSum;
    if cfg.hasPrecheck && k in w.pre && w.clock - w.pre[k].at < cfg.preTtl {
      assert HeldIsCurrent(cfg, w, k);
    } else {
      var start := if cfg.hasPrecheck then w.(pre := w.pre - {k}) else w;
      assert Coherent(cfg, start) by {
        forall j | j in start.pre ensures HeldIsCurrent(cfg, start, j) { assert HeldIsCurrent(cfg, w, j); }
      }
      LoadKeepsCoherence(cfg, start, k);
      var (w', snap, cap) := LoadDecision(cfg, start, k);
      var w'' := Decide(cfg, w, k).0;
      forall j | j in w''.pre ensures HeldIsCurrent(cfg, w'', j) {
        if j != k || !cfg.hasPrecheck { assert HeldIsCurrent(cfg, w', j); }
      }
    }
  }

  lemma PostKeepsCoherence(cfg: Config, w: World, k: Key, tokens: nat, saved: bool)
    requires Coherent(cfg, w) && k.0 in cfg.budgets
    ensures Coherent(cfg, PostRecord(cfg, w, k, tokens, saved))
  {
    var w' := PostRecord(cfg, w, k, tokens, saved);
    WithoutDistinct(w.lru, k);
    forall j | j in w'.pre ensures HeldIsCurrent(cfg, w', j) {
      assert HeldIsCurrent(cfg, w, j);
    }
  }

  // A post-record that is written drops its key from both caches, and no other; one
  // that fails leaves both as they were.
  lemma PostRecordCaches(cfg: Config, w: World, k: Key, tokens: nat, saved: bool)
    requires Coherent(cfg, w) && k.0 in cfg.budgets
    ensures var w' := PostRecord(cfg, w, k, tokens, saved);
      && (saved ==> !Has(w'.lru, k) && k !in w'.pre)
      && (!saved ==> w'.lru == w.lru && w'.pre == w.pre)
      && (forall e <- w.lru :: e.key != k ==> e in w'.lru)
      && (forall j <- w.pre :: j != k ==> j in w'.pre && w'.pre[j] == w.pre[j])
  {
    WithoutDistinct(w.lru, k);
  }

  lemma {:induction false} PostAllKeepsCoherence(cfg: Config, w: World, k: Key, items: seq<Item>)
    requires Coherent(cfg, w) && k.0 in cfg.budgets
    ensures Coherent(cfg, PostedAll(cfg, w, k, items))
  {
    if items != [] {
      var last := items[|items| - 1];
      PostAllKeepsCoherence(cfg, w, k, items[..|items| - 1]);
      PostKeepsCoherence(cfg, PostedAll(cfg, w, k, items[..|items| - 1]), k, last.tokens, last.saved);
    }
  }

  lemma LaterKeepsCoherence(cfg: Config, w: World, n: nat)
    requires Coherent(cfg, w)
    ensures Coherent(cfg, w.(clock := w.clock + n))
  {
    var w' := w.(clock := w.clock + n);
    forall j | j in w'.pre ensures HeldIsCurrent(cfg, w', j) { assert HeldIsCurrent(cfg, w, j); }
  }

  lemma GrantKeepsCoherence(cfg: Config, w: World, k: Key, tokens: int)
    requires Coherent(cfg, w) && tokens > 0
    ensures Coherent(cfg, w.(credits := w.credits + [Credit(k, tokens, w.clock)]))
  {
    var c := Credit(k, tokens, w.clock);
    var w' := w.(credits := w.credits + [c]);
    assert w'.credits[..|w'.credits| - 1] == w.credits;
    forall j | j in w'.pre ensures HeldIsCurrent(cfg, w', j) {
      assert HeldIsCurrent(cfg, w, j);
      if j == k { assert c in w'.credits; }
      if d :| d in w.credits && d.key == j && d.at >= w.pre[j].at { assert d in w'.credits; }
    }
  }

  lemma PreCheckKeepsCoherence(cfg: Config, w: World, k: Key, latency: nat)
    requires Coherent(cfg, w) && k.0 in cfg.budgets
    ensures var checked := PreCheck(cfg, w, k).0;
      Coherent(cfg, checked) && Coherent(cfg, checked.(clock := checked.clock + latency))
  {
    DecideKeepsCoherence(cfg, w, k);
    LaterKeepsCoherence(cfg, PreCheck(cfg, w, k).0, latency);
  }

  lemma PlainKeepsCoherence(cfg: Config, w: World, k: Key, reply: Reply, latency: nat)
    requires Coherent(cfg, w)
    ensures Coherent(cfg, PlainCall(cfg, w, k, reply, latency).0)
  {
    hide Coherent, PreCheck, PostRecord, Loaded, Cap;
    LaterKeepsCoherence(cfg, w, latency);
    if k.0 in cfg.budgets {
      PreCheckKeepsCoherence(cfg, w, k, latency);
      var checked := PreCheck(cfg, w, k).0;
      var later := checked.(clock := checked.clock + latency);
      LoadedKeepsCoherence(cfg, later, k);
      if reply.Answer? { PostKeepsCoherence(cfg, later, k, reply.item.tokens, reply.item.saved); }
    }
  }

  lemma StreamKeepsCoherence(cfg: Config, w: World, k: Key, items: seq<Item>, latency: nat, breaks: bool)
    requires Coherent(cfg, w)
    ensures Coherent(cfg, StreamCall(cfg, w, k, items, latency, breaks).0)
  {
    hide Coherent, PreCheck, PostedAll;
    LaterKeepsCoherence(cfg, w, latency);
    if k.0 in cfg.budgets {
      PreCheckKeepsCoherence(cfg, w, k, latency);
      var checked := PreCheck(cfg, w, k).0;
      PostAllKeepsCoherence(cfg, checked.(clock := checked.clock + latency), k, items);
    }
  }

  lemma StepKeepsCoherence(cfg: Config, w: World, e: Event)
    requires Coherent(cfg, w)
    ensures Coherent(cfg, Step(cfg, w, e).0)
  {
    match e
    case Plain(k, reply, latency) =>
      hide Coherent, PlainCall;
      PlainKeepsCoherence(cfg, w, k, reply, latency);
    case Stream(k, items, latency, breaks) =>
      hide Coherent, StreamCall;
      StreamKeepsCoherence(cfg, w, k, items, latency, breaks);
    case Grant(k, tokens, hasNote) =>
      if tokens > 0 { GrantKeepsCoherence(cfg, w, k, tokens); }
      hide Coherent;
    case Tick(n) =>
      LaterKeepsCoherence(cfg, w, n);
      hide Coherent;
    case Record(k, tokens) =>
      var w' := Step(cfg, w, e).0;
      forall j | j in w'.pre ensures HeldIsCurrent(cfg, w', j) { assert HeldIsCurrent(cfg, w, j); }
  }

  // The usage endpoint refreshes the row of a key on every read and invalidates
  // neither cache: they stay right exactly when none of them holds the key or the
  // total is what the row already had.
  lemma RefreshIsCoherentIff(cfg: Config, w: World, k: Key)
    requires Coherent(cfg, w)
    ensures Coherent(cfg, Refreshed(w, k))
       <==> (Has(w.lru, k) || k in w.pre ==> Usage(w, k) == w.rows[k].tokensUsed)
  {
    var w' := Refreshed(w, k);
    HasIffIn(w.lru, k);
    if Has(w.lru, k) || k in w.pre ==> Usage(w, k) == w.rows[k].tokensUsed {
      assert forall e <- w.lru :: e.key == k ==> w'.rows[k] == w.rows[k];
      forall j | j in w'.pre ensures HeldIsCurrent(cfg, w', j) { assert HeldIsCurrent(cfg, w, j); }
    } else if k in w.pre {
      assert HeldIsCurrent(cfg, w, k) && !HeldIsCurrent(cfg, w', k);
    }
  }

  // A call is answered and recorded, the next one fills the pre-check cache, and
  // the endpoint finds no usage logged yet: the cache holds 10, the row 0.
  lemma RefreshBreaksCoherence(k: Key)
    ensures var cfg := Config(map[k.0 := Limits(None, Some(100))], true, true, false, 60, 1, 5, 0);
      var es := [Plain(k, Answer(Item(10, true)), 0), Plain(k, TooManyRequests, 0)];
      var w := After(cfg, World(map[], map[], [], [], map[], 0), es);
      && k in w.pre && w.pre[k].snap.tokensUsed == 10
      && Coherent(cfg, w) && !Coherent(cfg, Refreshed(w, k))
  {
    var cfg := Config(map[k.0 := Limits(None, Some(100))], true, true, false, 60, 1, 5, 0);
    var start := World(map[], map[], [], [], map[], 0);
    var first := Plain(k, Answer(Item(10, true)), 0);
    var es := [first, Plain(k, TooManyRequests, 0)];
    assert es[..1] == [first] && [first][..0] == [];
    var w1 := Step(cfg, start, first).0;
    assert After(cfg, start, [first]) == w1;
    assert k in w1.rows && w1.rows[k].tokensUsed == 10 && k !in w1.pre && w1.usage == map[];
    var w2 := Step(cfg, w1, es[1]).0;
    assert k in w2.pre && w2.pre[k].snap.tokensUsed == 10 && w2.usage == map[];
    CachesStayCoherent(cfg, start, es);
    RefreshIsCoherentIff(cfg, w2, k);
  }

  lemma HasIffIn(es: seq<Entry>, k: Key)
    ensures Has(es, k) <==> exists e <- es :: e.key == k
  {
    var i := IndexOf(es, k);
    if i < |es| { assert es[i] in es; }
  }

  // Every run of whole calls, grants, clock ticks and usage records.
  lemma {:induction false} CachesStayCoherent(cfg: Config, w: World, es: seq<Event>)
    requires Coherent(cfg, w)
    ensures Coherent(cfg, After(cfg, w, es))
  {
    hide Step, Coherent;
    if es != [] {
      CachesStayCoherent(cfg, w, es[..|es| - 1]);
      StepKeepsCoherence(cfg, After(cfg, w, es[..|es| - 1]), es[|es| - 1]);
    }
  }

  // Tokens counted against a key: its row, or the usage total a refresh would find.
  function Tokens(w: World, k: Key): nat {
    if k in w.rows then w.rows[k].tokensUsed else Usage(w, k)
  }

  // A cached admission is always one the uncached check would make; and unless
  // a credit was granted within the pre-check TTL, the decisions coincide.
  lemma {:induction false} CachedDecisionIsSound(cfg: Config, w: World, es: seq<Event>, k: Key)
    requires Coherent(cfg, w) && k.0 in cfg.budgets && cfg.budgets[k.0].hardCap.Some?
    ensures var now := After(cfg, w, es);
      var verdict := PreCheck(cfg, now, k).1;
      && (verdict.Admitted? ==> Tokens(now, k) < Cap(cfg, now, k))
      && (verdict.Rejected? ==> verdict.used == Tokens(now, k))
      && ((forall c <- now.credits :: c.key == k ==> c.at <= now.clock - cfg.preTtl)
          ==> (verdict.Admitted? <==> Tokens(now, k) < Cap(cfg, now, k)))
  {
    CachesStayCoherent(cfg, w, es);
    DecideKeepsCoherence(cfg, After(cfg, w, es), k);
  }
}
