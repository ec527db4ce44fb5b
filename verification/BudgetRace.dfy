// Budget enforcement of one (tenant, period) under concurrency: pre-checks and
// post-records interleave at every point where the code waits for the database.
module BudgetRace {
  import opened Common
  import opened SnapshotCache

  datatype Config = Config(useDb: bool, hasPrecheck: bool, hardCap: int, softWarn: Option<int>,
                           snapTtl: int, preTtl: int)

  datatype Held = Held(at: int, snap: Snap, cap: int)

  datatype Cached = Cached(expiresAt: int, snap: Snap)

  // A pre-check in flight, since the instant its load began.
  datatype Check =
    | Loading(begun: int)                          // the caches in use missed
    | Refreshing(begun: int)                       // no row was found
    | Caching(begun: int, snap: Snap)              // row at hand, the snapshot cache to be filled
    | Summing(begun: int, snap: Snap)              // credits to be summed
    | Concluding(begun: int, snap: Snap, cap: int)

  // A provider response and its post-record.
  datatype Post =
    | Answered(tokens: nat)
    | Unrecorded(tokens: nat)                      // no row was found
    | Writing(tokens: nat, snap: Snap, warnedAt: Option<int>)
    | Written(tokens: nat)                         // caches still to be invalidated
    | Returned(tokens: nat, counted: bool)         // the resolver call is over
    | Logged(tokens: nat)                          // its usage row is stored

  datatype Sys = Sys(row: Option<Snap>, usage: nat, credits: nat, clock: int, pre: Option<Held>,
                     cached: Option<Cached>, checks: map<nat, Check>, posts: map<nat, Post>)

  datatype Label =
    | Tick(n: nat)
    | Grant(n: nat)
    | Evict
    | Refresh                                      // the usage endpoint refreshes at any time
    | BeginCheck(c: nat)
    | ReadRow(c: nat)
    | RefreshRow(c: nat)
    | FillCache(c: nat)
    | SumCredits(c: nat)
    | Conclude(c: nat)
    | Receive(p: nat, tokens: nat)
    | PostRead(p: nat)
    | PostRefresh(p: nat)
    | PostWrite(p: nat, ok: bool)
    | PostInvalidate(p: nat)
    | LogUsage(p: nat)

  datatype Out =
    | Quiet
    | Decided(admitted: bool, begun: int, snap: Snap, cap: int)
    | Fired(p: nat)                                // the warning, metric and log line included
    | Saved(p: nat, warned: bool)
    | Lost(p: nat)                                 // the write failed and was rolled back

  function Cap(cfg: Config, s: Sys): int { cfg.hardCap + s.credits }

  function Verdict(begun: int, snap: Snap, cap: int): Out {
    Decided(snap.tokensUsed < cap, begun, snap, cap)
  }

  function WarnedAt(row: Option<Snap>): Option<int> { if row.Some? then row.value.warnedAt else None }

  function Refreshed(s: Sys): Sys { s.(row := Some(Snap(s.usage, WarnedAt(s.row)))) }

  function SetCheck(s: Sys, c: nat, k: Check): Sys { s.(checks := s.checks[c := k]) }

  function SetPost(s: Sys, p: nat, k: Post): Sys { s.(posts := s.posts[p := k]) }

  function Fires(cfg: Config, snap: Snap, tokens: nat): bool {
    cfg.softWarn.Some? && snap.warnedAt.None?
    && snap.tokensUsed < cfg.softWarn.value <= snap.tokensUsed + tokens
  }

  // The row at hand, decide on the warning: it is counted before it is saved.
  function Ready(cfg: Config, s: Sys, p: nat, tokens: nat, snap: Snap): (Sys, Out) {
    if Fires(cfg, snap, tokens) then (SetPost(s, p, Writing(tokens, snap, Some(s.clock))), Fired(p))
    else (SetPost(s, p, Writing(tokens, snap, snap.warnedAt)), Quiet)
  }

  function GotRow(cfg: Config, s: Sys, c: nat, begun: int, snap: Snap): Sys {
    SetCheck(s, c, if cfg.useDb then Summing(begun, snap) else Caching(begun, snap))
  }

  function CheckStep(cfg: Config, s: Sys, l: Label): (Sys, Out) {
    match l
    case BeginCheck(c) =>
      if c in s.checks then (s, Quiet)
      else if cfg.hasPrecheck && s.pre.Some? && s.clock - s.pre.value.at < cfg.preTtl
      then (s, Verdict(s.clock, s.pre.value.snap, s.pre.value.cap))
      else
        var hit := !cfg.useDb && s.cached.Some? && s.clock < s.cached.value.expiresAt;
        var k := if hit then Summing(s.clock, s.cached.value.snap) else Loading(s.clock);
        (SetCheck(s, c, k).(pre := if cfg.hasPrecheck then None else s.pre), Quiet)
    case ReadRow(c) =>
      if c !in s.checks || !s.checks[c].Loading? then (s, Quiet)
      else
        var begun := s.checks[c].begun;
        if s.row.None? then (SetCheck(s, c, Refreshing(begun)), Quiet)
        else (GotRow(cfg, s, c, begun, s.row.value), Quiet)
    case RefreshRow(c) =>
      if c !in s.checks || !s.checks[c].Refreshing? then (s, Quiet)
      else (GotRow(cfg, Refreshed(s), c, s.checks[c].begun, Refreshed(s).row.value), Quiet)
    case FillCache(c) =>
      if c !in s.checks || !s.checks[c].Caching? then (s, Quiet)
      else
        var k := s.checks[c];
        (SetCheck(s, c, Summing(k.begun, k.snap)).(cached := Some(Cached(s.clock + cfg.snapTtl, k.snap))), Quiet)
    case SumCredits(c) =>
      if c !in s.checks || !s.checks[c].Summing? then (s, Quiet)
      else (SetCheck(s, c, Concluding(s.checks[c].begun, s.checks[c].snap, Cap(cfg, s))), Quiet)
    case Conclude(c) =>
      if c !in s.checks || !s.checks[c].Concluding? then (s, Quiet)
      else
        var k := s.checks[c];
        (s.(checks := s.checks - {c}, pre := if cfg.hasPrecheck then Some(Held(k.begun, k.snap, k.cap)) else s.pre),
         Verdict(k.begun, k.snap, k.cap))
    case _ => (s, Quiet)
  }

  function PostStep(cfg: Config, s: Sys, l: Label): (Sys, Out) {
    match l
    case Receive(p, tokens) =>
      if p in s.posts then (s, Quiet) else (SetPost(s, p, Answered(tokens)), Quiet)
    case PostRead(p) =>
      if p !in s.posts || !s.posts[p].Answered? then (s, Quiet)
      else if s.row.None? then (SetPost(s, p, Unrecorded(s.posts[p].tokens)), Quiet)
      else Ready(cfg, s, p, s.posts[p].tokens, s.row.value)
    case PostRefresh(p) =>
      if p !in s.posts || !s.posts[p].Unrecorded? then (s, Quiet)
      else Ready(cfg, Refreshed(s), p, s.posts[p].tokens, Refreshed(s).row.value)
    case PostWrite(p, ok) =>
      if p !in s.posts || !s.posts[p].Writing? then (s, Quiet)
      else
        var k := s.posts[p];
        if !ok then (SetPost(s, p, Returned(k.tokens, false)), Lost(p))
        else
          var warnedAt := if k.warnedAt.Some? then k.warnedAt else WarnedAt(s.row);
          (SetPost(s, p, Written(k.tokens)).(row := Some(Snap(k.snap.tokensUsed + k.tokens, warnedAt))),
           Saved(p, k.warnedAt.Some?))
    case PostInvalidate(p) =>
      if p !in s.posts || !s.posts[p].Written? then (s, Quiet)
      else (SetPost(s, p, Returned(s.posts[p].tokens, true)).(pre := None, cached := None), Quiet)
    case LogUsage(p) =>
      if p !in s.posts || !s.posts[p].Returned? then (s, Quiet)
      else (SetPost(s, p, Logged(s.posts[p].tokens)).(usage := s.usage + s.posts[p].tokens), Quiet)
    case _ => (s, Quiet)
  }

  function Step(cfg: Config, s: Sys, l: Label): (Sys, Out) {
    match l
    case Tick(n) => (s.(clock := s.clock + n), Quiet)
    case Grant(n) => (s.(credits := s.credits + n), Quiet)
    case Evict => (s.(cached := None), Quiet)
    case Refresh => (Refreshed(s), Quiet)
    case _ =>
      if l.BeginCheck? || l.ReadRow? || l.RefreshRow? || l.FillCache? || l.SumCredits? || l.Conclude?
      then CheckStep(cfg, s, l) else PostStep(cfg, s, l)
  }

  function After(cfg: Config, s: Sys, run: seq<Label>): Sys {
    if run == [] then s else Step(cfg, After(cfg, s, run[..|run| - 1]), run[|run| - 1]).0
  }

  function OutAt(cfg: Config, s: Sys, run: seq<Label>, i: nat): Out
    requires i < |run|
  {
    Step(cfg, After(cfg, s, run[..i]), run[i]).1
  }

  lemma AfterStep(cfg: Config, s: Sys, run: seq<Label>, i: nat)
    requires i < |run|
    ensures After(cfg, s, run[..i + 1]) == Step(cfg, After(cfg, s, run[..i]), run[i]).0
  {
    assert run[..i + 1][..i] == run[..i];
  }

  // ---- Totals over responses ------------------------------------------------------

  function Tokens(k: Post): nat { k.tokens }

  // Counted in the row, or in the usage table, or both.
  function Counted(k: Post): nat {
    if k.Written? || k.Logged? || (k.Returned? && k.counted) then k.tokens else 0
  }

  function InUsage(k: Post): nat { if k.Logged? then k.tokens else 0 }

  ghost function Total(posts: map<nat, Post>, weight: Post -> nat): nat {
    if posts == map[] then 0
    else
      var p :| p in posts;
      weight(posts[p]) + Total(posts - {p}, weight)
  }

  lemma {:induction false} TotalRemove(posts: map<nat, Post>, p: nat, weight: Post -> nat)
    requires p in posts
    ensures Total(posts, weight) == weight(posts[p]) + Total(posts - {p}, weight)
    decreases |posts|
  {
    var q :| q in posts && Total(posts, weight) == weight(posts[q]) + Total(posts - {q}, weight);
    if q != p {
      TotalRemove(posts - {q}, p, weight);
      TotalRemove(posts - {p}, q, weight);
      assert posts - {q} - {p} == posts - {p} - {q};
    }
  }

  lemma TotalUpdate(posts: map<nat, Post>, p: nat, k: Post, weight: Post -> nat)
    ensures Total(posts[p := k], weight)
         == Total(posts, weight) - (if p in posts then weight(posts[p]) else 0) + weight(k)
  {
    TotalRemove(posts[p := k], p, weight);
    assert posts[p := k] - {p} == posts - {p};
    if p in posts { TotalRemove(posts, p, weight); }
    else { assert posts - {p} == posts; }
  }

  lemma {:induction false} TotalMonotone(posts: map<nat, Post>, small: Post -> nat, large: Post -> nat)
    requires forall k: Post :: small(k) <= large(k)
    ensures Total(posts, small) <= Total(posts, large)
    decreases |posts|
  {
    if posts != map[] {
      var p :| p in posts;
      TotalRemove(posts, p, small);
      TotalRemove(posts, p, large);
      TotalMonotone(posts - {p}, small, large);
    }
  }

  // ---- Never over-counts -----------------------------------------------------------

  ghost predicate Within(bound: nat, s: Sys) {
    && (s.row.Some? ==> s.row.value.tokensUsed <= bound)
    && (s.pre.Some? ==> s.pre.value.snap.tokensUsed <= bound)
    && (s.cached.Some? ==> s.cached.value.snap.tokensUsed <= bound)
    && (forall c <- s.checks :: s.checks[c].Caching? || s.checks[c].Summing? || s.checks[c].Concluding? ==>
          s.checks[c].snap.tokensUsed <= bound)
    && (forall p <- s.posts :: s.posts[p].Writing? ==> s.posts[p].snap.tokensUsed <= bound)
  }

  // Every count of tokens anywhere in the system is at most the initial usage
  // plus the responses already counted; a response being written is not yet
  // one of them.
  ghost predicate Bounded(base: nat, s: Sys) {
    && Within(base + Total(s.posts, Counted), s)
    && s.usage <= base + Total(s.posts, InUsage)
  }

  // Below a bound, whatever a check in flight has read.
  predicate CheckWithin(bound: nat, k: Check) {
    k.Caching? || k.Summing? || k.Concluding? ==> k.snap.tokensUsed <= bound
  }

  // One check in flight moves, or ends, and stays below the bound.
  lemma OneCheckMoves(bound: nat, s: Sys, s': Sys, c: nat)
    requires Within(bound, s) && s'.posts == s.posts
    requires s'.checks == s.checks - {c} || (c in s'.checks && s'.checks == s.checks[c := s'.checks[c]])
    requires c in s'.checks ==> CheckWithin(bound, s'.checks[c])
    requires s'.row == s.row || (s'.row.Some? && s'.row.value.tokensUsed <= bound)
    requires s'.pre.Some? ==> s'.pre == s.pre || s'.pre.value.snap.tokensUsed <= bound
    requires s'.cached.Some? ==> s'.cached == s.cached || s'.cached.value.snap.tokensUsed <= bound
    ensures Within(bound, s')
  {
  }

  lemma CheckStaysWithin(cfg: Config, bound: nat, s: Sys, l: Label)
    requires Within(bound, s) && s.usage <= bound
    ensures var s' := CheckStep(cfg, s, l).0; Within(bound, s') && s'.posts == s.posts && s'.usage == s.usage
  {
    var s' := CheckStep(cfg, s, l).0;
    if s' != s {
      assert l.c in s.checks ==> CheckWithin(bound, s.checks[l.c]);
      var row, pre, cached := s.row, s.pre, s.cached;
      assert row.Some? ==> row.value.tokensUsed <= bound;
      assert cached.Some? ==> cached.value.snap.tokensUsed <= bound;
      hide Within;
      OneCheckMoves(bound, s, s', l.c);
    }
  }

  // One response moves, and counts rise by no more than the tokens it thereby
  // makes counted.
  ghost predicate MovesOne(bound: nat, s: Sys, s': Sys, p: nat) {
    && p in s'.posts && s'.posts == s.posts[p := s'.posts[p]]
    && var was := if p in s.posts then Counted(s.posts[p]) else 0;
       var logged := if p in s.posts then InUsage(s.posts[p]) else 0;
       && was <= Counted(s'.posts[p]) && Within(bound + Counted(s'.posts[p]) - was, s')
       && s'.usage == s.usage + InUsage(s'.posts[p]) - logged
  }

  predicate Reads(l: Label) { l.Receive? || l.PostRead? || l.PostRefresh? }

  predicate Writes(l: Label) { l.PostWrite? || l.PostInvalidate? || l.LogUsage? }

  lemma ReadStaysWithin(cfg: Config, bound: nat, s: Sys, l: Label)
    requires Within(bound, s) && s.usage <= bound && Reads(l)
    ensures PostStep(cfg, s, l).0 == s || MovesOne(bound, s, PostStep(cfg, s, l).0, l.p)
  {
  }

  lemma WriteStaysWithin(cfg: Config, bound: nat, s: Sys, l: Label)
    requires Within(bound, s) && s.usage <= bound && Writes(l)
    ensures PostStep(cfg, s, l).0 == s || MovesOne(bound, s, PostStep(cfg, s, l).0, l.p)
  {
  }

  lemma PostKeepsBound(cfg: Config, base: nat, s: Sys, l: Label)
    requires Bounded(base, s)
    ensures Bounded(base, PostStep(cfg, s, l).0)
  {
    hide Total;
    TotalMonotone(s.posts, InUsage, Counted);
    var bound := base + Total(s.posts, Counted);
    var s' := PostStep(cfg, s, l).0;
    if Reads(l) { ReadStaysWithin(cfg, bound, s, l); }
    if Writes(l) { WriteStaysWithin(cfg, bound, s, l); }
    assert Reads(l) || Writes(l) || s' == s;
    hide PostStep, Within;
    if s' != s {
      TotalUpdate(s.posts, l.p, s'.posts[l.p], Counted);
      TotalUpdate(s.posts, l.p, s'.posts[l.p], InUsage);
    }
  }

  lemma StepKeepsBound(cfg: Config, base: nat, s: Sys, l: Label)
    requires Bounded(base, s)
    ensures Bounded(base, Step(cfg, s, l).0)
  {
    hide CheckStep, PostStep, Total;
    TotalMonotone(s.posts, InUsage, Counted);
    CheckStaysWithin(cfg, base + Total(s.posts, Counted), s, l);
    PostKeepsBound(cfg, base, s, l);
  }

  lemma {:induction false} RunKeepsBound(cfg: Config, base: nat, s: Sys, run: seq<Label>)
    requires Bounded(base, s)
    ensures Bounded(base, After(cfg, s, run))
  {
    hide Step, Bounded;
    if run != [] {
      RunKeepsBound(cfg, base, s, run[..|run| - 1]);
      StepKeepsBound(cfg, base, After(cfg, s, run[..|run| - 1]), run[|run| - 1]);
    }
  }

  // No call in flight and nothing cached.
  predicate Fresh(s: Sys) {
    s.checks == map[] && s.posts == map[] && s.pre == None && s.cached == None
  }

  function Initial(s: Sys): nat {
    if s.row.Some? then Max(s.row.value.tokensUsed, s.usage) else s.usage
  }

  // In every interleaving of last-writer-wins writes and refreshes, the stored
  // count is at most the initial usage plus the tokens already answered.
  lemma NeverOverCounts(cfg: Config, s: Sys, run: seq<Label>)
    requires Fresh(s)
    ensures var end := After(cfg, s, run);
      end.row.Some? ==> end.row.value.tokensUsed <= Initial(s) + Total(end.posts, Tokens)
  {
    RunKeepsBound(cfg, Initial(s), s, run);
    TotalMonotone(After(cfg, s, run).posts, Counted, Tokens);
  }

  // So a rejected call had its cap really consumed, cached decision or not.
  lemma RejectionIsEarned(cfg: Config, s: Sys, run: seq<Label>, i: nat)
    requires Fresh(s) && i < |run|
    requires OutAt(cfg, s, run, i).Decided? && !OutAt(cfg, s, run, i).admitted
    ensures OutAt(cfg, s, run, i).cap <= Initial(s) + Total(After(cfg, s, run[..i]).posts, Tokens)
  {
    RunKeepsBound(cfg, Initial(s), s, run[..i]);
    TotalMonotone(After(cfg, s, run[..i]).posts, Counted, Tokens);
  }

  // ---- Usage and cap ----------------------------------------------------------------

  lemma StepUsage(cfg: Config, s: Sys, l: Label)
    ensures var s' := Step(cfg, s, l).0;
      || (s'.posts == s.posts && s'.usage == s.usage)
      || ((Reads(l) || Writes(l)) && l.p in s'.posts && s'.posts == s.posts[l.p := s'.posts[l.p]]
          && s'.usage == s.usage + InUsage(s'.posts[l.p]) - if l.p in s.posts then InUsage(s.posts[l.p]) else 0)
  {
  }

  // The usage total is the initial one and the tokens of the responses logged.
  lemma {:induction false} UsageIsExact(cfg: Config, s: Sys, run: seq<Label>)
    requires s.posts == map[]
    ensures After(cfg, s, run).usage == s.usage + Total(After(cfg, s, run).posts, InUsage)
  {
    hide Step;
    if run != [] {
      var before := After(cfg, s, run[..|run| - 1]);
      var l := run[|run| - 1];
      UsageIsExact(cfg, s, run[..|run| - 1]);
      StepUsage(cfg, before, l);
      var after := Step(cfg, before, l).0;
      if after.posts != before.posts { TotalUpdate(before.posts, l.p, after.posts[l.p], InUsage); }
    }
  }

  function Granted(run: seq<Label>): nat {
    if run == [] then 0
    else Granted(run[..|run| - 1]) + if run[|run| - 1].Grant? then run[|run| - 1].n else 0
  }

  // The effective cap is the hard cap, the initial credits and those granted.
  lemma {:induction false} CapIsExact(cfg: Config, s: Sys, run: seq<Label>)
    ensures Cap(cfg, After(cfg, s, run)) == cfg.hardCap + s.credits + Granted(run)
  {
    if run != [] { CapIsExact(cfg, s, run[..|run| - 1]); }
  }
}
