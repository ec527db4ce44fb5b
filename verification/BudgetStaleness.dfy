// How old a decision of the pre-check can be, and when it is not old at all.
module BudgetStaleness {
  import opened Common
  import opened SnapshotCache
  import opened BudgetRace

  // The row, and the cap, had these values at some moment of the run at or
  // after an instant.
  ghost predicate RowSince(cfg: Config, s: Sys, run: seq<Label>, at: int, snap: Snap) {
    exists i :: 0 <= i <= |run| && After(cfg, s, run[..i]).clock >= at && After(cfg, s, run[..i]).row == Some(snap)
  }

  ghost predicate CapSince(cfg: Config, s: Sys, run: seq<Label>, at: int, cap: int) {
    exists i :: 0 <= i <= |run| && After(cfg, s, run[..i]).clock >= at && Cap(cfg, After(cfg, s, run[..i])) == cap
  }

  lemma SinceExtends(cfg: Config, s: Sys, run: seq<Label>, n: nat, at: int, snap: Snap, cap: int)
    requires n <= |run|
    ensures RowSince(cfg, s, run[..n], at, snap) ==> RowSince(cfg, s, run, at, snap)
    ensures CapSince(cfg, s, run[..n], at, cap) ==> CapSince(cfg, s, run, at, cap)
  {
    assert forall i | 0 <= i <= n :: run[..n][..i] == run[..i];
  }

  // Everything in flight or cached was read no earlier than it claims.
  ghost predicate Dated(cfg: Config, s: Sys, run: seq<Label>) {
    var now := After(cfg, s, run);
    && (now.pre.Some? ==>
          RowSince(cfg, s, run, now.pre.value.at, now.pre.value.snap)
          && CapSince(cfg, s, run, now.pre.value.at, now.pre.value.cap))
    && forall c <- now.checks ::
      var k := now.checks[c];
      && k.begun <= now.clock && !k.Caching?
      && (k.Summing? || k.Concluding? ==> RowSince(cfg, s, run, k.begun, k.snap))
      && (k.Concluding? ==> CapSince(cfg, s, run, k.begun, k.cap))
  }

  // Where a step's cached values and in-flight checks come from.
  lemma StepSources(cfg: Config, s: Sys, l: Label)
    ensures var s' := Step(cfg, s, l).0;
      && s.clock <= s'.clock
      && (s'.pre.Some? ==> s'.pre == s.pre || exists c <- s.checks ::
            var k := s.checks[c]; k.Concluding? && s'.pre.value == Held(k.begun, k.snap, k.cap))
      && (s'.cached.Some? ==> s'.cached == s.cached || exists c <- s.checks ::
            s.checks[c].Caching? && s'.cached.value.snap == s.checks[c].snap)
      && forall c <- s'.checks :: Source(cfg, s, s', c)
  {
  }

  predicate Source(cfg: Config, s: Sys, s': Sys, c: nat)
    requires c in s'.checks
  {
    var k := s'.checks[c];
    || (c in s.checks && s.checks[c] == k)
    || k == Loading(s.clock)
    || (!cfg.useDb && s.cached.Some? && k == Summing(s.clock, s.cached.value.snap))
    || (c in s.checks && s.checks[c].begun == k.begun
        && (|| k.Refreshing?
            || (k.Summing? && s'.row == Some(k.snap))
            || (!cfg.useDb && k.Caching? && s'.row == Some(k.snap))
            || (k.Summing? && s.checks[c] == Caching(k.begun, k.snap))
            || (k.Concluding? && s.checks[c] == Summing(k.begun, k.snap) && k.cap == Cap(cfg, s'))))
  }

  lemma {:induction false} RunIsDated(cfg: Config, s: Sys, run: seq<Label>)
    requires cfg.useDb && Fresh(s)
    ensures Dated(cfg, s, run)
  {
    hide Step;
    if run != [] {
      var n := |run| - 1;
      var was := After(cfg, s, run[..n]);
      var now := After(cfg, s, run);
      RunIsDated(cfg, s, run[..n]);
      StepSources(cfg, was, run[n]);
      assert now == Step(cfg, was, run[n]).0;
      assert run[..|run|] == run;
      forall at, snap | RowSince(cfg, s, run[..n], at, snap) ensures RowSince(cfg, s, run, at, snap) {
        SinceExtends(cfg, s, run, n, at, snap, 0);
      }
      forall at, cap | CapSince(cfg, s, run[..n], at, cap) ensures CapSince(cfg, s, run, at, cap) {
        SinceExtends(cfg, s, run, n, at, Snap(0, None), cap);
      }
      assert now.row.Some? ==> forall at | at <= now.clock :: RowSince(cfg, s, run, at, now.row.value);
      assert forall at | at <= now.clock :: CapSince(cfg, s, run, at, Cap(cfg, now));
      hide After, RowSince, CapSince, Cap;
    }
  }

  // With reads straight from the database, every pre-check decides on a row and
  // on a cap that were current less than one TTL before it began, even when
  // invalidations land during loads and loads overwrite each other.
  lemma BoundedStaleness(cfg: Config, s: Sys, run: seq<Label>, i: nat)
    requires cfg.useDb && cfg.preTtl > 0 && Fresh(s) && i < |run|
    requires OutAt(cfg, s, run, i).Decided?
    ensures var d := OutAt(cfg, s, run, i);
      && (d.admitted <==> d.snap.tokensUsed < d.cap)
      && RowSince(cfg, s, run[..i], d.begun - cfg.preTtl + 1, d.snap)
      && CapSince(cfg, s, run[..i], d.begun - cfg.preTtl + 1, d.cap)
  {
    RunIsDated(cfg, s, run[..i]);
  }

  // ---- The snapshot cache ---------------------------------------------------------

  // This step stored this entry, for the cache's time to live.
  ghost predicate Filled(cfg: Config, s: Sys, l: Label, e: Cached) {
    && l.FillCache? && l.c in s.checks && s.checks[l.c].Caching?
    && e == Cached(s.clock + cfg.snapTtl, s.checks[l.c].snap)
  }

  lemma StepFills(cfg: Config, s: Sys, l: Label)
    ensures var e := Step(cfg, s, l).0.cached; e.Some? ==> e == s.cached || Filled(cfg, s, l, e.value)
  {
  }

  lemma {:induction false} CachedWasFilled(cfg: Config, s: Sys, run: seq<Label>) returns (i: nat)
    requires s.cached.None? && After(cfg, s, run).cached.Some?
    ensures i < |run| && Filled(cfg, After(cfg, s, run[..i]), run[i], After(cfg, s, run).cached.value)
  {
    hide Step, Filled;
    var n := |run| - 1;
    StepFills(cfg, After(cfg, s, run[..n]), run[n]);
    if After(cfg, s, run).cached == After(cfg, s, run[..n]).cached {
      i := CachedWasFilled(cfg, s, run[..n]);
      assert run[..n][..i] == run[..i];
    } else {
      i := n;
    }
  }

  // And a check that reads its row so leaves it there.
  lemma MissFills(cfg: Config, s: Sys, c: nat)
    requires !cfg.useDb && s.row.Some? && c in s.checks && s.checks[c].Loading?
    ensures var s1 := Step(cfg, s, ReadRow(c)).0; var s2 := Step(cfg, s1, FillCache(c)).0;
      && s2.cached == Some(Cached(s.clock + cfg.snapTtl, s.row.value))
      && c in s2.checks && s2.checks[c] == Summing(s.checks[c].begun, s.row.value)
  {
  }

  predicate StoredBy(s: Sys, l: Label, snap: Snap) {
    l.FillCache? && l.c in s.checks && s.checks[l.c].Caching? && s.checks[l.c].snap == snap
  }

  // Reading through the snapshot cache, a check that misses the pre-check cache takes
  // its row from it exactly when it has an entry that has not expired; that entry was
  // stored less than its time to live ago.
  lemma SnapshotHitIsYoung(cfg: Config, s: Sys, run: seq<Label>, c: nat)
    requires Fresh(s) && c !in After(cfg, s, run).checks
    requires !Step(cfg, After(cfg, s, run), BeginCheck(c)).1.Decided?
    ensures var now := After(cfg, s, run); var k := Step(cfg, now, BeginCheck(c)).0.checks[c];
      && (k.Summing? <==> !cfg.useDb && now.cached.Some? && now.clock < now.cached.value.expiresAt)
      && (k.Summing? ==> exists i :: 0 <= i < |run| && StoredBy(After(cfg, s, run[..i]), run[i], k.snap)
                                     && now.clock - After(cfg, s, run[..i]).clock < cfg.snapTtl)
  {
    var now := After(cfg, s, run);
    var k := Step(cfg, now, BeginCheck(c)).0.checks[c];
    if k.Summing? {
      var i := CachedWasFilled(cfg, s, run);
      assert Filled(cfg, After(cfg, s, run[..i]), run[i], now.cached.value);
      hide Step, After;
    }
  }

  // ---- Current decisions after an invalidation ------------------------------------

  predicate HasRead(k: Check) { k.Caching? || k.Summing? || k.Concluding? }

  // The row had this value at some moment of the run.
  ghost predicate RowSeen(cfg: Config, s: Sys, run: seq<Label>, snap: Snap) {
    exists i :: 0 <= i <= |run| && After(cfg, s, run[..i]).row == Some(snap)
  }

  // ... or the value is too old to be served.
  ghost predicate Seen(cfg: Config, s: Sys, run: seq<Label>, ttl: Option<int>, at: int, snap: Snap) {
    RowSeen(cfg, s, run, snap) || (ttl.Some? && After(cfg, s, run).clock - at >= ttl.value)
  }

  ghost predicate Sourced(cfg: Config, s: Sys, run: seq<Label>, ttl: Option<int>) {
    var now := After(cfg, s, run);
    && (now.pre.Some? ==> Seen(cfg, s, run, ttl, now.pre.value.at, now.pre.value.snap))
    && (now.cached.Some? && !cfg.useDb ==> RowSeen(cfg, s, run, now.cached.value.snap))
    && (forall c <- now.checks :: HasRead(now.checks[c]) ==>
          Seen(cfg, s, run, ttl, now.checks[c].begun, now.checks[c].snap))
    && (ttl.Some? ==> cfg.useDb && forall c <- now.checks :: !now.checks[c].Caching?)
  }

  lemma SeenExtends(cfg: Config, s: Sys, run: seq<Label>, ttl: Option<int>, at: int, snap: Snap)
    requires run != [] && After(cfg, s, run[..|run| - 1]).clock <= After(cfg, s, run).clock
    ensures RowSeen(cfg, s, run[..|run| - 1], snap) ==> RowSeen(cfg, s, run, snap)
    ensures Seen(cfg, s, run[..|run| - 1], ttl, at, snap) ==> Seen(cfg, s, run, ttl, at, snap)
    ensures After(cfg, s, run).row == Some(snap) ==> RowSeen(cfg, s, run, snap)
  {
    var n := |run| - 1;
    assert forall i | 0 <= i <= n :: run[..n][..i] == run[..i];
    assert run[..|run|] == run;
  }

  lemma {:induction false} RunIsSourced(cfg: Config, s: Sys, run: seq<Label>, ttl: Option<int>)
    requires Sourced(cfg, s, [], ttl)
    ensures Sourced(cfg, s, run, ttl)
  {
    if run != [] {
      var n := |run| - 1;
      var was := After(cfg, s, run[..n]);
      hide Step;
      RunIsSourced(cfg, s, run[..n], ttl);
      StepSources(cfg, was, run[n]);
      assert After(cfg, s, run) == Step(cfg, was, run[n]).0;
      forall at, snap
        ensures Seen(cfg, s, run[..n], ttl, at, snap) ==> Seen(cfg, s, run, ttl, at, snap)
      {
        SeenExtends(cfg, s, run, ttl, at, snap);
      }
      forall snap
        ensures RowSeen(cfg, s, run[..n], snap) || After(cfg, s, run).row == Some(snap) ==> RowSeen(cfg, s, run, snap)
      {
        SeenExtends(cfg, s, run, ttl, 0, snap);
      }
      hide After, RowSeen;
    }
  }

  // From now on every decision is about a row stored now or later.
  ghost predicate DecidesOnCurrentRows(cfg: Config, s: Sys) {
    forall run: seq<Label>, i: nat | i < |run| && OutAt(cfg, s, run, i).Decided? ::
      RowSeen(cfg, s, run[..i], OutAt(cfg, s, run, i).snap)
  }

  // From now on every decision the cache serves is.
  ghost predicate ServesCurrentRows(cfg: Config, s: Sys) {
    forall run: seq<Label>, i: nat | i < |run| && run[i].BeginCheck? && OutAt(cfg, s, run, i).Decided? ::
      RowSeen(cfg, s, run[..i], OutAt(cfg, s, run, i).snap)
  }

  lemma DecidedFrom(cfg: Config, s: Sys, l: Label)
    requires Step(cfg, s, l).1.Decided?
    ensures var d := Step(cfg, s, l).1;
      || (l.BeginCheck? && cfg.hasPrecheck && s.pre.Some? && s.clock - s.pre.value.at < cfg.preTtl
          && d.snap == s.pre.value.snap)
      || (l.Conclude? && l.c in s.checks && s.checks[l.c].Concluding? && d.snap == s.checks[l.c].snap)
  {
  }

  // A check that has read its row, run to its end with nothing in between.
  function Finish(c: nat): seq<Label> { [FillCache(c), SumCredits(c), Conclude(c), BeginCheck(c)] }

  // The row, the clock and what check c has read are as they were.
  predicate Holding(s: Sys, t: Sys, c: nat) {
    && t.row == s.row && t.clock == s.clock && c in s.checks && c in t.checks
    && HasRead(s.checks[c]) && HasRead(t.checks[c])
    && t.checks[c].begun == s.checks[c].begun && t.checks[c].snap == s.checks[c].snap
  }

  lemma FinishSteps(cfg: Config, s: Sys, c: nat)
    requires c in s.checks && HasRead(s.checks[c])
    ensures var t := Step(cfg, s, FillCache(c)).0; Holding(s, t, c) && !t.checks[c].Caching?
    ensures var t := Step(cfg, s, SumCredits(c)).0;
      Holding(s, t, c) && (!s.checks[c].Caching? ==> t.checks[c].Concluding?)
    ensures s.checks[c].Concluding? ==>
      var (t, o) := Step(cfg, s, Conclude(c));
      && t.row == s.row && t.clock == s.clock && c !in t.checks
      && o.Decided? && o.snap == s.checks[c].snap
      && (cfg.hasPrecheck ==> t.pre.Some? && t.pre.value.at == s.checks[c].begun && t.pre.value.snap == s.checks[c].snap)
  {
  }

  lemma ServedFrom(cfg: Config, s: Sys, c: nat)
    requires c !in s.checks && cfg.hasPrecheck && s.pre.Some? && s.clock - s.pre.value.at < cfg.preTtl
    ensures Step(cfg, s, BeginCheck(c)).1.Decided? && Step(cfg, s, BeginCheck(c)).1.snap == s.pre.value.snap
  {
  }

  lemma FinishDecides(cfg: Config, s: Sys, c: nat)
    requires c in s.checks && HasRead(s.checks[c])
    ensures OutAt(cfg, s, Finish(c), 2).Decided? && OutAt(cfg, s, Finish(c), 2).snap == s.checks[c].snap
    ensures cfg.hasPrecheck && s.clock - s.checks[c].begun < cfg.preTtl ==>
      OutAt(cfg, s, Finish(c), 3).Decided? && OutAt(cfg, s, Finish(c), 3).snap == s.checks[c].snap
    ensures forall i | 0 <= i <= 3 :: After(cfg, s, Finish(c)[..i]).row == s.row
  {
    var run := Finish(c);
    assert After(cfg, s, run[..0]) == s;
    hide Step, After;
    AfterStep(cfg, s, run, 0);
    AfterStep(cfg, s, run, 1);
    AfterStep(cfg, s, run, 2);
    FinishSteps(cfg, s, c);
    FinishSteps(cfg, After(cfg, s, run[..1]), c);
    FinishSteps(cfg, After(cfg, s, run[..2]), c);
    if cfg.hasPrecheck && s.clock - s.checks[c].begun < cfg.preTtl { ServedFrom(cfg, After(cfg, s, run[..3]), c); }
  }

  ghost predicate InFlightIsCurrent(s: Sys) {
    forall c <- s.checks :: HasRead(s.checks[c]) ==> s.row == Some(s.checks[c].snap)
  }

  // The same of the loads young enough to be served once they are cached.
  ghost predicate YoungIsCurrent(cfg: Config, s: Sys) {
    forall c <- s.checks :: HasRead(s.checks[c]) && s.clock - s.checks[c].begun < cfg.preTtl ==>
      s.row == Some(s.checks[c].snap)
  }

  // With both caches empty, all decisions to come are about the row as it is now
  // or later, exactly when no check in flight has read an older one.
  lemma DecisionsCurrentIff(cfg: Config, s: Sys)
    requires s.pre.None? && s.cached.None?
    ensures DecidesOnCurrentRows(cfg, s) <==> InFlightIsCurrent(s)
  {
    if InFlightIsCurrent(s) {
      forall run: seq<Label>, i: nat | i < |run| && OutAt(cfg, s, run, i).Decided?
        ensures RowSeen(cfg, s, run[..i], OutAt(cfg, s, run, i).snap)
      {
        SourcedAtStart(cfg, s, None);
        RunIsSourced(cfg, s, run[..i], None);
        DecidedFrom(cfg, After(cfg, s, run[..i]), run[i]);
        hide Step, After, RowSeen;
      }
    } else {
      var c :| c in s.checks && HasRead(s.checks[c]) && s.row != Some(s.checks[c].snap);
      FinishDecides(cfg, s, c);
      NotSeen(cfg, s, Finish(c), 2, s.checks[c].snap);
    }
  }

  // And the cache serves only such decisions exactly when no check in flight that
  // is younger than its time to live has read an older row.
  lemma ServedCurrentIff(cfg: Config, s: Sys)
    requires cfg.useDb && s.pre.None? && forall c <- s.checks :: !s.checks[c].Caching?
    ensures ServesCurrentRows(cfg, s) <==> (cfg.hasPrecheck ==> YoungIsCurrent(cfg, s))
  {
    if cfg.hasPrecheck && !YoungIsCurrent(cfg, s) {
      var c :| c in s.checks && HasRead(s.checks[c]) && s.clock - s.checks[c].begun < cfg.preTtl
        && s.row != Some(s.checks[c].snap);
      FinishDecides(cfg, s, c);
      NotSeen(cfg, s, Finish(c), 3, s.checks[c].snap);
    } else {
      forall run: seq<Label>, i: nat | i < |run| && run[i].BeginCheck? && OutAt(cfg, s, run, i).Decided?
        ensures RowSeen(cfg, s, run[..i], OutAt(cfg, s, run, i).snap)
      {
        DecidedFrom(cfg, After(cfg, s, run[..i]), run[i]);
        SourcedAtStart(cfg, s, Some(cfg.preTtl));
        RunIsSourced(cfg, s, run[..i], Some(cfg.preTtl));
        hide Step, After, RowSeen;
      }
    }
  }

  lemma SourcedAtStart(cfg: Config, s: Sys, ttl: Option<int>)
    requires s.pre.None? && (cfg.useDb || s.cached.None?)
    requires forall c <- s.checks :: HasRead(s.checks[c]) && (ttl.Some? ==> s.clock - s.checks[c].begun < ttl.value) ==>
      s.row == Some(s.checks[c].snap)
    requires ttl.Some? ==> cfg.useDb && forall c <- s.checks :: !s.checks[c].Caching?
    ensures Sourced(cfg, s, [], ttl)
  {
    var none: seq<Label> := [];
    assert none[..0] == none && After(cfg, s, none) == s;
  }

  lemma NotSeen(cfg: Config, s: Sys, run: seq<Label>, n: nat, snap: Snap)
    requires n <= |run| && s.row != Some(snap)
    requires forall i | 0 <= i <= n :: After(cfg, s, run[..i]).row == s.row
    ensures !RowSeen(cfg, s, run[..n], snap)
  {
    assert forall i | 0 <= i <= n :: run[..n][..i] == run[..i];
  }

  // So invalidating after a write makes the decisions to come current exactly when
  // no check is in flight that had read an older row; what the pre-check cache
  // serves, exactly when no such check is younger than its time to live.
  lemma {:induction false} InvalidationSufficesIff(cfg: Config, s: Sys, run: seq<Label>, p: nat)
    requires Fresh(s) && p in After(cfg, s, run).posts && After(cfg, s, run).posts[p].Written?
    ensures var now := Step(cfg, After(cfg, s, run), PostInvalidate(p)).0;
      && (DecidesOnCurrentRows(cfg, now) <==> InFlightIsCurrent(now))
      && (cfg.useDb ==> (ServesCurrentRows(cfg, now) <==> (cfg.hasPrecheck ==> YoungIsCurrent(cfg, now))))
  {
    var now := Step(cfg, After(cfg, s, run), PostInvalidate(p)).0;
    DecisionsCurrentIff(cfg, now);
    if cfg.useDb {
      RunIsDated(cfg, s, run);
      ServedCurrentIff(cfg, now);
    }
  }

  // ---- A stale decision after a write --------------------------------------------

  // Check 1 has read the row when response 7 is recorded and the caches are
  // invalidated; it then caches what it read, and check 2 is served that.
  const STALE: seq<Label> :=
    [BeginCheck(1), ReadRow(1), SumCredits(1), Receive(7, 10), PostRead(7), PostWrite(7, true), PostInvalidate(7),
     Conclude(1), BeginCheck(2)]

  const STALE_CONFIG := Config(true, true, 10, None, 60, 5)

  function StaleState(k: nat): Sys {
    var zero := Snap(0, None);
    var check: map<nat, Check> :=
      if k == 0 || k > 7 then map[]
      else map[1 := if k == 1 then Loading(0) else if k == 2 then Summing(0, zero) else Concluding(0, zero, 10)];
    var post: map<nat, Post> :=
      if k < 4 then map[]
      else map[7 := if k == 4 then Answered(10) else if k == 5 then Writing(10, zero, None)
                    else if k == 6 then Written(10) else Returned(10, true)];
    Sys(Some(if k < 6 then zero else Snap(10, None)), 0, 0, 0,
        if k < 8 then None else Some(Held(0, zero, 10)), None, check, post)
  }

  lemma {:induction false} StaleRun(n: nat)
    requires n <= 8
    ensures After(STALE_CONFIG, StaleState(0), STALE[..n]) == StaleState(n)
  {
    if n > 0 {
      StaleRun(n - 1);
      AfterStep(STALE_CONFIG, StaleState(0), STALE, n - 1);
      StaleStep(n - 1);
    }
  }

  lemma StaleStep(k: nat)
    requires k < 8
    ensures Step(STALE_CONFIG, StaleState(k), STALE[k]).0 == StaleState(k + 1)
  {
  }

  // So invalidation does not keep the cache from admitting at the cap after a
  // write: here 10 of 10 tokens are stored, and the next call is admitted.
  lemma StaleAdmissionAfterWrite()
    ensures After(STALE_CONFIG, StaleState(0), STALE[..8]).row == Some(Snap(10, None))
    ensures OutAt(STALE_CONFIG, StaleState(0), STALE, 8) == Decided(true, 0, Snap(0, None), 10)
  {
    StaleRun(8);
  }
}
