// The soft warning under concurrency: how often it fires, and what is kept of it.
module BudgetWarning {
  import opened Common
  import opened SnapshotCache
  import opened BudgetRace

  ghost predicate Warned(s: Sys) { WarnedAt(s.row).Some? }

  predicate SavesWarning(o: Out) { o.Saved? && o.warned }

  lemma StepKeepsWarning(cfg: Config, s: Sys, l: Label)
    ensures Warned(s) ==> Warned(Step(cfg, s, l).0) && !Step(cfg, s, l).1.Fired?
    ensures SavesWarning(Step(cfg, s, l).1) ==> Warned(Step(cfg, s, l).0)
    ensures Warned(Step(cfg, s, l).0) ==> Warned(s) || SavesWarning(Step(cfg, s, l).1)
  {
  }

  // A recorded warning is never cleared, by any write or refresh.
  lemma {:induction false} WarningIsSticky(cfg: Config, s: Sys, run: seq<Label>, i: nat, j: nat)
    requires i <= j <= |run| && Warned(After(cfg, s, run[..i]))
    ensures Warned(After(cfg, s, run[..j]))
  {
    hide Step, Warned;
    if i < j {
      WarningIsSticky(cfg, s, run, i, j - 1);
      AfterStep(cfg, s, run, j - 1);
      StepKeepsWarning(cfg, After(cfg, s, run[..j - 1]), run[j - 1]);
    }
  }

  // Has a warning been saved before the j-th step?
  ghost predicate SavedBefore(cfg: Config, s: Sys, run: seq<Label>, j: nat)
    requires j <= |run|
  {
    exists i :: 0 <= i < j && SavesWarning(OutAt(cfg, s, run, i))
  }

  lemma {:induction false} WarnedIff(cfg: Config, s: Sys, run: seq<Label>, j: nat)
    requires j <= |run|
    ensures Warned(After(cfg, s, run[..j])) <==> Warned(s) || SavedBefore(cfg, s, run, j)
  {
    hide Step, Warned, SavesWarning;
    if j > 0 {
      WarnedIff(cfg, s, run, j - 1);
      AfterStep(cfg, s, run, j - 1);
      assert SavedBefore(cfg, s, run, j) <==>
        SavedBefore(cfg, s, run, j - 1) || SavesWarning(OutAt(cfg, s, run, j - 1));
      StepKeepsWarning(cfg, After(cfg, s, run[..j - 1]), run[j - 1]);
    }
  }

  // A post-record reads a row at this step, and the response it records takes
  // the count it read over the threshold.
  predicate Crosses(cfg: Config, s: Sys, l: Label) {
    && cfg.softWarn.Some? && (l.PostRead? || l.PostRefresh?) && l.p in s.posts
    && (if l.PostRead? then s.posts[l.p].Answered? && s.row.Some? else s.posts[l.p].Unrecorded?)
    && var used := if l.PostRead? then s.row.value.tokensUsed else s.usage;
       used < cfg.softWarn.value <= used + s.posts[l.p].tokens
  }

  lemma StepFiresIff(cfg: Config, s: Sys, l: Label)
    ensures Step(cfg, s, l).1.Fired? <==> Crosses(cfg, s, l) && !Warned(s)
    ensures Step(cfg, s, l).1.Fired? ==> Step(cfg, s, l).1 == Fired(l.p)
  {
  }

  // In every interleaving a warning fires exactly when the threshold is crossed
  // and no warning has been saved so far. So none fires after one is saved,
  // whatever refreshes do to the count; but one whose write failed leaves no trace.
  lemma FiresIff(cfg: Config, s: Sys, run: seq<Label>, j: nat)
    requires j < |run|
    ensures OutAt(cfg, s, run, j).Fired?
       <==> Crosses(cfg, After(cfg, s, run[..j]), run[j]) && !Warned(s) && !SavedBefore(cfg, s, run, j)
  {
    WarnedIff(cfg, s, run, j);
    StepFiresIff(cfg, After(cfg, s, run[..j]), run[j]);
  }

  // Between its read and its write.
  predicate Recording(k: Post) { k.Unrecorded? || k.Writing? }

  ghost predicate Alone(s: Sys) {
    forall p, q | p in s.posts && q in s.posts && p != q :: !Recording(s.posts[p]) || !Recording(s.posts[q])
  }

  // No post-record starts between another one's read and write.
  ghost predicate Serial(cfg: Config, s: Sys, run: seq<Label>) {
    && Alone(s)
    && forall i | 0 <= i < |run| && run[i].PostRead? :: StartsAlone(After(cfg, s, run[..i]), run[i].p)
  }

  ghost predicate StartsAlone(s: Sys, p: nat) {
    p in s.posts && s.posts[p].Answered? ==> forall q <- s.posts :: !Recording(s.posts[q])
  }

  lemma StepStaysAlone(cfg: Config, s: Sys, l: Label)
    requires Alone(s) && (l.PostRead? ==> StartsAlone(s, l.p))
    ensures Alone(Step(cfg, s, l).0)
  {
    var s' := Step(cfg, s, l).0;
    assert forall p | p in s'.posts && Recording(s'.posts[p]) && !(p in s.posts && Recording(s.posts[p])) ::
      l == PostRead(p) && p in s.posts && s.posts[p].Answered?;
  }

  lemma {:induction false} SerialStaysAlone(cfg: Config, s: Sys, run: seq<Label>, n: nat)
    requires Serial(cfg, s, run) && n <= |run|
    ensures Alone(After(cfg, s, run[..n]))
  {
    hide Step, Alone, StartsAlone;
    if n > 0 {
      SerialStaysAlone(cfg, s, run, n - 1);
      AfterStep(cfg, s, run, n - 1);
      StepStaysAlone(cfg, After(cfg, s, run[..n - 1]), run[n - 1]);
    }
  }

  // A response whose warning has fired and whose write is still to come.
  ghost predicate Pending(s: Sys, p: nat) {
    p in s.posts && s.posts[p].Writing? && s.posts[p].warnedAt.Some? && !Warned(s)
  }

  predicate Past(s: Sys, p: nat) {
    p in s.posts && (s.posts[p].Written? || s.posts[p].Returned? || s.posts[p].Logged?)
  }

  lemma FiringIsPending(cfg: Config, s: Sys, l: Label)
    requires Step(cfg, s, l).1.Fired?
    ensures Pending(Step(cfg, s, l).0, Step(cfg, s, l).1.p)
  {
  }

  lemma StepFromPending(cfg: Config, s: Sys, l: Label, p: nat)
    requires Alone(s) && Pending(s, p)
    ensures var (s', o) := Step(cfg, s, l);
      Pending(s', p) || (Past(s', p) && (o == Lost(p) || o == Saved(p, true)))
    ensures Step(cfg, s, l).1 == Lost(p) ==> !Warned(Step(cfg, s, l).0)
  {
  }

  lemma StepStaysPast(cfg: Config, s: Sys, l: Label, p: nat)
    requires Past(s, p)
    ensures Past(Step(cfg, s, l).0, p) && Step(cfg, s, l).1 != Lost(p)
  {
  }

  ghost predicate Ended(cfg: Config, s: Sys, run: seq<Label>, p: nat, i: nat, n: nat)
    requires n <= |run|
  {
    exists k :: i < k < n && (OutAt(cfg, s, run, k) == Lost(p) || OutAt(cfg, s, run, k) == Saved(p, true))
  }

  // From the step its warning fires at, a post-record's write is still to come
  // and no warning is on record, until that write fails or saves it.
  lemma {:induction false} WarningIsTracked(cfg: Config, s: Sys, run: seq<Label>, p: nat, i: nat, n: nat)
    requires Serial(cfg, s, run) && i < n <= |run| && OutAt(cfg, s, run, i) == Fired(p)
    ensures Pending(After(cfg, s, run[..n]), p)
         || (Past(After(cfg, s, run[..n]), p) && Ended(cfg, s, run, p, i, n))
  {
    hide Step, Serial, Alone, After;
    var before := After(cfg, s, run[..n - 1]);
    AfterStep(cfg, s, run, n - 1);
    if n == i + 1 {
      StepFiresIff(cfg, before, run[i]);
      FiringIsPending(cfg, before, run[i]);
    } else {
      WarningIsTracked(cfg, s, run, p, i, n - 1);
      SerialStaysAlone(cfg, s, run, n - 1);
      assert OutAt(cfg, s, run, n - 1) == Step(cfg, before, run[n - 1]).1;
      if Pending(before, p) { StepFromPending(cfg, before, run[n - 1], p); }
      else { StepStaysPast(cfg, before, run[n - 1], p); }
    }
  }

  // With post-records that do not overlap, a warning fires again only after the
  // write of every response it fired for before has failed.
  lemma SecondWarningNeedsLoss(cfg: Config, s: Sys, run: seq<Label>, p: nat, i: nat, j: nat)
    requires Serial(cfg, s, run) && i < j < |run|
    requires OutAt(cfg, s, run, i) == Fired(p) && OutAt(cfg, s, run, j).Fired?
    ensures exists k :: i < k < j && OutAt(cfg, s, run, k) == Lost(p)
  {
    var before := After(cfg, s, run[..j]);
    WarningIsTracked(cfg, s, run, p, i, j);
    SerialStaysAlone(cfg, s, run, j);
    FiresIff(cfg, s, run, j);
    hide Step;
    assert Crosses(cfg, before, run[j]);
    assert run[j].PostRead? ==> StartsAlone(before, run[j].p);
  }

  // So at most one fires as long as no post-record's write fails.
  lemma WarnsOnce(cfg: Config, s: Sys, run: seq<Label>, i: nat, j: nat)
    requires Serial(cfg, s, run) && i < j < |run|
    requires forall k | 0 <= k < |run| :: !OutAt(cfg, s, run, k).Lost?
    requires OutAt(cfg, s, run, i).Fired?
    ensures !OutAt(cfg, s, run, j).Fired?
  {
    if OutAt(cfg, s, run, j).Fired? {
      SecondWarningNeedsLoss(cfg, s, run, OutAt(cfg, s, run, i).p, i, j);
    }
  }

  // And after one whose write failed, the next response fires it again exactly
  // when it crosses the threshold.
  lemma LostWarningFiresAgain(cfg: Config, s: Sys, run: seq<Label>, p: nat, i: nat, k: nat, j: nat)
    requires Serial(cfg, s, run) && i < k < j < |run|
    requires OutAt(cfg, s, run, i) == Fired(p) && OutAt(cfg, s, run, k) == Lost(p)
    requires forall m | k < m < j :: !SavesWarning(OutAt(cfg, s, run, m))
    ensures OutAt(cfg, s, run, j).Fired? <==> Crosses(cfg, After(cfg, s, run[..j]), run[j])
  {
    WarningIsTracked(cfg, s, run, p, i, k);
    SerialStaysAlone(cfg, s, run, k);
    var before := After(cfg, s, run[..k]);
    AfterStep(cfg, s, run, k);
    if Pending(before, p) { StepFromPending(cfg, before, run[k], p); }
    else { StepStaysPast(cfg, before, run[k], p); }
    WarnedIff(cfg, s, run, k + 1);
    FiresIff(cfg, s, run, j);
    hide Step, Warned, Crosses;
  }

  // Two responses, one after the other, and two warnings: the first write fails.
  const TWICE: seq<Label> := [Receive(1, 10), PostRead(1), PostWrite(1, false), LogUsage(1), Receive(2, 10), PostRead(2)]

  const TWICE_CONFIG := Config(true, true, 100, Some(5), 60, 5)

  function TwiceState(k: nat): Sys {
    var zero := Snap(0, None);
    var posts: map<nat, Post> :=
      if k == 0 then map[]
      else
        var first := map[1 := if k == 1 then Answered(10) else if k == 2 then Writing(10, zero, Some(0))
                              else if k == 3 then Returned(10, false) else Logged(10)];
        if k < 5 then first else first[2 := Answered(10)];
    Sys(Some(zero), if k < 4 then 0 else 10, 0, 0, None, None, map[], posts)
  }

  lemma TwiceStep(k: nat)
    requires k < 5
    ensures Step(TWICE_CONFIG, TwiceState(k), TWICE[k]).0 == TwiceState(k + 1)
  {
  }

  lemma {:induction false} TwiceRun(n: nat)
    requires n <= 5
    ensures After(TWICE_CONFIG, TwiceState(0), TWICE[..n]) == TwiceState(n)
  {
    if n > 0 {
      TwiceRun(n - 1);
      AfterStep(TWICE_CONFIG, TwiceState(0), TWICE, n - 1);
      TwiceStep(n - 1);
    }
  }

  // The documentation's at most once per period fails, without any overlap.
  lemma WarnsTwice()
    ensures Fresh(TwiceState(0)) && Serial(TWICE_CONFIG, TwiceState(0), TWICE)
    ensures OutAt(TWICE_CONFIG, TwiceState(0), TWICE, 1) == Fired(1)
    ensures OutAt(TWICE_CONFIG, TwiceState(0), TWICE, 5) == Fired(2)
  {
    hide After;
    TwiceRun(1);
    TwiceRun(5);
  }

  // ---- Counts without overlap ----------------------------------------------------------

  // The tokens of the responses whose count was saved.
  function SavedTotal(cfg: Config, s: Sys, run: seq<Label>): nat {
    if run == [] then 0
    else
      var before := After(cfg, s, run[..|run| - 1]);
      var o := Step(cfg, before, run[|run| - 1]).1;
      SavedTotal(cfg, s, run[..|run| - 1])
      + if o.Saved? && o.p in before.posts then before.posts[o.p].tokens else 0
  }

  // The row is at this count, and whatever is about to be written was read from it.
  ghost predicate CountIs(s: Sys, count: nat) {
    && s.row.Some? && s.row.value.tokensUsed == count
    && (forall p <- s.posts :: !s.posts[p].Unrecorded?
          && (s.posts[p].Writing? ==> s.posts[p].snap.tokensUsed == count))
    && (forall c <- s.checks :: !s.checks[c].Refreshing?)
  }

  lemma StepCounts(cfg: Config, s: Sys, l: Label, count: nat)
    requires Alone(s) && CountIs(s, count) && !l.Refresh?
    requires l.PostRead? ==> StartsAlone(s, l.p)
    ensures var (s', o) := Step(cfg, s, l);
      CountIs(s', count + if o.Saved? && o.p in s.posts then s.posts[o.p].tokens else 0)
  {
  }

  // With post-records that do not overlap, and no refresh of the row, the count is
  // exactly the initial one and the tokens of the responses saved, whatever
  // pre-checks, grants and usage records come in between.
  lemma {:induction false} SerialAccounting(cfg: Config, s: Sys, run: seq<Label>)
    requires Fresh(s) && s.row.Some? && Serial(cfg, s, run) && forall l <- run :: !l.Refresh?
    ensures CountIs(After(cfg, s, run), s.row.value.tokensUsed + SavedTotal(cfg, s, run))
  {
    hide Step, CountIs, Alone, StartsAlone;
    if run == [] {
      FreshCount(s);
    } else {
      var n := |run| - 1;
      var init := run[..n];
      assert forall i | 0 <= i <= n :: init[..i] == run[..i];
      assert Serial(cfg, s, init);
      SerialAccounting(cfg, s, init);
      SerialStaysAlone(cfg, s, run, n);
      StepCounts(cfg, After(cfg, s, init), run[n], s.row.value.tokensUsed + SavedTotal(cfg, s, init));
    }
  }

  lemma FreshCount(s: Sys)
    requires Fresh(s) && s.row.Some?
    ensures CountIs(s, s.row.value.tokensUsed)
  {
  }
}
