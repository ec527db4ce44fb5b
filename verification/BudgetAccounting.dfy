// Exact accounting and the overshoot bound, over whole runs of calls.
module BudgetAccounting {
  import opened Common
  import opened SnapshotCache
  import opened Budget

  // The tokens of the responses whose post-record was written.
  function ItemTokens(items: seq<Item>): nat {
    if items == [] then 0
    else
      var last := items[|items| - 1];
      ItemTokens(items[..|items| - 1]) + if last.saved then last.tokens else 0
  }

  // What a call should add to a key: the prompt and completion tokens of an
  // answered call that a budget covers, if recording them succeeds. Nothing
  // records a streamed call of a tenant without a hard cap.
  function Billed(cfg: Config, w: World, e: Event, k: Key): nat {
    match e
    case Plain(key, Answer(item), _) =>
      if key == k && k.0 in cfg.budgets && PreCheck(cfg, w, k).1.Admitted? && item.saved then item.tokens else 0
    case Stream(key, items, _, _) =>
      if key == k && k.0 in cfg.budgets && cfg.budgets[k.0].hardCap.Some? && PreCheck(cfg, w, k).1.Admitted?
      then ItemTokens(items) else 0
    case _ => 0
  }

  // Usage logged while a key has no row: the refresh that makes the row finds it.
  function Early(w: World, e: Event, k: Key): nat {
    if e.Record? && e.key == k && k !in w.rows then e.tokens else 0
  }

  function EarlyTotal(cfg: Config, w: World, es: seq<Event>, k: Key): nat {
    if es == [] then 0
    else
      var init := es[..|es| - 1];
      EarlyTotal(cfg, w, init, k) + Early(After(cfg, w, init), es[|es| - 1], k)
  }

  function BilledTotal(cfg: Config, w: World, es: seq<Event>, k: Key): nat {
    if es == [] then 0
    else
      var init := es[..|es| - 1];
      BilledTotal(cfg, w, init, k) + Billed(cfg, After(cfg, w, init), es[|es| - 1], k)
  }

  function Largest(cfg: Config, w: World, es: seq<Event>, k: Key): nat {
    if es == [] then 0
    else
      var init := es[..|es| - 1];
      Max(Largest(cfg, w, init, k), Billed(cfg, After(cfg, w, init), es[|es| - 1], k))
  }

  lemma PreCheckTokens(cfg: Config, w: World, key: Key, k: Key)
    requires key.0 in cfg.budgets
    ensures Tokens(PreCheck(cfg, w, key).0, k) == Tokens(w, k)
    ensures PreCheck(cfg, w, key).0.usage == w.usage
  {
    hide Lookup, Insert, Without, Cap;
  }

  lemma {:induction false} PostedTokens(cfg: Config, w: World, key: Key, items: seq<Item>, k: Key)
    requires key.0 in cfg.budgets
    ensures Tokens(PostedAll(cfg, w, key, items), k) == Tokens(w, k) + if key == k then ItemTokens(items) else 0
  {
    hide Without;
    if items != [] {
      PostedTokens(cfg, w, key, items[..|items| - 1], k);
    }
  }

  lemma PostedOne(cfg: Config, w: World, key: Key, item: Item)
    requires key.0 in cfg.budgets
    ensures PostedAll(cfg, w, key, [item]) == Posted(cfg, w, key, item)
    ensures ItemTokens([item]) == if item.saved then item.tokens else 0
  {
    assert [item][..0] == [];
  }

  lemma StepTokens(cfg: Config, w: World, e: Event, k: Key)
    ensures Tokens(Step(cfg, w, e).0, k) == Tokens(w, k) + Billed(cfg, w, e, k) + Early(w, e, k)
  {
    hide PreCheck, Posted, PostedAll, Cap, ItemTokens;
    match e
    case Plain(key, reply, latency) =>
      if key.0 in cfg.budgets {
        PreCheckTokens(cfg, w, key, k);
        var checked := PreCheck(cfg, w, key).0;
        var later := checked.(clock := checked.clock + latency);
        assert Tokens(later, k) == Tokens(w, k);
        if reply.Answer? {
          PostedOne(cfg, later, key, reply.item);
          PostedTokens(cfg, later, key, [reply.item], k);
        }
      }
    case Stream(key, items, latency, _) =>
      if key.0 in cfg.budgets {
        PreCheckTokens(cfg, w, key, k);
        var checked := PreCheck(cfg, w, key).0;
        var later := checked.(clock := checked.clock + latency);
        assert Tokens(later, k) == Tokens(w, k);
        PostedTokens(cfg, later, key, items, k);
      }
    case Grant(_, _, _) =>
    case Tick(_) =>
    case Record(_, _) =>
  }

  // Over every run the count is where it started plus the tokens of the calls
  // recorded, and the usage logged before the key had a row.
  lemma {:induction false} ExactAccounting(cfg: Config, w: World, es: seq<Event>, k: Key)
    ensures Tokens(After(cfg, w, es), k) == Tokens(w, k) + BilledTotal(cfg, w, es, k) + EarlyTotal(cfg, w, es, k)
  {
    hide Step, Billed, Early;
    if es != [] {
      var init := es[..|es| - 1];
      ExactAccounting(cfg, w, init, k);
      StepTokens(cfg, After(cfg, w, init), es[|es| - 1], k);
    }
  }

  // ---- When a key has a row ------------------------------------------------------

  lemma {:induction false} PostedKeepsRows(cfg: Config, w: World, key: Key, items: seq<Item>, k: Key)
    requires key.0 in cfg.budgets
    ensures k in w.rows ==> k in PostedAll(cfg, w, key, items).rows
    ensures key == k && ItemTokens(items) > 0 ==> k in PostedAll(cfg, w, key, items).rows
  {
    hide Without;
    if items != [] { PostedKeepsRows(cfg, w, key, items[..|items| - 1], k); }
  }

  lemma PreCheckKeepsRows(cfg: Config, w: World, key: Key, k: Key)
    requires key.0 in cfg.budgets
    ensures k in w.rows ==> k in PreCheck(cfg, w, key).0.rows
  {
    hide Lookup, Insert, Without, Cap;
  }

  // Rows stay, and a call that is billed leaves one.
  lemma StepKeepsRows(cfg: Config, w: World, e: Event, k: Key)
    ensures k in w.rows || Billed(cfg, w, e, k) > 0 ==> k in Step(cfg, w, e).0.rows
  {
    hide PreCheck, PostedAll, Posted, Cap, ItemTokens;
    if (e.Plain? || e.Stream?) && e.key.0 in cfg.budgets {
      PreCheckKeepsRows(cfg, w, e.key, k);
      var checked := PreCheck(cfg, w, e.key).0;
      var later := checked.(clock := checked.clock + e.latency);
      if e.Stream? {
        PostedKeepsRows(cfg, later, e.key, e.items, k);
      } else if e.reply.Answer? {
        PostedOne(cfg, later, e.key, e.reply.item);
        PostedKeepsRows(cfg, later, e.key, [e.reply.item], k);
      }
    }
  }

  lemma PreCheckLeavesRow(cfg: Config, w: World, k: Key)
    requires Coherent(cfg, w) && k.0 in cfg.budgets && cfg.budgets[k.0].hardCap.Some?
    ensures k in PreCheck(cfg, w, k).0.rows
  {
    hide Decide, Coherent;
    DecideKeepsCoherence(cfg, w, k);
  }

  // An admitted call of a tenant with a hard cap leaves a row, whatever becomes of
  // it: the pre-check read one.
  lemma AdmittedLeavesRow(cfg: Config, w: World, e: Event, k: Key)
    requires Coherent(cfg, w) && k.0 in cfg.budgets && cfg.budgets[k.0].hardCap.Some?
    requires (e.Plain? || e.Stream?) && e.key == k && PreCheck(cfg, w, k).1.Admitted?
    ensures k in Step(cfg, w, e).0.rows
  {
    hide PreCheck, PostedAll, Posted, Cap, Coherent;
    PreCheckLeavesRow(cfg, w, k);
    var checked := PreCheck(cfg, w, k).0;
    var later := checked.(clock := checked.clock + e.latency);
    if e.Stream? {
      PostedKeepsRows(cfg, later, k, e.items, k);
    } else if e.reply.Answer? {
      PostedOne(cfg, later, k, e.reply.item);
      PostedKeepsRows(cfg, later, k, [e.reply.item], k);
    }
  }

  // Usage is logged after the call that incurred it returned: an admitted call of
  // the key comes before any record of it.
  ghost predicate LoggedAfterCalls(cfg: Config, w: World, es: seq<Event>, k: Key) {
    forall i | 0 <= i < |es| && es[i].Record? && es[i].key == k :: CalledBefore(cfg, w, es, i, k)
  }

  ghost predicate CalledBefore(cfg: Config, w: World, es: seq<Event>, i: nat, k: Key)
    requires i <= |es|
  {
    k in w.rows || exists j :: 0 <= j < i && AdmitsCall(cfg, After(cfg, w, es[..j]), es[j], k)
  }

  predicate AdmitsCall(cfg: Config, w: World, e: Event, k: Key) {
    (e.Plain? || e.Stream?) && e.key == k && k.0 in cfg.budgets && PreCheck(cfg, w, k).1.Admitted?
  }

  lemma AfterStep(cfg: Config, w: World, es: seq<Event>, i: nat)
    requires i < |es|
    ensures After(cfg, w, es[..i + 1]) == Step(cfg, After(cfg, w, es[..i]), es[i]).0
  {
    assert es[..i + 1][..i] == es[..i];
  }

  lemma {:induction false} CalledLeavesRow(cfg: Config, w: World, es: seq<Event>, i: nat, k: Key)
    requires Coherent(cfg, w) && k.0 in cfg.budgets && cfg.budgets[k.0].hardCap.Some?
    requires i <= |es| && CalledBefore(cfg, w, es, i, k)
    ensures k in After(cfg, w, es[..i]).rows
  {
    hide Step, Coherent, PreCheck;
    if i > 0 {
      var before := After(cfg, w, es[..i - 1]);
      AfterStep(cfg, w, es, i - 1);
      if CalledBefore(cfg, w, es, i - 1, k) {
        CalledLeavesRow(cfg, w, es, i - 1, k);
        StepKeepsRows(cfg, before, es[i - 1], k);
      } else {
        CachesStayCoherent(cfg, w, es[..i - 1]);
        AdmittedLeavesRow(cfg, before, es[i - 1], k);
      }
    }
  }

  // So for a tenant with a hard cap no usage is logged before there is a row, and
  // the count is exactly the start and the recorded tokens.
  lemma {:induction false} CappedAccounting(cfg: Config, w: World, es: seq<Event>, k: Key)
    requires Coherent(cfg, w) && k.0 in cfg.budgets && cfg.budgets[k.0].hardCap.Some?
    requires LoggedAfterCalls(cfg, w, es, k)
    ensures EarlyTotal(cfg, w, es, k) == 0
    ensures Tokens(After(cfg, w, es), k) == Tokens(w, k) + BilledTotal(cfg, w, es, k)
  {
    ExactAccounting(cfg, w, es, k);
    hide Step, Coherent, PreCheck, Tokens;
    if es != [] {
      var n := |es| - 1;
      var init := es[..n];
      assert forall i | 0 <= i <= n :: init[..i] == es[..i];
      forall i | 0 <= i < n && init[i].Record? && init[i].key == k ensures CalledBefore(cfg, w, init, i, k) {
        assert CalledBefore(cfg, w, es, i, k);
      }
      CappedAccounting(cfg, w, init, k);
      if es[n].Record? && es[n].key == k { CalledLeavesRow(cfg, w, es, n, k); }
    }
  }

  function LateRun(k: Key, streamed: nat, answered: nat): seq<Event> {
    [Stream(k, [Item(streamed, true)], 0, false), Record(k, streamed), Plain(k, Answer(Item(answered, true)), 0)]
  }

  // Without a hard cap it can be: a stream is answered but not recorded, its usage
  // is logged, and the next plain call's refresh brings it into the count.
  lemma UncappedStreamIsCountedLate(cfg: Config, w: World, k: Key, streamed: nat, answered: nat)
    requires k.0 in cfg.budgets && cfg.budgets[k.0].hardCap.None? && k !in w.rows && answered > 0
    ensures var es := LateRun(k, streamed, answered);
      && k !in After(cfg, w, es[..2]).rows
      && k in After(cfg, w, es).rows
      && After(cfg, w, es).rows[k].tokensUsed == Usage(w, k) + streamed + answered
  {
    var es := LateRun(k, streamed, answered);
    hide Without;
    assert es[..0] == [] && es[..3] == es;
    AfterStep(cfg, w, es, 0);
    AfterStep(cfg, w, es, 1);
    AfterStep(cfg, w, es, 2);
  }

  // A call that is refused, rate-limited or fails at the provider costs nothing.
  lemma RefusedCallsCostNothing(cfg: Config, w: World, e: Event, k: Key)
    requires var r := Step(cfg, w, e).1; r.OverBudget? || r.RateLimited? || r.Gated? || r.Errored?
    ensures Tokens(Step(cfg, w, e).0, k) == Tokens(w, k)
  {
    hide PreCheck, Posted, PostedAll, Cap;
    match e
    case Plain(key, reply, latency) =>
      if key.0 in cfg.budgets { PreCheckTokens(cfg, w, key, k); }
    case Stream(key, items, latency, _) =>
      if key.0 in cfg.budgets { PreCheckTokens(cfg, w, key, k); }
    case Grant(_, _, _) =>
    case Tick(_) =>
    case Record(_, _) =>
  }

  lemma {:induction false} CreditSumGrows(a: seq<Credit>, k: Key, c: Credit)
    ensures CreditSum(a + [c], k) == CreditSum(a, k) + if c.key == k then c.tokens else 0
  {
    assert (a + [c])[..|a|] == a;
  }

  lemma {:induction false} PostedCredits(cfg: Config, w: World, key: Key, items: seq<Item>)
    requires key.0 in cfg.budgets
    ensures PostedAll(cfg, w, key, items).credits == w.credits
  {
    if items != [] { PostedCredits(cfg, w, key, items[..|items| - 1]); }
  }

  lemma PreCheckCredits(cfg: Config, w: World, k: Key)
    requires k.0 in cfg.budgets
    ensures PreCheck(cfg, w, k).0.credits == w.credits
  {
    hide Lookup, Insert, Without, Cap;
  }

  lemma CallsKeepCredits(cfg: Config, w: World, e: Event)
    requires e.Plain? || e.Stream?
    ensures Step(cfg, w, e).0.credits == w.credits
  {
    hide PreCheck, PostedAll, Cap;
    if e.key.0 in cfg.budgets {
      PreCheckCredits(cfg, w, e.key);
      if e.Stream? {
        var checked := PreCheck(cfg, w, e.key).0;
        PostedCredits(cfg, checked.(clock := checked.clock + e.latency), e.key, e.items);
      }
    }
  }

  lemma {:induction false} CapNeverFalls(cfg: Config, w: World, e: Event, k: Key)
    ensures Cap(cfg, w, k) <= Cap(cfg, Step(cfg, w, e).0, k)
  {
    if e.Plain? || e.Stream? {
      CallsKeepCredits(cfg, w, e);
      hide Step;
    } else if e.Grant? {
      CreditSumGrows(w.credits, k, Credit(e.key, e.granted, w.clock));
    }
  }

  lemma AdmittedBelowCap(cfg: Config, w: World, k: Key)
    requires Coherent(cfg, w) && k.0 in cfg.budgets && cfg.budgets[k.0].hardCap.Some?
    requires PreCheck(cfg, w, k).1.Admitted?
    ensures Tokens(w, k) < Cap(cfg, w, k)
  {
    DecideKeepsCoherence(cfg, w, k);
  }

  lemma StepOvershoot(cfg: Config, w: World, e: Event, k: Key)
    requires Coherent(cfg, w) && Early(w, e, k) == 0
    requires k.0 in cfg.budgets && cfg.budgets[k.0].hardCap.Some?
    ensures var billed := Billed(cfg, w, e, k);
      Tokens(Step(cfg, w, e).0, k) <= Max(Tokens(w, k), Cap(cfg, Step(cfg, w, e).0, k) - 1 + billed)
  {
    StepTokens(cfg, w, e, k);
    CapNeverFalls(cfg, w, e, k);
    hide Step, Cap, Tokens, Coherent, PreCheck, ItemTokens;
    if Billed(cfg, w, e, k) > 0 { AdmittedBelowCap(cfg, w, k); }
  }

  // While a key has no row, nothing has been billed.
  lemma {:induction false} NoRowNothingBilled(cfg: Config, w: World, es: seq<Event>, k: Key)
    requires k !in After(cfg, w, es).rows
    ensures BilledTotal(cfg, w, es, k) == 0
  {
    hide Step, Billed;
    if es != [] {
      StepKeepsRows(cfg, After(cfg, w, es[..|es| - 1]), es[|es| - 1], k);
      NoRowNothingBilled(cfg, w, es[..|es| - 1], k);
    }
  }

  // Usage passes the cap by less than one call: it never exceeds both where it
  // started, usage logged before there was a row included, and the cap plus the
  // largest single call, less one.
  lemma {:induction false} Overshoot(cfg: Config, w: World, es: seq<Event>, k: Key)
    requires Coherent(cfg, w)
    requires k.0 in cfg.budgets && cfg.budgets[k.0].hardCap.Some?
    ensures var end := After(cfg, w, es);
      Tokens(end, k) <= Max(Tokens(w, k) + EarlyTotal(cfg, w, es, k), Cap(cfg, end, k) - 1 + Largest(cfg, w, es, k))
  {
    ExactAccounting(cfg, w, es, k);
    hide Step, Billed, Coherent, Cap, Tokens, Early;
    if es != [] {
      var init := es[..|es| - 1];
      var before := After(cfg, w, init);
      Overshoot(cfg, w, init, k);
      CachesStayCoherent(cfg, w, init);
      CapNeverFalls(cfg, before, es[|es| - 1], k);
      if Early(before, es[|es| - 1], k) > 0 {
        EarlyMeansNoRow(cfg, before, es[|es| - 1], k);
        NoRowNothingBilled(cfg, w, es, k);
      } else {
        StepOvershoot(cfg, before, es[|es| - 1], k);
      }
    }
  }

  lemma EarlyMeansNoRow(cfg: Config, w: World, e: Event, k: Key)
    requires Early(w, e, k) > 0
    ensures k !in Step(cfg, w, e).0.rows
  {
  }

  // ---- What a call answers -------------------------------------------------------

  predicate CreditedWithin(cfg: Config, w: World, k: Key) {
    exists c <- w.credits :: c.key == k && c.at > w.clock - cfg.preTtl
  }

  // A call of a tenant with a hard cap is over budget if the count has reached the
  // cap, unless a credit granted within the TTL is not yet seen; it is then told the
  // count, and a cap the count has reached.
  lemma OverBudgetIff(cfg: Config, w: World, e: Event, k: Key)
    requires Coherent(cfg, w) && k.0 in cfg.budgets && cfg.budgets[k.0].hardCap.Some?
    requires (e.Plain? || e.Stream?) && e.key == k
    ensures var o := Step(cfg, w, e).1;
      && (Tokens(w, k) >= Cap(cfg, w, k) ==> o.OverBudget?)
      && (!CreditedWithin(cfg, w, k) && o.OverBudget? ==> Tokens(w, k) >= Cap(cfg, w, k))
      && (o.OverBudget? ==> o.used == Tokens(w, k) && o.used >= o.cap)
  {
    DecideKeepsCoherence(cfg, w, k);
    PreCheckTokens(cfg, w, k, k);
    hide Decide, Coherent, Cap, Gate, Posted, PostedAll;
  }

  // What the provider's reply and the recording of it make of a call that the budget
  // lets through.
  predicate Reported(reply: Reply, o: Outcome) {
    match reply
    case Answer(item) => if item.tokens > 0 && !item.saved then o == PostFailed else o == Done
    case TooManyRequests => o == RateLimited || o.Gated?
    case ProviderError => o == Errored
  }

  // Any call that is not over budget reports what became of it, after the time it
  // took; a tenant without a budget, or without a hard cap, is never over it.
  lemma CallReports(cfg: Config, w: World, e: Event)
    requires e.Plain? || e.Stream?
    ensures var (w', o) := Step(cfg, w, e);
      && (o.OverBudget? ==> e.key.0 in cfg.budgets && cfg.budgets[e.key.0].hardCap.Some? && w'.clock == w.clock)
      && (!o.OverBudget? ==> w'.clock == w.clock + e.latency)
      && (!o.OverBudget? && e.Plain? ==>
            if e.key.0 in cfg.budgets then Reported(e.reply, o)
            else o == if e.reply.Answer? then Done else if e.reply.TooManyRequests? then RateLimited else Errored)
      && (!o.OverBudget? && e.Stream? ==> o == if e.breaks then Broken else Done)
  {
    hide PreCheck, Cap, Posted, PostedAll;
    if e.key.0 in cfg.budgets { PreCheckTakesNoTime(cfg, w, e.key); }
    if e.Plain? && e.key.0 in cfg.budgets && e.reply.Answer? {
      var checked := PreCheck(cfg, w, e.key).0;
      var later := checked.(clock := checked.clock + e.latency);
      PostedOne(cfg, later, e.key, e.reply.item);
      PostedClock(cfg, later, e.key, [e.reply.item]);
    }
    if e.Stream? && e.key.0 in cfg.budgets {
      var checked := PreCheck(cfg, w, e.key).0;
      PostedClock(cfg, checked.(clock := checked.clock + e.latency), e.key, e.items);
    }
  }

  lemma PreCheckTakesNoTime(cfg: Config, w: World, k: Key)
    requires k.0 in cfg.budgets
    ensures PreCheck(cfg, w, k).0.clock == w.clock
    ensures cfg.budgets[k.0].hardCap.None? ==> PreCheck(cfg, w, k) == (w, Admitted)
  {
    hide Lookup, Insert, Without, Cap;
  }

  lemma {:induction false} PostedClock(cfg: Config, w: World, key: Key, items: seq<Item>)
    requires key.0 in cfg.budgets
    ensures PostedAll(cfg, w, key, items).clock == w.clock
  {
    if items != [] { PostedClock(cfg, w, key, items[..|items| - 1]); }
  }

  // A tenant without a budget has nothing read or written for it.
  lemma NoBudgetNothingKept(cfg: Config, w: World, e: Event)
    requires (e.Plain? || e.Stream?) && e.key.0 !in cfg.budgets
    ensures Step(cfg, w, e).0 == w.(clock := w.clock + e.latency)
  {
  }

  // The effective cap is the hard cap, none counting as 0, plus the credits granted
  // to the key, where a credit service is wired in.
  lemma CapWithoutCredits(cfg: Config, w: World, k: Key)
    requires !cfg.hasCredits || forall c <- w.credits :: c.key != k
    ensures k.0 in cfg.budgets && cfg.budgets[k.0].hardCap.Some? ==> Cap(cfg, w, k) == cfg.budgets[k.0].hardCap.value
    ensures k.0 !in cfg.budgets || cfg.budgets[k.0].hardCap.None? ==> Cap(cfg, w, k) == 0
  {
    if cfg.hasCredits { NoCreditSum(w.credits, k); }
  }

  lemma {:induction false} NoCreditSum(credits: seq<Credit>, k: Key)
    requires forall c <- credits :: c.key != k
    ensures CreditSum(credits, k) == 0
  {
    if credits != [] {
      assert credits[|credits| - 1] in credits;
      NoCreditSum(credits[..|credits| - 1], k);
    }
  }

  lemma GrantRaisesCap(cfg: Config, w: World, g: Key, tokens: int, hasNote: bool, k: Key)
    ensures var (w', o) := Step(cfg, w, Grant(g, tokens, hasNote));
      && (o == Invalid <==> tokens <= 0 || !hasNote)
      && (o == Invalid || o == Done)
      && Cap(cfg, w', k) - Cap(cfg, w, k) == (if o == Done && cfg.hasCredits && g == k then tokens else 0)
      && (o == Done ==> w' == w.(credits := w.credits + [Credit(g, tokens, w.clock)]))
      && (o == Invalid ==> w' == w)
  {
    CreditSumGrows(w.credits, k, Credit(g, tokens, w.clock));
  }

  function Recorded(es: seq<Event>, k: Key): nat {
    if es == [] then 0
    else
      var last := es[|es| - 1];
      Recorded(es[..|es| - 1], k) + if last.Record? && last.key == k then last.tokens else 0
  }

  // The usage total is what was recorded, and no call changes it.
  lemma {:induction false} UsageIsRecorded(cfg: Config, w: World, es: seq<Event>, k: Key)
    ensures Usage(After(cfg, w, es), k) == Usage(w, k) + Recorded(es, k)
  {
    hide Step;
    if es != [] {
      UsageIsRecorded(cfg, w, es[..|es| - 1], k);
      StepUsage(cfg, After(cfg, w, es[..|es| - 1]), es[|es| - 1], k);
    }
  }

  lemma StepUsage(cfg: Config, w: World, e: Event, k: Key)
    ensures Usage(Step(cfg, w, e).0, k) == Usage(w, k) + if e.Record? && e.key == k then e.tokens else 0
  {
    hide PreCheck, Posted, PostedAll, Cap;
    if (e.Plain? || e.Stream?) && e.key.0 in cfg.budgets {
      PreCheckTokens(cfg, w, e.key, k);
      var checked := PreCheck(cfg, w, e.key).0;
      var later := checked.(clock := checked.clock + e.latency);
      if e.Stream? {
        PostedUsage(cfg, later, e.key, e.items);
      } else if e.reply.Answer? {
        PostedOne(cfg, later, e.key, e.reply.item);
        PostedUsage(cfg, later, e.key, [e.reply.item]);
      }
    }
  }

  lemma {:induction false} PostedUsage(cfg: Config, w: World, key: Key, items: seq<Item>)
    requires key.0 in cfg.budgets
    ensures PostedAll(cfg, w, key, items).usage == w.usage
  {
    if items != [] { PostedUsage(cfg, w, key, items[..|items| - 1]); }
  }

  // An answer without tokens records nothing: only the pre-check is left of it.
  lemma NothingToRecord(cfg: Config, w: World, k: Key, saved: bool, latency: nat)
    requires k.0 in cfg.budgets && PreCheck(cfg, w, k).1.Admitted?
    ensures var checked := PreCheck(cfg, w, k).0;
      Step(cfg, w, Plain(k, Answer(Item(0, saved)), latency)) == (checked.(clock := checked.clock + latency), Done)
  {
  }

  lemma LoadKeepsHeld(cfg: Config, w: World, k: Key)
    ensures LoadDecision(cfg, w, k).0.pre == w.pre
  {
    hide Lookup, Insert, Without, Cap;
  }

  // A warning put on record carries the time of the call.
  lemma WarningIsDated(cfg: Config, w: World, e: Event, k: Key)
    ensures var w' := Step(cfg, w, e).0;
      || RecordedWarning(w', k) == RecordedWarning(w, k)
      || (RecordedWarning(w', k) == Some(w'.clock) && (e.Plain? || e.Stream?) && e.key == k)
  {
    hide PreCheck, Posted, PostedAll, Cap;
    if (e.Plain? || e.Stream?) && e.key.0 in cfg.budgets {
      PreCheckWarning(cfg, w, e.key, k);
      var checked := PreCheck(cfg, w, e.key).0;
      var later := checked.(clock := checked.clock + e.latency);
      if e.Stream? {
        PostedWarning(cfg, later, e.key, e.items, k);
      } else if e.reply.Answer? {
        PostedOne(cfg, later, e.key, e.reply.item);
        PostedWarning(cfg, later, e.key, [e.reply.item], k);
      }
    }
  }

  function RecordedWarning(w: World, k: Key): Option<int> { if k in w.rows then w.rows[k].warnedAt else None }

  lemma PreCheckWarning(cfg: Config, w: World, key: Key, k: Key)
    requires key.0 in cfg.budgets
    ensures RecordedWarning(PreCheck(cfg, w, key).0, k) == RecordedWarning(w, k)
    ensures PreCheck(cfg, w, key).0.clock == w.clock
  {
    hide Lookup, Insert, Without, Cap;
  }

  lemma {:induction false} PostedWarning(cfg: Config, w: World, key: Key, items: seq<Item>, k: Key)
    requires key.0 in cfg.budgets
    ensures var w' := PostedAll(cfg, w, key, items);
      && w'.clock == w.clock
      && (RecordedWarning(w', k) == RecordedWarning(w, k) || (key == k && RecordedWarning(w', k) == Some(w.clock)))
  {
    hide Without;
    if items != [] { PostedWarning(cfg, w, key, items[..|items| - 1], k); }
  }

  // Reading straight from the database leaves the snapshot cache alone; reading
  // through it leaves the row in it, when it has room.
  lemma ReadPath(cfg: Config, w: World, k: Key)
    requires Coherent(cfg, w) && k.0 in cfg.budgets && cfg.budgets[k.0].hardCap.Some?
    ensures var w' := PreCheck(cfg, w, k).0;
      && (cfg.useDb ==> w'.lru == w.lru)
      && (!cfg.hasPrecheck ==> w'.pre == w.pre)
      && (!cfg.useDb && !cfg.hasPrecheck && cfg.maxsize > 0 ==> Has(w'.lru, k))
  {
    if !cfg.useDb && !cfg.hasPrecheck && cfg.maxsize > 0 {
      var (lru, hit) := Lookup(w.lru, k, w.clock);
      LookupKeeps(w.lru, k, w.clock);
      if hit.None? {
        var snap := Loaded(w.(lru := lru), k).rows[k];
        var t := Timed(w.clock, DoPut(k, snap));
        GetDistinct(w.lru, k, w.clock);
        TouchIsNewest(lru, t, k, cfg.snapTtl, cfg.maxsize);
      }
    }
    hide Lookup, Insert, Without, Cap;
  }

  // The cache is used: until its entry expires or is invalidated, a checked key is
  // decided from it again, with the same verdict and nothing read.
  lemma HotCheckIsFree(cfg: Config, w: World, k: Key, later: nat)
    requires k.0 in cfg.budgets && cfg.budgets[k.0].hardCap.Some? && cfg.hasPrecheck
    ensures var (checked, verdict) := PreCheck(cfg, w, k); var hot := checked.(clock := checked.clock + later);
      && k in checked.pre
      && (forall j <- w.pre :: j != k ==> j in checked.pre && checked.pre[j] == w.pre[j])
      && (hot.clock - checked.pre[k].at < cfg.preTtl ==> PreCheck(cfg, hot, k) == (hot, verdict))
      && (k !in w.pre || w.clock - w.pre[k].at >= cfg.preTtl ==> checked.pre[k].at == w.clock)
  {
    LoadKeepsHeld(cfg, w.(pre := w.pre - {k}), k);
    hide LoadDecision;
  }

  // After a 429 the budget error replaces it exactly when fewer tokens than the
  // threshold remain, counting a tenant without a hard cap as capped at its credits.
  lemma GatedIff(cfg: Config, w: World, k: Key, latency: nat)
    requires k.0 in cfg.budgets && PreCheck(cfg, w, k).1.Admitted?
    ensures PlainCall(cfg, w, k, TooManyRequests, latency).1
         == if cfg.gateThreshold != 0 && Cap(cfg, w, k) - Tokens(w, k) < cfg.gateThreshold
            then Gated(Cap(cfg, w, k) - Tokens(w, k)) else RateLimited
  {
    PreCheckTokens(cfg, w, k, k);
    hide Decide;
    PreCheckCredits(cfg, w, k);
  }

  // So an unlimited tenant that has no credits in the period has every 429 turned
  // into a budget error, although nothing limits it.
  lemma UnlimitedTenantIsGated(cfg: Config, w: World, k: Key, latency: nat)
    requires k.0 in cfg.budgets && cfg.budgets[k.0].hardCap.None?
    requires (cfg.hasCredits ==> CreditSum(w.credits, k) == 0) && cfg.gateThreshold > 0
    ensures PlainCall(cfg, w, k, TooManyRequests, latency).1.Gated?
  {
    GatedIff(cfg, w, k, latency);
  }

  // ---- The soft warning --------------------------------------------------------

  // The warning is on record exactly when usage has gone from below its threshold,
  // at base, to reach it.
  predicate WarnedFrom(w: World, k: Key, softWarn: int, base: int) {
    && base <= Tokens(w, k)
    && ((k in w.rows && w.rows[k].warnedAt.Some?) <==> base < softWarn <= Tokens(w, k))
  }

  lemma PreCheckKeepsWarning(cfg: Config, w: World, key: Key, k: Key, softWarn: int, base: int)
    requires key.0 in cfg.budgets && WarnedFrom(w, k, softWarn, base)
    ensures WarnedFrom(PreCheck(cfg, w, key).0, k, softWarn, base)
  {
    hide Lookup, Insert, Without, Cap;
  }

  lemma {:induction false} PostedKeepsWarning(cfg: Config, w: World, key: Key, items: seq<Item>, k: Key,
                                              softWarn: int, base: int)
    requires key.0 in cfg.budgets && k.0 in cfg.budgets && cfg.budgets[k.0].softWarn == Some(softWarn)
    requires WarnedFrom(w, k, softWarn, base)
    ensures WarnedFrom(PostedAll(cfg, w, key, items), k, softWarn, base)
  {
    hide Without;
    if items != [] {
      PostedKeepsWarning(cfg, w, key, items[..|items| - 1], k, softWarn, base);
    }
  }

  lemma StepKeepsWarning(cfg: Config, w: World, e: Event, k: Key, softWarn: int, base: int)
    requires k.0 in cfg.budgets && cfg.budgets[k.0].softWarn == Some(softWarn)
    requires Early(w, e, k) == 0
    requires WarnedFrom(w, k, softWarn, base)
    ensures WarnedFrom(Step(cfg, w, e).0, k, softWarn, base)
  {
    hide PreCheck, Posted, PostedAll, Cap, ItemTokens;
    if (e.Plain? || e.Stream?) && e.key.0 in cfg.budgets {
      PreCheckKeepsWarning(cfg, w, e.key, k, softWarn, base);
      var checked := PreCheck(cfg, w, e.key).0;
      var later := checked.(clock := checked.clock + e.latency);
      assert WarnedFrom(later, k, softWarn, base);
      if e.Stream? {
        PostedKeepsWarning(cfg, later, e.key, e.items, k, softWarn, base);
      } else if e.reply.Answer? {
        PostedOne(cfg, later, e.key, e.reply.item);
        PostedKeepsWarning(cfg, later, e.key, [e.reply.item], k, softWarn, base);
      }
    }
  }

  lemma {:induction false} RunKeepsWarning(cfg: Config, w: World, es: seq<Event>, k: Key, softWarn: int, base: int)
    requires k.0 in cfg.budgets && cfg.budgets[k.0].softWarn == Some(softWarn)
    requires WarnedFrom(w, k, softWarn, base) && (k in w.rows || base == Tokens(w, k))
    ensures WarnedFrom(After(cfg, w, es), k, softWarn, base + EarlyTotal(cfg, w, es, k))
  {
    ExactAccounting(cfg, w, es, k);
    hide Step, WarnedFrom, Tokens, Early;
    if es != [] {
      var init := es[..|es| - 1];
      var before := After(cfg, w, init);
      RunKeepsWarning(cfg, w, init, k, softWarn, base);
      if Early(before, es[|es| - 1], k) == 0 {
        StepKeepsWarning(cfg, before, es[|es| - 1], k, softWarn, base + EarlyTotal(cfg, w, init, k));
      } else {
        EarlyMeansNoRow(cfg, before, es[|es| - 1], k);
        NoRowNothingBilled(cfg, w, es, k);
        RowsStay(cfg, w, es, k);
        NoRowNoWarning(After(cfg, w, es), k, softWarn, base + EarlyTotal(cfg, w, es, k));
      }
    }
  }

  lemma {:induction false} RowsStay(cfg: Config, w: World, es: seq<Event>, k: Key)
    ensures k in w.rows ==> k in After(cfg, w, es).rows
  {
    hide Step, Billed;
    if es != [] {
      RowsStay(cfg, w, es[..|es| - 1], k);
      StepKeepsRows(cfg, After(cfg, w, es[..|es| - 1]), es[|es| - 1], k);
    }
  }

  lemma NoRowNoWarning(w: World, k: Key, softWarn: int, base: int)
    requires k !in w.rows && Tokens(w, k) == base
    ensures WarnedFrom(w, k, softWarn, base)
  {
  }

  // Over every run, however the tokens are spread over calls: the warning is on
  // record exactly when usage has reached the threshold, from below it where the
  // key got its row. Usage that was there before the row never warns.
  lemma {:induction false} WarnsAtThreshold(cfg: Config, w: World, es: seq<Event>, k: Key, softWarn: int)
    requires k.0 in cfg.budgets && cfg.budgets[k.0].softWarn == Some(softWarn)
    requires k in w.rows ==> (w.rows[k].warnedAt.Some? <==> Tokens(w, k) >= softWarn)
    ensures var end := After(cfg, w, es);
      (k in end.rows && end.rows[k].warnedAt.Some?) <==>
        Tokens(end, k) >= softWarn && (k !in w.rows ==> Tokens(w, k) + EarlyTotal(cfg, w, es, k) < softWarn)
  {
    hide Step, After, EarlyTotal;
    var base := if k in w.rows then Min(Tokens(w, k), softWarn - 1) else Tokens(w, k);
    RunKeepsWarning(cfg, w, es, k, softWarn, base);
    if k in w.rows { RowMeansNoneEarly(cfg, w, es, k); }
  }

  lemma {:induction false} RowMeansNoneEarly(cfg: Config, w: World, es: seq<Event>, k: Key)
    requires k in w.rows
    ensures EarlyTotal(cfg, w, es, k) == 0
  {
    hide Step;
    if es != [] {
      RowMeansNoneEarly(cfg, w, es[..|es| - 1], k);
      RowsStay(cfg, w, es[..|es| - 1], k);
    }
  }
}
