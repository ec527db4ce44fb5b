// Event sourcing: over every run of admin mutations, failures included, the
// audit log alone determines the configuration table.
module AuditReplay {
  import opened Common
  import opened AuditLog

  // ---- One transaction -------------------------------------------------------

  lemma StepPost(h: string -> string, s: Store, op: Op)
    requires op.Post? && SidecarFaithful(s)
    ensures var s' := Store(s.table[op.key := PostRow(op)], s.log + Stamp(op.key, op.actor, PostDiffs(s, op)));
      SidecarFaithful(s') && (Faithful(h, s) && Honest(h, op) ==> Faithful(h, s'))
  {
    hide PostDiffs, Replay, Stamp, LatestFieldValue;
    ReplayPost(s, op);
    if Faithful(h, s) && Honest(h, op) && op.key in s.table {
      LatestIsReplayed(s.log, op.key);
      StripTagged(h(s.table[op.key].apiKey.plaintext));
    }
  }

  lemma StepPatch(h: string -> string, s: Store, op: Op)
    requires op.Patch? && op.key in s.table && SidecarFaithful(s)
    ensures var s' := Store(s.table[op.key := PatchRow(s.table[op.key], op)],
                            s.log + Stamp(op.key, op.actor, PatchDiffs(s, op)));
      SidecarFaithful(s') && (Faithful(h, s) ==> Faithful(h, s'))
  {
    hide PatchDiffs, Replay, Stamp;
    ReplayPatch(s, op);
  }

  lemma ReplayDelete(s: Store, k: Key, actor: string)
    ensures Replay(s.log + Stamp(k, actor, [Diff(Deleted, Some(k.1), None)])) == Replay(s.log) - {k}
  {
    var ds := [Diff(Deleted, Some(k.1), None)];
    assert ds[..0] == [];
    var es := s.log + Stamp(k, actor, ds);
    assert es[..|es| - 1] == s.log;
  }

  // What an operation commits, when it commits.
  function OpDiffs(s: Store, op: Op): seq<Diff>
    requires op.Post? || op.key in s.table
  {
    match op
    case Post(_, _, _, _, _, _, _, _) => PostDiffs(s, op)
    case Patch(_, _, _, _, _) => PatchDiffs(s, op)
    case Delete(k, _) => [Diff(Deleted, Some(k.1), None)]
  }

  function OpTable(s: Store, op: Op): map<Key, Row>
    requires op.Post? || op.key in s.table
  {
    match op
    case Post(k, _, _, _, _, _, _, _) => s.table[k := PostRow(op)]
    case Patch(k, _, _, _, _) => s.table[k := PatchRow(s.table[k], op)]
    case Delete(k, _) => s.table - {k}
  }

  // All or nothing, wherever the transaction fails.
  lemma AllOrNothing(tenants: set<string>, s: Store, op: Op, fault: Fault)
    ensures var s' := Exec(tenants, s, op, fault).0;
      s' == s || ((op.Post? || op.key in s.table)
                  && s' == Store(OpTable(s, op), s.log + Stamp(op.key, op.actor, OpDiffs(s, op))))
  {
  }

  // A patched column is kept when omitted, cleared by null or an empty string, and
  // otherwise becomes what was sent.
  predicate Patched(before: Option<string>, sent: Option<Option<string>>, after: Option<string>) {
    && (sent == None ==> after == before)
    && (sent == Some(None) || sent == Some(Some("")) ==> after == None)
    && (sent.Some? && sent.value.Some? && sent.value.value != "" ==> after == sent.value)
  }

  // The steps a transaction takes once its tenant is known, writing audit rows aside.
  function Steps(op: Op, present: bool): set<Fault> {
    match op
    case Post(_, _, _, _, _, _, _, _) => {AtEncrypt, AtFetch, AtLatest, AtMutate, AtCommit, AfterCommit}
    case Patch(_, _, _, _, _) => if present then {AtFetch, AtMutate, AtCommit, AfterCommit} else {AtFetch}
    case Delete(_, _) => if present then {AtFetch, AtMutate, AtAudit, AtCommit} else {AtFetch, AtCommit}
  }

  // What a transaction answers: without a failure, exactly by whether the tenant and
  // the row are there; it fails exactly when a step it takes fails, writing audit
  // rows being one only if there are any.
  lemma Answers(tenants: set<string>, s: Store, op: Op, fault: Fault)
    ensures var (s', r) := Exec(tenants, s, op, fault);
      && (fault == NoFault ==>
            && (r.UnknownTenant? <==> op.key.0 !in tenants)
            && (op.key.0 in tenants && op.Post? ==> r.Saved?)
            && (op.key.0 in tenants && op.Patch? ==> if op.key in s.table then r.Saved? else r.NotFound?)
            && (op.key.0 in tenants && op.Delete? ==> if op.key in s.table then r.Removed? else r.NothingToRemove?))
      && (r.Failed? <==>
            || fault == AtTenant
            || (op.key.0 in tenants
                && (fault in Steps(op, op.key in s.table)
                    || (fault == AtAudit && Exec(tenants, s, op, NoFault).0.log != s.log))))
  {
    hide PostDiffs, PatchDiffs, Stamp, PostRow, PatchRow;
    match op
    case Post(_, _, _, _, _, _, _, _) => GrowsIff(s.log, op.key, op.actor, PostDiffs(s, op));
    case Patch(_, _, _, _, _) =>
      if op.key in s.table { GrowsIff(s.log, op.key, op.actor, PatchDiffs(s, op)); }
    case Delete(k, _) => GrowsIff(s.log, op.key, op.actor, [Diff(Deleted, Some(k.1), None)]);
  }

  lemma GrowsIff(log: seq<Entry>, k: Key, actor: string, ds: seq<Diff>)
    ensures log + Stamp(k, actor, ds) != log <==> ds != []
  {
    assert |log + Stamp(k, actor, ds)| == |log| + |ds|;
    if ds == [] { assert log + Stamp(k, actor, ds) == log; }
  }

  // The entries a transaction appends are about its row, and name who made it.
  lemma EntriesAreSigned(tenants: set<string>, s: Store, op: Op, fault: Fault)
    ensures var log := Exec(tenants, s, op, fault).0.log;
      && s.log <= log
      && forall i | |s.log| <= i < |log| :: log[i].key == op.key && log[i].changedBy == op.actor
  {
    AllOrNothing(tenants, s, op, fault);
    if Exec(tenants, s, op, fault).0 != s {
      var ds := OpDiffs(s, op);
      forall i | 0 <= i < |ds|
        ensures Stamp(op.key, op.actor, ds)[i].key == op.key && Stamp(op.key, op.actor, ds)[i].changedBy == op.actor
      {
        StampAt(op.key, op.actor, ds, i);
      }
      hide Exec, OpDiffs, Stamp, OpTable;
    }
  }

  // What each committed operation leaves in the table, column by column.
  lemma TableEffect(tenants: set<string>, s: Store, op: Op, fault: Fault)
    ensures var (s', r) := Exec(tenants, s, op, fault);
      && (r.Saved? && op.Post? ==>
            s'.table == s.table[op.key := Row(Sealed(op.apiKey, op.nonce), op.baseUrl, op.model, op.enabled)])
      && (r.Saved? && op.Patch? ==>
            && op.key in s.table && s'.table.Keys == s.table.Keys
            && s'.table == s.table[op.key := r.row] && r.row.apiKey == s.table[op.key].apiKey
            && Patched(s.table[op.key].baseUrl, op.newBaseUrl, r.row.baseUrl)
            && Patched(s.table[op.key].model, op.newModel, r.row.model)
            && (op.newEnabled in {None, Some(None)} ==> r.row.enabled == s.table[op.key].enabled)
            && (forall b :: op.newEnabled == Some(Some(b)) ==> r.row.enabled == b))
      && (r.Removed? ==> op.key in s.table && s'.table == s.table - {op.key})
      && (!r.Saved? && !r.Removed? && fault != AfterCommit ==> s' == s)
  {
    AllOrNothing(tenants, s, op, fault);
  }

  lemma Step(h: string -> string, tenants: set<string>, s: Store, op: Op, fault: Fault)
    requires SidecarFaithful(s)
    ensures SidecarFaithful(Exec(tenants, s, op, fault).0)
    ensures Faithful(h, s) && Honest(h, op) ==> Faithful(h, Exec(tenants, s, op, fault).0)
  {
    AllOrNothing(tenants, s, op, fault);
    if Exec(tenants, s, op, fault).0 != s {
      CommittedStep(h, s, op);
    }
  }

  lemma CommittedStep(h: string -> string, s: Store, op: Op)
    requires SidecarFaithful(s) && (op.Post? || op.key in s.table)
    ensures var s' := Store(OpTable(s, op), s.log + Stamp(op.key, op.actor, OpDiffs(s, op)));
      SidecarFaithful(s') && (Faithful(h, s) && Honest(h, op) ==> Faithful(h, s'))
  {
    match op
    case Post(_, _, _, _, _, _, _, _) =>
      StepPost(h, s, op);
    case Patch(_, _, _, _, _) =>
      StepPatch(h, s, op);
    case Delete(k, actor) =>
      ReplayDelete(s, k, actor);
      if Faithful(h, s) {
        assert Images(h, s.table - {k}) == Images(h, s.table) - {k};
      }
  }

  // ---- Whole runs ------------------------------------------------------------

  // Every run, whatever fingerprints the callers passed: presence, base_url,
  // model and enabled are all recovered.
  lemma {:induction false} SidecarReplay(tenants: set<string>, steps: seq<(Op, Fault)>)
    ensures SidecarFaithful(Run(tenants, steps))
  {
    if steps != [] {
      var last := steps[|steps| - 1];
      SidecarReplay(tenants, steps[..|steps| - 1]);
      Step(x => x, tenants, Run(tenants, steps[..|steps| - 1]), last.0, last.1);
    }
  }

  // Every run whose POSTs pass the fingerprint of the key they submit: the log
  // also recovers the fingerprint of the stored key.
  lemma {:induction false} ReplayDeterminesTable(h: string -> string, tenants: set<string>,
                                                 steps: seq<(Op, Fault)>)
    requires forall st <- steps :: Honest(h, st.0)
    ensures Replay(Run(tenants, steps).log) == Images(h, Run(tenants, steps).table)
  {
    if steps != [] {
      var last := steps[|steps| - 1];
      assert forall st <- steps[..|steps| - 1] :: st in steps;
      ReplayDeterminesTable(h, tenants, steps[..|steps| - 1]);
      SidecarReplay(tenants, steps[..|steps| - 1]);
      Step(h, tenants, Run(tenants, steps[..|steps| - 1]), last.0, last.1);
    }
  }

  // Equal images come from tables equal in every column but the ciphertext, and
  // with keys of equal fingerprint.
  lemma ImagesDetermine(h: string -> string, t1: map<Key, Row>, t2: map<Key, Row>)
    requires Images(h, t1) == Images(h, t2)
    ensures SameVisible(h, t1, t2)
  {
    assert t1.Keys == Images(h, t1).Keys && t2.Keys == Images(h, t2).Keys;
    forall k | k in t1
      ensures t1[k].baseUrl == t2[k].baseUrl && t1[k].model == t2[k].model && t1[k].enabled == t2[k].enabled
      ensures h(t1[k].apiKey.plaintext) == h(t2[k].apiKey.plaintext)
    {
      assert Images(h, t1)[k] == Images(h, t2)[k];
      TagInjective(h(t1[k].apiKey.plaintext), h(t2[k].apiKey.plaintext));
      assert BoolRepr(true) != BoolRepr(false);
    }
  }

  ghost predicate SameVisible(h: string -> string, t1: map<Key, Row>, t2: map<Key, Row>) {
    && t1.Keys == t2.Keys
    && forall k <- t1 ::
      && t1[k].baseUrl == t2[k].baseUrl && t1[k].model == t2[k].model && t1[k].enabled == t2[k].enabled
      && h(t1[k].apiKey.plaintext) == h(t2[k].apiKey.plaintext)
  }

  // Two runs that leave the same log leave the same table, up to ciphertext.
  lemma {:induction false} LogIsSufficient(h: string -> string, tenants: set<string>,
                        run1: seq<(Op, Fault)>, run2: seq<(Op, Fault)>)
    requires forall st <- run1 + run2 :: Honest(h, st.0)
    requires Run(tenants, run1).log == Run(tenants, run2).log
    ensures SameVisible(h, Run(tenants, run1).table, Run(tenants, run2).table)
  {
    assert forall st <- run1 :: st in run1 + run2;
    assert forall st <- run2 :: st in run1 + run2;
    ReplayDeterminesTable(h, tenants, run1);
    ReplayDeterminesTable(h, tenants, run2);
    ImagesDetermine(h, Run(tenants, run1).table, Run(tenants, run2).table);
  }

  // The fingerprint a POST may pass without breaking replay, exactly: its own
  // key's, or none when the stored key already has that fingerprint.
  lemma PostKeepsReplayIff(h: string -> string, tenants: set<string>, s: Store, op: Op)
    requires Faithful(h, s) && op.Post? && op.key.0 in tenants
    ensures Faithful(h, Exec(tenants, s, op, NoFault).0)
       <==> if op.sha.Some? then op.sha.value == h(op.apiKey)
            else op.key in s.table && h(s.table[op.key].apiKey.plaintext) == h(op.apiKey)
  {
    hide PostDiffs, Replay, Stamp, LatestFieldValue;
    var k := op.key;
    var s' := Exec(tenants, s, op, NoFault).0;
    FaithfulSidecar(h, s);
    ReplayPost(s, op);
    LatestIsReplayed(s.log, k);
    if k in s.table {
      StripTagged(h(s.table[k].apiKey.plaintext));
      TagInjective(h(s.table[k].apiKey.plaintext), h(op.apiKey));
    }
    if op.sha.Some? { TagInjective(op.sha.value, h(op.apiKey)); }
    var img := ImageOf(h, PostRow(op));
    assert Images(h, s'.table) == Images(h, s.table)[k := img];
    assert Faithful(h, s') <==> Replay(s'.log)[k] == img by {
      assert k in Images(h, s'.table);
    }
  }

  lemma FaithfulSidecar(h: string -> string, s: Store)
    requires Faithful(h, s)
    ensures SidecarFaithful(s)
  {
    forall k | k in s.table ensures Replay(s.log)[k] == ImageOf(h, s.table[k]) {
      assert k in Images(h, s.table);
    }
    assert Replay(s.log).Keys == s.table.Keys;
  }

  // ---- Audit chain -----------------------------------------------------------

  // The i-th appended entry continues the chain: a change to a stored row
  // records the value replay gives just before it, and a different new value;
  // a creation starts every column afresh; a deletion names the provider.
  ghost predicate ChainLink(s: Store, log: seq<Entry>, i: nat)
    requires i < |log|
  {
    var e := log[i];
    var before := Replay(log[..i]);
    if e.field == Deleted then
      e.key in before && e.oldValue == Some(e.key.1) && e.newValue == None
    else if e.key in s.table then
      e.key in before && e.oldValue == GetField(before[e.key], e.field) && e.oldValue != e.newValue
    else
      && e.oldValue == (if e.field == ApiKey then Some("sha256:initial") else None)
      && GetField(At(before, e.key), e.field) == None
  }

  // The order the columns are compared in.
  function Rank(f: Field): nat {
    match f case ApiKey => 0 case BaseUrl => 1 case Model => 2 case Enabled => 3 case Deleted => 4
  }

  ghost predicate FieldsInOrder(ds: seq<Diff>) {
    forall i, j | 0 <= i < j < |ds| :: Rank(ds[i].field) < Rank(ds[j].field)
  }

  lemma {:induction false} StampAt(k: Key, actor: string, ds: seq<Diff>, i: nat)
    requires i < |ds|
    ensures Stamp(k, actor, ds)[i] == Entry(k, ds[i].field, ds[i].oldValue, ds[i].newValue, actor)
    ensures Stamp(k, actor, ds)[..i] == Stamp(k, actor, ds[..i])
  {
    var init := ds[..|ds| - 1];
    if i < |init| {
      StampAt(k, actor, init, i);
      assert Stamp(k, actor, ds)[..i] == Stamp(k, actor, init)[..i];
      assert init[..i] == ds[..i];
    } else {
      assert Stamp(k, actor, ds)[..i] == Stamp(k, actor, init);
    }
  }

  lemma {:induction false} UntouchedField(img: Image, ds: seq<Diff>, f: Field)
    requires forall d <- ds :: d.field != f
    ensures GetField(FoldImage(img, ds), f) == GetField(img, f)
  {
    if ds != [] {
      UntouchedField(img, ds[..|ds| - 1], f);
    }
  }

  // Just before its i-th entry, replay still shows the old value of that
  // entry's column: the transaction writes each column at most once.
  lemma {:induction false} LinkBefore(log: seq<Entry>, k: Key, actor: string, ds: seq<Diff>, i: nat)
    requires i < |ds| && FieldsInOrder(ds) && forall d <- ds :: d.field != Deleted
    ensures var before := Replay((log + Stamp(k, actor, ds))[..|log| + i]);
      && GetField(At(before, k), ds[i].field) == GetField(At(Replay(log), k), ds[i].field)
      && (k in Replay(log) ==> k in before)
    ensures (log + Stamp(k, actor, ds))[|log| + i]
         == Entry(k, ds[i].field, ds[i].oldValue, ds[i].newValue, actor)
  {
    StampAt(k, actor, ds, i);
    assert (log + Stamp(k, actor, ds))[..|log| + i] == log + Stamp(k, actor, ds[..i]);
    ReplayStamped(log, k, actor, ds[..i]);
    UntouchedField(At(Replay(log), k), ds[..i], ds[i].field);
  }

  lemma ChainFromDiffs(s: Store, k: Key, actor: string, ds: seq<Diff>, i: nat)
    requires i < |ds| && FieldsInOrder(ds) && forall d <- ds :: d.field != Deleted
    requires Replay(s.log).Keys == s.table.Keys
    requires k in s.table ==>
      ds[i].oldValue == GetField(Replay(s.log)[k], ds[i].field) && ds[i].oldValue != ds[i].newValue
    requires k !in s.table ==>
      ds[i].oldValue == if ds[i].field == ApiKey then Some(INITIAL) else None
    ensures ChainLink(s, s.log + Stamp(k, actor, ds), |s.log| + i)
  {
    LinkBefore(s.log, k, actor, ds, i);
  }

  // The diffs of a POST or PATCH: one per column at most, each from the value
  // the log shows to a different one, or from nothing for a new row.
  ghost predicate GoodDiffs(s: Store, k: Key, ds: seq<Diff>) {
    && FieldsInOrder(ds)
    && forall d <- ds ::
      && d.field != Deleted
      && (if k in s.table && k in Replay(s.log)
          then d.oldValue == GetField(Replay(s.log)[k], d.field) && d.oldValue != d.newValue
          else d.oldValue == if d.field == ApiKey then Some(INITIAL) else None)
  }

  lemma FieldDiffShape(isInsert: bool, sent: Option<set<Field>>, f: Field,
                       newValue: Option<string>, oldValue: Option<string>)
    ensures var ds := FieldDiff(isInsert, sent, f, newValue, oldValue);
      |ds| <= 1 && (ds != [] ==>
        && ds[0].field == f && ds[0].newValue == newValue
        && ds[0].oldValue == (if isInsert then None else oldValue)
        && (!isInsert ==> newValue != oldValue))
  {
  }

  lemma AppendInOrder(ds: seq<Diff>, more: seq<Diff>, f: Field)
    requires FieldsInOrder(ds) && |more| <= 1 && (more != [] ==> more[0].field == f)
    requires forall d <- ds :: Rank(d.field) < Rank(f)
    ensures FieldsInOrder(ds + more)
    ensures forall d <- ds + more :: Rank(d.field) <= Rank(f) && (d in ds || d in more)
  {
    assert forall i | 0 <= i < |ds| :: ds[i] in ds;
  }

  // At most one diff for each column, in the order of columns.
  lemma PartsAreDistinct(a: seq<Diff>, b: seq<Diff>, c: seq<Diff>, e: seq<Diff>)
    requires |a| <= 1 && |b| <= 1 && |c| <= 1 && |e| <= 1
    requires (a != [] ==> a[0].field == ApiKey) && (b != [] ==> b[0].field == BaseUrl)
    requires (c != [] ==> c[0].field == Model) && (e != [] ==> e[0].field == Enabled)
    ensures FieldsInOrder(a + b + c + e)
    ensures forall d <- a + b + c + e :: d in a || d in b || d in c || d in e
  {
    assert FieldsInOrder(a) && forall d <- a :: d.field == ApiKey;
    hide FieldsInOrder;
    AppendInOrder(a, b, BaseUrl);
    AppendInOrder(a + b, c, Model);
    AppendInOrder(a + b + c, e, Enabled);
  }

  lemma DiffsShape(isInsert: bool, sent: Option<set<Field>>, was: Snapshot, now: Snapshot,
                   newHash: Option<string>, oldHash: Option<string>)
    ensures var ds := Diffs(isInsert, sent, was, now, newHash, oldHash);
      FieldsInOrder(ds) && forall d <- ds ::
        && d.field != Deleted
        && (isInsert ==> d.oldValue == if d.field == ApiKey then Some(INITIAL) else None)
        && (!isInsert ==> d.oldValue != d.newValue && d.oldValue == GetField(
              Image(if oldHash.Some? then Some(Tag(oldHash.value)) else None,
                    was.baseUrl, was.model, EnabledRepr(was.enabled)), d.field))
  {
    FieldDiffShape(isInsert, sent, BaseUrl, now.baseUrl, was.baseUrl);
    FieldDiffShape(isInsert, sent, Model, now.model, was.model);
    FieldDiffShape(isInsert, sent, Enabled, EnabledRepr(now.enabled), EnabledRepr(was.enabled));
    PartsAreDistinct(KeyDiff(isInsert, newHash, oldHash), FieldDiff(isInsert, sent, BaseUrl, now.baseUrl, was.baseUrl),
      FieldDiff(isInsert, sent, Model, now.model, was.model),
      FieldDiff(isInsert, sent, Enabled, EnabledRepr(now.enabled), EnabledRepr(was.enabled)));
    hide FieldDiff, FieldsInOrder;
    if !isInsert && newHash.Some? && oldHash.Some? {
      TagInjective(newHash.value, oldHash.value);
    }
  }

  lemma PatchLeavesKey(s: Store, op: Op)
    requires op.Patch? && op.key in s.table
    ensures forall d <- PatchDiffs(s, op) :: d.field != ApiKey
  {
  }

  lemma PostDiffsAreGood(h: string -> string, s: Store, op: Op)
    requires Faithful(h, s) && Honest(h, op) && op.Post?
    ensures GoodDiffs(s, op.key, PostDiffs(s, op))
  {
    hide FieldsInOrder, Diffs, FieldDiff, KeyDiff, Replay, LatestFieldValue;
    var k := op.key;
    FaithfulSidecar(h, s);
    var last := StripTag(LatestFieldValue(s.log, k, ApiKey));
    DiffsShape(k !in s.table, None, SnapshotOf(s.table, k), Snapshot(op.baseUrl, op.model, Some(op.enabled)), op.sha, last);
    if k in s.table {
      assert k in Images(h, s.table);
      LatestIsReplayed(s.log, k);
      StripTagged(h(s.table[k].apiKey.plaintext));
    }
  }

  lemma PatchDiffsAreGood(h: string -> string, s: Store, op: Op)
    requires Faithful(h, s) && op.Patch? && op.key in s.table
    ensures GoodDiffs(s, op.key, PatchDiffs(s, op))
  {
    hide FieldsInOrder, Diffs, FieldDiff, KeyDiff, Replay;
    FaithfulSidecar(h, s);
    assert op.key in Images(h, s.table);
    var row := PatchRow(s.table[op.key], op);
    var now := Snapshot(row.baseUrl, row.model, Some(row.enabled));
    DiffsShape(false, Some(Sent(op)), SnapshotOf(s.table, op.key), now, None, None);
    PatchLeavesKey(s, op);
  }

  lemma OpDiffsAreGood(h: string -> string, s: Store, op: Op)
    requires Faithful(h, s) && Honest(h, op) && !op.Delete? && (op.Post? || op.key in s.table)
    ensures GoodDiffs(s, op.key, OpDiffs(s, op))
  {
    hide GoodDiffs, PostDiffs, PatchDiffs;
    if op.Post? { PostDiffsAreGood(h, s, op); } else { PatchDiffsAreGood(h, s, op); }
  }

  lemma OpChain(h: string -> string, s: Store, op: Op, i: nat)
    requires Faithful(h, s) && Honest(h, op) && (op.Post? || op.key in s.table) && i < |OpDiffs(s, op)|
    ensures ChainLink(s, s.log + Stamp(op.key, op.actor, OpDiffs(s, op)), |s.log| + i)
  {
    FaithfulSidecar(h, s);
    var ds := OpDiffs(s, op);
    if op.Delete? {
      StampAt(op.key, op.actor, ds, 0);
      assert (s.log + Stamp(op.key, op.actor, ds))[..|s.log|] == s.log;
    } else {
      OpDiffsAreGood(h, s, op);
      hide OpDiffs, ChainLink, Images;
      assert ds[i] in ds;
      ChainFromDiffs(s, op.key, op.actor, ds, i);
    }
  }

  // On every reachable store, every entry of the next transaction is a link of
  // the chain, although the mutation overwrites the row object it was read from.
  lemma AuditChain(h: string -> string, tenants: set<string>, steps: seq<(Op, Fault)>,
                   op: Op, fault: Fault, i: nat)
    requires forall st <- steps :: Honest(h, st.0)
    requires Honest(h, op)
    requires |Run(tenants, steps).log| <= i < |Exec(tenants, Run(tenants, steps), op, fault).0.log|
    ensures ChainLink(Run(tenants, steps), Exec(tenants, Run(tenants, steps), op, fault).0.log, i)
  {
    hide Exec, OpDiffs, Run, ChainLink, Replay, Stamp;
    ReplayDeterminesTable(h, tenants, steps);
    var s := Run(tenants, steps);
    AllOrNothing(tenants, s, op, fault);
    OpChain(h, s, op, i - |s.log|);
  }

  lemma ChainExtends(s: Store, log: seq<Entry>, more: seq<Entry>, i: nat)
    requires i < |log| && ChainLink(s, log, i)
    ensures ChainLink(s, log + more, i)
  {
    assert (log + more)[..i] == log[..i];
  }

  // So the whole log is one chain: each of its entries was a link when some
  // transaction of the run appended it, and still is.
  lemma {:induction false} LogIsChain(h: string -> string, tenants: set<string>, steps: seq<(Op, Fault)>, i: nat)
    returns (n: nat)
    requires forall st <- steps :: Honest(h, st.0)
    requires i < |Run(tenants, steps).log|
    ensures n < |steps| && |Run(tenants, steps[..n]).log| <= i < |Run(tenants, steps[..n + 1]).log|
    ensures ChainLink(Run(tenants, steps[..n]), Run(tenants, steps).log, i)
  {
    hide Exec, ChainLink, OpDiffs, OpTable;
    var m := |steps| - 1;
    var init := steps[..m];
    var s := Run(tenants, init);
    assert steps[..|steps|] == steps;
    AllOrNothing(tenants, s, steps[m].0, steps[m].1);
    if i < |s.log| {
      n := LogIsChain(h, tenants, init, i);
      assert init[..n] == steps[..n] && init[..n + 1] == steps[..n + 1];
      ChainExtends(Run(tenants, steps[..n]), s.log, Run(tenants, steps).log[|s.log|..], i);
      assert Run(tenants, steps).log == s.log + Run(tenants, steps).log[|s.log|..];
    } else {
      n := m;
      AuditChain(h, tenants, init, steps[m].0, steps[m].1, i);
    }
  }

  // ---- No churn --------------------------------------------------------------

  lemma DiffsShow(log: seq<Entry>, k: Key, actor: string, ds: seq<Diff>)
    requires ds != [] && forall d <- ds :: d.field != Deleted
    requires k in Replay(log) ==>
      GetField(Replay(log)[k], ds[|ds| - 1].field) != ds[|ds| - 1].newValue
    ensures Replay(log + Stamp(k, actor, ds)) != Replay(log)
  {
    ReplayStamped(log, k, actor, ds);
    assert GetField(FoldImage(At(Replay(log), k), ds), ds[|ds| - 1].field) == ds[|ds| - 1].newValue;
  }

  // Creating a row records every column, the empty ones too, and the key if its
  // fingerprint was passed.
  lemma CreationRecordsAll(tenants: set<string>, s: Store, op: Op)
    requires op.Post? && op.key !in s.table && op.key.0 in tenants
    ensures |Exec(tenants, s, op, NoFault).0.log| == |s.log| + 3 + if op.sha.Some? then 1 else 0
  {
  }

  // A transaction writes audit rows exactly when it changes what the table
  // shows: re-posting or patching the same values writes nothing.
  lemma LogGrowsIffTableChanges(h: string -> string, tenants: set<string>, s: Store, op: Op, fault: Fault)
    requires Faithful(h, s) && Honest(h, op)
    ensures var s' := Exec(tenants, s, op, fault).0;
      s'.log == s.log <==> Images(h, s'.table) == Images(h, s.table)
  {
    var s' := Exec(tenants, s, op, fault).0;
    FaithfulSidecar(h, s);
    Step(h, tenants, s, op, fault);
    AllOrNothing(tenants, s, op, fault);
    if s'.log != s.log {
      var ds := OpDiffs(s, op);
      if op.Delete? {
        assert op.key in Images(h, s.table) && op.key !in Images(h, s'.table);
      } else {
        OpDiffsAreGood(h, s, op);
        assert ds[|ds| - 1] in ds;
        DiffsShow(s.log, op.key, op.actor, ds);
      }
    }
  }
}
