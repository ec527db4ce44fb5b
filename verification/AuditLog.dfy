// The tenant LLM configuration table and its append-only audit log, as values:
// what each admin mutation commits, and the fold that reads the table back out
// of the log.
module AuditLog {
  import opened Common

  // Opaque ciphertext. Encryption is randomised: the nonce is an input.
  datatype Ciphertext = Sealed(plaintext: string, nonce: nat)

  datatype Row = Row(apiKey: Ciphertext, baseUrl: Option<string>, model: Option<string>, enabled: bool)

  type Key = (string, string)  // (tenant, provider)

  datatype Field = ApiKey | BaseUrl | Model | Enabled | Deleted

  datatype Diff = Diff(field: Field, oldValue: Option<string>, newValue: Option<string>)

  datatype Entry = Entry(key: Key, field: Field, oldValue: Option<string>, newValue: Option<string>,
                         changedBy: string)

  datatype Store = Store(table: map<Key, Row>, log: seq<Entry>)

  datatype Op =
    | Post(key: Key, apiKey: string, nonce: nat, baseUrl: Option<string>, model: Option<string>,
           enabled: bool, sha: Option<string>, actor: string)
    // Each column is absent from the request, or sent with a nullable value.
    | Patch(key: Key, newBaseUrl: Option<Option<string>>, newModel: Option<Option<string>>,
            newEnabled: Option<Option<bool>>, actor: string)
    | Delete(key: Key, actor: string)

  // The step of a transaction that fails, if any. Only the refresh that
  // follows a commit leaves its effect behind.
  datatype Fault = NoFault | AtTenant | AtEncrypt | AtFetch | AtLatest | AtMutate | AtAudit | AtCommit | AfterCommit

  datatype Outcome = Saved(row: Row) | NotFound | Removed | NothingToRemove | UnknownTenant | Failed

  // ---- Audit diffs -----------------------------------------------------------

  const PREFIX := "sha256:"
  const INITIAL := "sha256:initial"

  function Tag(hash: string): string { PREFIX + hash }

  function StripTag(stored: Option<string>): Option<string> {
    if stored.Some? && PREFIX <= stored.value then Some(stored.value[|PREFIX|..]) else stored
  }

  function BoolRepr(b: bool): string { if b then "True" else "False" }

  function EnabledRepr(b: Option<bool>): Option<string> {
    if b.Some? then Some(BoolRepr(b.value)) else None
  }

  function KeyDiff(isInsert: bool, newHash: Option<string>, oldHash: Option<string>): seq<Diff> {
    if newHash.None? then []
    else if isInsert then [Diff(ApiKey, Some(INITIAL), Some(Tag(newHash.value)))]
    else if oldHash == newHash then []
    else [Diff(ApiKey, if oldHash.Some? then Some(Tag(oldHash.value)) else None, Some(Tag(newHash.value)))]
  }

  function FieldDiff(isInsert: bool, sent: Option<set<Field>>, f: Field,
                     newValue: Option<string>, oldValue: Option<string>): seq<Diff> {
    if sent.Some? && f !in sent.value then []
    else if isInsert then [Diff(f, None, newValue)]
    else if newValue != oldValue then [Diff(f, oldValue, newValue)]
    else []
  }

  // The sidecar columns of a row, absent when there is no row.
  datatype Snapshot = Snapshot(baseUrl: Option<string>, model: Option<string>, enabled: Option<bool>)

  function SnapshotOf(table: map<Key, Row>, k: Key): Snapshot {
    if k in table then Snapshot(table[k].baseUrl, table[k].model, Some(table[k].enabled))
    else Snapshot(None, None, None)
  }

  function Diffs(isInsert: bool, sent: Option<set<Field>>, was: Snapshot, now: Snapshot,
                 newHash: Option<string>, oldHash: Option<string>): seq<Diff> {
    KeyDiff(isInsert, newHash, oldHash)
    + FieldDiff(isInsert, sent, BaseUrl, now.baseUrl, was.baseUrl)
    + FieldDiff(isInsert, sent, Model, now.model, was.model)
    + FieldDiff(isInsert, sent, Enabled, EnabledRepr(now.enabled), EnabledRepr(was.enabled))
  }

  function Stamp(k: Key, actor: string, ds: seq<Diff>): (es: seq<Entry>)
    ensures |es| == |ds|
  {
    if ds == [] then []
    else Stamp(k, actor, ds[..|ds| - 1])
         + [Entry(k, ds[|ds| - 1].field, ds[|ds| - 1].oldValue, ds[|ds| - 1].newValue, actor)]
  }

  // The new_value of the newest entry for one column of one row.
  function LatestFieldValue(log: seq<Entry>, k: Key, f: Field): Option<string> {
    if log == [] then None
    else if log[|log| - 1].key == k && log[|log| - 1].field == f then log[|log| - 1].newValue
    else LatestFieldValue(log[..|log| - 1], k, f)
  }

  // ---- Transactions ----------------------------------------------------------

  function Normalise(v: Option<string>): Option<string> {
    if v == Some("") then None else v
  }

  function PostRow(op: Op): Row
    requires op.Post?
  {
    Row(Sealed(op.apiKey, op.nonce), op.baseUrl, op.model, op.enabled)
  }

  // The field names the request body carried.
  function Sent(op: Op): set<Field>
    requires op.Patch?
  {
    (if op.newBaseUrl.Some? then {BaseUrl} else {})
    + (if op.newModel.Some? then {Model} else {})
    + (if op.newEnabled.Some? then {Enabled} else {})
  }

  // A column the request omitted is left alone; the key is never rotated.
  function PatchRow(row: Row, op: Op): Row
    requires op.Patch?
  {
    Row(row.apiKey,
        if op.newBaseUrl.Some? then Normalise(op.newBaseUrl.value) else row.baseUrl,
        if op.newModel.Some? then Normalise(op.newModel.value) else row.model,
        if op.newEnabled.Some? && op.newEnabled.value.Some? then op.newEnabled.value.value else row.enabled)
  }

  function PostDiffs(s: Store, op: Op): seq<Diff>
    requires op.Post?
  {
    Diffs(op.key !in s.table, None, SnapshotOf(s.table, op.key),
          Snapshot(op.baseUrl, op.model, Some(op.enabled)),
          op.sha, StripTag(LatestFieldValue(s.log, op.key, ApiKey)))
  }

  function PatchDiffs(s: Store, op: Op): seq<Diff>
    requires op.Patch? && op.key in s.table
  {
    var row := PatchRow(s.table[op.key], op);
    Diffs(false, Some(Sent(op)), SnapshotOf(s.table, op.key),
          Snapshot(row.baseUrl, row.model, Some(row.enabled)), None, None)
  }

  function Commit(s: Store, k: Key, row: Row, actor: string, ds: seq<Diff>, fault: Fault): (Store, Outcome) {
    if (fault == AtAudit && ds != []) || fault == AtCommit then (s, Failed)
    else
      var committed := Store(s.table[k := row], s.log + Stamp(k, actor, ds));
      (committed, if fault == AfterCommit then Failed else Saved(row))
  }

  function Exec(tenants: set<string>, s: Store, op: Op, fault: Fault): (Store, Outcome) {
    if fault == AtTenant then (s, Failed)
    else if op.key.0 !in tenants then (s, UnknownTenant)
    else if fault == AtFetch then (s, Failed)
    else match op
      case Post(k, _, _, _, _, _, _, actor) =>
        if fault in {AtEncrypt, AtLatest, AtMutate} then (s, Failed)
        else Commit(s, k, PostRow(op), actor, PostDiffs(s, op), fault)
      case Patch(k, _, _, _, actor) =>
        if k !in s.table then (s, NotFound)
        else if fault == AtMutate then (s, Failed)
        else Commit(s, k, PatchRow(s.table[k], op), actor, PatchDiffs(s, op), fault)
      case Delete(k, actor) =>
        if k !in s.table then (s, if fault == AtCommit then Failed else NothingToRemove)
        else if fault in {AtMutate, AtAudit, AtCommit} then (s, Failed)
        else (Store(s.table - {k}, s.log + Stamp(k, actor, [Diff(Deleted, Some(k.1), None)])), Removed)
  }

  const EMPTY := Store(map[], [])

  function Run(tenants: set<string>, steps: seq<(Op, Fault)>): Store {
    if steps == [] then EMPTY
    else Exec(tenants, Run(tenants, steps[..|steps| - 1]), steps[|steps| - 1].0, steps[|steps| - 1].1).0
  }

  // ---- Replay ----------------------------------------------------------------

  // What the log says about one row: the string representations it recorded.
  datatype Image = Image(apiKey: Option<string>, baseUrl: Option<string>, model: Option<string>,
                         enabled: Option<string>)

  const BLANK := Image(None, None, None, None)

  function GetField(img: Image, f: Field): Option<string> {
    match f
    case ApiKey => img.apiKey
    case BaseUrl => img.baseUrl
    case Model => img.model
    case Enabled => img.enabled
    case Deleted => None
  }

  function SetField(img: Image, f: Field, v: Option<string>): Image {
    match f
    case ApiKey => img.(apiKey := v)
    case BaseUrl => img.(baseUrl := v)
    case Model => img.(model := v)
    case Enabled => img.(enabled := v)
    case Deleted => img
  }

  function At(m: map<Key, Image>, k: Key): Image { if k in m then m[k] else BLANK }

  function Apply(m: map<Key, Image>, e: Entry): map<Key, Image> {
    if e.field == Deleted then m - {e.key} else m[e.key := SetField(At(m, e.key), e.field, e.newValue)]
  }

  function Replay(log: seq<Entry>): map<Key, Image> {
    if log == [] then map[] else Apply(Replay(log[..|log| - 1]), log[|log| - 1])
  }

  // What the log should say about a stored row, under a fingerprint function.
  function ImageOf(h: string -> string, row: Row): Image {
    Image(Some(Tag(h(row.apiKey.plaintext))), row.baseUrl, row.model, Some(BoolRepr(row.enabled)))
  }

  function Images(h: string -> string, table: map<Key, Row>): map<Key, Image> {
    map k | k in table :: ImageOf(h, table[k])
  }

  ghost predicate Faithful(h: string -> string, s: Store) {
    Replay(s.log) == Images(h, s.table)
  }

  // Agreement on presence and on every column except the key fingerprint.
  ghost predicate SidecarFaithful(s: Store) {
    && Replay(s.log).Keys == s.table.Keys
    && forall k <- s.table ::
      var img := Replay(s.log)[k];
      img.baseUrl == s.table[k].baseUrl && img.model == s.table[k].model
      && img.enabled == Some(BoolRepr(s.table[k].enabled))
  }

  // A POST whose caller passed the fingerprint of the key it submits, as the
  // route layer does.
  predicate Honest(h: string -> string, op: Op) {
    op.Post? ==> op.sha == Some(h(op.apiKey))
  }

  // ---- Replay of one transaction's entries ------------------------------------

  function FoldImage(img: Image, ds: seq<Diff>): Image {
    if ds == [] then img
    else SetField(FoldImage(img, ds[..|ds| - 1]), ds[|ds| - 1].field, ds[|ds| - 1].newValue)
  }

  lemma {:induction false} FoldImageConcat(img: Image, a: seq<Diff>, b: seq<Diff>)
    ensures FoldImage(img, a + b) == FoldImage(FoldImage(img, a), b)
  {
    if b == [] {
      assert a + b == a;
    } else {
      assert (a + b)[..|a + b| - 1] == a + b[..|b| - 1];
      FoldImageConcat(img, a, b[..|b| - 1]);
    }
  }

  lemma {:induction false} ReplayStamped(log: seq<Entry>, k: Key, actor: string, ds: seq<Diff>)
    requires forall d <- ds :: d.field != Deleted
    ensures Replay(log + Stamp(k, actor, ds))
         == if ds == [] then Replay(log) else Replay(log)[k := FoldImage(At(Replay(log), k), ds)]
  {
    if ds == [] {
      assert log + Stamp(k, actor, ds) == log;
    } else {
      var init := ds[..|ds| - 1];
      var es := log + Stamp(k, actor, ds);
      assert es[..|es| - 1] == log + Stamp(k, actor, init);
      ReplayStamped(log, k, actor, init);
    }
  }

  lemma FoldDiffs(img: Image, isInsert: bool, sent: Option<set<Field>>, was: Snapshot, now: Snapshot,
                  newHash: Option<string>, oldHash: Option<string>)
    ensures FoldImage(img, Diffs(isInsert, sent, was, now, newHash, oldHash))
         == FoldImage(FoldImage(FoldImage(FoldImage(img,
              KeyDiff(isInsert, newHash, oldHash)),
              FieldDiff(isInsert, sent, BaseUrl, now.baseUrl, was.baseUrl)),
              FieldDiff(isInsert, sent, Model, now.model, was.model)),
              FieldDiff(isInsert, sent, Enabled, EnabledRepr(now.enabled), EnabledRepr(was.enabled)))
  {
    var a := KeyDiff(isInsert, newHash, oldHash);
    var b := FieldDiff(isInsert, sent, BaseUrl, now.baseUrl, was.baseUrl);
    var c := FieldDiff(isInsert, sent, Model, now.model, was.model);
    var d := FieldDiff(isInsert, sent, Enabled, EnabledRepr(now.enabled), EnabledRepr(was.enabled));
    FoldImageConcat(img, a + b + c, d);
    FoldImageConcat(img, a + b, c);
    FoldImageConcat(img, a, b);
  }

  lemma FoldOne(img: Image, d: Diff)
    ensures FoldImage(img, [d]) == SetField(img, d.field, d.newValue)
  {
    assert [d][..0] == [];
  }

  lemma FoldField(img: Image, isInsert: bool, sent: Option<set<Field>>, f: Field,
                  newValue: Option<string>, oldValue: Option<string>)
    requires f != Deleted
    requires !isInsert ==> GetField(img, f) == oldValue
    requires isInsert ==> sent.None?
    requires sent.Some? && f !in sent.value ==> newValue == oldValue
    ensures FoldImage(img, FieldDiff(isInsert, sent, f, newValue, oldValue)) == SetField(img, f, newValue)
  {
    if FieldDiff(isInsert, sent, f, newValue, oldValue) != [] {
      FoldOne(img, FieldDiff(isInsert, sent, f, newValue, oldValue)[0]);
    }
  }

  lemma FoldKey(img: Image, isInsert: bool, newHash: Option<string>, oldHash: Option<string>)
    ensures FoldImage(img, KeyDiff(isInsert, newHash, oldHash))
         == if newHash.None? || (!isInsert && oldHash == newHash) then img
            else SetField(img, ApiKey, Some(Tag(newHash.value)))
  {
    var kd := KeyDiff(isInsert, newHash, oldHash);
    if kd != [] { FoldOne(img, kd[0]); }
  }

  // While the log still shows a fingerprint for a row, the newest api_key
  // entry is the one that set it: deletions in between would have cleared it.
  lemma {:induction false} LatestIsReplayed(log: seq<Entry>, k: Key)
    ensures k in Replay(log) && Replay(log)[k].apiKey.Some?
         ==> LatestFieldValue(log, k, ApiKey) == Replay(log)[k].apiKey
  {
    if log != [] {
      LatestIsReplayed(log[..|log| - 1], k);
    }
  }

  lemma StripTagged(v: string)
    ensures StripTag(Some(Tag(v))) == Some(v)
  {
    assert Tag(v)[|PREFIX|..] == v;
  }

  lemma TagInjective(a: string, b: string)
    ensures Tag(a) == Tag(b) <==> a == b
    ensures Tag(a) == "sha256:" + a
  {
    assert Tag(a)[|PREFIX|..] == a && Tag(b)[|PREFIX|..] == b;
  }

  // The columns a POST records, over what the log shows of the row.
  lemma PostImage(s: Store, op: Op)
    requires op.Post? && SidecarFaithful(s)
    ensures var img := At(Replay(s.log), op.key);
      var last := StripTag(LatestFieldValue(s.log, op.key, ApiKey));
      var key := if op.sha.None? || (op.key in s.table && last == op.sha) then img.apiKey else Some(Tag(op.sha.value));
      FoldImage(img, PostDiffs(s, op)) == Image(key, op.baseUrl, op.model, Some(BoolRepr(op.enabled)))
  {
    hide Diffs, KeyDiff, FieldDiff, FoldImage, Replay, LatestFieldValue, StripTag, Tag;
    var img := At(Replay(s.log), op.key);
    var ins := op.key !in s.table;
    var was := SnapshotOf(s.table, op.key);
    var now := Snapshot(op.baseUrl, op.model, Some(op.enabled));
    var last := StripTag(LatestFieldValue(s.log, op.key, ApiKey));
    FoldDiffs(img, ins, None, was, now, op.sha, last);
    FoldKey(img, ins, op.sha, last);
    var i1 := FoldImage(img, KeyDiff(ins, op.sha, last));
    FoldField(i1, ins, None, BaseUrl, now.baseUrl, was.baseUrl);
    var i2 := SetField(i1, BaseUrl, now.baseUrl);
    FoldField(i2, ins, None, Model, now.model, was.model);
    var i3 := SetField(i2, Model, now.model);
    FoldField(i3, ins, None, Enabled, EnabledRepr(now.enabled), EnabledRepr(was.enabled));
  }

  lemma PostDiffsShow(s: Store, op: Op)
    requires op.Post?
    ensures forall d <- PostDiffs(s, op) :: d.field != Deleted
    ensures op.key !in s.table ==> PostDiffs(s, op) != []
  {
  }

  // What replaying a committed POST yields, whatever hash the caller passed.
  lemma ReplayPost(s: Store, op: Op)
    requires op.Post? && SidecarFaithful(s)
    ensures var img := At(Replay(s.log), op.key);
      var folded := Replay(s.log + Stamp(op.key, op.actor, PostDiffs(s, op)));
      var suppressed := op.sha.None?
        || (op.key in s.table && StripTag(LatestFieldValue(s.log, op.key, ApiKey)) == op.sha);
      var key := if suppressed then img.apiKey else Some(Tag(op.sha.value));
      folded == Replay(s.log)[op.key := Image(key, op.baseUrl, op.model, Some(BoolRepr(op.enabled)))]
  {
    PostImage(s, op);
    PostDiffsShow(s, op);
    hide PostDiffs, Replay, Stamp, LatestFieldValue, StripTag, Tag;
    var m := Replay(s.log);
    ReplayStamped(s.log, op.key, op.actor, PostDiffs(s, op));
    if PostDiffs(s, op) == [] { assert m == m[op.key := m[op.key]]; }
  }

  lemma ReplayPatch(s: Store, op: Op)
    requires op.Patch? && op.key in s.table && SidecarFaithful(s)
    ensures var row := PatchRow(s.table[op.key], op);
      Replay(s.log + Stamp(op.key, op.actor, PatchDiffs(s, op)))
      == Replay(s.log)[op.key := Image(Replay(s.log)[op.key].apiKey, row.baseUrl, row.model, Some(BoolRepr(row.enabled)))]
  {
    var m := Replay(s.log);
    var k := op.key;
    var img := m[k];
    var row := PatchRow(s.table[k], op);
    var was := SnapshotOf(s.table, k);
    var now := Snapshot(row.baseUrl, row.model, Some(row.enabled));
    var ds := PatchDiffs(s, op);
    ReplayStamped(s.log, k, op.actor, ds);
    FoldDiffs(img, false, Some(Sent(op)), was, now, None, None);
    FoldField(img, false, Some(Sent(op)), BaseUrl, now.baseUrl, was.baseUrl);
    var i2 := SetField(img, BaseUrl, now.baseUrl);
    FoldField(i2, false, Some(Sent(op)), Model, now.model, was.model);
    var i3 := SetField(i2, Model, now.model);
    FoldField(i3, false, Some(Sent(op)), Enabled, EnabledRepr(now.enabled), EnabledRepr(was.enabled));
    if ds == [] {
      assert m == m[k := m[k]];
    }
  }
}
