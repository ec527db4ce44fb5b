// The in-process LRU + TTL cache of budget snapshots, oldest entry first.
module SnapshotCache {
  import opened Common

  type Key = (string, string)  // (tenant, period)

  datatype Snap = Snap(tokensUsed: nat, warnedAt: Option<int>)

  datatype Entry = Entry(key: Key, expiresAt: int, snap: Snap)

  // ---- Contents as a sequence --------------------------------------------------

  ghost predicate Distinct(es: seq<Entry>) {
    forall i, j | 0 <= i < j < |es| :: es[i].key != es[j].key
  }

  // The position of a key, or the length when it is absent.
  function IndexOf(es: seq<Entry>, k: Key): (i: nat)
    ensures i <= |es| && (i < |es| ==> es[i].key == k)
    ensures forall j | 0 <= j < i :: es[j].key != k
  {
    if es == [] then 0 else if es[0].key == k then 0 else 1 + IndexOf(es[1..], k)
  }

  predicate Has(es: seq<Entry>, k: Key) { IndexOf(es, k) < |es| }

  function Without(es: seq<Entry>, k: Key): seq<Entry> {
    var i := IndexOf(es, k);
    if i < |es| then es[..i] + es[i + 1..] else es
  }

  function Trim(es: seq<Entry>, maxsize: nat): seq<Entry> {
    if |es| > maxsize then es[|es| - maxsize..] else es
  }

  function Lookup(es: seq<Entry>, k: Key, now: int): (seq<Entry>, Option<Snap>) {
    var i := IndexOf(es, k);
    if i == |es| then (es, None)
    else if now >= es[i].expiresAt then (Without(es, k), None)
    else (Without(es, k) + [es[i]], Some(es[i].snap))
  }

  function Insert(es: seq<Entry>, k: Key, snap: Snap, now: int, ttl: int, maxsize: nat): seq<Entry> {
    Trim(Without(es, k) + [Entry(k, now + ttl, snap)], maxsize)
  }

  // ---- The cache object --------------------------------------------------------

  class TenantBudgetSnapshotCache {
    const ttl: int
    const maxsize: nat
    var entries: seq<Entry>

    ghost predicate Valid()
      reads this
    {
      Distinct(entries) && |entries| <= maxsize
    }

    constructor (ttl: int, maxsize: nat)
      ensures Valid() && this.ttl == ttl && this.maxsize == maxsize && entries == []
    {
      this.ttl, this.maxsize, entries := ttl, maxsize, [];
    }

    method Find(k: Key) returns (i: nat)
      ensures i == IndexOf(entries, k)
    {
      i := 0;
      while i < |entries| && entries[i].key != k
        invariant 0 <= i <= |entries|
        invariant forall j | 0 <= j < i :: entries[j].key != k
      {
        i := i + 1;
      }
      IndexUnique(entries, k, i);
    }

    method MoveToEnd(k: Key)
      requires Has(entries, k)
      modifies this
      ensures entries == Without(old(entries), k) + [old(entries)[IndexOf(old(entries), k)]]
    {
      var i := Find(k);
      entries := entries[..i] + entries[i + 1..] + [entries[i]];
    }

    method Get(k: Key, now: int) returns (snap: Option<Snap>)
      requires Valid()
      modifies this
      ensures Valid() && (entries, snap) == Lookup(old(entries), k, now)
    {
      var i := Find(k);
      GetDistinct(entries, k, now);
      if i == |entries| { return None; }
      var entry := entries[i];
      if now >= entry.expiresAt {
        entries := entries[..i] + entries[i + 1..];
        return None;
      }
      MoveToEnd(k);
      return Some(entry.snap);
    }

    method Put(k: Key, snap: Snap, now: int)
      requires Valid()
      modifies this
      ensures Valid() && entries == Insert(old(entries), k, snap, now, ttl, maxsize)
    {
      PutDistinct(entries, k, snap, now, ttl, maxsize);
      var entry := Entry(k, now + ttl, snap);
      var i := Find(k);
      if i < |entries| {
        MoveToEnd(k);
        entries := entries[|entries| - 1 := entry];
      } else {
        entries := entries + [entry];
      }
      ghost var full := Without(old(entries), k) + [entry];
      assert entries == full;
      while |entries| > maxsize
        invariant |entries| <= |full| && entries == full[|full| - |entries|..]
        invariant |full| > maxsize ==> |entries| >= maxsize
        invariant |full| <= maxsize ==> |entries| == |full|
      {
        entries := entries[1..];
      }
    }

    method Invalidate(k: Key)
      requires Valid()
      modifies this
      ensures Valid() && entries == Without(old(entries), k)
    {
      var i := Find(k);
      WithoutDistinct(entries, k);
      if i < |entries| { entries := entries[..i] + entries[i + 1..]; }
    }

    method Clear()
      modifies this
      ensures Valid() && entries == []
    {
      entries := [];
    }
  }

  lemma {:induction false} IndexUnique(es: seq<Entry>, k: Key, i: nat)
    requires i <= |es| && (i < |es| ==> es[i].key == k)
    requires forall j | 0 <= j < i :: es[j].key != k
    ensures IndexOf(es, k) == i
  {
  }

  lemma WithoutDistinct(es: seq<Entry>, k: Key)
    requires Distinct(es)
    ensures Distinct(Without(es, k)) && !Has(Without(es, k), k)
    ensures forall e <- Without(es, k) :: e in es && e.key != k
    ensures forall e <- es :: e.key != k ==> e in Without(es, k)
  {
    hide IndexOf;
    var i := IndexOf(es, k);
    var r := Without(es, k);
    if i < |es| {
      assert forall j | 0 <= j < |r| :: r[j] == if j < i then es[j] else es[j + 1];
      assert forall j | 0 <= j < |es| && j != i :: es[j] == r[if j < i then j else j - 1];
    }
    hide Without, Distinct;
    forall j | 0 <= j < |es| && es[j].key != k ensures es[j] in r {
      if i < |es| { assert es[j] == r[if j < i then j else j - 1]; }
    }
  }

  lemma GetDistinct(es: seq<Entry>, k: Key, now: int)
    requires Distinct(es)
    ensures Distinct(Lookup(es, k, now).0) && |Lookup(es, k, now).0| <= |es|
    ensures forall e <- Lookup(es, k, now).0 :: e in es
    ensures Lookup(es, k, now).1.Some? ==>
      exists e <- es :: e.key == k && now < e.expiresAt && e.snap == Lookup(es, k, now).1.value
  {
    WithoutDistinct(es, k);
    if Has(es, k) { assert es[IndexOf(es, k)] in es; }
  }

  lemma AppendDistinct(es: seq<Entry>, e: Entry)
    requires Distinct(es) && forall x <- es :: x.key != e.key
    ensures Distinct(es + [e])
  {
    forall i | 0 <= i < |es| ensures es[i].key != e.key { assert es[i] in es; }
  }

  lemma PutDistinct(es: seq<Entry>, k: Key, snap: Snap, now: int, ttl: int, maxsize: nat)
    requires Distinct(es)
    ensures Distinct(Insert(es, k, snap, now, ttl, maxsize)) && |Insert(es, k, snap, now, ttl, maxsize)| <= maxsize
    ensures forall e <- Insert(es, k, snap, now, ttl, maxsize) :: e == Entry(k, now + ttl, snap) || (e in es && e.key != k)
  {
    WithoutDistinct(es, k);
    hide Without;
    AppendDistinct(Without(es, k), Entry(k, now + ttl, snap));
  }

  // ---- Runs ----------------------------------------------------------------------

  datatype Op = DoGet(key: Key) | DoPut(key: Key, snap: Snap) | DoInvalidate(key: Key) | DoClear

  datatype Timed = Timed(at: int, op: Op)

  function Apply(es: seq<Entry>, t: Timed, ttl: int, maxsize: nat): seq<Entry> {
    match t.op
    case DoGet(k) => Lookup(es, k, t.at).0
    case DoPut(k, snap) => Insert(es, k, snap, t.at, ttl, maxsize)
    case DoInvalidate(k) => Without(es, k)
    case DoClear => []
  }

  function AfterOps(es: seq<Entry>, ops: seq<Timed>, ttl: int, maxsize: nat): seq<Entry> {
    if ops == [] then es
    else Apply(AfterOps(es, ops[..|ops| - 1], ttl, maxsize), ops[|ops| - 1], ttl, maxsize)
  }

  // What was last put under a key since it was last invalidated or cleared,
  // and when.
  function LastPut(ops: seq<Timed>, k: Key): Option<(Snap, int)> {
    if ops == [] then None
    else
      var last := ops[|ops| - 1];
      if last.op.DoPut? && last.op.key == k then Some((last.op.snap, last.at))
      else if last.op.DoClear? || (last.op.DoInvalidate? && last.op.key == k) then None
      else LastPut(ops[..|ops| - 1], k)
  }

  // Where the entries come from: an operation keeps those it neither replaces
  // nor drops, and a put adds its own.
  lemma ApplyEntries(es: seq<Entry>, t: Timed, ttl: int, maxsize: nat)
    requires Distinct(es) && |es| <= maxsize
    ensures var es' := Apply(es, t, ttl, maxsize);
      && Distinct(es') && |es'| <= maxsize
      && forall e <- es' ::
        || (t.op.DoPut? && e == Entry(t.op.key, t.at + ttl, t.op.snap))
        || (e in es && !t.op.DoClear? && (t.op.DoGet? || t.op.key != e.key))
  {
    match t.op
    case DoGet(k) => GetDistinct(es, k, t.at);
    case DoPut(k, snap) => PutDistinct(es, k, snap, t.at, ttl, maxsize);
    case DoInvalidate(k) => WithoutDistinct(es, k);
    case DoClear =>
  }

  // Every entry ever held is the last put of its key, and there are never more
  // than maxsize.
  lemma {:induction false} EntriesAreLastPuts(ops: seq<Timed>, ttl: int, maxsize: nat)
    ensures var es := AfterOps([], ops, ttl, maxsize);
      && Distinct(es) && |es| <= maxsize
      && forall e <- es :: LastPut(ops, e.key) == Some((e.snap, e.expiresAt - ttl))
  {
    hide Apply;
    if ops != [] {
      EntriesAreLastPuts(ops[..|ops| - 1], ttl, maxsize);
      ApplyEntries(AfterOps([], ops[..|ops| - 1], ttl, maxsize), ops[|ops| - 1], ttl, maxsize);
    }
  }

  // A lookup keeps its key exactly if it hits, as the newest entry; any other entry
  // stays, in the same order.
  lemma LookupKeeps(es: seq<Entry>, k: Key, now: int)
    requires Distinct(es)
    ensures var (es', hit) := Lookup(es, k, now);
      && (Has(es', k) <==> hit.Some?)
      && (hit.Some? ==> es' != [] && es'[|es'| - 1].key == k && es'[..|es'| - 1] == Without(es, k))
      && (hit.None? ==> es' == Without(es, k))
      && (hit.Some? <==> exists e <- es :: e.key == k && now < e.expiresAt)
  {
    WithoutDistinct(es, k);
    var i := IndexOf(es, k);
    if e :| e in es && e.key == k {
      var j :| 0 <= j < |es| && es[j] == e;
      assert j == i;
    }
    if i < |es| && now < es[i].expiresAt {
      assert es[i] in es;
      IndexUnique(Lookup(es, k, now).0, k, |Without(es, k)|);
    }
  }

  // A hit returns the last put value, and it is younger than the TTL.
  lemma HitIsFresh(ops: seq<Timed>, ttl: int, maxsize: nat, k: Key, now: int)
    requires Lookup(AfterOps([], ops, ttl, maxsize), k, now).1.Some?
    ensures LastPut(ops, k).Some? && LastPut(ops, k).value.0 == Lookup(AfterOps([], ops, ttl, maxsize), k, now).1.value
    ensures now - LastPut(ops, k).value.1 < ttl
  {
    EntriesAreLastPuts(ops, ttl, maxsize);
    var es := AfterOps([], ops, ttl, maxsize);
    assert es[IndexOf(es, k)] in es;
  }

  // The keys a run touches: puts, and gets that hit.
  function Touched(es: seq<Entry>, ops: seq<Timed>, ttl: int, maxsize: nat): set<Key> {
    if ops == [] then {}
    else
      var init := ops[..|ops| - 1];
      var last := ops[|ops| - 1];
      var hit := last.op.DoPut?
        || (last.op.DoGet? && Lookup(AfterOps(es, init, ttl, maxsize), last.op.key, last.at).1.Some?);
      Touched(es, init, ttl, maxsize) + if hit then {last.op.key} else {}
  }

  // The key is held, and everything more recent than it is among these keys.
  ghost predicate HeldAbove(es: seq<Entry>, k: Key, newer: set<Key>) {
    Has(es, k) && forall j | IndexOf(es, k) < j < |es| :: es[j].key in newer
  }

  lemma DropOther(es: seq<Entry>, k: Key, other: Key, newer: set<Key>)
    requires Distinct(es) && HeldAbove(es, k, newer) && k != other
    ensures HeldAbove(Without(es, other), k, newer)
  {
    var i := IndexOf(es, k);
    var p := IndexOf(es, other);
    var r := Without(es, other);
    if p < |es| {
      assert forall j | 0 <= j < |r| :: r[j] == if j < p then es[j] else es[j + 1];
      IndexUnique(r, k, if p < i then i - 1 else i);
    }
  }

  lemma AppendOther(es: seq<Entry>, k: Key, e: Entry, newer: set<Key>)
    requires HeldAbove(es, k, newer) && e.key != k
    ensures HeldAbove(es + [e], k, newer + {e.key})
  {
    IndexUnique(es + [e], k, IndexOf(es, k));
  }

  // Distinct keys drawn from a set are no more than the set.
  lemma {:induction false} FewerThan(es: seq<Entry>, keys: set<Key>)
    requires Distinct(es) && forall e <- es :: e.key in keys
    ensures |es| <= |keys|
  {
    if es != [] {
      var init := es[..|es| - 1];
      var last := es[|es| - 1].key;
      forall e | e in init ensures e.key in keys - {last} {
        var j :| 0 <= j < |init| && init[j] == e;
        assert es[j] == e;
      }
      FewerThan(init, keys - {last});
    }
  }

  lemma TrimKeeps(es: seq<Entry>, k: Key, newer: set<Key>, maxsize: nat)
    requires Distinct(es) && HeldAbove(es, k, newer) && |newer| < maxsize
    ensures HeldAbove(Trim(es, maxsize), k, newer)
  {
    var i := IndexOf(es, k);
    FewerThan(es[i + 1..], newer);
    if |es| > maxsize {
      IndexUnique(Trim(es, maxsize), k, i - (|es| - maxsize));
    }
  }

  predicate Elsewhere(op: Op, k: Key) { !op.DoClear? && op.key != k }

  lemma GetKeeps(es: seq<Entry>, k: Key, other: Key, now: int, newer: set<Key>)
    requires Distinct(es) && HeldAbove(es, k, newer) && k != other
    ensures var (es', hit) := Lookup(es, other, now);
      HeldAbove(es', k, if hit.Some? then newer + {other} else newer)
  {
    DropOther(es, k, other, newer);
    if Lookup(es, other, now).1.Some? {
      AppendOther(Without(es, other), k, es[IndexOf(es, other)], newer);
    }
  }

  lemma PutKeeps(es: seq<Entry>, k: Key, other: Key, snap: Snap, now: int, ttl: int, maxsize: nat, newer: set<Key>)
    requires Distinct(es) && HeldAbove(es, k, newer) && k != other && |newer + {other}| < maxsize
    ensures HeldAbove(Insert(es, other, snap, now, ttl, maxsize), k, newer + {other})
  {
    var rest := Without(es, other);
    var e := Entry(other, now + ttl, snap);
    DropOther(es, k, other, newer);
    WithoutDistinct(es, other);
    AppendOther(rest, k, e, newer);
    AppendDistinct(rest, e);
    hide IndexOf, Without, Trim;
    TrimKeeps(rest + [e], k, newer + {other}, maxsize);
  }

  lemma StepKeeps(es: seq<Entry>, t: Timed, k: Key, newer: set<Key>, ttl: int, maxsize: nat)
    requires Distinct(es) && HeldAbove(es, k, newer) && Elsewhere(t.op, k)
    requires |newer + Touched(es, [t], ttl, maxsize)| < maxsize
    ensures HeldAbove(Apply(es, t, ttl, maxsize), k, newer + Touched(es, [t], ttl, maxsize))
  {
    assert [t][..0] == [];
    match t.op
    case DoGet(other) =>
      GetKeeps(es, k, other, t.at, newer);
    case DoPut(other, snap) =>
      PutKeeps(es, k, other, snap, t.at, ttl, maxsize, newer);
    case DoInvalidate(other) =>
      DropOther(es, k, other, newer);
  }

  lemma {:induction false} RunKeeps(es: seq<Entry>, ops: seq<Timed>, k: Key, ttl: int, maxsize: nat)
    requires Distinct(es) && |es| <= maxsize && HeldAbove(es, k, {}) && forall t <- ops :: Elsewhere(t.op, k)
    requires |Touched(es, ops, ttl, maxsize)| < maxsize
    ensures Distinct(AfterOps(es, ops, ttl, maxsize)) && |AfterOps(es, ops, ttl, maxsize)| <= maxsize
    ensures HeldAbove(AfterOps(es, ops, ttl, maxsize), k, Touched(es, ops, ttl, maxsize))
  {
    if ops != [] {
      var init := ops[..|ops| - 1];
      var t := ops[|ops| - 1];
      var before := Touched(es, init, ttl, maxsize);
      var now := Touched(es, ops, ttl, maxsize);
      assert before <= now;
      Smaller(before, now);
      RunKeeps(es, init, k, ttl, maxsize);
      var mid := AfterOps(es, init, ttl, maxsize);
      assert [t][..0] == [];
      assert now == before + Touched(mid, [t], ttl, maxsize);
      StepKeeps(mid, t, k, before, ttl, maxsize);
      ApplyEntries(mid, t, ttl, maxsize);
    }
  }

  lemma {:induction false} Smaller(a: set<Key>, b: set<Key>)
    requires a <= b
    ensures |a| <= |b|
  {
    assert b == a + (b - a);
  }

  lemma {:induction false} AfterOpsConcat(es: seq<Entry>, a: seq<Timed>, b: seq<Timed>, ttl: int, maxsize: nat)
    ensures AfterOps(es, a + b, ttl, maxsize) == AfterOps(AfterOps(es, a, ttl, maxsize), b, ttl, maxsize)
  {
    if b == [] {
      assert a + b == a;
    } else {
      assert (a + b)[..|a + b| - 1] == a + b[..|b| - 1];
      AfterOpsConcat(es, a, b[..|b| - 1], ttl, maxsize);
    }
  }

  // What a put, or a get that hits, touches becomes the newest entry.
  lemma TouchIsNewest(es: seq<Entry>, t: Timed, k: Key, ttl: int, maxsize: nat)
    requires Distinct(es) && maxsize > 0
    requires t.op == DoGet(k) || (t.op.DoPut? && t.op.key == k)
    requires t.op.DoGet? ==> Lookup(es, k, t.at).1.Some?
    ensures HeldAbove(Apply(es, t, ttl, maxsize), k, {})
  {
    WithoutDistinct(es, k);
    var es' := Apply(es, t, ttl, maxsize);
    assert es' != [] && es'[|es'| - 1].key == k;
    if t.op.DoPut? {
      PutDistinct(es, k, t.op.snap, t.at, ttl, maxsize);
    } else {
      GetDistinct(es, k, t.at);
    }
    hide Without, Lookup, Insert, Apply;
    IndexUnique(es', k, |es'| - 1);
  }

  // A key last touched by a put, or by a get that hit, is still served as long
  // as it has not expired and fewer than maxsize other keys were touched since.
  lemma {:induction false} LruGuarantee(pre: seq<Timed>, touch: Timed, post: seq<Timed>,
                                        ttl: int, maxsize: nat, k: Key, now: int)
    requires touch.op == DoGet(k) || (touch.op.DoPut? && touch.op.key == k)
    requires touch.op.DoGet? ==> Lookup(AfterOps([], pre, ttl, maxsize), k, touch.at).1.Some?
    requires forall t <- post :: Elsewhere(t.op, k)
    requires |Touched(AfterOps([], pre + [touch], ttl, maxsize), post, ttl, maxsize)| < maxsize
    requires LastPut(pre + [touch] + post, k).Some? && now < LastPut(pre + [touch] + post, k).value.1 + ttl
    ensures Lookup(AfterOps([], pre + [touch] + post, ttl, maxsize), k, now).1
         == Some(LastPut(pre + [touch] + post, k).value.0)
  {
    hide Apply, Touched, LastPut, Without;
    var all := pre + [touch] + post;
    assert (pre + [touch])[..|pre|] == pre;
    EntriesAreLastPuts(pre, ttl, maxsize);
    EntriesAreLastPuts(pre + [touch], ttl, maxsize);
    TouchIsNewest(AfterOps([], pre, ttl, maxsize), touch, k, ttl, maxsize);
    RunKeeps(AfterOps([], pre + [touch], ttl, maxsize), post, k, ttl, maxsize);
    AfterOpsConcat([], pre + [touch], post, ttl, maxsize);
    var final := AfterOps([], all, ttl, maxsize);
    EntriesAreLastPuts(all, ttl, maxsize);
    assert final[IndexOf(final, k)] in final;
  }
}
