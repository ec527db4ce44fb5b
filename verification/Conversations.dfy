// Conversations, their state machine and its repository, as values, and the
// service as a system of concurrent calls. Claiming is one locked step; every
// other transition reads the row, then writes all of it later, however stale.
module Conversations {
  import opened Common

  datatype Status = Open | Pending | Closed

  datatype Conv = Conv(tenant: string, channel: string, customer: string,
                       status: Status, agent: Option<string>, ai: bool, lastActivity: int)

  // Rows by conversation id.
  type Db = map<string, Conv>

  // ---- Repository ------------------------------------------------------------

  predicate SamePair(c: Conv, channel: string, customer: string) {
    c.channel == channel && c.customer == customer
  }

  predicate IsOpenFor(db: Db, id: string, channel: string, customer: string) {
    id in db && SamePair(db[id], channel, customer) && db[id].status != Closed
  }

  // The partial unique index: one conversation that is not closed per pair.
  ghost predicate IndexOk(db: Db) {
    forall i, j | i in db && j in db && i != j && db[i].status != Closed && db[j].status != Closed ::
      !SamePair(db[i], db[j].channel, db[j].customer)
  }

  // Would the index reject this row under this id?
  predicate Collides(db: Db, id: string, c: Conv) {
    c.status != Closed && exists j <- db :: j != id && IsOpenFor(db, j, c.channel, c.customer)
  }

  // The index leaves at most one match, so the most recent is any match.
  ghost function FindOpen(db: Db, channel: string, customer: string): Option<string> {
    if exists id :: IsOpenFor(db, id, channel, customer)
    then var id :| IsOpenFor(db, id, channel, customer); Some(id)
    else None
  }

  // The four columns an update writes.
  datatype Write = Write(status: Status, agent: Option<string>, ai: bool, at: int)

  function Written(c: Conv, w: Write): Conv {
    c.(status := w.status, agent := w.agent, ai := w.ai, lastActivity := w.at)
  }

  datatype UpdateResult = Updated(db: Db) | NoSuchRow | IntegrityError

  function Update(db: Db, id: string, w: Write): UpdateResult {
    if id !in db then NoSuchRow
    else if Collides(db, id, Written(db[id], w)) then IntegrityError
    else Updated(db[id := Written(db[id], w)])
  }

  // PENDING rows nobody owns: the queue agents claim from.
  function PendingQueue(db: Db, tenant: string): set<string> {
    set id <- db | db[id].tenant == tenant && db[id].status == Pending && db[id].agent == None
  }

  // ---- Service transitions ---------------------------------------------------

  datatype Transition = Assign(agentId: string) | Escalate | ReturnToAi | Close

  // What a transition writes, given the row it read.
  function Desired(t: Transition, read: Conv, at: int): Write {
    match t
    case Assign(a) => Write(Pending, Some(a), false, at)
    case Escalate => Write(Pending, None, false, at)
    case ReturnToAi => Write(Open, None, true, at)
    case Close => Write(Closed, read.agent, false, at)
  }

  // ---- Concurrent calls ------------------------------------------------------

  datatype Call =
    | Writing(t: Transition, id: string, w: Write)                             // row read, write to come
    | Inserting(tenant: string, channel: string, customer: string)             // nothing found
    | Refinding(tenant: string, channel: string, customer: string)             // the insert hit the index
    | Touching(id: string, channel: string, customer: string)                  // found, activity to be touched

  datatype Sys = Sys(db: Db, calls: map<nat, Call>)

  // One atomic step. A call number that is not in the phase a step needs, or
  // is already taken, makes that step a no-op: every sequence is a run.
  datatype Label =
    | BeginTransition(call: nat, t: Transition, tenant: string, id: string, at: int)
    | FinishTransition(call: nat)
    | Claim(tenant: string, id: string, agentId: string, at: int)
    | BeginInbound(call: nat, tenant: string, channel: string, customer: string)
    | Insert(call: nat, newId: string, at: int)
    | Refind(call: nat)
    | Touch(call: nat, at: int)

  datatype Out =
    | Quiet
    | Wrote(id: string, t: Transition)
    | Rejected(id: string)
    | Claimed(id: string)
    | NotClaimable
    | Missing
    | Created(id: string, channel: string, customer: string)
    | Returned(id: string, channel: string, customer: string)
    | CrossTenant
    | Raised(channel: string, customer: string)

  function Done(s: Sys, call: nat): Sys {
    s.(calls := s.calls - {call})
  }

  // A ULID is new, so an insert can only collide on the partial index.
  ghost function Step(s: Sys, l: Label): (Sys, Out) {
    match l
    case BeginTransition(call, t, tenant, id, at) =>
      if call in s.calls then (s, Quiet)
      else if id !in s.db || s.db[id].tenant != tenant then (s, Missing)
      else (s.(calls := s.calls[call := Writing(t, id, Desired(t, s.db[id], at))]), Quiet)
    case FinishTransition(call) =>
      if call !in s.calls || !s.calls[call].Writing? then (s, Quiet)
      else
        var c := s.calls[call];
        var r := Update(s.db, c.id, c.w);
        if r.Updated? then (Done(s, call).(db := r.db), Wrote(c.id, c.t))
        else (Done(s, call), if r.NoSuchRow? then Missing else Rejected(c.id))
    case Claim(tenant, id, agentId, at) =>
      if id !in s.db || s.db[id].tenant != tenant then (s, Missing)
      else if s.db[id].status != Pending || s.db[id].agent != None then (s, NotClaimable)
      else (s.(db := s.db[id := s.db[id].(agent := Some(agentId), ai := false, lastActivity := at)]), Claimed(id))
    case BeginInbound(call, tenant, channel, customer) =>
      if call in s.calls then (s, Quiet)
      else
        var found := FindOpen(s.db, channel, customer);
        if found.None? then (s.(calls := s.calls[call := Inserting(tenant, channel, customer)]), Quiet)
        else if s.db[found.value].tenant != tenant then (s, CrossTenant)
        else (s.(calls := s.calls[call := Touching(found.value, channel, customer)]), Quiet)
    case Insert(call, newId, at) =>
      if call !in s.calls || !s.calls[call].Inserting? || newId in s.db then (s, Quiet)
      else
        var c := s.calls[call];
        var row := Conv(c.tenant, c.channel, c.customer, Open, None, true, at);
        if Collides(s.db, newId, row)
        then (s.(calls := s.calls[call := Refinding(c.tenant, c.channel, c.customer)]), Quiet)
        else (Done(s, call).(db := s.db[newId := row]), Created(newId, c.channel, c.customer))
    case Refind(call) =>
      if call !in s.calls || !s.calls[call].Refinding? then (s, Quiet)
      else
        var c := s.calls[call];
        var found := FindOpen(s.db, c.channel, c.customer);
        if found.Some? && s.db[found.value].tenant == c.tenant
        then (s.(calls := s.calls[call := Touching(found.value, c.channel, c.customer)]), Quiet)
        else (Done(s, call), Raised(c.channel, c.customer))
    case Touch(call, at) =>
      if call !in s.calls || !s.calls[call].Touching? then (s, Quiet)
      else
        var c := s.calls[call];
        var db := if c.id in s.db then s.db[c.id := s.db[c.id].(lastActivity := at)] else s.db;
        (Done(s, call).(db := db), Returned(c.id, c.channel, c.customer))
  }

  // The state after a run, and what its i-th step reported.
  ghost function After(s: Sys, run: seq<Label>): Sys {
    if run == [] then s else Step(After(s, run[..|run| - 1]), run[|run| - 1]).0
  }

  ghost function OutAt(s: Sys, run: seq<Label>, i: nat): Out
    requires i < |run|
  {
    Step(After(s, run[..i]), run[i]).1
  }

  lemma AfterStep(s: Sys, run: seq<Label>, i: nat)
    requires i < |run|
    ensures After(s, run[..i + 1]) == Step(After(s, run[..i]), run[i]).0
  {
    assert run[..i + 1][..i] == run[..i];
  }

  // ---- Invariants of every reachable state ------------------------------------

  predicate LockStep(status: Status, agent: Option<string>, ai: bool) {
    (ai <==> status == Open) && (status == Open ==> agent == None)
  }

  // A pending write agrees with its transition, whatever row was read for it.
  predicate Fits(t: Transition, w: Write) {
    && LockStep(w.status, w.agent, w.ai)
    && match t
       case Assign(a) => w.status == Pending && w.agent == Some(a)
       case Escalate => w.status == Pending && w.agent == None
       case ReturnToAi => w.status == Open
       case Close => w.status == Closed
  }

  // AI handling holds exactly when a conversation is open, an open one has no
  // agent, and no pair has two conversations that are not closed.
  ghost predicate Inv(s: Sys) {
    && IndexOk(s.db)
    && (forall id <- s.db :: LockStep(s.db[id].status, s.db[id].agent, s.db[id].ai))
    && (forall n <- s.calls :: s.calls[n].Writing? ==> Fits(s.calls[n].t, s.calls[n].w))
  }

  lemma StepKeepsInv(s: Sys, l: Label)
    requires Inv(s)
    ensures Inv(Step(s, l).0)
  {
    hide IndexOk, Collides;
    match l
    case FinishTransition(call) =>
      if Step(s, l).1.Wrote? { UpdateKeepsIndex(s.db, s.calls[call].id, s.calls[call].w); }
    case Insert(call, newId, at) =>
      if Step(s, l).1.Created? {
        var c := s.calls[call];
        InsertKeepsIndex(s.db, newId, Conv(c.tenant, c.channel, c.customer, Open, None, true, at));
      }
    case Claim(_, id, agentId, at) =>
      if id in s.db { TouchKeepsIndex(s.db, id, s.db[id].(agent := Some(agentId), ai := false, lastActivity := at)); }
    case Touch(call, at) =>
      if call in s.calls && s.calls[call].Touching? && s.calls[call].id in s.db {
        TouchKeepsIndex(s.db, s.calls[call].id, s.db[s.calls[call].id].(lastActivity := at));
      }
    case _ =>
  }

  lemma TouchKeepsIndex(db: Db, id: string, c: Conv)
    requires IndexOk(db) && id in db && SamePair(c, db[id].channel, db[id].customer) && c.status == db[id].status
    ensures IndexOk(db[id := c])
  {
  }

  lemma InsertKeepsIndex(db: Db, id: string, c: Conv)
    requires IndexOk(db) && !Collides(db, id, c)
    ensures IndexOk(db[id := c])
  {
    forall j | j in db && j != id && db[j].status != Closed && c.status != Closed
      ensures !SamePair(c, db[j].channel, db[j].customer)
    {
      assert !IsOpenFor(db, j, c.channel, c.customer);
    }
  }

  lemma UpdateKeepsIndex(db: Db, id: string, w: Write)
    requires IndexOk(db) && Update(db, id, w).Updated?
    ensures IndexOk(Update(db, id, w).db)
  {
    InsertKeepsIndex(db, id, Written(db[id], w));
  }

  lemma {:induction false} Reachable(s: Sys, run: seq<Label>)
    requires Inv(s)
    ensures Inv(After(s, run))
  {
    if run != [] {
      Reachable(s, run[..|run| - 1]);
      StepKeepsInv(After(s, run[..|run| - 1]), run[|run| - 1]);
    }
  }

  // ---- What a step leaves ------------------------------------------------------

  // The columns each transition leaves, the time of writing aside.
  predicate Leaves(t: Transition, c: Conv) {
    match t
    case Assign(a) => c.status == Pending && c.agent == Some(a) && !c.ai
    case Escalate => c.status == Pending && c.agent == None && !c.ai
    case ReturnToAi => c.status == Open && c.agent == None && c.ai
    case Close => c.status == Closed && !c.ai
  }

  // By what a step reports: which row it changes, in which columns, and that no
  // other row changes.
  lemma StepChanges(s: Sys, l: Label)
    requires Inv(s)
    ensures var (s', o) := Step(s, l);
      match o
      case Wrote(id, t) =>
        && id in s.db && s'.db == s.db[id := s'.db[id]] && Leaves(t, s'.db[id])
        && s'.db[id].tenant == s.db[id].tenant && SamePair(s'.db[id], s.db[id].channel, s.db[id].customer)
      case Claimed(id) =>
        && id in s.db && l.Claim?
        && s'.db == s.db[id := s.db[id].(agent := Some(l.agentId), ai := false, lastActivity := l.at)]
      case Created(id, channel, customer) =>
        && id !in s.db && s'.db == s.db[id := s'.db[id]]
        && SamePair(s'.db[id], channel, customer) && s'.db[id].status == Open && s'.db[id].agent == None && s'.db[id].ai
      case Returned(id, _, _) =>
        s'.db == s.db || (id in s.db && l.Touch? && s'.db == s.db[id := s.db[id].(lastActivity := l.at)])
      case _ => s'.db == s.db
  {
  }

  // The call a step belongs to.
  function CallOf(l: Label): set<nat> {
    match l
    case BeginTransition(call, _, _, _, _) => {call}
    case FinishTransition(call) => {call}
    case Claim(_, _, _, _) => {}
    case BeginInbound(call, _, _, _) => {call}
    case Insert(call, _, _) => {call}
    case Refind(call) => {call}
    case Touch(call, _) => {call}
  }

  // No step touches another call.
  lemma OtherCallsStay(s: Sys, l: Label, n: nat)
    requires n !in CallOf(l)
    ensures n in Step(s, l).0.calls <==> n in s.calls
    ensures n in s.calls ==> Step(s, l).0.calls[n] == s.calls[n]
  {
  }

  // A transition begins exactly when its tenant has the row, and is then about to
  // write what it leaves; one that closes keeps the agent it read.
  lemma BeginAnswers(s: Sys, call: nat, t: Transition, tenant: string, id: string, at: int)
    requires call !in s.calls
    ensures var (s', o) := Step(s, BeginTransition(call, t, tenant, id, at));
      && (o == Missing <==> id !in s.db || s.db[id].tenant != tenant)
      && (o == Missing ==> s' == s)
      && (o != Missing ==>
            && o == Quiet && s'.db == s.db && call in s'.calls && s'.calls[call].Writing?
            && s'.calls[call].id == id && s'.calls[call].t == t
            && Leaves(t, Written(s.db[id], s'.calls[call].w)) && s'.calls[call].w.at == at
            && (t.Close? ==> s'.calls[call].w.agent == s.db[id].agent))
  {
  }

  // A write is rejected exactly when another conversation of the pair is not closed
  // and this one would not be either; it is lost exactly when the row is gone.
  lemma WriteAnswers(s: Sys, call: nat)
    requires call in s.calls && s.calls[call].Writing?
    ensures var o := Step(s, FinishTransition(call)).1; var id := s.calls[call].id;
      && (o == Missing <==> id !in s.db)
      && (o == Rejected(id) <==>
            && id in s.db && s.calls[call].w.status != Closed
            && exists j :: j != id && IsOpenFor(s.db, j, s.db[id].channel, s.db[id].customer))
      && (o == Missing || o == Rejected(id) || o == Wrote(id, s.calls[call].t))
  {
  }

  // An inbound call that found nothing creates exactly if there still is nothing,
  // and otherwise looks again.
  lemma InsertAnswers(s: Sys, call: nat, newId: string, at: int)
    requires call in s.calls && s.calls[call].Inserting? && newId !in s.db
    ensures var c := s.calls[call]; var (s', o) := Step(s, Insert(call, newId, at));
      && (o == Created(newId, c.channel, c.customer) <==> !exists id :: IsOpenFor(s.db, id, c.channel, c.customer))
      && (o.Created? ==> s'.db[newId].tenant == c.tenant && call !in s'.calls)
      && (!o.Created? ==> s'.calls[call] == Refinding(c.tenant, c.channel, c.customer))
  {
  }

  // An inbound call is turned away exactly when the pair's conversation that is not
  // closed is another tenant's.
  lemma ForeignIff(s: Sys, call: nat, tenant: string, channel: string, customer: string)
    requires Inv(s) && call !in s.calls
    ensures Step(s, BeginInbound(call, tenant, channel, customer)).1 == CrossTenant
       <==> exists id :: IsOpenFor(s.db, id, channel, customer) && s.db[id].tenant != tenant
  {
    if id :| IsOpenFor(s.db, id, channel, customer) {
      OpenIsUnique(s.db, id, FindOpen(s.db, channel, customer).value, channel, customer);
    }
  }

  // ---- Claims ----------------------------------------------------------------

  // A claim succeeds exactly when the conversation is in the tenant's queue.
  lemma ClaimTakesFromQueue(s: Sys, tenant: string, id: string, agentId: string, at: int)
    ensures Step(s, Claim(tenant, id, agentId, at)).1 == Claimed(id) <==> id in PendingQueue(s.db, tenant)
    ensures Step(s, Claim(tenant, id, agentId, at)).1 == Claimed(id)
        ==> forall t :: id !in PendingQueue(Step(s, Claim(tenant, id, agentId, at)).0.db, t)
    ensures Step(s, Claim(tenant, id, agentId, at)).1 == Missing <==> id !in s.db || s.db[id].tenant != tenant
  {
  }

  predicate Queued(db: Db, id: string) {
    id in db && db[id].status == Pending && db[id].agent == None
  }

  lemma QueuedBy(s: Sys, l: Label, id: string)
    requires Inv(s) && Queued(Step(s, l).0.db, id)
    ensures !Queued(s.db, id) ==> Step(s, l).1 == Wrote(id, Escalate)
    ensures Step(s, l).1 != Claimed(id)
    ensures Step(s, l).1.Wrote? && Step(s, l).1.id == id ==> Step(s, l).1.t == Escalate
  {
  }

  // A conversation that enters the queue during a run was put there by an
  // escalation, after which nothing claimed it or moved it elsewhere.
  lemma {:induction false} QueuedByEscalation(s: Sys, run: seq<Label>, id: string, i: nat, j: nat) returns (m: nat)
    requires Inv(s) && i <= j <= |run|
    requires !Queued(After(s, run[..i]).db, id) && Queued(After(s, run[..j]).db, id)
    ensures i <= m < j && OutAt(s, run, m) == Wrote(id, Escalate)
    ensures forall n | m < n < j :: Untaken(OutAt(s, run, n), id)
  {
    hide Step;
    var before := After(s, run[..j - 1]);
    AfterStep(s, run, j - 1);
    Reachable(s, run[..j - 1]);
    QueuedBy(before, run[j - 1], id);
    if Queued(before.db, id) {
      m := QueuedByEscalation(s, run, id, i, j - 1);
    } else {
      m := j - 1;
    }
  }

  predicate Untaken(o: Out, id: string) {
    o != Claimed(id) && (o.Wrote? && o.id == id ==> o.t == Escalate)
  }

  lemma ClaimTakes(s: Sys, l: Label, id: string)
    requires Step(s, l).1 == Claimed(id)
    ensures Queued(s.db, id) && !Queued(Step(s, l).0.db, id)
  {
  }

  // In every interleaving with stale transitions, between two successful claims
  // of one conversation lies an escalation, with no claim and no other
  // transition of it between that escalation and the second claim.
  lemma ClaimExclusivity(s: Sys, run: seq<Label>, id: string, i: nat, j: nat)
    requires Inv(s) && i < j < |run|
    requires OutAt(s, run, i) == Claimed(id) && OutAt(s, run, j) == Claimed(id)
    ensures exists m :: i < m < j && OutAt(s, run, m) == Wrote(id, Escalate)
                     && forall n | m < n < j :: Untaken(OutAt(s, run, n), id)
  {
    AfterStep(s, run, i);
    ClaimTakes(After(s, run[..i]), run[i], id);
    ClaimTakes(After(s, run[..j]), run[j], id);
    hide Step;
    var m := QueuedByEscalation(s, run, id, i + 1, j);
  }

  // ---- Concurrent find-or-create ----------------------------------------------

  // A channel belongs to one tenant; here, every inbound call of this pair and
  // every conversation it ever had is that tenant's.
  ghost predicate OwnedPair(s: Sys, tenant: string, channel: string, customer: string) {
    && Inv(s)
    && (forall id <- s.db :: SamePair(s.db[id], channel, customer) ==> s.db[id].tenant == tenant)
    && (forall n <- s.calls :: OwnedCall(s.db, s.calls[n], tenant, channel, customer))
  }

  ghost predicate OwnedCall(db: Db, c: Call, tenant: string, channel: string, customer: string) {
    match c
    case Inserting(t, ch, cu) => ch == channel && cu == customer ==> t == tenant
    case Refinding(t, ch, cu) => ch == channel && cu == customer ==>
      t == tenant && exists id :: IsOpenFor(db, id, channel, customer)
    case Touching(id, ch, cu) => ch == channel && cu == customer ==> IsOpenFor(db, id, channel, customer)
    case Writing(_, _, _) => true
  }

  lemma CallStaysOwned(db: Db, db': Db, c: Call, tenant: string, channel: string, customer: string)
    requires OwnedCall(db, c, tenant, channel, customer)
    requires forall id | IsOpenFor(db, id, channel, customer) :: IsOpenFor(db', id, channel, customer)
    ensures OwnedCall(db', c, tenant, channel, customer)
  {
  }

  predicate SameTenantInbound(l: Label, tenant: string, channel: string, customer: string) {
    l.BeginInbound? && l.channel == channel && l.customer == customer ==> l.tenant == tenant
  }

  // Does this step close a conversation of the pair?
  predicate ClosesPair(db: Db, o: Out, channel: string, customer: string) {
    o.Wrote? && o.t == Close && o.id in db && SamePair(db[o.id], channel, customer)
  }

  ghost predicate InboundRun(s: Sys, run: seq<Label>, tenant: string, channel: string, customer: string) {
    forall i | 0 <= i < |run| ::
      && SameTenantInbound(run[i], tenant, channel, customer)
      && !ClosesPair(After(s, run[..i]).db, OutAt(s, run, i), channel, customer)
  }

  // The conversation an inbound call of the pair got, if this step ends one.
  predicate Answers(o: Out, id: string, channel: string, customer: string) {
    o == Returned(id, channel, customer) || o == Created(id, channel, customer)
  }

  lemma OpenIsUnique(db: Db, i: string, j: string, channel: string, customer: string)
    requires IndexOk(db) && IsOpenFor(db, i, channel, customer) && IsOpenFor(db, j, channel, customer)
    ensures i == j
  {
  }

  lemma PairStaysOpen(s: Sys, l: Label, channel: string, customer: string)
    requires Inv(s) && !ClosesPair(s.db, Step(s, l).1, channel, customer)
    ensures forall id | IsOpenFor(s.db, id, channel, customer) :: IsOpenFor(Step(s, l).0.db, id, channel, customer)
  {
  }

  lemma PairKeepsTenant(s: Sys, l: Label, tenant: string, channel: string, customer: string)
    requires OwnedPair(s, tenant, channel, customer)
    ensures var db := Step(s, l).0.db;
      forall id <- db :: SamePair(db[id], channel, customer) ==> db[id].tenant == tenant
  {
    hide Inv, Collides;
    match l
    case BeginTransition(_, _, _, _, _) =>
    case FinishTransition(_) =>
    case Claim(_, _, _, _) =>
    case BeginInbound(_, _, _, _) =>
    case Insert(call, _, _) =>
      if call in s.calls { assert OwnedCall(s.db, s.calls[call], tenant, channel, customer); }
    case Refind(_) =>
    case Touch(_, _) =>
  }

  lemma PairStaysOwned(s: Sys, l: Label, tenant: string, channel: string, customer: string)
    requires OwnedPair(s, tenant, channel, customer) && SameTenantInbound(l, tenant, channel, customer)
    requires forall id | IsOpenFor(s.db, id, channel, customer) :: IsOpenFor(Step(s, l).0.db, id, channel, customer)
    ensures OwnedPair(Step(s, l).0, tenant, channel, customer)
  {
    StepKeepsInv(s, l);
    hide IndexOk, Inv, Collides;
    var s' := Step(s, l).0;
    forall n | n in s'.calls && n in s.calls && s'.calls[n] == s.calls[n]
      ensures OwnedCall(s'.db, s'.calls[n], tenant, channel, customer)
    {
      CallStaysOwned(s.db, s'.db, s.calls[n], tenant, channel, customer);
    }
    PairKeepsTenant(s, l, tenant, channel, customer);
    match l
    case BeginTransition(_, _, _, _, _) =>
    case FinishTransition(_) =>
    case Claim(_, _, _, _) =>
    case BeginInbound(_, _, _, _) =>
    case Insert(_, _, _) =>
    case Refind(_) =>
    case Touch(_, _) =>
  }

  lemma PairStep(s: Sys, l: Label, tenant: string, channel: string, customer: string)
    requires OwnedPair(s, tenant, channel, customer) && SameTenantInbound(l, tenant, channel, customer)
    requires !ClosesPair(s.db, Step(s, l).1, channel, customer)
    ensures OwnedPair(Step(s, l).0, tenant, channel, customer)
    ensures forall id | IsOpenFor(s.db, id, channel, customer) :: IsOpenFor(Step(s, l).0.db, id, channel, customer)
    ensures Step(s, l).1 != Raised(channel, customer)
    ensures forall id | Step(s, l).1 == Created(id, channel, customer) ::
      IsOpenFor(Step(s, l).0.db, id, channel, customer) && !exists j :: IsOpenFor(s.db, j, channel, customer)
    ensures forall id | Step(s, l).1 == Returned(id, channel, customer) :: IsOpenFor(s.db, id, channel, customer)
  {
    PairStaysOpen(s, l, channel, customer);
    PairStaysOwned(s, l, tenant, channel, customer);
  }

  lemma {:induction false} PairRun(s: Sys, run: seq<Label>, tenant: string, channel: string, customer: string,
                                   i: nat, j: nat)
    requires OwnedPair(s, tenant, channel, customer) && InboundRun(s, run, tenant, channel, customer)
    requires i <= j <= |run|
    ensures OwnedPair(After(s, run[..j]), tenant, channel, customer)
    ensures forall id | IsOpenFor(After(s, run[..i]).db, id, channel, customer) ::
      IsOpenFor(After(s, run[..j]).db, id, channel, customer)
  {
    if j > 0 {
      PairRun(s, run, tenant, channel, customer, if i < j then i else i - 1, j - 1);
      AfterStep(s, run, j - 1);
      PairStep(After(s, run[..j - 1]), run[j - 1], tenant, channel, customer);
    }
  }

  // However many inbound calls of one pair interleave, with each other and with
  // anything but a close of it, all of them get the same conversation, none
  // raises, and at most one row is created.
  lemma OneConversation(s: Sys, run: seq<Label>, tenant: string, channel: string, customer: string,
                        i: nat, j: nat, a: string, b: string)
    requires OwnedPair(s, tenant, channel, customer) && InboundRun(s, run, tenant, channel, customer)
    requires i < j < |run|
    requires Answers(OutAt(s, run, i), a, channel, customer) && Answers(OutAt(s, run, j), b, channel, customer)
    ensures a == b && !OutAt(s, run, j).Created?
  {
    PairRun(s, run, tenant, channel, customer, 0, i);
    PairStep(After(s, run[..i]), run[i], tenant, channel, customer);
    AfterStep(s, run, i);
    PairRun(s, run, tenant, channel, customer, i + 1, j);
    PairStep(After(s, run[..j]), run[j], tenant, channel, customer);
    assert IsOpenFor(After(s, run[..j]).db, a, channel, customer);
  }

  lemma InboundNeverRaises(s: Sys, run: seq<Label>, tenant: string, channel: string, customer: string, i: nat)
    requires OwnedPair(s, tenant, channel, customer) && InboundRun(s, run, tenant, channel, customer)
    requires i < |run|
    ensures OutAt(s, run, i) != Raised(channel, customer)
  {
    PairRun(s, run, tenant, channel, customer, 0, i);
    PairStep(After(s, run[..i]), run[i], tenant, channel, customer);
  }

  // Nor is any of them turned away as another tenant's.
  lemma InboundNeverForeign(s: Sys, run: seq<Label>, tenant: string, channel: string, customer: string, i: nat)
    requires OwnedPair(s, tenant, channel, customer) && InboundRun(s, run, tenant, channel, customer)
    requires i < |run| && run[i].BeginInbound? && run[i].channel == channel && run[i].customer == customer
    ensures OutAt(s, run, i) != CrossTenant
  {
    PairRun(s, run, tenant, channel, customer, 0, i);
  }

  // With closes allowed, the re-read after a conflict raises exactly when the
  // pair has no open conversation of the caller's tenant at that moment.
  lemma RefindRaisesIff(s: Sys, call: nat)
    requires Inv(s) && call in s.calls && s.calls[call].Refinding?
    ensures var c := s.calls[call];
      Step(s, Refind(call)).1 == Raised(c.channel, c.customer)
      <==> !exists id :: IsOpenFor(s.db, id, c.channel, c.customer) && s.db[id].tenant == c.tenant
  {
    var c := s.calls[call];
    if id :| IsOpenFor(s.db, id, c.channel, c.customer) {
      var found := FindOpen(s.db, c.channel, c.customer);
      OpenIsUnique(s.db, id, found.value, c.channel, c.customer);
    }
  }

  // Two inbound calls of one tenant race, and a close slips in before the
  // loser's re-read.
  const RACE: seq<Label> :=
    [BeginInbound(1, "t", "ch", "cu"), BeginInbound(2, "t", "ch", "cu"), Insert(1, "c1", 0), Insert(2, "c2", 0),
     BeginTransition(3, Close, "t", "c1", 1), FinishTransition(3), Refind(2)]

  const RACE_ROW: Conv := Conv("t", "ch", "cu", Open, None, true, 0)
  const RACE_CLOSE: Write := Write(Closed, None, false, 1)

  function RaceState(k: nat): Sys {
    var ins := Inserting("t", "ch", "cu");
    var re := Refinding("t", "ch", "cu");
    if k == 0 then Sys(map[], map[])
    else if k == 1 then Sys(map[], map[1 := ins])
    else if k == 2 then Sys(map[], map[1 := ins, 2 := ins])
    else if k == 3 then Sys(map["c1" := RACE_ROW], map[2 := ins])
    else if k == 4 then Sys(map["c1" := RACE_ROW], map[2 := re])
    else if k == 5 then Sys(map["c1" := RACE_ROW], map[2 := re, 3 := Writing(Close, "c1", RACE_CLOSE)])
    else Sys(map["c1" := Written(RACE_ROW, RACE_CLOSE)], map[2 := re])
  }

  lemma RaceOpens(k: nat)
    requires k < 3
    ensures Step(RaceState(k), RACE[k]).0 == RaceState(k + 1)
  {
  }

  lemma RaceCloses(k: nat)
    requires 3 <= k < 6
    ensures Step(RaceState(k), RACE[k]).0 == RaceState(k + 1)
  {
    assert IsOpenFor(RaceState(3).db, "c1", "ch", "cu");
  }

  // So a same-tenant caller can still see the conflict raised: a close between
  // its insert and its re-read is enough.
  lemma RaisedWithoutCrossTenant()
    ensures OutAt(RaceState(0), RACE, 6) == Raised("ch", "cu")
  {
    forall k | 0 <= k < 6 ensures Step(RaceState(k), RACE[k]).0 == RaceState(k + 1) {
      if k < 3 { RaceOpens(k); } else { RaceCloses(k); }
    }
    assert Step(RaceState(6), RACE[6]).1 == Raised("ch", "cu");
    hide Step, After, RaceState;
    var states := seq(7, k requires 0 <= k => RaceState(k));
    Trajectory(RaceState(0), RACE, states, 6);
  }

  // A run through the listed states.
  lemma {:induction false} Trajectory(s: Sys, run: seq<Label>, states: seq<Sys>, n: nat)
    requires n < |states| && n <= |run| && states[0] == s
    requires forall k | 0 <= k < n :: Step(states[k], run[k]).0 == states[k + 1]
    ensures After(s, run[..n]) == states[n]
  {
    if n > 0 {
      Trajectory(s, run, states, n - 1);
      AfterStep(s, run, n - 1);
    }
  }
}
