// Least-busy routing of escalated conversations, and its fairness.
module Assignment {
  import opened Common
  import opened Conversations
  import opened StringOrder

  datatype Role = Admin | Supervisor | Agent | Viewer

  datatype User = User(id: string, active: bool, role: Role)

  datatype Policy = Policy(enabled: bool, strategy: string)

  // ---- Selection -------------------------------------------------------------

  predicate Counts(c: Conv, tenant: string, agent: string) {
    c.tenant == tenant && c.agent == Some(agent) && (c.status == Open || c.status == Pending)
  }

  function Load(db: Db, tenant: string, agent: string): nat {
    |set id <- db | Counts(db[id], tenant, agent)|
  }

  predicate Eligible(u: User) {
    u.active && (u.role == Agent || u.role == Supervisor)
  }

  function EligibleIds(users: seq<User>): (ids: seq<string>)
    ensures forall id :: id in ids <==> exists u <- users :: Eligible(u) && u.id == id
  {
    if users == [] then []
    else
      var rest := EligibleIds(users[..|users| - 1]);
      var u := users[|users| - 1];
      assert users == users[..|users| - 1] + [u];
      if Eligible(u) then rest + [u.id] else rest
  }

  // Lighter, or as light with a smaller id.
  predicate Preferred(db: Db, tenant: string, a: string, b: string) {
    Load(db, tenant, a) < Load(db, tenant, b) || (Load(db, tenant, a) == Load(db, tenant, b) && LexLeq(a, b))
  }

  function MinBy(db: Db, tenant: string, ids: seq<string>): (best: string)
    requires ids != []
    ensures best in ids && forall id <- ids :: Preferred(db, tenant, best, id)
  {
    var last := ids[|ids| - 1];
    LexTotal(last, last);
    if |ids| == 1 then last
    else
      var best := MinBy(db, tenant, ids[..|ids| - 1]);
      LexTotal(best, last);
      assert ids == ids[..|ids| - 1] + [last];
      if Preferred(db, tenant, best, last) then best
      else
        assert Preferred(db, tenant, last, best);
        assert forall id <- ids[..|ids| - 1] :: Preferred(db, tenant, last, id) by {
          forall id | id in ids[..|ids| - 1] ensures Preferred(db, tenant, last, id) {
            if LexLeq(last, best) && LexLeq(best, id) { LexTransitive(last, best, id); }
          }
        }
        last
  }

  function LeastBusy(db: Db, tenant: string, users: seq<User>): Option<string> {
    var ids := EligibleIds(users);
    if ids == [] then None else Some(MinBy(db, tenant, ids))
  }

  function SelectAgent(policy: Option<Policy>, db: Db, tenant: string, users: seq<User>): Option<string> {
    if policy.None? || !policy.value.enabled then None
    else if policy.value.strategy != "least_busy" then None
    else LeastBusy(db, tenant, users)
  }

  // The pick is the unique eligible agent preferred to all the others, so it
  // does not depend on the order users are listed in.
  lemma LeastBusyIsTheMinimum(db: Db, tenant: string, users: seq<User>, best: string)
    ensures LeastBusy(db, tenant, users) == Some(best)
       <==> best in EligibleIds(users) && forall id <- EligibleIds(users) :: Preferred(db, tenant, best, id)
  {
    var ids := EligibleIds(users);
    if best in ids && forall id <- ids :: Preferred(db, tenant, best, id) {
      LexAntisymmetric(best, MinBy(db, tenant, ids));
    }
  }

  // The conversations an agent of the tenant has that are not closed.
  function Held(db: Db, tenant: string, agent: string): set<string> {
    set id <- db | db[id].tenant == tenant && db[id].agent == Some(agent) && db[id].status != Closed
  }

  lemma LoadIsHeld(db: Db, tenant: string, agent: string)
    ensures Load(db, tenant, agent) == |Held(db, tenant, agent)|
  {
    assert Held(db, tenant, agent) == set id <- db | Counts(db[id], tenant, agent);
  }

  predicate Assignable(u: User) { u.active && u.role in {Agent, Supervisor} }

  // An agent is selected exactly when an enabled least-busy policy has someone to
  // select: it is an active agent or supervisor with fewest conversations in hand.
  lemma SelectedIff(policy: Option<Policy>, db: Db, tenant: string, users: seq<User>)
    ensures var agent := SelectAgent(policy, db, tenant, users);
      && (agent.Some? <==>
            && policy.Some? && policy.value.enabled && policy.value.strategy == "least_busy"
            && exists u <- users :: Assignable(u))
      && (agent.Some? ==>
            && (exists u <- users :: Assignable(u) && u.id == agent.value)
            && forall u <- users :: Assignable(u) ==>
                 |Held(db, tenant, agent.value)| <= |Held(db, tenant, u.id)|)
  {
    var agent := SelectAgent(policy, db, tenant, users);
    if u :| u in users && Assignable(u) {
      assert Eligible(u);
      assert u.id in EligibleIds(users);
    }
    if agent.Some? {
      LoadIsHeld(db, tenant, agent.value);
      assert agent.value in EligibleIds(users);
      var v :| v in users && Eligible(v) && v.id == agent.value;
      assert Assignable(v);
      forall u | u in users && Assignable(u) ensures |Held(db, tenant, agent.value)| <= |Held(db, tenant, u.id)| {
        LoadIsHeld(db, tenant, u.id);
        assert Eligible(u);
        assert Preferred(db, tenant, agent.value, u.id);
      }
    } else if EligibleIds(users) != [] {
      assert EligibleIds(users)[0] in EligibleIds(users);
    }
  }

  // ---- Escalation ------------------------------------------------------------

  datatype Moved = Moved(db: Db) | NotFound | Conflict

  // One transition run to completion: read, then write.
  function Transitioned(db: Db, tenant: string, id: string, t: Transition, at: int): Moved {
    if id !in db || db[id].tenant != tenant then NotFound
    else
      var r := Update(db, id, Desired(t, db[id], at));
      if r.Updated? then Moved(r.db) else Conflict
  }

  // The answer of a transition: not found exactly when the tenant has no such row;
  // in conflict exactly when it would stay open beside another one of its pair.
  lemma TransitionAnswers(db: Db, tenant: string, id: string, t: Transition, at: int)
    ensures var r := Transitioned(db, tenant, id, t, at);
      && (r.NotFound? <==> id !in db || db[id].tenant != tenant)
      && (r.Conflict? <==>
            && id in db && db[id].tenant == tenant && !t.Close?
            && exists j :: j != id && IsOpenFor(db, j, db[id].channel, db[id].customer))
  {
  }

  // Escalation with its automatic assignment.
  function Escalated(policy: Option<Policy>, users: seq<User>, db: Db, tenant: string, id: string,
                     at: int, assignedAt: int): Moved
  {
    var r := Transitioned(db, tenant, id, Escalate, at);
    if !r.Moved? then r
    else
      var agent := SelectAgent(policy, r.db, tenant, users);
      if agent.None? then r
      else
        var routed := Transitioned(r.db, tenant, id, Assign(agent.value), assignedAt);
        if routed.Moved? then routed else r
  }

  // Loads of eligible agents differ by at most one.
  ghost predicate Balanced(db: Db, tenant: string, users: seq<User>) {
    forall a, b | a in EligibleIds(users) && b in EligibleIds(users) ::
      Load(db, tenant, a) <= Load(db, tenant, b) + 1
  }

  lemma LoadAfterWrite(db: Db, id: string, c: Conv, tenant: string, agent: string)
    requires id in db
    ensures Load(db[id := c], tenant, agent)
         == Load(db, tenant, agent) - (if Counts(db[id], tenant, agent) then 1 else 0)
            + (if Counts(c, tenant, agent) then 1 else 0)
  {
    var db' := db[id := c];
    var rest := set j <- db | j != id && Counts(db[j], tenant, agent);
    var was := set j <- db | Counts(db[j], tenant, agent);
    var now := set j <- db' | Counts(db'[j], tenant, agent);
    assert was == if Counts(db[id], tenant, agent) then rest + {id} else rest;
    assert now == if Counts(c, tenant, agent) then rest + {id} else rest;
  }

  // A conversation escalated once stays in the index: assigning it cannot fail.
  lemma AssignAfterEscalate(db: Db, tenant: string, id: string, at: int, agent: string, assignedAt: int)
    requires Transitioned(db, tenant, id, Escalate, at).Moved?
    ensures Transitioned(Transitioned(db, tenant, id, Escalate, at).db, tenant, id, Assign(agent), assignedAt)
         == Moved(db[id := db[id].(status := Pending, agent := Some(agent), ai := false, lastActivity := assignedAt)])
  {
    var escalated := Transitioned(db, tenant, id, Escalate, at).db;
    assert forall j | j in escalated && j != id :: escalated[j] == db[j];
  }

  // Escalating one conversation, already assigned or not, keeps balanced loads
  // balanced: its old agent loses it before the lightest agent gains it.
  lemma EscalationKeepsBalance(users: seq<User>, db: Db, tenant: string, id: string, at: int, assignedAt: int)
    requires Balanced(db, tenant, users)
    ensures var r := Escalated(Some(Policy(true, "least_busy")), users, db, tenant, id, at, assignedAt);
      r.Moved? ==> Balanced(r.db, tenant, users)
  {
    var policy := Some(Policy(true, "least_busy"));
    var r := Transitioned(db, tenant, id, Escalate, at);
    if r.Moved? {
      var ids := EligibleIds(users);
      var chosen := LeastBusy(r.db, tenant, users);
      if chosen.Some? {
        AssignAfterEscalate(db, tenant, id, at, chosen.value, assignedAt);
        var final := Escalated(policy, users, db, tenant, id, at, assignedAt).db;
        forall a, b | a in ids && b in ids
          ensures Load(final, tenant, a) <= Load(final, tenant, b) + 1
        {
          forall x | x in {a, b, chosen.value} ensures
            && Load(r.db, tenant, x) == Load(db, tenant, x) - (if Counts(db[id], tenant, x) then 1 else 0)
            && Load(final, tenant, x) == Load(r.db, tenant, x) + (if x == chosen.value then 1 else 0)
          {
            LoadAfterWrite(db, id, r.db[id], tenant, x);
            LoadAfterWrite(db, id, final[id], tenant, x);
          }
          assert Preferred(r.db, tenant, chosen.value, a) && Preferred(r.db, tenant, chosen.value, b);
        }
      }
    }
  }

  datatype Request = Request(id: string, at: int, assignedAt: int)

  // A run of escalations, one after the other; a failed one changes nothing.
  function EscalateAll(users: seq<User>, db: Db, tenant: string, reqs: seq<Request>): Db {
    if reqs == [] then db
    else
      var before := EscalateAll(users, db, tenant, reqs[..|reqs| - 1]);
      var q := reqs[|reqs| - 1];
      var r := Escalated(Some(Policy(true, "least_busy")), users, before, tenant, q.id, q.at, q.assignedAt);
      if r.Moved? then r.db else before
  }

  lemma {:induction false} FairRouting(users: seq<User>, db: Db, tenant: string, reqs: seq<Request>)
    requires Balanced(db, tenant, users)
    ensures Balanced(EscalateAll(users, db, tenant, reqs), tenant, users)
  {
    if reqs != [] {
      FairRouting(users, db, tenant, reqs[..|reqs| - 1]);
      var before := EscalateAll(users, db, tenant, reqs[..|reqs| - 1]);
      var q := reqs[|reqs| - 1];
      EscalationKeepsBalance(users, before, tenant, q.id, q.at, q.assignedAt);
    }
  }

  // Whoever ends up with an escalated conversation was, without it, the
  // lightest eligible agent, with the smallest id among equals.
  lemma {:induction false} EscalatedToTheLightest(users: seq<User>, db: Db, tenant: string, id: string,
                                                  at: int, assignedAt: int)
    requires Escalated(Some(Policy(true, "least_busy")), users, db, tenant, id, at, assignedAt).Moved?
    requires EligibleIds(users) != []
    ensures var after := Escalated(Some(Policy(true, "least_busy")), users, db, tenant, id, at, assignedAt).db;
      && id in after && after[id].status == Pending && after[id].agent.Some?
      && after[id].agent.value in EligibleIds(users)
      && forall a <- EligibleIds(users) :: Preferred(db - {id}, tenant, after[id].agent.value, a)
  {
    var unassigned := Transitioned(db, tenant, id, Escalate, at).db;
    var best := LeastBusy(unassigned, tenant, users).value;
    AssignAfterEscalate(db, tenant, id, at, best, assignedAt);
    forall a | a in EligibleIds(users) ensures Load(db - {id}, tenant, a) == Load(unassigned, tenant, a) {
      assert (set j <- db - {id} | Counts((db - {id})[j], tenant, a))
          == (set j <- unassigned | Counts(unassigned[j], tenant, a));
    }
    forall a | a in EligibleIds(users) ensures Preferred(db - {id}, tenant, best, a) {
      assert Preferred(unassigned, tenant, best, a);
    }
  }
}
