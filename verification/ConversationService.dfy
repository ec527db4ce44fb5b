// The conversation service as it runs: detached row objects mutated field by
// field, then persisted through the repository.
module ConversationService {
  import opened Common
  import opened Conversations
  import opened Assignment
  import opened StringOrder

  // A detached conversation object.
  class Conversation {
    const id: string
    const tenant: string
    var status: Status
    var agent: Option<string>
    var ai: bool
    var lastActivity: int

    constructor (id: string, row: Conv)
      ensures this.id == id && tenant == row.tenant && Columns() == Write(row.status, row.agent, row.ai, row.lastActivity)
    {
      this.id, tenant, status, agent, ai, lastActivity := id, row.tenant, row.status, row.agent, row.ai, row.lastActivity;
    }

    function Columns(): Write
      reads this
    {
      Write(status, agent, ai, lastActivity)
    }
  }

  class ConversationRepository {
    var rows: Db

    constructor ()
      ensures rows == map[]
    {
      rows := map[];
    }

    method GetById(id: string) returns (conv: Conversation?)
      ensures conv == null <==> id !in rows
      ensures conv != null ==>
        && fresh(conv) && conv.id == id && conv.tenant == rows[id].tenant
        && Written(rows[id], conv.Columns()) == rows[id]
    {
      conv := null;
      if id in rows { conv := new Conversation(id, rows[id]); }
    }

    method Create(id: string, row: Conv) returns (ok: bool)
      requires id !in rows
      modifies this
      ensures ok == !Collides(old(rows), id, row)
      ensures rows == if ok then old(rows)[id := row] else old(rows)
    {
      ok := !Collides(rows, id, row);
      if ok { rows := rows[id := row]; }
    }

    method FindOpenByChannelCustomer(channel: string, customer: string) returns (id: Option<string>)
      ensures id.Some? ==> IsOpenFor(rows, id.value, channel, customer)
      ensures id.None? ==> !exists j :: IsOpenFor(rows, j, channel, customer)
    {
      var matches := set j <- rows | IsOpenFor(rows, j, channel, customer);
      if matches == {} {
        assert forall j :: IsOpenFor(rows, j, channel, customer) ==> j in matches;
        return None;
      }
      var j :| j in matches;
      return Some(j);
    }

    method Persist(conv: Conversation) returns (r: UpdateResult)
      modifies this
      ensures r == Update(old(rows), conv.id, conv.Columns())
      ensures rows == if r.Updated? then r.db else old(rows)
    {
      r := Update(rows, conv.id, conv.Columns());
      if r.Updated? { rows := r.db; }
    }

    method TouchLastActivity(id: string, at: int)
      modifies this
      ensures rows == if id in old(rows) then old(rows)[id := old(rows)[id].(lastActivity := at)] else old(rows)
    {
      if id in rows { rows := rows[id := rows[id].(lastActivity := at)]; }
    }

    method CountOpenPendingPerAgent(tenant: string, candidates: seq<string>) returns (loads: map<string, nat>)
      ensures loads.Keys == set a <- candidates
      ensures forall a <- candidates :: loads[a] == Load(rows, tenant, a)
    {
      loads := map a <- candidates :: Load(rows, tenant, a);
    }
  }

  datatype Inbound = Hit(id: string) | New(id: string) | RaceLost(id: string) | Foreign | Reraised

  datatype ClaimResult = Taken | NotFoundError | NotClaimableError

  class Service {
    const repo: ConversationRepository

    constructor (repo: ConversationRepository)
      ensures this.repo == repo
    {
      this.repo := repo;
    }

    // Tenant-scoped lookup. Callers with a role and an id other than an admin or
    // owner see only conversations nobody has or they have.
    method Get(tenant: string, id: string, role: Option<string>, viewer: Option<string>) returns (conv: Conversation?)
      ensures conv != null <==>
        && id in repo.rows && repo.rows[id].tenant == tenant
        && (role.Some? && viewer.Some? && role.value !in {"admin", "owner"} ==> repo.rows[id].agent in {None, viewer})
      ensures conv != null ==>
        && fresh(conv) && conv.id == id
        && Written(repo.rows[id], conv.Columns()) == repo.rows[id]
    {
      conv := repo.GetById(id);
      if conv == null { return; }
      if conv.tenant != tenant { return null; }
      if role.None? || viewer.None? { return; }
      if role.value != "admin" && role.value != "owner" {
        if conv.agent != None && conv.agent != viewer { return null; }
      }
    }

    method Finish(conv: Conversation) returns (r: Moved)
      requires conv.id in repo.rows
      modifies repo
      ensures r == var u := Update(old(repo.rows), conv.id, conv.Columns()); if u.Updated? then Moved(u.db) else Conflict
      ensures repo.rows == if r.Moved? then r.db else old(repo.rows)
    {
      var u := repo.Persist(conv);
      return if u.Updated? then Moved(u.db) else Conflict;
    }

    method AssignToAgent(tenant: string, id: string, agentId: string, now: int) returns (r: Moved)
      modifies repo
      ensures r == Transitioned(old(repo.rows), tenant, id, Assign(agentId), now)
      ensures repo.rows == if r.Moved? then r.db else old(repo.rows)
      ensures r.Moved? ==> repo.rows == old(repo.rows)[id :=
        old(repo.rows)[id].(status := Pending, agent := Some(agentId), ai := false, lastActivity := now)]
    {
      var conv := Get(tenant, id, None, None);
      if conv == null { return NotFound; }
      conv.status := Pending;
      conv.agent := Some(agentId);
      conv.ai := false;
      conv.lastActivity := now;
      r := Finish(conv);
    }

    // One locked step: read, check, write.
    method Claim(tenant: string, id: string, agentId: string, now: int) returns (r: ClaimResult)
      modifies repo
      ensures r.Taken? <==> id in PendingQueue(old(repo.rows), tenant)
      ensures r.NotFoundError? <==> id !in old(repo.rows) || old(repo.rows)[id].tenant != tenant
      ensures repo.rows == if r.Taken?
        then old(repo.rows)[id := old(repo.rows)[id].(agent := Some(agentId), ai := false, lastActivity := now)]
        else old(repo.rows)
    {
      if id !in repo.rows || repo.rows[id].tenant != tenant { return NotFoundError; }
      var conv := new Conversation(id, repo.rows[id]);
      if conv.status != Pending || conv.agent != None { return NotClaimableError; }
      conv.agent := Some(agentId);
      conv.ai := false;
      conv.lastActivity := now;
      repo.rows := repo.rows[id := Written(repo.rows[id], conv.Columns())];
      return Taken;
    }

    // Escalate, then route by policy; routing that fails is swallowed.
    method EscalateToHumanQueue(tenant: string, id: string, policy: Option<Policy>, users: seq<User>,
                                now: int, assignedAt: int) returns (r: Moved)
      modifies repo
      ensures r == Transitioned(old(repo.rows), tenant, id, Escalate, now)
      ensures r.Moved? ==> Escalated(policy, users, old(repo.rows), tenant, id, now, assignedAt) == Moved(repo.rows)
      ensures r.Moved? ==> var agent := SelectAgent(policy, r.db, tenant, users);
        repo.rows == old(repo.rows)[id := old(repo.rows)[id].(
          status := Pending, agent := agent, ai := false, lastActivity := if agent.Some? then assignedAt else now)]
      ensures !r.Moved? ==> repo.rows == old(repo.rows)
    {
      var conv := Get(tenant, id, None, None);
      if conv == null { return NotFound; }
      conv.status := Pending;
      conv.agent := None;
      conv.ai := false;
      conv.lastActivity := now;
      r := Finish(conv);
      if r.Moved? {
        var agentId := PickAgent(policy, tenant, users);
        if agentId.Some? {
          AssignAfterEscalate(old(repo.rows), tenant, id, now, agentId.value, assignedAt);
          var _ := AssignToAgent(tenant, id, agentId.value, assignedAt);
        }
      }
    }

    method PickAgent(policy: Option<Policy>, tenant: string, users: seq<User>) returns (agentId: Option<string>)
      ensures agentId == SelectAgent(policy, repo.rows, tenant, users)
    {
      if policy.None? || !policy.value.enabled { return None; }
      if policy.value.strategy == "manual" { return None; }
      if policy.value.strategy != "least_busy" { return None; }
      var ids := EligibleIds(users);
      if ids == [] { return None; }
      var loads := repo.CountOpenPendingPerAgent(tenant, ids);
      var best := ids[0];
      var i := 1;
      LexTotal(best, best);
      while i < |ids|
        invariant 1 <= i <= |ids| && best in ids
        invariant forall id <- ids[..i] :: Preferred(repo.rows, tenant, best, id)
      {
        var next := ids[i];
        LexTotal(best, next);
        LexTotal(next, next);
        if !(loads[best] < loads[next] || (loads[best] == loads[next] && LexLeq(best, next))) {
          forall id | id in ids[..i] ensures Preferred(repo.rows, tenant, next, id) {
            if LexLeq(next, best) && LexLeq(best, id) { LexTransitive(next, best, id); }
          }
          best := next;
        }
        i := i + 1;
      }
      LeastBusyIsTheMinimum(repo.rows, tenant, users, best);
      return Some(best);
    }

    method ReturnToAi(tenant: string, id: string, now: int) returns (r: Moved)
      modifies repo
      ensures r == Transitioned(old(repo.rows), tenant, id, Conversations.ReturnToAi, now)
      ensures repo.rows == if r.Moved? then r.db else old(repo.rows)
      ensures r.Moved? ==> repo.rows == old(repo.rows)[id :=
        old(repo.rows)[id].(status := Open, agent := None, ai := true, lastActivity := now)]
    {
      var conv := Get(tenant, id, None, None);
      if conv == null { return NotFound; }
      conv.status := Open;
      conv.agent := None;
      conv.ai := true;
      conv.lastActivity := now;
      r := Finish(conv);
    }

    method Close(tenant: string, id: string, now: int) returns (r: Moved)
      modifies repo
      ensures r == Transitioned(old(repo.rows), tenant, id, Conversations.Close, now)
      ensures repo.rows == if r.Moved? then r.db else old(repo.rows)
      ensures r.Moved? ==> repo.rows == old(repo.rows)[id :=
        old(repo.rows)[id].(status := Closed, ai := false, lastActivity := now)]
    {
      var conv := Get(tenant, id, None, None);
      if conv == null { return NotFound; }
      conv.status := Closed;
      conv.ai := false;
      conv.lastActivity := now;
      r := Finish(conv);
    }

    // `others` and `later` are the rows other calls leave behind between this
    // call's lookup and its insert, and between its insert and its re-read; the
    // index held for them too.
    method FindOrCreateForInbound(tenant: string, channel: string, customer: string, newId: string, now: int,
                                  others: Db, later: Db) returns (r: Inbound)
      requires IndexOk(repo.rows) && IndexOk(others) && IndexOk(later) && newId !in others
      modifies repo
      ensures IndexOk(repo.rows)
      ensures r.Hit? || r.RaceLost? || r.New? ==>
        && IsOpenFor(repo.rows, r.id, channel, customer) && repo.rows[r.id].tenant == tenant
        && repo.rows[r.id].lastActivity == now
      ensures r.Hit? ==>
        && IsOpenFor(old(repo.rows), r.id, channel, customer)
        && repo.rows == old(repo.rows)[r.id := old(repo.rows)[r.id].(lastActivity := now)]
      ensures r.Foreign? ==>
        && repo.rows == old(repo.rows)
        && exists id :: IsOpenFor(repo.rows, id, channel, customer) && repo.rows[id].tenant != tenant
      ensures r.New? ==>
        && r.id == newId && !(exists id :: IsOpenFor(others, id, channel, customer))
        && repo.rows == others[newId := Conv(tenant, channel, customer, Open, None, true, now)]
      ensures r.RaceLost? || r.Reraised? ==> exists id :: IsOpenFor(others, id, channel, customer)
      ensures r.RaceLost? ==>
        && IsOpenFor(later, r.id, channel, customer)
        && repo.rows == later[r.id := later[r.id].(lastActivity := now)]
      ensures r.Hit? || r.Foreign? <==> exists id :: IsOpenFor(old(repo.rows), id, channel, customer)
      ensures r.Reraised? ==>
        && repo.rows == later
        && !exists id :: IsOpenFor(later, id, channel, customer) && later[id].tenant == tenant
    {
      var found := repo.FindOpenByChannelCustomer(channel, customer);
      if found.Some? {
        if repo.rows[found.value].tenant != tenant { return Foreign; }
        repo.TouchLastActivity(found.value, now);
        return Hit(found.value);
      }
      var row := Conv(tenant, channel, customer, Open, None, true, now);
      repo.rows := others;
      var ok := repo.Create(newId, row);
      if ok {
        InsertKeepsIndex(others, newId, row);
        return New(newId);
      }
      repo.rows := later;
      found := repo.FindOpenByChannelCustomer(channel, customer);
      if found.Some? && repo.rows[found.value].tenant == tenant {
        repo.TouchLastActivity(found.value, now);
        return RaceLost(found.value);
      }
      return Reraised;
    }
  }
}
