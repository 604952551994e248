/** TicketService: every ticket operation as one atomic step on the shared
    database. The clock is the parameter `now`; the acting user arrives as
    an already authenticated id. Responses are the entities themselves. */
module Tickets {
  import opened Entities
  import opened SlaPolicy
  import opened Lifecycle
  import opened Store
  import TicketRepository
  import opened MessageRows

  class TicketService {
    const db: Database

    constructor (db: Database)
      ensures this.db == db
    {
      this.db := db;
    }

    /** getUserById. */
    function GetUserById(userId: int): (r: Result<User>)
      reads db
      ensures r.Ok? <==> 0 <= userId < |db.users|
      ensures r.Ok? ==> r.value == db.users[userId]
      ensures r.Err? ==> r.error == NotFound("User not found")
    {
      if 0 <= userId < |db.users| then Ok(db.users[userId]) else Err(NotFound("User not found"))
    }

    /** The tenant guard: the ticket is returned to a user of its own
        organization, and to no one else. The ticket is looked up first. */
    function GetTicketAndValidateAccess(ticketId: int, userId: int): (r: Result<Ticket>)
      reads db
      ensures r.Ok? <==> && 0 <= ticketId < |db.tickets| && 0 <= userId < |db.users|
                         && db.tickets[ticketId].orgId == db.users[userId].orgId
      ensures r.Ok? ==> r.value == db.tickets[ticketId]
      ensures !(0 <= ticketId < |db.tickets|) ==> r == Err(NotFound("Ticket not found"))
      ensures 0 <= ticketId < |db.tickets| && !(0 <= userId < |db.users|) ==> r == Err(NotFound("User not found"))
      ensures && 0 <= ticketId < |db.tickets| && 0 <= userId < |db.users|
              && db.tickets[ticketId].orgId != db.users[userId].orgId
              ==> r == Err(BadRequest("Access denied"))
    {
      if !(0 <= ticketId < |db.tickets|) then Err(NotFound("Ticket not found"))
      else
        match GetUserById(userId)
        case Err(e) => Err(e)
        case Ok(user) =>
          if db.tickets[ticketId].orgId != user.orgId then Err(BadRequest("Access denied"))
          else Ok(db.tickets[ticketId])
    }

    /** createTicket: an Open, unassigned ticket of the creator's
        organization, saved together with its one SLA row. */
    method CreateTicket(title: string, description: string, priority: TicketPriority, userId: int, now: int)
      returns (r: Result<nat>)
      requires db.Valid()
      modifies db
      ensures db.Valid()
      ensures !(0 <= userId < |old(db.users)|) ==>
                r == Err(NotFound("User not found")) && db.State() == old(db.State())
      ensures 0 <= userId < |old(db.users)| ==>
                var id := |old(db.tickets)|;
                && r == Ok(id)
                && db.State() == old(db.State()).(
                     tickets := old(db.tickets) + [NewTicket(title, description, priority, old(db.users[userId].orgId), userId, now)],
                     slas := old(db.slas)[id := NewSlaConfig(id, priority, now)])
      ensures r.Ok? ==> r.value !in old(db.slas) && db.slas.Keys == old(db.slas).Keys + {r.value}
    {
      var user := GetUserById(userId);
      if user.Err? {
        return Err(user.error);
      }
      var id := |db.tickets|;
      var ticket := NewTicket(title, description, priority, user.value.orgId, userId, now);
      AppendTicketKeepsValid(db.State(), ticket, NewSlaConfig(id, priority, now));
      db.tickets := db.tickets + [ticket];
      db.slas := db.slas[id := NewSlaConfig(id, priority, now)];
      r := Ok(id);
    }

    /** getTickets: the query is always scoped to the acting user's own
        organization. */
    method GetTickets(userId: int, status: Option<TicketStatus>, assignedTo: Option<int>)
      returns (r: Result<set<nat>>)
      ensures !(0 <= userId < |db.users|) ==> r == Err(NotFound("User not found"))
      ensures 0 <= userId < |db.users| ==>
                r == Ok(TicketRepository.FindByFilters(db.tickets, db.users[userId].orgId, status, assignedTo))
      ensures r.Ok? ==> && 0 <= userId < |db.users|
                        && forall id | id in r.value :: id < |db.tickets| && db.tickets[id].orgId == db.users[userId].orgId
    {
      var user := GetUserById(userId);
      if user.Err? {
        return Err(user.error);
      }
      r := Ok(TicketRepository.FindByFilters(db.tickets, user.value.orgId, status, assignedTo));
    }

    /** getTicketById: the guard alone. */
    method GetTicketById(ticketId: int, userId: int) returns (r: Result<Ticket>)
      ensures r.Ok? <==> && 0 <= ticketId < |db.tickets| && 0 <= userId < |db.users|
                         && db.tickets[ticketId].orgId == db.users[userId].orgId
      ensures r == GetTicketAndValidateAccess(ticketId, userId)
    {
      r := GetTicketAndValidateAccess(ticketId, userId);
    }

    /** assignTicket: after the guard, the assignee must exist, be an agent
        and belong to the ticket's organization; an Open ticket moves to
        InProgress. */
    method AssignTicket(ticketId: int, agentId: int, userId: int) returns (r: Result<Ticket>)
      requires db.Valid()
      modifies db
      ensures db.Valid()
      ensures
        var g := old(GetTicketAndValidateAccess(ticketId, userId));
        if g.Err? then
          r == Err(g.error) && db.State() == old(db.State())
        else if !(0 <= agentId < |old(db.users)|) then
          r == Err(NotFound("User not found")) && db.State() == old(db.State())
        else if old(db.users[agentId]).role != Agent then
          r == Err(BadRequest("Can only assign to agents")) && db.State() == old(db.State())
        else if old(db.users[agentId]).orgId != g.value.orgId then
          r == Err(BadRequest("Agent must be from same organization")) && db.State() == old(db.State())
        else
          && r == Ok(Assigned(g.value, agentId))
          && db.State() == old(db.State()).(tickets := old(db.tickets)[ticketId := Assigned(g.value, agentId)])
      ensures r.Ok? ==> && 0 <= ticketId < |db.tickets| && 0 <= agentId
                        && db.tickets[ticketId] == Apply(old(db.tickets[ticketId]), AssignTo(agentId))
    {
      var g := GetTicketAndValidateAccess(ticketId, userId);
      if g.Err? {
        return Err(g.error);
      }
      var agent := GetUserById(agentId);
      if agent.Err? {
        return Err(agent.error);
      }
      if agent.value.role != Agent {
        return Err(BadRequest("Can only assign to agents"));
      }
      if agent.value.orgId != g.value.orgId {
        return Err(BadRequest("Agent must be from same organization"));
      }
      var t := Assigned(g.value, agentId);
      AssignmentKeepsTimestampsAgreeing(g.value, agentId);
      UpdateTicketKeepsValid(db.State(), ticketId, t);
      db.tickets := db.tickets[ticketId := t];
      r := Ok(t);
    }

    /** updateStatus: after the guard, a closed ticket is refused; any other
        ticket takes the requested status, and entering Resolved or Closed
        stamps the matching timestamp with `now`. */
    method UpdateStatus(ticketId: int, next: TicketStatus, userId: int, now: int) returns (r: Result<Ticket>)
      requires db.Valid()
      modifies db
      ensures db.Valid()
      ensures
        var g := old(GetTicketAndValidateAccess(ticketId, userId));
        if g.Err? then
          r == Err(g.error) && db.State() == old(db.State())
        else if g.value.status == Closed then
          r == Err(BadRequest("Cannot change status of closed ticket")) && db.State() == old(db.State())
        else
          && r == Ok(WithStatus(g.value, next, now))
          && db.State() == old(db.State()).(tickets := old(db.tickets)[ticketId := WithStatus(g.value, next, now)])
      ensures old(GetTicketAndValidateAccess(ticketId, userId)).Ok? ==>
                db.tickets[ticketId] == Apply(old(db.tickets[ticketId]), RequestStatus(next, now))
    {
      var g := GetTicketAndValidateAccess(ticketId, userId);
      if g.Err? {
        return Err(g.error);
      }
      var check := ValidateStatusTransition(g.value.status, next);
      if check.Fail? {
        return Err(check.error);
      }
      var t := WithStatus(g.value, next, now);
      StatusUpdateKeepsTimestampsAgreeing(g.value, next, now);
      UpdateTicketKeepsValid(db.State(), ticketId, t);
      db.tickets := db.tickets[ticketId := t];
      r := Ok(t);
    }

    /** addMessage: after the guard, one message by the acting user is
        appended, and the ticket's SLA row records the first response. */
    method AddMessage(ticketId: int, text: string, isInternal: bool, userId: int, now: int)
      returns (r: Result<TicketMessage>)
      requires db.Valid()
      modifies db
      ensures db.Valid()
      ensures
        var g := old(GetTicketAndValidateAccess(ticketId, userId));
        if g.Err? then
          r == Err(g.error) && db.State() == old(db.State())
        else
          var m := TicketMessage(|old(db.messages)|, ticketId, userId, text, isInternal, now);
          && r == Ok(m)
          && db.State() == old(db.State()).(
               messages := old(db.messages) + [m],
               slas := if ticketId in old(db.slas)
                       then old(db.slas)[ticketId := RecordFirstResponse(old(db.slas)[ticketId])]
                       else old(db.slas))
      ensures r.Ok? ==> ticketId in db.slas && db.slas[ticketId].firstResponseMet
    {
      var g := GetTicketAndValidateAccess(ticketId, userId);
      if g.Err? {
        return Err(g.error);
      }
      // The guard has already found the acting user, who becomes the author;
      // createdAt is stamped as the field initializer intends.
      var m := Row(BuildWithDefault(ticketId, userId, text, isInternal, now), |db.messages|);
      AppendMessageKeepsValid(db.State(), m);
      db.messages := db.messages + [m];
      RecordFirstResponseKeepsValid(db.State(), ticketId);
      UpdateSlaOnFirstResponse(ticketId);
      r := Ok(m);
    }

    /** updateSlaOnFirstResponse: raise the flag of the ticket's SLA row if
        there is a row and its flag is down. */
    method UpdateSlaOnFirstResponse(ticketId: nat)
      modifies db
      ensures db.State() == old(db.State()).(
                slas := if ticketId in old(db.slas)
                        then old(db.slas)[ticketId := RecordFirstResponse(old(db.slas)[ticketId])]
                        else old(db.slas))
    {
      if ticketId in db.slas {
        var sla := db.slas[ticketId];
        if !sla.firstResponseMet {
          db.slas := db.slas[ticketId := sla.(firstResponseMet := true)];
        } else {
          assert db.slas[ticketId := RecordFirstResponse(sla)] == db.slas;
        }
      }
    }

    /** getMessages: after the guard, exactly the ticket's messages, oldest
        first. */
    method GetMessages(ticketId: int, userId: int) returns (r: Result<seq<TicketMessage>>)
      ensures GetTicketAndValidateAccess(ticketId, userId).Err? ==>
                r == Err(GetTicketAndValidateAccess(ticketId, userId).error)
      ensures GetTicketAndValidateAccess(ticketId, userId).Ok? ==>
                r == Ok(FindByTicketIdOrderByCreatedAtAsc(db.messages, ticketId))
      ensures r.Ok? ==> && SortedByCreatedAt(r.value)
                        && forall m :: m in r.value <==> m in db.messages && m.ticketId == ticketId
    {
      var g := GetTicketAndValidateAccess(ticketId, userId);
      if g.Err? {
        return Err(g.error);
      }
      r := Ok(FindByTicketIdOrderByCreatedAtAsc(db.messages, ticketId));
    }
  }
}
