/** The ticket status machine of TicketService: the closed-ticket guard,
    the effect of a status update and of an assignment on one ticket, and
    what any sequence of these does to a ticket's timestamps. */
module Lifecycle {
  import opened Entities

  /** validateStatusTransition: the only rejected move is out of Closed. */
  function ValidateStatusTransition(current: TicketStatus, next: TicketStatus): (r: Outcome)
    ensures r.Pass? <==> current != Closed
    ensures r.Fail? ==> r.error == BadRequest("Cannot change status of closed ticket")
  {
    if current == Closed then Fail(BadRequest("Cannot change status of closed ticket")) else Pass
  }

  /** The fields no operation of the service ever changes. */
  predicate SameContent(a: Ticket, b: Ticket) {
    && a.title == b.title && a.description == b.description
    && a.priority == b.priority && a.orgId == b.orgId
    && a.createdBy == b.createdBy && a.createdAt == b.createdAt
  }

  /** The ticket after updateStatus has accepted `next` at time `now`. */
  function WithStatus(t: Ticket, next: TicketStatus, now: int): (r: Ticket)
    ensures r.status == next && r.assignedTo == t.assignedTo && SameContent(t, r)
    ensures next == Resolved ==> r.resolvedAt == Some(now) && r.closedAt == t.closedAt
    ensures next == Closed ==> r.closedAt == Some(now) && r.resolvedAt == t.resolvedAt
    ensures next != Resolved && next != Closed ==> r.resolvedAt == t.resolvedAt && r.closedAt == t.closedAt
  {
    var s := t.(status := next);
    if next == Resolved then s.(resolvedAt := Some(now))
    else if next == Closed then s.(closedAt := Some(now))
    else s
  }

  /** The ticket after assignTicket has accepted agent `agentId`. */
  function Assigned(t: Ticket, agentId: nat): (r: Ticket)
    ensures r.assignedTo == Some(agentId) && SameContent(t, r)
    ensures r.resolvedAt == t.resolvedAt && r.closedAt == t.closedAt
    ensures t.status == Open ==> r.status == InProgress
    ensures t.status != Open ==> r.status == t.status
  {
    var s := t.(assignedTo := Some(agentId));
    if t.status == Open then s.(status := InProgress) else s
  }

  /** The ticket createTicket saves for creator `userId` of organization `orgId`. */
  function NewTicket(title: string, description: string, priority: TicketPriority,
                     orgId: nat, userId: nat, now: int): (t: Ticket)
    ensures t.status == Open && t.assignedTo == None
    ensures t.orgId == orgId && t.createdBy == userId && t.createdAt == now
    ensures t.priority == priority && t.title == title && t.description == description
    ensures t.resolvedAt == None && t.closedAt == None
  {
    Ticket(title, description, Open, priority, orgId, userId, None, now, None, None)
  }

  /** The timestamps agree with the status: closedAt is set exactly when
      the ticket is closed, and a resolved ticket has resolvedAt set. */
  predicate TimestampsAgree(t: Ticket) {
    && (t.closedAt.Some? <==> t.status == Closed)
    && (t.status == Resolved ==> t.resolvedAt.Some?)
  }

  /** An assignment keeps the timestamps in agreement with the status. */
  lemma AssignmentKeepsTimestampsAgreeing(t: Ticket, agentId: nat)
    requires TimestampsAgree(t)
    ensures TimestampsAgree(Assigned(t, agentId))
  {
  }

  /** An accepted status update keeps the timestamps in agreement with the
      status. */
  lemma StatusUpdateKeepsTimestampsAgreeing(t: Ticket, next: TicketStatus, now: int)
    requires TimestampsAgree(t)
    ensures ValidateStatusTransition(t.status, next).Pass? ==> TimestampsAgree(WithStatus(t, next, now))
  {
  }

  /** One call on a single ticket: an accepted assignment, or a status
      request at time `now` (which the guard may reject). */
  datatype Step = AssignTo(agentId: nat) | RequestStatus(next: TicketStatus, now: int)

  function Apply(t: Ticket, step: Step): Ticket {
    match step
    case AssignTo(a) => Assigned(t, a)
    case RequestStatus(next, now) =>
      if ValidateStatusTransition(t.status, next).Pass? then WithStatus(t, next, now) else t
  }

  /** The ticket after a sequence of calls. */
  function Run(t: Ticket, steps: seq<Step>): Ticket
    decreases |steps|
  {
    if steps == [] then t else Run(Apply(t, steps[0]), steps[1..])
  }

  /** Every status the ticket holds along the way, its first one included. */
  function Visited(t: Ticket, steps: seq<Step>): set<TicketStatus>
    decreases |steps|
  {
    if steps == [] then {t.status} else {t.status} + Visited(Apply(t, steps[0]), steps[1..])
  }

  /** A closed ticket keeps its status and both timestamps whatever follows;
      only its assignee can still change. */
  lemma {:induction false} ClosedIsFrozen(t: Ticket, steps: seq<Step>)
    requires t.status == Closed
    ensures Run(t, steps).status == Closed
    ensures Run(t, steps).resolvedAt == t.resolvedAt && Run(t, steps).closedAt == t.closedAt
    ensures Visited(t, steps) == {Closed}
    decreases |steps|
  {
    if steps != [] {
      ClosedIsFrozen(Apply(t, steps[0]), steps[1..]);
    }
  }

  /** No sequence of calls changes title, description, priority,
      organization, creator or creation time. */
  lemma {:induction false} ContentIsImmutable(t: Ticket, steps: seq<Step>)
    ensures SameContent(t, Run(t, steps))
    decreases |steps|
  {
    if steps != [] {
      ContentIsImmutable(Apply(t, steps[0]), steps[1..]);
    }
  }

  lemma {:induction false} TimestampsTrackHistoryFrom(t: Ticket, steps: seq<Step>, before: set<TicketStatus>)
    requires t.resolvedAt.Some? <==> Resolved in before + {t.status}
    requires t.closedAt.Some? <==> t.status == Closed
    ensures Run(t, steps).resolvedAt.Some? <==> Resolved in before + Visited(t, steps)
    ensures Run(t, steps).closedAt.Some? <==> Run(t, steps).status == Closed
    decreases |steps|
  {
    if steps != [] {
      var t' := Apply(t, steps[0]);
      TimestampsTrackHistoryFrom(t', steps[1..], before + {t.status});
      assert before + {t.status} + Visited(t', steps[1..]) == before + Visited(t, steps);
    }
  }

  /** For a ticket fresh from createTicket, after any sequence of calls
      resolvedAt is set iff the ticket has at some point been Resolved, and
      closedAt is set iff it is Closed now. */
  lemma TimestampsTrackHistory(t: Ticket, steps: seq<Step>)
    requires t.status == Open && t.resolvedAt == None && t.closedAt == None
    ensures Run(t, steps).resolvedAt.Some? <==> Resolved in Visited(t, steps)
    ensures Run(t, steps).closedAt.Some? <==> Run(t, steps).status == Closed
  {
    TimestampsTrackHistoryFrom(t, steps, {});
    assert {} + Visited(t, steps) == Visited(t, steps);
  }
}
