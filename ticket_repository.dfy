/** TicketRepository.findByFilters: the tickets of one organization,
    optionally narrowed to one status and to one assignee. Ticket ids are
    positions in the ticket store; paging and sorting are not modelled. */
module TicketRepository {
  import opened Entities

  /** The WHERE clause of the query. */
  predicate MatchesFilters(t: Ticket, orgId: int, status: Option<TicketStatus>, assignedTo: Option<int>) {
    && t.orgId == orgId
    && (status.None? || t.status == status.value)
    && (assignedTo.None? || (t.assignedTo.Some? && t.assignedTo.value == assignedTo.value))
  }

  function FindByFilters(tickets: seq<Ticket>, orgId: int, status: Option<TicketStatus>,
                         assignedTo: Option<int>): (r: set<nat>)
    ensures forall id | id in r :: id < |tickets| && tickets[id].orgId == orgId
    ensures forall id | id in r :: status.Some? ==> tickets[id].status == status.value
    ensures forall id | id in r :: assignedTo.Some? ==> tickets[id].assignedTo == Some(assignedTo.value)
    ensures forall id: nat | id < |tickets| && MatchesFilters(tickets[id], orgId, status, assignedTo) :: id in r
  {
    set id: nat | id < |tickets| && MatchesFilters(tickets[id], orgId, status, assignedTo)
  }

  /** Without a status filter the result is the union of the results for
      each of the four statuses: a missing status imposes no constraint. */
  lemma {:induction false} NoStatusIsAnyStatus(tickets: seq<Ticket>, orgId: int, assignedTo: Option<int>)
    ensures FindByFilters(tickets, orgId, None, assignedTo)
         == FindByFilters(tickets, orgId, Some(Open), assignedTo)
          + FindByFilters(tickets, orgId, Some(InProgress), assignedTo)
          + FindByFilters(tickets, orgId, Some(Resolved), assignedTo)
          + FindByFilters(tickets, orgId, Some(Closed), assignedTo)
  {
    var all := FindByFilters(tickets, orgId, None, assignedTo);
    forall id | id in all
      ensures id in FindByFilters(tickets, orgId, Some(tickets[id].status), assignedTo)
    {
    }
  }

  /** Two organizations never see a common ticket. */
  lemma TenantsAreDisjoint(tickets: seq<Ticket>, org1: int, org2: int,
                           s1: Option<TicketStatus>, s2: Option<TicketStatus>, a1: Option<int>, a2: Option<int>)
    requires org1 != org2
    ensures FindByFilters(tickets, org1, s1, a1) !! FindByFilters(tickets, org2, s2, a2)
  {
  }
}
