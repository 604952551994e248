/** The repositories the services share, as one mutable database, and the
    queries the services issue against it. Ids are positions: the user
    with id i is users[i], and so on. SLA rows are keyed by their ticket's
    id, as the unique ticket_id column makes them. */
module Store {
  import opened Entities
  import opened SlaPolicy
  import opened Lifecycle

  /** userRepository.findByEmail / existsByEmail. */
  function FindByEmail(users: seq<User>, email: string): (r: Option<nat>)
    ensures r.Some? ==> r.value < |users| && users[r.value].email == email
    ensures r.None? <==> forall i | 0 <= i < |users| :: users[i].email != email
  {
    Find(users, (u: User) => u.email == email)
  }

  /** organizationRepository.findByName. */
  function FindByName(orgs: seq<Organization>, name: string): (r: Option<nat>)
    ensures r.Some? ==> r.value < |orgs| && orgs[r.value].name == name
    ensures r.None? <==> forall i | 0 <= i < |orgs| :: orgs[i].name != name
  {
    Find(orgs, (o: Organization) => o.name == name)
  }

  ghost predicate UniqueEmails(users: seq<User>) {
    forall i, j | 0 <= i < j < |users| :: users[i].email != users[j].email
  }

  ghost predicate UniqueNames(orgs: seq<Organization>) {
    forall i, j | 0 <= i < j < |orgs| :: orgs[i].name != orgs[j].name
  }

  /** With unique emails, the user found by email is the only user with it. */
  lemma FoundEmailIsUnique(users: seq<User>, email: string, i: nat)
    requires UniqueEmails(users)
    requires i < |users| && users[i].email == email
    ensures FindByEmail(users, email) == Some(i)
  {
  }

  /** The messages of ticket `ticketId`, in store order. */
  function MessagesOf(ms: seq<TicketMessage>, ticketId: int): (r: seq<TicketMessage>)
    ensures forall m | m in r :: m.ticketId == ticketId
    ensures forall m :: multiset(r)[m] == if m.ticketId == ticketId then multiset(ms)[m] else 0
  {
    if ms == [] then []
    else
      assert ms == [ms[0]] + ms[1..];
      (if ms[0].ticketId == ticketId then [ms[0]] else []) + MessagesOf(ms[1..], ticketId)
  }

  predicate SortedByCreatedAt(ms: seq<TicketMessage>) {
    forall i, j | 0 <= i < j < |ms| :: ms[i].createdAt <= ms[j].createdAt
  }

  function InsertByCreatedAt(m: TicketMessage, ms: seq<TicketMessage>): (r: seq<TicketMessage>)
    requires SortedByCreatedAt(ms)
    ensures SortedByCreatedAt(r)
    ensures multiset(r) == multiset(ms) + multiset{m}
    ensures forall x | x in r :: x == m || x in ms
  {
    if ms == [] then [m]
    else if m.createdAt <= ms[0].createdAt then [m] + ms
    else
      assert ms == [ms[0]] + ms[1..];
      var rest := InsertByCreatedAt(m, ms[1..]);
      assert forall x | x in rest :: ms[0].createdAt <= x.createdAt;
      [ms[0]] + rest
  }

  function SortByCreatedAt(ms: seq<TicketMessage>): (r: seq<TicketMessage>)
    ensures SortedByCreatedAt(r)
    ensures multiset(r) == multiset(ms)
  {
    if ms == [] then []
    else
      assert ms == [ms[0]] + ms[1..];
      InsertByCreatedAt(ms[0], SortByCreatedAt(ms[1..]))
  }

  /** messageRepository.findByTicketIdOrderByCreatedAtAsc: exactly the
      messages of the ticket, each as often as stored, oldest first. */
  function FindByTicketIdOrderByCreatedAtAsc(ms: seq<TicketMessage>, ticketId: int): (r: seq<TicketMessage>)
    ensures SortedByCreatedAt(r)
    ensures forall m :: multiset(r)[m] == if m.ticketId == ticketId then multiset(ms)[m] else 0
    ensures forall m :: m in r <==> m in ms && m.ticketId == ticketId
  {
    var r := SortByCreatedAt(MessagesOf(ms, ticketId));
    assert forall m :: m in r <==> m in multiset(r);
    r
  }

  /** The whole persisted state. */
  datatype StoreState = StoreState(
    orgs: seq<Organization>,
    users: seq<User>,
    tickets: seq<Ticket>,
    messages: seq<TicketMessage>,
    slas: map<nat, SlaConfig>)
  {
    /** The ticket's references point at existing users of its
        organization, its assignee is an agent, and its timestamps agree
        with its status. */
    ghost predicate TicketIntact(t: Ticket) {
      && t.createdBy < |users| && users[t.createdBy].orgId == t.orgId
      && (t.assignedTo.Some? ==>
            t.assignedTo.value < |users|
            && users[t.assignedTo.value].role == Agent
            && users[t.assignedTo.value].orgId == t.orgId)
      && TimestampsAgree(t)
    }

    /** The message sits at its own id, and its author belongs to its
        ticket's organization. */
    ghost predicate MessageIntact(i: nat) requires i < |messages| {
      var m := messages[i];
      && m.id == i && m.ticketId < |tickets| && m.authorId < |users|
      && users[m.authorId].orgId == tickets[m.ticketId].orgId
    }

    /** The integrity the database and the services maintain together. */
    ghost predicate Valid() {
      && UniqueNames(orgs) && UniqueEmails(users)
      && (forall i | 0 <= i < |users| :: users[i].orgId < |orgs|)
      && (forall i | 0 <= i < |tickets| :: TicketIntact(tickets[i]))
      && (forall id: nat :: id in slas <==> id < |tickets|)
      && (forall id: nat | id in slas && id < |tickets| ::
            slas[id].ticketId == id && DeadlinesFit(slas[id], tickets[id].priority, tickets[id].createdAt))
      && (forall i: nat | i < |messages| :: MessageIntact(i))
    }
  }

  /** Replacing a ticket by one with the same content that is itself
      intact keeps the store valid. */
  lemma {:induction false} UpdateTicketKeepsValid(s: StoreState, id: nat, t: Ticket)
    requires s.Valid() && id < |s.tickets|
    requires SameContent(s.tickets[id], t) && s.TicketIntact(t)
    ensures s.(tickets := s.tickets[id := t]).Valid()
  {
    var s' := s.(tickets := s.tickets[id := t]);
    forall i: nat | i < |s'.messages| ensures s'.MessageIntact(i) {
      assert s.MessageIntact(i);
    }
  }

  /** Saving an intact new ticket together with the SLA row the policy
      gives it keeps the store valid. */
  lemma {:induction false} AppendTicketKeepsValid(s: StoreState, t: Ticket, sla: SlaConfig)
    requires s.Valid() && s.TicketIntact(t)
    requires sla.ticketId == |s.tickets| && DeadlinesFit(sla, t.priority, t.createdAt)
    ensures s.(tickets := s.tickets + [t], slas := s.slas[|s.tickets| := sla]).Valid()
  {
    var s' := s.(tickets := s.tickets + [t], slas := s.slas[|s.tickets| := sla]);
    forall i: nat | i < |s'.messages| ensures s'.MessageIntact(i) {
      assert s.MessageIntact(i);
    }
  }

  /** Appending a message at its own id, by a user of its ticket's
      organization, keeps the store valid. */
  lemma {:induction false} AppendMessageKeepsValid(s: StoreState, m: TicketMessage)
    requires s.Valid()
    requires m.id == |s.messages| && m.ticketId < |s.tickets| && m.authorId < |s.users|
    requires s.users[m.authorId].orgId == s.tickets[m.ticketId].orgId
    ensures s.(messages := s.messages + [m]).Valid()
  {
    var s' := s.(messages := s.messages + [m]);
    forall i: nat | i < |s'.messages| ensures s'.MessageIntact(i) {
      if i < |s.messages| {
        assert s.MessageIntact(i);
      }
    }
  }

  /** Recording the first response on a ticket's SLA row keeps the store
      valid: the deadlines stay as they were. */
  lemma {:induction false} RecordFirstResponseKeepsValid(s: StoreState, ticketId: nat)
    requires s.Valid()
    ensures s.(slas := if ticketId in s.slas then s.slas[ticketId := RecordFirstResponse(s.slas[ticketId])]
                       else s.slas).Valid()
  {
    var s' := s.(slas := if ticketId in s.slas then s.slas[ticketId := RecordFirstResponse(s.slas[ticketId])]
                         else s.slas);
    forall i: nat | i < |s'.messages| ensures s'.MessageIntact(i) {
      assert s.MessageIntact(i);
    }
  }

  /** Appending a user (and, when given, a new organization) whose email
      and organization name are new, keeps the store valid. */
  lemma {:induction false} AppendUserKeepsValid(s: StoreState, orgs: seq<Organization>, u: User)
    requires s.Valid()
    requires orgs == s.orgs || (exists o :: orgs == s.orgs + [o] && forall i | 0 <= i < |s.orgs| :: s.orgs[i].name != o.name)
    requires u.orgId < |orgs|
    requires forall i | 0 <= i < |s.users| :: s.users[i].email != u.email
    ensures s.(orgs := orgs, users := s.users + [u]).Valid()
  {
    var s' := s.(orgs := orgs, users := s.users + [u]);
    forall i | 0 <= i < |s'.tickets| ensures s'.TicketIntact(s'.tickets[i]) {
      assert s.TicketIntact(s.tickets[i]);
    }
    forall i: nat | i < |s'.messages| ensures s'.MessageIntact(i) {
      assert s.MessageIntact(i);
    }
  }

  class Database {
    var orgs: seq<Organization>
    var users: seq<User>
    var tickets: seq<Ticket>
    var messages: seq<TicketMessage>
    var slas: map<nat, SlaConfig>

    function State(): StoreState
      reads this
    {
      StoreState(orgs, users, tickets, messages, slas)
    }

    ghost predicate Valid()
      reads this
    {
      State().Valid()
    }

    constructor ()
      ensures Valid()
      ensures State() == StoreState([], [], [], [], map[])
    {
      orgs, users, tickets, messages, slas := [], [], [], [], map[];
    }
  }
}
