/** The entities of the support system as values, the error kinds the
    services raise, and the lookup that repository queries such as
    findByEmail and findByName perform. */
module Entities {

  datatype Option<T> = None | Some(value: T)

  /** ResourceNotFoundException and BadRequestException, with their messages. */
  datatype Error = NotFound(message: string) | BadRequest(message: string)

  /** A service call either returns a value or throws one of the two exceptions. */
  datatype Result<T> = Ok(value: T) | Err(error: Error)

  /** A check that either passes or throws. */
  datatype Outcome = Pass | Fail(error: Error)

  datatype TicketStatus = Open | InProgress | Resolved | Closed

  datatype TicketPriority = Low | Medium | High | Urgent

  datatype UserRole = Admin | Agent

  /** Time is a count of seconds; LocalDateTime.plusHours(h) adds h * SecondsPerHour. */
  const SecondsPerHour: int := 3600

  datatype Organization = Organization(name: string)

  /** `password` holds the encoded credential, never the raw one. */
  datatype User = User(
    email: string,
    password: string,
    fullName: string,
    role: UserRole,
    orgId: nat,
    isActive: bool)

  datatype Ticket = Ticket(
    title: string,
    description: string,
    status: TicketStatus,
    priority: TicketPriority,
    orgId: nat,
    createdBy: nat,
    assignedTo: Option<nat>,
    createdAt: int,
    resolvedAt: Option<int>,
    closedAt: Option<int>)

  datatype TicketMessage = TicketMessage(
    id: nat,
    ticketId: nat,
    authorId: nat,
    message: string,
    isInternal: bool,
    createdAt: int)

  /** One row per ticket; the row's own surrogate id is not modelled. */
  datatype SlaConfig = SlaConfig(
    ticketId: nat,
    firstResponseDeadline: int,
    resolutionDeadline: int,
    firstResponseMet: bool,
    resolutionMet: bool,
    createdAt: int)

  /** The position of the first element of `s` satisfying `p`, if any. */
  function Find<T>(s: seq<T>, p: T -> bool): (r: Option<nat>)
    ensures r.Some? ==> r.value < |s| && p(s[r.value])
    ensures r.Some? ==> forall j | 0 <= j < r.value :: !p(s[j])
    ensures r.None? ==> forall j | 0 <= j < |s| :: !p(s[j])
  {
    if |s| == 0 then None
    else if p(s[0]) then Some(0)
    else
      match Find(s[1..], p)
      case None => None
      case Some(i) => Some(i + 1)
  }
}
