/** The SLA policy of TicketService: deadlines computed from the priority
    when a ticket is created, and the first-response flag. */
module SlaPolicy {
  import opened Entities

  /** Hours allowed until the first response, by priority. */
  function FirstResponseHours(p: TicketPriority): (h: nat)
    ensures h in {1, 4, 8, 24}
    ensures p == Urgent <==> h == 1
    ensures p == High <==> h == 4
    ensures p == Medium <==> h == 8
    ensures p == Low <==> h == 24
  {
    match p
    case Urgent => 1
    case High => 4
    case Medium => 8
    case Low => 24
  }

  /** Whether `sla` carries the deadlines the policy assigns to a ticket of
      priority `p` created at time `t0`. */
  predicate DeadlinesFit(sla: SlaConfig, p: TicketPriority, t0: int) {
    && sla.firstResponseDeadline == t0 + FirstResponseHours(p) * SecondsPerHour
    && sla.resolutionDeadline == t0 + 4 * FirstResponseHours(p) * SecondsPerHour
  }

  /** The row createSlaConfig saves for ticket `ticketId` of priority `p`,
      with one reading `now` of the clock. */
  function NewSlaConfig(ticketId: nat, p: TicketPriority, now: int): (sla: SlaConfig)
    ensures sla.ticketId == ticketId && sla.createdAt == now
    ensures DeadlinesFit(sla, p, now)
    ensures sla.firstResponseDeadline > now
    ensures sla.resolutionDeadline - now == 4 * (sla.firstResponseDeadline - now)
    ensures !sla.firstResponseMet && !sla.resolutionMet
  {
    var hoursToAdd := FirstResponseHours(p);
    SlaConfig(ticketId, now + hoursToAdd * SecondsPerHour, now + (hoursToAdd * 4) * SecondsPerHour,
              false, false, now)
  }

  /** The row after a message has been added to its ticket: the flag is
      raised when it was down, and the row is otherwise left as it was. */
  function RecordFirstResponse(sla: SlaConfig): (r: SlaConfig)
    ensures r.firstResponseMet
    ensures sla.firstResponseMet ==> r == sla
    ensures r.(firstResponseMet := sla.firstResponseMet) == sla
  {
    if !sla.firstResponseMet then sla.(firstResponseMet := true) else sla
  }
}
