/** A client of the two services, following one ticket of the Acme
    organization through its life in three phases: what a caller can
    conclude from the contracts alone. */
module Scenario {
  import opened Entities
  import opened Store
  import opened Auth
  import opened Tickets

  /** Signup creates Acme and its admin; a second signup with the same
      email is refused; the admin files an urgent ticket. */
  method Onboard(auth: AuthService, service: TicketService, adminEmail: string, now: int)
    requires auth.db == service.db && auth.db.Valid()
    requires auth.db.State() == StoreState([], [], [], [], map[])
    modifies auth.db
    ensures auth.db.Valid() && |auth.db.users| == 1 && |auth.db.orgs| == 1
    ensures auth.db.users[0].email == adminEmail && auth.db.users[0].role == Admin && auth.db.users[0].orgId == 0
    ensures |auth.db.tickets| == 1 && auth.db.tickets[0].status == Open && auth.db.tickets[0].orgId == 0
  {
    var db := auth.db;
    var admin := auth.Signup(adminEmail, "secret", "Ada Admin", "Acme");
    assert admin == Ok(0) && db.users[0].role == Admin && db.orgs == [Organization("Acme")];
    var again := auth.Signup(adminEmail, "other", "Someone Else", "Acme");
    assert again == Err(BadRequest("Email already exists"));

    var created := service.CreateTicket("Login broken", "Cannot log in", Urgent, 0, now);
    assert created == Ok(0) && db.tickets[0].status == Open;
    assert db.slas[0].firstResponseDeadline == now + 1 * SecondsPerHour;
    assert db.slas[0].resolutionDeadline == now + 4 * SecondsPerHour;
  }

  /** The admin cannot be assigned; an agent of Acme can, and the ticket
      moves to InProgress. */
  method Assign(service: TicketService, agent: User)
    requires service.db.Valid() && |service.db.users| == 1 && |service.db.orgs| == 1
    requires service.db.users[0].role == Admin && service.db.users[0].orgId == 0
    requires |service.db.tickets| == 1 && service.db.tickets[0].status == Open && service.db.tickets[0].orgId == 0
    requires agent.role == Agent && agent.orgId == 0 && agent.email != service.db.users[0].email
    modifies service.db
    ensures service.db.Valid() && |service.db.users| == 2
    ensures service.db.users[0].orgId == 0 && service.db.users[1].orgId == 0
    ensures |service.db.tickets| == 1 && service.db.tickets[0].status == InProgress
    ensures service.db.tickets[0].orgId == 0
  {
    var db := service.db;
    var refused := service.AssignTicket(0, 0, 0);
    assert refused == Err(BadRequest("Can only assign to agents"));

    // Agents are provisioned outside the ticket engine; one is stored directly.
    AppendUserKeepsValid(db.State(), db.orgs, agent);
    db.users := db.users + [agent];

    var handed := service.AssignTicket(0, 1, 0);
    assert handed.Ok? && db.tickets[0].assignedTo == Some(1);
  }

  /** The agent's message meets the first response; closing stamps
      closedAt, and the closed ticket refuses to reopen. */
  method Respond(service: TicketService, now: int)
    requires service.db.Valid() && |service.db.users| == 2
    requires service.db.users[0].orgId == 0 && service.db.users[1].orgId == 0
    requires |service.db.tickets| == 1 && service.db.tickets[0].status == InProgress
    requires service.db.tickets[0].orgId == 0
    modifies service.db
  {
    var db := service.db;
    var posted := service.AddMessage(0, "Looking into it", false, 1, now + 60);
    assert posted.Ok? && db.slas[0].firstResponseMet;

    var closed := service.UpdateStatus(0, Closed, 0, now + 120);
    assert closed.Ok? && db.tickets[0].closedAt == Some(now + 120);
    var reopened := service.UpdateStatus(0, Open, 0, now + 180);
    assert reopened == Err(BadRequest("Cannot change status of closed ticket"));
    assert db.tickets[0].status == Closed;
  }

  /** The three phases on a fresh database. */
  method AcmeScenario(encode: string -> string, matches: (string, string) -> bool,
                      adminEmail: string, agentEmail: string, now: int)
    requires adminEmail != agentEmail
  {
    var db := new Database();
    var auth := new AuthService(db, encode, matches);
    var service := new TicketService(db);
    Onboard(auth, service, adminEmail, now);
    Assign(service, User(agentEmail, encode("secret2"), "Al Agent", Agent, 0, true));
    Respond(service, now);
  }
}
