# Support-ticket engine: a Dafny model

This project models the ticket engine of a multi-tenant support system.
Organizations own users (admins and agents) and tickets. A ticket has:

- a status lifecycle: Open, InProgress, Resolved, Closed;
- a priority: Low, Medium, High, Urgent;
- an optional assignee;
- a transcript of messages;
- one SLA row holding its first-response and resolution deadlines.

The model covers these parts:

- **The tenant guard.** A ticket is returned only to a user of its own organization.
- **The status machine.** Only a closed ticket refuses a change. Entering Resolved or Closed stamps a timestamp.
- **The assignment rule.** The assignee must be an agent of the ticket's organization. An Open ticket moves to InProgress.
- **The SLA policy.** The first-response window is 1, 4, 8 or 24 hours by priority. The resolution window is four times that. A first-response flag is raised by the first message.
- **The organization-scoped ticket filter** of the ticket repository.
- **Signup and login.**
  - Signup refuses a taken email, finds or creates the organization, and adds an active Admin.
  - Login checks, in order: an unknown email, a wrong password, an inactive account.

Layout, one module per file:

- `entities.dfy` (`Entities`): the entities as datatypes, the error kinds (`NotFound`, `BadRequest`, with the source's messages) and the lookup that find-by-field queries perform.
- `sla_policy.dfy` (`SlaPolicy`): the priority table, the SLA row saved at creation, the first-response update.
- `lifecycle.dfy` (`Lifecycle`): the closed-ticket guard and the effect of one status update or one assignment on a ticket.
  - It also defines runs of such calls on one ticket, with lemmas about every run: a closed ticket is frozen, content never changes, and the timestamps record the status history.
- `ticket_repository.dfy` (`TicketRepository`): `findByFilters` as a set comprehension over the ticket store.
- `store.dfy` (`Store`): the shared database, a class with one field per repository.
  - Users, organizations, tickets and messages are `seq`s; an entity's id is its position.
  - SLA rows are a `map` keyed by ticket id, because the ticket column of that table is unique.
  - `StoreState.Valid()` is the integrity every service method keeps:
    - unique emails and organization names;
    - a ticket's creator and assignee are users of its organization, and its assignee is an agent;
    - a ticket's timestamps agree with its status;
    - exactly one SLA row per ticket, whose deadlines fit its priority;
    - every message's author belongs to the message's ticket's organization.
  - It also holds the ordered message query.
- `ticket_service.dfy` (`Tickets`): class `TicketService`, one method per service operation, each an atomic step on the database.
- `auth_service.dfy` (`Auth`): class `AuthService`. The password encoder is two function-valued fields, `encode` and `matches`; no contract depends on what they compute.
- `message_rows.dfy` (`MessageRows`): how `addMessage` builds the message row; see "## Findings".
- `scenario.dfy` (`Scenario`): a client that follows one ticket through signup, creation, a refused and an accepted assignment, a first response, closing and a refused reopening.

Time is an integer count of seconds passed in as `now`; `plusHours(h)` is `+ h * 3600`.
The acting user reaches every operation as an already authenticated id.
Each operation answers with the entity it saved or found, or with the id of that entity, instead of a response DTO.

Three behaviours of the code are easy to misread, and the model follows the code in each:

- **Wrong organization.** Access to another organization's ticket is refused with `BadRequestException("Access denied")`, not with a dedicated forbidden error.
- **Re-entering Resolved.** `resolvedAt` is overwritten every time Resolved is requested, so it records the latest entry into Resolved, not the first.
- **Signup role.** Every signed-up user is an Admin, including one who joins an existing organization.

`createSlaConfig` reads the clock twice, once for each deadline. The model reads it once. The 4× relation between the two windows therefore holds exactly in the model. In the code the resolution deadline may be later by the time that passes between the two reads.

## Model

| member | source | states |
|---|---|---|
| `SlaPolicy.FirstResponseHours` | src/main/java/com/dk/supportsystem/service/TicketService.java:160-165 | the first-response window is one of 1, 4, 8, 24 hours, and each priority has its own: Urgent exactly 1, High exactly 4, Medium exactly 8, Low exactly 24 |
| `SlaPolicy.NewSlaConfig` | src/main/java/com/dk/supportsystem/service/TicketService.java:159-173 | the row created for a ticket has first-response deadline now + h hours and resolution deadline now + 4h hours (4× the first-response window, after now), both flags false, createdAt = now |
| `SlaPolicy.RecordFirstResponse` | src/main/java/com/dk/supportsystem/service/TicketService.java:176-183 | afterwards firstResponseMet is true; a row whose flag was already up is returned unchanged; no other field ever changes |
| `Lifecycle.ValidateStatusTransition` | src/main/java/com/dk/supportsystem/service/TicketService.java:153-157 | a transition passes iff the current status is not Closed, whatever the requested one; the failure is BadRequest "Cannot change status of closed ticket" |
| `Lifecycle.WithStatus` | src/main/java/com/dk/supportsystem/service/TicketService.java:98-104 | the status becomes the requested one; requesting Resolved sets resolvedAt = now (overwriting), Closed sets closedAt = now, anything else keeps both timestamps; assignee and content unchanged |
| `Lifecycle.Assigned` | src/main/java/com/dk/supportsystem/service/TicketService.java:83-86 | the assignee becomes the agent; an Open ticket becomes InProgress and any other status is kept; timestamps and content unchanged |
| `Lifecycle.NewTicket` | src/main/java/com/dk/supportsystem/service/TicketService.java:38-45 | a new ticket is Open, unassigned, without timestamps, of the creator's organization, with createdBy = creator |
| `Lifecycle.AssignmentKeepsTimestampsAgreeing` | src/main/java/com/dk/supportsystem/service/TicketService.java:83-86 | an assignment keeps "closedAt set iff Closed, and Resolved implies resolvedAt set" |
| `Lifecycle.StatusUpdateKeepsTimestampsAgreeing` | src/main/java/com/dk/supportsystem/service/TicketService.java:96-104 | an accepted status update keeps "closedAt set iff Closed, and Resolved implies resolvedAt set" |
| `Lifecycle.ClosedIsFrozen` | src/main/java/com/dk/supportsystem/service/TicketService.java:93-104 | after any sequence of assignments and status requests, a closed ticket is still Closed, never held another status, and keeps resolvedAt and closedAt |
| `Lifecycle.ContentIsImmutable` | src/main/java/com/dk/supportsystem/service/TicketService.java:83-104 | no sequence of assignments and status updates changes title, description, priority, organization, creator or createdAt |
| `Lifecycle.TimestampsTrackHistoryFrom` | src/main/java/com/dk/supportsystem/service/TicketService.java:98-104 | along any run, resolvedAt is set iff Resolved was visited (counting the statuses before the run) and closedAt is set iff the ticket ends Closed |
| `Lifecycle.TimestampsTrackHistory` | src/main/java/com/dk/supportsystem/service/TicketService.java:98-104 | for a freshly created ticket and any run of calls: resolvedAt is set iff the ticket has at some point been Resolved, and closedAt is set iff it is Closed |
| `TicketRepository.FindByFilters` | src/main/java/com/dk/supportsystem/repository/TicketRepository.java:21-27 | every result is a stored ticket of the organization, has the requested status if one is given, and has an assignee with the requested id if one is given (so unassigned tickets are excluded); every stored ticket meeting all three is in the result |
| `TicketRepository.NoStatusIsAnyStatus` | src/main/java/com/dk/supportsystem/repository/TicketRepository.java:22 | a missing status filter gives the union of the results for the four statuses |
| `TicketRepository.TenantsAreDisjoint` | src/main/java/com/dk/supportsystem/repository/TicketRepository.java:21 | the results for two different organizations share no ticket, whatever the other filters |
| `Store.FindByEmail` | src/main/java/com/dk/supportsystem/service/AuthService.java:66-67 | a found user has the email; nothing is found iff no user has it |
| `Store.FindByName` | src/main/java/com/dk/supportsystem/service/AuthService.java:34-35 | a found organization has the name; nothing is found iff no organization has it |
| `Store.FoundEmailIsUnique` | src/main/java/com/dk/supportsystem/service/AuthService.java:30-32 | with unique emails, the lookup by email finds exactly the one user holding it |
| `Store.FindByTicketIdOrderByCreatedAtAsc` | src/main/java/com/dk/supportsystem/service/TicketService.java:132 | the result holds exactly the stored messages of the ticket, each as often as stored, in non-decreasing createdAt order |
| `Store.UpdateTicketKeepsValid` | src/main/java/com/dk/supportsystem/service/TicketService.java:83-88 | saving a changed ticket with the same content that is itself intact keeps the database valid |
| `Store.AppendTicketKeepsValid` | src/main/java/com/dk/supportsystem/service/TicketService.java:38-49 | saving a new intact ticket with the SLA row the policy gives it keeps the database valid |
| `Store.AppendMessageKeepsValid` | src/main/java/com/dk/supportsystem/service/TicketService.java:115-122 | saving a message by a user of the ticket's organization keeps the database valid |
| `Store.RecordFirstResponseKeepsValid` | src/main/java/com/dk/supportsystem/service/TicketService.java:176-183 | raising the first-response flag keeps the database valid: the deadlines still fit |
| `Store.AppendUserKeepsValid` | src/main/java/com/dk/supportsystem/service/AuthService.java:34-51 | adding a user with a new email, with at most one new organization of a new name, keeps the database valid |
| `Tickets.TicketService.GetUserById` | src/main/java/com/dk/supportsystem/service/TicketService.java:148-151 | succeeds iff the user exists, with that user; otherwise NotFound "User not found" |
| `Tickets.TicketService.GetTicketAndValidateAccess` | src/main/java/com/dk/supportsystem/service/TicketService.java:136-146 | succeeds iff ticket and user exist and share an organization, returning the stored ticket; a missing ticket gives NotFound "Ticket not found" (checked first), a missing user NotFound "User not found", a different organization BadRequest "Access denied" |
| `Tickets.TicketService.CreateTicket` | src/main/java/com/dk/supportsystem/service/TicketService.java:34-52 | a missing creator fails with nothing changed; otherwise exactly one Open, unassigned ticket of the creator's organization is appended together with exactly one SLA row for it, and nothing else changes; validity is kept |
| `Tickets.TicketService.GetTickets` | src/main/java/com/dk/supportsystem/service/TicketService.java:54-62 | a missing user gives NotFound; otherwise the result is the filter applied with the acting user's own organization, so it never holds another tenant's ticket |
| `Tickets.TicketService.GetTicketById` | src/main/java/com/dk/supportsystem/service/TicketService.java:64-68 | succeeds iff ticket and user exist and share an organization, with the guard's answer |
| `Tickets.TicketService.AssignTicket` | src/main/java/com/dk/supportsystem/service/TicketService.java:70-90 | after the guard: a missing agent, a non-agent or an agent of another organization fails with its error and nothing changed; otherwise only that ticket changes, to the assigned one (InProgress iff it was Open or already InProgress), which is one `AssignTo` step of the lifecycle runs; validity, so the assignee invariant, is kept |
| `Tickets.TicketService.UpdateStatus` | src/main/java/com/dk/supportsystem/service/TicketService.java:92-108 | after the guard: a closed ticket fails with nothing changed; otherwise only that ticket changes, to the requested status with the matching timestamp; either way the ticket afterwards is one `RequestStatus` step of the lifecycle runs applied to it; validity is kept |
| `Tickets.TicketService.AddMessage` | src/main/java/com/dk/supportsystem/service/TicketService.java:110-127 | after the guard: exactly one message by the acting user on that ticket is appended, the SLA row (if any) records the first response and nothing else changes; on success the ticket's row has firstResponseMet; validity is kept |
| `Tickets.TicketService.UpdateSlaOnFirstResponse` | src/main/java/com/dk/supportsystem/service/TicketService.java:176-183 | only the ticket's SLA row changes, and only if it exists, to the recorded first response |
| `Tickets.TicketService.GetMessages` | src/main/java/com/dk/supportsystem/service/TicketService.java:129-134 | the guard's error, or exactly the ticket's messages oldest first; read-only |
| `Auth.AuthService.Signup` | src/main/java/com/dk/supportsystem/service/AuthService.java:28-62 | a taken email fails with "Email already exists" and nothing changed; otherwise the organization of that name is reused or exactly one is created, exactly one active Admin user with that email and the encoded password is appended, existing users and all tickets, messages and SLA rows are unchanged; names and emails stay unique |
| `Auth.AuthService.Login` | src/main/java/com/dk/supportsystem/service/AuthService.java:64-86 | succeeds iff a user has the email, the password matches and the account is active; unknown email or wrong password give the same "Invalid credentials"; "Account is inactive" exactly when a user has the email, the password matches and the account is inactive; read-only |
| `MessageRows.BuildAsWritten` | src/main/java/com/dk/supportsystem/service/TicketService.java:115-120 | the builder call as written leaves createdAt unset |
| `MessageRows.AsWrittenIsNotInsertable` | src/main/java/com/dk/supportsystem/entity/TicketMessage.java:35-36 | the message as the builder produces it lacks a value for the not-null createdAt column, so it can never be inserted |
| `MessageRows.BuildWithDefault` | src/main/java/com/dk/supportsystem/entity/TicketMessage.java:35-36 | with the initializer honoured the draft is insertable and createdAt is the clock reading; it differs from the as-written draft in createdAt alone |
| `MessageRows.Row` | src/main/java/com/dk/supportsystem/service/TicketService.java:115-122 | the saved row carries the draft's fields and the id it is saved under |

The integrity `Valid()` and the class methods' postconditions are
stated over the whole database: each method says what the new state is.
`TicketService` methods and `Signup` say it with `db.State() ==
old(db.State()).(…)`. Read-only operations have no `modifies` clause,
so they cannot change the database.

`AssignTicket` and `UpdateStatus` also state that the ticket they act on
ends up as `Lifecycle.Apply` of one `AssignTo` or `RequestStatus` step.
The lemmas about runs (`ClosedIsFrozen`, `ContentIsImmutable`,
`TimestampsTrackHistory`) therefore hold for every sequence of these two
service calls on one ticket.

## Left out

- HTTP controllers, principal extraction, DTO mapping, request validation (`@NotBlank`, the 500-character title limit) and the response shapes: outside the engine; operations answer with entities or ids.
- Paging and sorting of `findByFilters`: framework behaviour; the model returns the full matching set of ticket ids.
- JWT token issuance in `signup` and `login`: a foreign cryptographic library; both answer with the user's id instead of tokens.
- Password hashing: `PasswordEncoder.encode` and `matches` are supplied functions. A Dafny function value is deterministic, while a salted encoder gives a different hash on each call; no contract relies on the difference.
- `updatedAt` and the id and timestamp generation of the persistence layer: the base entity is not part of this model. Ids are positions in the stores. A ticket's createdAt is the `now` of its creation.
- Transactions and concurrency: each service method is one atomic step on the database.
- `resolutionMet` is stored and starts false but nothing sets it, as in the code. `isInternal` is stored but no read filters by it.
- Creating agents: no operation of the ticket engine does it. The scenario stores one directly.
- Wall-clock drift between the two `now()` reads in `createSlaConfig` (see above).
- Null arguments, for example a missing agent id or status in a request: rejected by request validation before the engine runs.

## Findings

| source | as written | input that shows it | evidently intended | confidence | as-written member | corrected member |
|---|---|---|---|---|---|---|
| src/main/java/com/dk/supportsystem/service/TicketService.java:115-120 | the message is built with Lombok's builder. `TicketMessage.createdAt` has the initializer `LocalDateTime.now()` but no `@Builder.Default`, so the builder leaves it null although its column is `nullable = false` | any `addMessage` call that passes the guard, e.g. a message on one's own ticket | createdAt is the time the message is built, as in `SlaConfig`, whose defaults carry `@Builder.Default` | medium; not executed | `MessageRows.AsWrittenIsNotInsertable` | `MessageRows.BuildWithDefault` |

`MessageRows.AsWrittenIsNotInsertable` shows that the as-written draft
(`MessageRows.BuildAsWritten`) is never insertable. `AddMessage` builds its
message with `BuildWithDefault`, stamped with `now`.
