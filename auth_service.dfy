/** AuthService: the signup and login decisions over the shared database.
    The password encoder is given as two functions, `encode` and
    `matches`; no contract depends on what they compute. Token issuance
    is not modelled, so both operations answer with the user's id. */
module Auth {
  import opened Entities
  import opened Store

  class AuthService {
    const db: Database
    const encode: string -> string
    const matches: (string, string) -> bool

    constructor (db: Database, encode: string -> string, matches: (string, string) -> bool)
      ensures this.db == db && this.encode == encode && this.matches == matches
    {
      this.db := db;
      this.encode := encode;
      this.matches := matches;
    }

    /** signup: a taken email is refused; otherwise the organization of
        that name is found or created, and one active Admin user is added. */
    method Signup(email: string, password: string, fullName: string, organizationName: string)
      returns (r: Result<nat>)
      requires db.Valid()
      modifies db
      ensures db.Valid()
      ensures (exists i | 0 <= i < |old(db.users)| :: old(db.users)[i].email == email) ==>
                r == Err(BadRequest("Email already exists")) && db.State() == old(db.State())
      ensures (forall i | 0 <= i < |old(db.users)| :: old(db.users)[i].email != email) ==>
                var found := FindByName(old(db.orgs), organizationName);
                var orgId := if found.Some? then found.value else |old(db.orgs)|;
                && r == Ok(|old(db.users)|)
                && db.State() == old(db.State()).(
                     orgs := if found.Some? then old(db.orgs) else old(db.orgs) + [Organization(organizationName)],
                     users := old(db.users) + [User(email, encode(password), fullName, Admin, orgId, true)])
      ensures r.Ok? ==> && r.value < |db.users| && db.users[r.value].email == email
                        && db.orgs[db.users[r.value].orgId].name == organizationName
                        && |old(db.orgs)| <= |db.orgs| <= |old(db.orgs)| + 1
    {
      if FindByEmail(db.users, email).Some? {
        return Err(BadRequest("Email already exists"));
      }
      var found := FindByName(db.orgs, organizationName);
      var orgs := db.orgs;
      var orgId: nat;
      if found.Some? {
        orgId := found.value;
      } else {
        orgId := |orgs|;
        orgs := orgs + [Organization(organizationName)];
      }
      var user := User(email, encode(password), fullName, Admin, orgId, true);
      AppendUserKeepsValid(db.State(), orgs, user);
      db.orgs := orgs;
      r := Ok(|db.users|);
      db.users := db.users + [user];
    }

    /** login: an unknown email and a wrong password give the same error;
        the active flag is consulted only once the password has matched. */
    method Login(email: string, password: string) returns (r: Result<nat>)
      requires UniqueEmails(db.users)
      ensures r.Ok? <==> exists i | 0 <= i < |db.users| ::
                && db.users[i].email == email
                && matches(password, db.users[i].password)
                && db.users[i].isActive
      ensures r.Ok? ==> r.value < |db.users| && db.users[r.value].email == email
      ensures (forall i | 0 <= i < |db.users| :: db.users[i].email != email || !matches(password, db.users[i].password))
              ==> r == Err(BadRequest("Invalid credentials"))
      ensures r == Err(BadRequest("Account is inactive")) <==>
                exists i | 0 <= i < |db.users| ::
                  && db.users[i].email == email
                  && matches(password, db.users[i].password)
                  && !db.users[i].isActive
      ensures r.Err? ==> r.error in {BadRequest("Invalid credentials"), BadRequest("Account is inactive")}
    {
      var found := FindByEmail(db.users, email);
      if found.None? {
        return Err(BadRequest("Invalid credentials"));
      }
      var user := db.users[found.value];
      if !matches(password, user.password) {
        return Err(BadRequest("Invalid credentials"));
      }
      if !user.isActive {
        return Err(BadRequest("Account is inactive"));
      }
      r := Ok(found.value);
    }
  }
}
