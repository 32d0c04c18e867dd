/** The account side of api/Services/UserService.cs: listing a company's
    users, adding a user under the duplicate-e-mail, subscription and
    Free-plan seat rules, editing, deleting and switching a user on or off.
    The identity store's own verdicts (whether it accepts a create, update
    or delete) and the id it gives a new account are parameters. */
module UserService {
  import opened Common
  import opened Calendar
  import opened CompanyModel
  import opened Database

  /** The number of users a company on the Free plan may have. */
  const FreeSeatLimit := 2

  datatype CreateUserRequest = CreateUserRequest(firstName: string, lastName: string, email: string)

  datatype UpdateUserRequest = UpdateUserRequest(firstName: string, lastName: string, email: string)

  /** `FindByEmailAsync(email) != null`: the identity store compares
      normalised e-mail addresses, so case does not matter. */
  function EmailTaken(users: map<string, User>, email: string): (b: bool)
    ensures (exists k :: k in users && users[k].email == email) ==> b
    ensures b ==> exists k :: k in users && Lower(users[k].email) == Lower(email)
  {
    exists k | k in users :: Lower(users[k].email) == Lower(email)
  }

  function InCompany(companyId: int): User -> bool
  {
    (u: User) => u.companyId == Some(companyId)
  }

  /** `Users.CountAsync(u => u.CompanyId == companyId)`. */
  ghost function SeatsUsed(users: map<string, User>, companyId: int): (n: nat)
    ensures n == 0 <==> forall k :: k in users ==> users[k].companyId != Some(companyId)
  {
    var seats := KeysWhere(users, InCompany(companyId));
    assert forall k :: k in users ==> (k in seats <==> users[k].companyId == Some(companyId));
    assert |seats| == 0 <==> seats == {};
    |seats|
  }

  /** The checks `CreateUserAsync` makes before it asks the identity store,
      in their order; true when the user may be added. */
  ghost function MayAddUser(users: map<string, User>, companies: map<int, Company>, email: string,
                             companyId: int, utcNow: DateTime): (b: bool)
    ensures b ==> companyId in companies && !SubscriptionExpired(companies[companyId], utcNow)
    ensures b && companies[companyId].plan == Free ==> SeatsUsed(users, companyId) + 1 <= FreeSeatLimit
    ensures b ==> forall k :: k in users ==> users[k].email != email
  {
    && !EmailTaken(users, email)
    && companyId in companies
    && !SubscriptionExpired(companies[companyId], utcNow)
    && !(companies[companyId].plan == Free && SeatsUsed(users, companyId) >= FreeSeatLimit)
  }

  /** The account `CreateUserAsync` builds: the e-mail doubles as the user
      name, the user belongs to the company and is put in the "User" role. */
  function NewUser(id: string, request: CreateUserRequest, companyId: int, utcNow: DateTime): (u: User)
    ensures u.id == id && u.userName == request.email && u.email == request.email
    ensures u.firstName == request.firstName && u.lastName == request.lastName
    ensures u.companyId == Some(companyId) && u.roles == {"User"}
    ensures u.isActive && u.createdAt == utcNow
  {
    User(id, request.firstName, request.lastName, request.email, request.email, Some(companyId), true, utcNow, {"User"})
  }

  /** The field assignments of `UpdateUserAsync`: names and e-mail, with
      the user name following the e-mail. Nothing else changes. */
  function ApplyUserUpdate(u: User, request: UpdateUserRequest): (r: User)
    ensures r.firstName == request.firstName && r.lastName == request.lastName
    ensures r.email == request.email && r.userName == r.email
    ensures r.(firstName := u.firstName, lastName := u.lastName, email := u.email, userName := u.userName) == u
  {
    u.(firstName := request.firstName, lastName := request.lastName, email := request.email, userName := request.email)
  }

  // ---------------------------------------------------------------------
  // Queries

  /** `GetUsersByCompanyAsync`: exactly the company's users. */
  method GetUsersByCompany(db: Db, companyId: int) returns (users: seq<User>)
    ensures forall u :: u in users <==> u in db.users.Values && u.companyId == Some(companyId)
    ensures |users| == SeatsUsed(db.users, companyId)
  {
    users := SelectWhere(db.users, InCompany(companyId));
  }

  /** `Users.CountAsync(u => u.CompanyId == companyId)`. */
  method CountSeats(db: Db, companyId: int) returns (n: int)
    ensures n == SeatsUsed(db.users, companyId)
  {
    var rows := SelectWhere(db.users, InCompany(companyId));
    n := |rows|;
  }

  method FindByEmail(db: Db, email: string) returns (found: bool)
    ensures found <==> EmailTaken(db.users, email)
  {
    found := EmailTaken(db.users, email);
  }

  // ---------------------------------------------------------------------
  // Commands

  /** Adding one user to a company takes exactly one more seat there. */
  lemma AddingUserTakesSeat(users: map<string, User>, u: User, companyId: int)
    requires u.id !in users && u.companyId == Some(companyId)
    ensures SeatsUsed(users[u.id := u], companyId) == SeatsUsed(users, companyId) + 1
  {
    var keep := InCompany(companyId);
    assert KeysWhere(users[u.id := u], keep) == KeysWhere(users, keep) + {u.id};
  }

  /** `CreateUserAsync`. `newId` is the id the identity store hands the
      account and `storeAccepts` its verdict on `CreateAsync`. */
  method CreateUser(db: Db, request: CreateUserRequest, companyId: int, utcNow: DateTime,
                    newId: string, storeAccepts: bool)
    returns (created: Option<User>)
    requires db.Valid() && newId !in db.users
    modifies db`users, db`companies
    ensures db.Valid()
    ensures created.Some? <==> MayAddUser(old(db.users), old(db.companies), request.email, companyId, utcNow) && storeAccepts
    ensures created.Some? ==>
      && created.value == NewUser(newId, request, companyId, utcNow)
      && db.users == old(db.users)[newId := created.value]
      && db.companies == old(db.companies)
      && (db.companies[companyId].plan == Free ==> SeatsUsed(db.users, companyId) <= FreeSeatLimit)
    ensures created.None? ==> db.users == old(db.users)
    ensures created.None? ==>
      if !EmailTaken(old(db.users), request.email) && companyId in old(db.companies)
         && SubscriptionExpired(old(db.companies)[companyId], utcNow)
      then db.companies == old(db.companies)[companyId := old(db.companies)[companyId].(isActive := false)]
      else db.companies == old(db.companies)
  {
    var taken := FindByEmail(db, request.email);
    if taken {
      return None;
    }
    if companyId !in db.companies {
      return None;
    }
    var company := db.companies[companyId];
    if SubscriptionExpired(company, utcNow) {
      SaveCompany(db, company.(isActive := false));
      return None;
    }
    var userCount := CountSeats(db, companyId);
    if company.plan == Free && userCount >= FreeSeatLimit {
      return None;
    }
    if !storeAccepts {
      return None;
    }
    var user := NewUser(newId, request, companyId, utcNow);
    AddingUserTakesSeat(db.users, user, companyId);
    db.users := db.users[newId := user];
    created := Some(user);
  }

  /** `UpdateUserAsync`; `storeAccepts` is the identity store's verdict on
      `UpdateAsync`, without which nothing is stored. */
  method UpdateUser(db: Db, id: string, request: UpdateUserRequest, storeAccepts: bool) returns (updated: Option<User>)
    requires db.Valid()
    modifies db`users
    ensures db.Valid()
    ensures updated.Some? <==> id in old(db.users) && storeAccepts
    ensures updated.None? ==> db.users == old(db.users)
    ensures updated.Some? ==>
      && updated.value == ApplyUserUpdate(old(db.users)[id], request)
      && db.users == old(db.users)[id := updated.value]
  {
    if id !in db.users || !storeAccepts {
      return None;
    }
    var user := ApplyUserUpdate(db.users[id], request);
    db.users := db.users[id := user];
    updated := Some(user);
  }

  /** `DeleteUserAsync`. */
  method DeleteUser(db: Db, id: string, storeAccepts: bool) returns (deleted: bool)
    requires db.Valid()
    modifies db`users
    ensures db.Valid()
    ensures deleted <==> id in old(db.users) && storeAccepts
    ensures db.users == if deleted then old(db.users) - {id} else old(db.users)
  {
    if id !in db.users || !storeAccepts {
      return false;
    }
    db.users := db.users - {id};
    return true;
  }

  /** `ToggleUserStatusAsync`: the user's active flag is negated, so a
      second accepted toggle restores it. */
  method ToggleUserStatus(db: Db, id: string, storeAccepts: bool) returns (toggled: bool)
    requires db.Valid()
    modifies db`users
    ensures db.Valid()
    ensures toggled <==> id in old(db.users) && storeAccepts
    ensures toggled ==> db.users == old(db.users)[id := old(db.users)[id].(isActive := !old(db.users)[id].isActive)]
    ensures toggled ==> db.users[id].(isActive := old(db.users)[id].isActive) == old(db.users)[id]
    ensures !toggled ==> db.users == old(db.users)
  {
    if id !in db.users || !storeAccepts {
      return false;
    }
    var user := db.users[id];
    db.users := db.users[id := user.(isActive := !user.isActive)];
    return true;
  }
}
