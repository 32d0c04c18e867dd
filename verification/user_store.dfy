/** ui/store/userStore.ts: the company's user list with a loading flag
    and error text. `createUser` first applies the client's copy of the
    Free-plan seat limit, and, unlike the offer store's guard, its message
    reaches the caller. */
module UserStore {
  import opened Common
  import opened CompanyModel
  import opened KeyedLists
  import opened ClientModel

  /** The Free plan's seat limit as the client checks it. */
  const ClientSeatLimit := 2

  const SeatMessage := "Ücretsiz planda en fazla 2 kullanıcı ekleyebilirsiniz."

  function UserHasId(id: string): ClientUser -> bool
  {
    (u: ClientUser) => u.id == id
  }

  function FlipActive(u: ClientUser): ClientUser
  {
    u.(isActive := !u.isActive)
  }

  /** The seat guard of `createUser`: a known company on the Free plan
      whose list already holds two users. */
  predicate SeatsFull(company: Option<ClientCompany>, users: seq<ClientUser>)
  {
    company.Some? && company.value.plan == Free && |users| >= ClientSeatLimit
  }

  class UserStore {
    var users: seq<ClientUser>
    var loading: bool
    var error: Option<string>

    constructor()
      ensures users == [] && !loading && error == None
    {
      users := [];
      loading := false;
      error := None;
    }

    /** `setUsers`. */
    method SetUsers(list: seq<ClientUser>)
      modifies this`users
      ensures users == list
    {
      users := list;
    }

    /** `fetchUsers`: a failure keeps the list and records the error. */
    method FetchUsers(reply: Reply<seq<ClientUser>>)
      modifies this
      ensures !loading
      ensures reply.Ok? ==> users == reply.data && error == None
      ensures reply.Err? ==> users == old(users) && error == Some(MessageOr(reply.error, "Kullanıcılar yüklenemedi"))
    {
      loading := true;
      error := None;
      match reply {
        case Ok(data) =>
          users := data;
          loading := false;
        case Err(e) =>
          error := Some(MessageOr(e, "Kullanıcılar yüklenemedi"));
          loading := false;
      }
    }

    /** `createUser`: with the seats taken nothing is requested, the list
      is unchanged and the guard's own message is thrown; otherwise the
      new user goes last. */
    method CreateUser(company: Option<ClientCompany>, reply: Reply<ClientUser>) returns (outcome: Outcome<ClientUser>)
      modifies this`users
      ensures SeatsFull(company, old(users)) ==> outcome == Threw(SeatMessage) && users == old(users)
      ensures !SeatsFull(company, old(users)) && reply.Ok? ==>
        outcome == Returned(reply.data) && users == old(users) + [reply.data]
      ensures !SeatsFull(company, old(users)) && reply.Err? ==>
        outcome == Threw(MessageOrOwn(reply.error, "Kullanıcı oluşturulamadı")) && users == old(users)
    {
      var failure: Option<Thrown> := None;
      if SeatsFull(company, users) {
        failure := Some(Thrown(None, SeatMessage));
      } else if reply.Err? {
        failure := Some(reply.error);
      }
      if failure.Some? {
        LocalErrorMessages(SeatMessage, "Kullanıcı oluşturulamadı");
        return Threw(MessageOrOwn(failure.value, "Kullanıcı oluşturulamadı"));
      }
      users := users + [reply.data];
      outcome := Returned(reply.data);
    }

    /** `updateUser`: the entries with the id become the returned user. */
    method UpdateUser(id: string, reply: Reply<ClientUser>) returns (outcome: Outcome<ClientUser>)
      modifies this`users
      ensures reply.Ok? ==>
        outcome == Returned(reply.data) && users == ReplaceWhere(old(users), UserHasId(id), (u: ClientUser) => reply.data)
      ensures reply.Err? ==>
        outcome == Threw(MessageOr(reply.error, "Kullanıcı güncellenemedi")) && users == old(users)
    {
      match reply {
        case Ok(updated) =>
          users := ReplaceWhere(users, UserHasId(id), (u: ClientUser) => updated);
          outcome := Returned(updated);
        case Err(e) =>
          outcome := Threw(MessageOr(e, "Kullanıcı güncellenemedi"));
      }
    }

    /** `deleteUser`: the entries with the id go, the rest keep their
      order. */
    method DeleteUser(id: string, reply: Reply<()>) returns (outcome: Outcome<()>)
      modifies this`users
      ensures reply.Ok? ==> outcome == Returned(()) && users == RemoveWhere(old(users), UserHasId(id))
      ensures reply.Err? ==> outcome == Threw(MessageOr(reply.error, "Kullanıcı silinemedi")) && users == old(users)
    {
      match reply {
        case Ok(_) =>
          users := RemoveWhere(users, UserHasId(id));
          outcome := Returned(());
        case Err(e) =>
          outcome := Threw(MessageOr(e, "Kullanıcı silinemedi"));
      }
    }

    /** `toggleUserStatus`: the active flag of the entries with the id is
      negated; every other field and entry is kept. */
    method ToggleUserStatus(id: string, reply: Reply<()>) returns (outcome: Outcome<()>)
      modifies this`users
      ensures reply.Ok? ==> outcome == Returned(()) && users == ReplaceWhere(old(users), UserHasId(id), FlipActive)
      ensures reply.Err? ==>
        outcome == Threw(MessageOr(reply.error, "Kullanıcı durumu güncellenemedi")) && users == old(users)
    {
      match reply {
        case Ok(_) =>
          users := ReplaceWhere(users, UserHasId(id), FlipActive);
          outcome := Returned(());
        case Err(e) =>
          outcome := Threw(MessageOr(e, "Kullanıcı durumu güncellenemedi"));
      }
    }
  }

  /** Two successful toggles of the same user restore the list. */
  lemma ToggleTwiceRestores(users: seq<ClientUser>, id: string)
    ensures ReplaceWhere(ReplaceWhere(users, UserHasId(id), FlipActive), UserHasId(id), FlipActive) == users
  {
    ReplaceTwiceRestores(users, UserHasId(id), FlipActive);
  }

  /** A toggle changes only the active flag of the user with the id. */
  lemma ToggleChangesOnlyTheFlag(users: seq<ClientUser>, id: string)
    ensures forall i :: 0 <= i < |users| ==>
      var t := ReplaceWhere(users, UserHasId(id), FlipActive)[i];
      t.(isActive := users[i].isActive) == users[i] && (t.isActive <==> (users[i].id == id) != users[i].isActive)
  {
  }
}
