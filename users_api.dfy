/** The users REST API for administrators: the paged user list and the ban toggle. */
module UsersApiController {
  import opened Options
  import opened Text
  import opened Entities
  import opened Queries
  import opened AdminController

  /** A user as the list returns it; a missing name or e-mail is shown empty. */
  datatype UserDto = UserDto(
    id: string, fullName: string, email: string, phoneNumber: Option<string>,
    isBanned: bool, isApproved: bool, institutionId: Option<int>)

  function OrEmpty(s: Option<string>): (r: string)
    ensures s.Some? ==> r == s.value
    ensures s.None? ==> r == []
  {
    if s.Some? then s.value else []
  }

  function ToDto(u: User): (d: UserDto)
    ensures d.id == u.id && d.isBanned == u.isBanned && d.isApproved == u.isApproved
    ensures d.email == OrEmpty(u.email) && d.fullName == OrEmpty(u.fullName)
  {
    UserDto(u.id, OrEmpty(u.fullName), OrEmpty(u.email), u.phoneNumber, u.isBanned, u.isApproved, u.institutionId)
  }

  datatype UserPage = UserPage(data: seq<UserDto>, page: int, pageSize: int, total: nat)

  /** The users the list draws from: for a non-empty role, those holding it, in list order. */
  function UsersListed(users: seq<User>, role: Option<string>): (r: seq<User>)
    ensures IsNullOrEmpty(role) ==> r == users
    ensures !IsNullOrEmpty(role) ==> r == Filter(users, HasRole(role.value))
    ensures forall i :: 0 <= i < |r| ==> r[i] in users
  {
    if IsNullOrEmpty(role) then users else Filter(users, HasRole(role.value))
  }

  /** `GetUsers`: the number of listed users and one page of them, skipping
      (page - 1) * pageSize and taking at most pageSize. None when the database refuses
      the paging, which the caller sees as a server error. */
  function GetUsers(users: seq<User>, role: Option<string>, page: int, pageSize: int): (r: Option<UserPage>)
    ensures r.Some? <==> PageAccepted(page, pageSize)
    ensures r.Some? ==> r.value.total == |UsersListed(users, role)|
    ensures r.Some? ==>
              var shown := Page(UsersListed(users, role), page, pageSize).value;
              && |r.value.data| == |shown| <= pageSize
              && forall i :: 0 <= i < |shown| ==> r.value.data[i] == ToDto(shown[i])
  {
    match Page(UsersListed(users, role), page, pageSize)
    case None => None
    case Some(shown) =>
      Some(UserPage(seq(|shown|, i requires 0 <= i < |shown| => ToDto(shown[i])), page, pageSize,
                    |UsersListed(users, role)|))
  }

  /** Every user a page shows under a role filter holds that role. */
  lemma PageHoldsRole(users: seq<User>, role: string, page: int, pageSize: int)
    requires role != [] && PageAccepted(page, pageSize)
    ensures var r := GetUsers(users, Some(role), page, pageSize).value;
            forall i :: 0 <= i < |r.data| ==> exists u :: u in users && role in u.roles && r.data[i] == ToDto(u)
  {
    var listed := UsersListed(users, Some(role));
    var shown := Page(listed, page, pageSize).value;
    var skip := Min((page - 1) * pageSize, |listed|);
    forall i | 0 <= i < |shown|
      ensures shown[i] in users && role in shown[i].roles
    {
      assert shown[i] == listed[skip + i];
    }
  }

  /** Without a role filter, the page that skips `skip` users shows, in list order, the
      users from position `skip` on, as many as fit on a page. */
  lemma PageOfAll(users: seq<User>, page: int, pageSize: int, skip: int)
    requires page >= 1 && pageSize >= 1 && skip == (page - 1) * pageSize && skip <= |users|
    ensures GetUsers(users, None, page, pageSize).Some?
    ensures var data := GetUsers(users, None, page, pageSize).value.data;
            && |data| == Min(pageSize, |users| - skip)
            && forall i :: 0 <= i < |data| ==> data[i] == ToDto(users[skip + i])
  {
    assert UsersListed(users, None) == users;
    assert Min((page - 1) * pageSize, |users|) == skip;
  }

  /** The account after a toggle: the banned flag flipped and nothing else changed. */
  function Toggle(u: User): (r: User)
    ensures r.isBanned == !u.isBanned && r.(isBanned := u.isBanned) == u
  {
    u.(isBanned := !u.isBanned)
  }

  /** Toggling twice restores the account. */
  lemma ToggleTwice(u: User)
    ensures Toggle(Toggle(u)) == u
  {
  }

  datatype ToggleResult = ToggleNotFound | Toggled(isBanned: bool)

  /** `ToggleUserBan`: flips the banned flag and reports the stored value; unlike the
      administrator's ban it writes no ban record. */
  method ToggleUserBan(db: Store, uid: string) returns (r: ToggleResult)
    requires db.Valid()
    modifies db`users
    ensures db.Valid()
    ensures uid !in old(db.users) ==> r == ToggleNotFound && db.users == old(db.users)
    ensures uid in old(db.users) ==>
              && db.users == old(db.users)[uid := Toggle(old(db.users)[uid])]
              && r == Toggled(db.users[uid].isBanned)
              && r.isBanned == !old(db.users)[uid].isBanned
  {
    if uid !in db.users {
      return ToggleNotFound;
    }
    var user := Toggle(db.users[uid]);
    db.users := db.users[uid := user];
    r := Toggled(user.isBanned);
  }
}
