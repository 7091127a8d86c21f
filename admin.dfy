/** The administrator's handlers: dashboard figures, the user list filters, approving,
    banning, unbanning and deleting accounts, and deleting complaints. */
module AdminController {
  import opened Options
  import opened Text
  import opened Entities
  import opened Queries
  import opened InstitutionController

  const DEFAULT_BAN_REASON: string := "Kuralları ihlal"
  const DEFAULT_DELETE_REASON: string := "Hesap silindi"
  const DELETED_NAME: string := "Silinen Kullanıcı"
  const DELETED_COMPLAINT_ACTION: string := "Başvuru Silindi"
  const DELETED_COMPLAINT_PREFIX: string := "Silme nedeni: "
  const UNKNOWN_ADDRESS: string := "Unknown"

  /** The figures of the dashboard. */
  datatype Dashboard = Dashboard(
    totalUsers: nat, pendingApprovals: nat, bannedUsers: nat, totalComplaints: nat,
    resolvedComplaints: nat, pendingModeration: nat, totalInstitutions: nat,
    moderatorCount: nat, recentBans: nat, resolutionRate: int)

  function StatusIs(s: ComplaintStatus): Complaint -> bool
  {
    (c: Complaint) => c.status == s
  }

  /** A ban record made within the last day before `now`. */
  function RecentBan(now: int): BannedUser -> bool
  {
    (b: BannedUser) => b.bannedAt >= now - SECONDS_PER_DAY
  }

  /** `Dashboard`: user, complaint and ban counts, with the integer resolution rate of the
      Resolved complaints over all complaints. Bans are recent when made within the last day. */
  function DashboardOf(users: map<string, User>, cs: seq<Complaint>, institutions: map<int, Institution>,
                       bans: seq<BannedUser>, now: int): (d: Dashboard)
    ensures d.totalUsers == |users| && d.totalComplaints == |cs| && d.totalInstitutions == |institutions|
    ensures d.pendingApprovals == UsersWhere(users, Pending())
    ensures d.bannedUsers == UsersWhere(users, Banned())
    ensures d.moderatorCount == UsersWhere(users, HasRole("Moderator"))
    ensures d.resolvedComplaints == |Filter(cs, StatusIs(Resolved))|
    ensures d.pendingModeration == |Filter(cs, StatusIs(PendingModeration))|
    ensures d.recentBans == |Filter(bans, RecentBan(now))|
    ensures d.pendingApprovals <= d.totalUsers && d.bannedUsers <= d.totalUsers
    ensures d.moderatorCount <= d.totalUsers
    ensures d.resolvedComplaints + d.pendingModeration <= d.totalComplaints
    ensures d.resolutionRate == ResolutionRate(d.resolvedComplaints, d.totalComplaints)
    ensures 0 <= d.resolutionRate <= 100
    ensures d.recentBans <= |bans|
  {
    var either := (c: Complaint) => c.status == Resolved || c.status == PendingModeration;
    CountSplit(cs, StatusIs(Resolved), StatusIs(PendingModeration), either);
    CountIsFilterLength(cs, StatusIs(Resolved));
    CountIsFilterLength(cs, StatusIs(PendingModeration));
    CountIsFilterLength(bans, RecentBan(now));
    var resolved := Count(cs, StatusIs(Resolved));
    Dashboard(
      |users|,
      UsersWhere(users, Pending()),
      UsersWhere(users, Banned()),
      |cs|,
      resolved,
      Count(cs, StatusIs(PendingModeration)),
      |institutions|,
      UsersWhere(users, HasRole("Moderator")),
      Count(bans, RecentBan(now)),
      ResolutionRate(resolved, |cs|))
  }

  /** The number of accounts satisfying `p` (`Users.CountAsync(p)`): the size of the set of
      keys whose account satisfies it, zero exactly when no account does. */
  function UsersWhere(users: map<string, User>, p: User -> bool): (n: nat)
    ensures n == |set k | k in users && p(users[k])|
    ensures n <= |users|
    ensures n == 0 <==> forall k :: k in users ==> !p(users[k])
  {
    var keys := set k | k in users && p(users[k]);
    SubsetCardinality(keys, users.Keys);
    assert forall k :: k in users && p(users[k]) ==> k in keys;
    |keys|
  }

  lemma {:induction false} SubsetCardinality<T>(a: set<T>, b: set<T>)
    requires a <= b
    ensures |a| <= |b|
    decreases |b|
  {
    if a != {} {
      var x :| x in a;
      SubsetCardinality(a - {x}, b - {x});
    }
  }

  /** The three named status filters of the user list. */
  function Pending(): User -> bool { (u: User) => !u.isApproved }
  function Banned(): User -> bool { (u: User) => u.isBanned }
  function Active(): User -> bool { (u: User) => u.isApproved && !u.isBanned }

  /** The status filter of `Users`: "pending", "banned" and "active" select; anything
      else, and no filter, keeps the whole list. */
  function UsersWithStatus(users: seq<User>, statusFilter: Option<string>): (r: seq<User>)
    ensures statusFilter == Some("pending") ==> r == Filter(users, Pending())
    ensures statusFilter == Some("banned") ==> r == Filter(users, Banned())
    ensures statusFilter == Some("active") ==> r == Filter(users, Active())
    ensures statusFilter !in {Some("pending"), Some("banned"), Some("active")} ==> r == users
  {
    if IsNullOrEmpty(statusFilter) then users
    else if statusFilter.value == "pending" then Filter(users, Pending())
    else if statusFilter.value == "banned" then Filter(users, Banned())
    else if statusFilter.value == "active" then Filter(users, Active())
    else users
  }

  /** Every listed user is pending, active, or approved yet banned, and in exactly one of
      these: the "pending" and "active" lists plus the approved banned users make up the
      whole list, so the "pending" and "active" lists never share a user. */
  lemma StatusFiltersPartition(users: seq<User>)
    ensures |UsersWithStatus(users, Some("pending"))| + |UsersWithStatus(users, Some("active"))|
            + Count(users, (u: User) => u.isApproved && u.isBanned) == |users|
  {
    var approved := (u: User) => u.isApproved;
    var bannedApproved := (u: User) => u.isApproved && u.isBanned;
    var all := (u: User) => true;
    CountSplit(users, Active(), bannedApproved, approved);
    CountSplit(users, Pending(), approved, all);
    CountIsFilterLength(users, Pending());
    CountIsFilterLength(users, Active());
    CountIsFilterLength(users, all);
    FilterAll(users, all);
  }

  function HasRole(role: string): User -> bool
  {
    (u: User) => role in u.roles
  }

  /** The role filter loop of `Users`: for a non-empty role, the listed users holding it,
      in list order; otherwise the list as it is. */
  method FilterByRole(users: seq<User>, roleFilter: Option<string>) returns (r: seq<User>)
    ensures IsNullOrEmpty(roleFilter) ==> r == users
    ensures !IsNullOrEmpty(roleFilter) ==> r == Filter(users, HasRole(roleFilter.value))
  {
    if IsNullOrEmpty(roleFilter) {
      return users;
    }
    var role := roleFilter.value;
    r := [];
    var i := 0;
    while i < |users|
      invariant 0 <= i <= |users|
      invariant r == Filter(users[..i], HasRole(role))
    {
      assert users[..i + 1][..i] == users[..i];
      if role in users[i].roles {
        r := r + [users[i]];
      }
      i := i + 1;
    }
    assert users[..i] == users;
  }

  datatype UserResult = UserNotFound | UserUpdated

  /** `ApproveUser`: the account becomes approved; nothing else changes. */
  method ApproveUser(db: Store, uid: string) returns (r: UserResult)
    requires db.Valid()
    modifies db`users
    ensures db.Valid()
    ensures uid !in old(db.users) ==> r == UserNotFound && db.users == old(db.users)
    ensures uid in old(db.users) ==> r == UserUpdated && db.users == old(db.users)[uid := old(db.users)[uid].(isApproved := true)]
  {
    if uid !in db.users {
      return UserNotFound;
    }
    db.users := db.users[uid := db.users[uid].(isApproved := true)];
    r := UserUpdated;
  }

  /** The permanent ban record of `BanUser`, keeping the account's current e-mail and phone. */
  function AdminBan(u: User, reason: Option<string>, admin: string, now: int): (b: BannedUser)
    ensures b.userId == u.id && b.bannedBy == admin && b.bannedAt == now
    ensures b.isPermanent && b.banExpiresAt.None?
    ensures b.bannedEmail == u.email && b.bannedPhone == u.phoneNumber
    ensures b.reason == Some(if reason.Some? then reason.value else DEFAULT_BAN_REASON)
  {
    BannedUser(u.id, Some(if reason.Some? then reason.value else DEFAULT_BAN_REASON), now, admin, true, None,
               u.email, u.phoneNumber)
  }

  /** `BanUser`: the account is flagged banned and one permanent ban record is added. */
  method BanUser(db: Store, uid: string, reason: Option<string>, admin: string, now: int) returns (r: UserResult)
    requires db.Valid()
    modifies db`users, db`bans
    ensures db.Valid()
    ensures uid !in old(db.users) ==> r == UserNotFound && db.users == old(db.users) && db.bans == old(db.bans)
    ensures uid in old(db.users) ==>
              var u := old(db.users)[uid];
              && r == UserUpdated
              && db.users == old(db.users)[uid := u.(isBanned := true)]
              && db.bans == old(db.bans) + [AdminBan(u, reason, admin, now)]
  {
    if uid !in db.users {
      return UserNotFound;
    }
    var user := db.users[uid];
    db.users := db.users[uid := user.(isBanned := true)];
    db.bans := db.bans + [AdminBan(user, reason, admin, now)];
    r := UserUpdated;
  }

  /** `UnbanUser`: only the banned flag is cleared; the ban history stays as it is. */
  method UnbanUser(db: Store, uid: string) returns (r: UserResult)
    requires db.Valid()
    modifies db`users
    ensures db.Valid()
    ensures uid !in old(db.users) ==> r == UserNotFound && db.users == old(db.users)
    ensures uid in old(db.users) ==> r == UserUpdated && db.users == old(db.users)[uid := old(db.users)[uid].(isBanned := false)]
  {
    if uid !in db.users {
      return UserNotFound;
    }
    db.users := db.users[uid := db.users[uid].(isBanned := false)];
    r := UserUpdated;
  }

  /** Banning and then unbanning an account: it ends up not banned, and the ban record
      made by the first request stays in the history. */
  method BanThenUnban(db: Store, uid: string, reason: Option<string>, admin: string, now: int)
    requires db.Valid()
    modifies db`users, db`bans
    ensures db.Valid()
    ensures uid in old(db.users) ==>
              var u := old(db.users)[uid];
              && db.users == old(db.users)[uid := u.(isBanned := false)]
              && db.bans == old(db.bans) + [AdminBan(u, reason, admin, now)]
    ensures uid !in old(db.users) ==> db.users == old(db.users) && db.bans == old(db.bans)
  {
    var r1 := BanUser(db, uid, reason, admin, now);
    var r2 := UnbanUser(db, uid);
  }

  /** The placeholder e-mail and user name of a deleted account. */
  function DeletedEmail(id: string): string
  {
    "deleted_" + id + "@deleted.local"
  }

  function DeletedUserName(id: string): string
  {
    "deleted_" + id
  }

  /** The account after deletion: banned, its credentials replaced by placeholders derived
      from its id (normalised by upper-casing), its phone cleared and its name replaced. */
  function Anonymise(u: User): (r: User)
    ensures r.id == u.id && r.isBanned
    ensures r.email == Some(DeletedEmail(u.id)) && r.normalizedEmail == Some(Upper(DeletedEmail(u.id)))
    ensures r.userName == Some(DeletedUserName(u.id)) && r.normalizedUserName == Some(Upper(DeletedUserName(u.id)))
    ensures r.phoneNumber.None? && r.fullName == Some(DELETED_NAME)
    ensures r.(isBanned := u.isBanned, email := u.email, normalizedEmail := u.normalizedEmail,
               userName := u.userName, normalizedUserName := u.normalizedUserName,
               phoneNumber := u.phoneNumber, fullName := u.fullName) == u
  {
    var email := DeletedEmail(u.id);
    var userName := DeletedUserName(u.id);
    u.(isBanned := true, email := Some(email), normalizedEmail := Some(Upper(email)),
       userName := Some(userName), normalizedUserName := Some(Upper(userName)),
       phoneNumber := None, fullName := Some(DELETED_NAME))
  }

  /** The ban record `DeleteUser` writes: only for an account with a non-empty e-mail, and
      keeping the e-mail and phone the account had before deletion. */
  function DeletionBan(u: User, reason: Option<string>, admin: string, now: int): (r: Option<BannedUser>)
    ensures r.Some? <==> !IsNullOrEmpty(u.email)
    ensures r.Some? ==> && r.value.userId == u.id && r.value.bannedBy == admin && r.value.bannedAt == now
                        && r.value.isPermanent && r.value.banExpiresAt.None?
                        && r.value.bannedEmail == u.email && r.value.bannedPhone == u.phoneNumber
                        && r.value.reason == Some(if reason.Some? then reason.value else DEFAULT_DELETE_REASON)
  {
    if IsNullOrEmpty(u.email) then None
    else Some(BannedUser(u.id, Some(if reason.Some? then reason.value else DEFAULT_DELETE_REASON), now, admin,
                         true, None, u.email, u.phoneNumber))
  }

  /** Distinct accounts get distinct placeholder e-mails, so anonymised accounts never
      collide on the e-mail. */
  lemma DeletedEmailsDistinct(a: string, b: string)
    requires a != b
    ensures DeletedEmail(a) != DeletedEmail(b)
  {
    if |a| == |b| {
      var k :| 0 <= k < |a| && a[k] != b[k];
      assert DeletedEmail(a)[8 + k] == a[k];
      assert DeletedEmail(b)[8 + k] == b[k];
    } else {
      assert |DeletedEmail(a)| != |DeletedEmail(b)|;
    }
  }

  /** Deleting an account twice: the second deletion finds the placeholder e-mail, so it
      writes a second ban record, whose snapshot holds the placeholder and no phone. The
      anonymised account itself is the same after both. */
  lemma DeletingTwice(u: User, reason: Option<string>, admin: string, now: int)
    ensures Anonymise(Anonymise(u)) == Anonymise(u)
    ensures var again := DeletionBan(Anonymise(u), reason, admin, now);
            again.Some? && again.value.bannedEmail == Some(DeletedEmail(u.id)) && again.value.bannedPhone.None?
  {
  }

  /** `DeleteUser`: writes the credential snapshot (when there is an e-mail) and
      anonymises the account in place; the account row is kept. */
  method DeleteUser(db: Store, uid: string, reason: Option<string>, admin: string, now: int) returns (r: UserResult)
    requires db.Valid()
    modifies db`users, db`bans
    ensures db.Valid()
    ensures uid !in old(db.users) ==> r == UserNotFound && db.users == old(db.users) && db.bans == old(db.bans)
    ensures uid in old(db.users) ==>
              var u := old(db.users)[uid];
              var record := DeletionBan(u, reason, admin, now);
              && r == UserUpdated
              && db.users == old(db.users)[uid := Anonymise(u)]
              && db.bans == old(db.bans) + (if record.Some? then [record.value] else [])
  {
    if uid !in db.users {
      return UserNotFound;
    }
    var user := db.users[uid];
    var record := DeletionBan(user, reason, admin, now);
    if record.Some? {
      db.bans := db.bans + [record.value];
    }
    db.users := db.users[uid := Anonymise(user)];
    r := UserUpdated;
  }

  function NotComplaint(id: int): Complaint -> bool
  {
    (c: Complaint) => c.id != id
  }

  function NotUpdateOf(id: int): ComplaintUpdate -> bool
  {
    (u: ComplaintUpdate) => u.complaintId != id
  }

  /** A warning whose complaint is deleted loses its reference to it (ON DELETE SET NULL). */
  function Detach(w: Warning, id: int): (r: Warning)
    ensures r.complaintId == (if w.complaintId == Some(id) then None else w.complaintId)
    ensures r.(complaintId := w.complaintId) == w
  {
    if w.complaintId == Some(id) then w.(complaintId := None) else w
  }

  function DetachAll(ws: seq<Warning>, id: int): (r: seq<Warning>)
    ensures |r| == |ws|
    ensures forall i :: 0 <= i < |ws| ==> r[i] == Detach(ws[i], id)
  {
    seq(|ws|, i requires 0 <= i < |ws| => Detach(ws[i], id))
  }

  /** Removing the row at the position of key `id` is keeping every row of another key. */
  lemma RemoveAtIsFilter(cs: seq<Complaint>, i: int, id: int)
    requires UniqueComplaintIds(cs) && 0 <= i < |cs| && cs[i].id == id
    ensures cs[..i] + cs[i + 1..] == Filter(cs, NotComplaint(id))
  {
    var p := NotComplaint(id);
    var pre, post := cs[..i], cs[i + 1..];
    assert cs == pre + [cs[i]] + post;
    OtherKeysKept(cs, i, id);
    FilterNone([cs[i]], p);
    FilterAppend(pre + [cs[i]], post, p);
    FilterAppend(pre, [cs[i]], p);
  }

  /** With unique keys, the rows before and after the one of key `id` all have other keys. */
  lemma OtherKeysKept(cs: seq<Complaint>, i: int, id: int)
    requires UniqueComplaintIds(cs) && 0 <= i < |cs| && cs[i].id == id
    ensures Filter(cs[..i], NotComplaint(id)) == cs[..i]
    ensures Filter(cs[i + 1..], NotComplaint(id)) == cs[i + 1..]
  {
    var p := NotComplaint(id);
    var pre, post := cs[..i], cs[i + 1..];
    assert forall j :: 0 <= j < |pre| ==> p(pre[j]) by {
      forall j | 0 <= j < |pre|
        ensures p(pre[j])
      {
        assert pre[j] == cs[j];
      }
    }
    assert forall j :: 0 <= j < |post| ==> p(post[j]) by {
      forall j | 0 <= j < |post|
        ensures p(post[j])
      {
        assert post[j] == cs[i + 1 + j];
      }
    }
    FilterAll(pre, p);
    FilterAll(post, p);
  }

  /** Removing one row keeps the primary key unique and every remaining key below `bound`. */
  lemma RemoveAtKeepsKeys(cs: seq<Complaint>, i: int, bound: int, r: seq<Complaint>)
    requires UniqueComplaintIds(cs) && 0 <= i < |cs|
    requires IdsBelow(cs, bound)
    requires r == cs[..i] + cs[i + 1..]
    ensures UniqueComplaintIds(r) && IdsBelow(r, bound)
  {
    assert forall j :: 0 <= j < |r| ==> r[j] == cs[if j < i then j else j + 1];
  }

  /** After a deletion no complaint of that id remains and every other complaint does. */
  lemma DeletionRemovesExactly(cs: seq<Complaint>, id: int, c: Complaint)
    ensures c in Filter(cs, NotComplaint(id)) <==> c in cs && c.id != id
  {
  }

  /** The audit row of a complaint deletion: the admin, the reason, and the connection's
      remote address (not the forwarded one). */
  function DeletionLog(admin: string, id: int, reason: Option<string>, remoteIp: Option<string>, now: int): (l: AuditLog)
    ensures l.userId == Some(admin) && l.entityId == Some(id) && l.createdAt == now
    ensures l.ipAddress == (if remoteIp.Some? then remoteIp.value else UNKNOWN_ADDRESS)
  {
    AuditLog(Some(admin), DELETED_COMPLAINT_ACTION, "Complaint", Some(id),
             Some(DELETED_COMPLAINT_PREFIX + (if reason.Some? then reason.value else "")),
             if remoteIp.Some? then remoteIp.value else UNKNOWN_ADDRESS, now)
  }

  datatype DeleteResult = ComplaintNotFound | ComplaintDeleted

  /** `DeleteComplaint`: writes one audit row and removes the complaint with its media and
      its status history; warnings that referred to it keep their place without the reference. */
  method DeleteComplaint(db: Store, id: int, reason: Option<string>, admin: string, remoteIp: Option<string>, now: int)
    returns (r: DeleteResult)
    requires db.Valid()
    modifies db`complaints, db`updates, db`warnings, db`auditLogs
    ensures db.Valid()
    ensures IndexOf(old(db.complaints), id).None? ==> r == ComplaintNotFound && unchanged(db)
    ensures IndexOf(old(db.complaints), id).Some? ==>
              && r == ComplaintDeleted
              && db.complaints == Filter(old(db.complaints), NotComplaint(id))
              && db.updates == Filter(old(db.updates), NotUpdateOf(id))
              && db.warnings == DetachAll(old(db.warnings), id)
              && db.auditLogs == old(db.auditLogs) + [DeletionLog(admin, id, reason, remoteIp, now)]
  {
    var found := IndexOf(db.complaints, id);
    if found.None? {
      return ComplaintNotFound;
    }
    var i := found.value;
    var kept := db.complaints[..i] + db.complaints[i + 1..];
    RemoveAtIsFilter(db.complaints, i, id);
    RemoveAtKeepsKeys(db.complaints, i, db.nextComplaintId, kept);
    assert Consistent(db.users, db.institutions, kept, db.nextComplaintId, db.badges, db.userBadges);
    db.auditLogs := db.auditLogs + [DeletionLog(admin, id, reason, remoteIp, now)];
    db.complaints := kept;
    db.updates := Filter(db.updates, NotUpdateOf(id));
    db.warnings := DetachAll(db.warnings, id);
    r := ComplaintDeleted;
  }
}
