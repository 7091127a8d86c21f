/** The moderator's handlers: approving and rejecting complaints that await moderation,
    and warning users, where the warning count drives an escalating ban ladder. */
module ModeratorController {
  import opened Options
  import opened Entities
  import opened Queries
  import opened GamificationService

  const APPROVED_MESSAGE: string := "Başvuru moderatör tarafından onaylandı."
  const REJECTED_PREFIX: string := "Başvuru reddedildi. Neden: "
  const PERMANENT_REASON: string := "4 uyarı nedeniyle kalıcı yasaklama"
  const MONTH_REASON: string := "3. uyarı: 30 gün askıya alma"
  const WEEK_REASON: string := "2. uyarı: 7 gün askıya alma"

  /** Outcome of a handler that looks a complaint up by id. */
  datatype Outcome = NotFound | Done

  /** The complaint after approval: routed to the institution as New and marked approved.
      Nothing else changes, and the prior status is not consulted. */
  function Approve(c: Complaint): (r: Complaint)
    ensures r.status == New && r.isApproved
    ensures r.(status := c.status, isApproved := c.isApproved) == c
  {
    c.(status := New, isApproved := true)
  }

  /** The complaint after rejection: Rejected, not approved, with the moderator's reason. */
  function Reject(c: Complaint, reason: string): (r: Complaint)
    ensures r.status == Rejected && !r.isApproved && r.rejectionReason == Some(reason)
    ensures r.(status := c.status, isApproved := c.isApproved, rejectionReason := c.rejectionReason) == c
  {
    c.(status := Rejected, isApproved := false, rejectionReason := Some(reason))
  }

  /** Approving twice is approving once. */
  lemma ApproveIdempotent(c: Complaint)
    ensures Approve(Approve(c)) == Approve(c)
  {
  }

  /** Approval does not clear an earlier rejection's reason: a complaint rejected and then
      approved is New and approved but still carries the reason. */
  lemma ApprovalKeepsRejectionReason(c: Complaint, reason: string)
    ensures var r := Approve(Reject(c, reason));
            r.status == New && r.isApproved && r.rejectionReason == Some(reason)
  {
  }

  /** The last decision wins: rejecting after an approval gives what rejecting alone gives. */
  lemma RejectOverridesApprove(c: Complaint, reason: string)
    ensures Reject(Approve(c), reason) == Reject(c, reason)
  {
  }

  /** `ApproveComplaint`: approves the complaint and records the update. */
  method ApproveComplaint(db: Store, id: int, moderator: string, now: int) returns (r: Outcome)
    requires db.Valid()
    modifies db`complaints, db`updates
    ensures db.Valid()
    ensures IndexOf(old(db.complaints), id).None? ==>
              r == NotFound && db.complaints == old(db.complaints) && db.updates == old(db.updates)
    ensures IndexOf(old(db.complaints), id).Some? ==>
              var i := IndexOf(old(db.complaints), id).value;
              && r == Done
              && db.complaints == old(db.complaints)[i := Approve(old(db.complaints)[i])]
              && db.updates == old(db.updates) + [ComplaintUpdate(id, APPROVED_MESSAGE, New, Some(moderator), now)]
  {
    var found := IndexOf(db.complaints, id);
    if found.None? {
      return NotFound;
    }
    var i := found.value;
    db.complaints := db.complaints[i := Approve(db.complaints[i])];
    db.updates := db.updates + [ComplaintUpdate(id, APPROVED_MESSAGE, New, Some(moderator), now)];
    r := Done;
  }

  /** `RejectComplaint`: rejects the complaint with a reason and records the update. */
  method RejectComplaint(db: Store, id: int, reason: string, moderator: string, now: int) returns (r: Outcome)
    requires db.Valid()
    modifies db`complaints, db`updates
    ensures db.Valid()
    ensures IndexOf(old(db.complaints), id).None? ==>
              r == NotFound && db.complaints == old(db.complaints) && db.updates == old(db.updates)
    ensures IndexOf(old(db.complaints), id).Some? ==>
              var i := IndexOf(old(db.complaints), id).value;
              && r == Done
              && db.complaints == old(db.complaints)[i := Reject(old(db.complaints)[i], reason)]
              && db.updates == old(db.updates)
                 + [ComplaintUpdate(id, REJECTED_PREFIX + reason, Rejected, Some(moderator), now)]
  {
    var found := IndexOf(db.complaints, id);
    if found.None? {
      return NotFound;
    }
    var i := found.value;
    db.complaints := db.complaints[i := Reject(db.complaints[i], reason)];
    db.updates := db.updates + [ComplaintUpdate(id, REJECTED_PREFIX + reason, Rejected, Some(moderator), now)];
    r := Done;
  }

  /** The ban record the ladder imposes on the `count`-th warning of a user: none for the
      first, a week for the second, thirty days for the third, a permanent ban from the
      fourth on. Every ban keeps the e-mail and phone the user has at that moment. */
  function LadderBan(u: User, count: int, issuer: string, now: int): (r: Option<BannedUser>)
    ensures r.None? <==> count <= 1
    ensures r.Some? ==> && r.value.userId == u.id && r.value.bannedBy == issuer && r.value.bannedAt == now
                        && r.value.bannedEmail == u.email && r.value.bannedPhone == u.phoneNumber
    ensures count >= 4 ==> r.Some? && r.value.isPermanent && r.value.banExpiresAt.None?
                           && r.value.reason == Some(PERMANENT_REASON)
    ensures count == 3 ==> r.Some? && !r.value.isPermanent && r.value.banExpiresAt == Some(now + 30 * SECONDS_PER_DAY)
                           && r.value.reason == Some(MONTH_REASON)
    ensures count == 2 ==> r.Some? && !r.value.isPermanent && r.value.banExpiresAt == Some(now + 7 * SECONDS_PER_DAY)
                           && r.value.reason == Some(WEEK_REASON)
  {
    if count >= 4 then
      Some(BannedUser(u.id, Some(PERMANENT_REASON), now, issuer, true, None, u.email, u.phoneNumber))
    else if count == 3 then
      Some(BannedUser(u.id, Some(MONTH_REASON), now, issuer, false, Some(now + 30 * SECONDS_PER_DAY), u.email, u.phoneNumber))
    else if count == 2 then
      Some(BannedUser(u.id, Some(WEEK_REASON), now, issuer, false, Some(now + 7 * SECONDS_PER_DAY), u.email, u.phoneNumber))
    else None
  }

  /** How long a ban excludes its user, in days, with a permanent ban above every
      temporary one; no ban at all is 0. */
  function Severity(b: Option<BannedUser>): int
  {
    match b
    case None => 0
    case Some(x) =>
      if x.isPermanent then PERMANENT_SEVERITY
      else if x.banExpiresAt.Some? then (x.banExpiresAt.value - x.bannedAt) / SECONDS_PER_DAY
      else 0
  }

  const PERMANENT_SEVERITY: int := 1000000

  /** The ladder only escalates: a later warning never brings a milder ban. */
  lemma LadderEscalates(u: User, n: int, m: int, issuer: string, now: int, later: int)
    requires n <= m
    ensures Severity(LadderBan(u, n, issuer, now)) <= Severity(LadderBan(u, m, issuer, later))
  {
    assert (now + 7 * SECONDS_PER_DAY - now) / SECONDS_PER_DAY == 7;
    assert (now + 30 * SECONDS_PER_DAY - now) / SECONDS_PER_DAY == 30;
    assert (later + 7 * SECONDS_PER_DAY - later) / SECONDS_PER_DAY == 7;
    assert (later + 30 * SECONDS_PER_DAY - later) / SECONDS_PER_DAY == 30;
  }

  /** Outcome of `WarnUser`: the user is unknown, or was warned and this is their
      `count`-th warning. */
  datatype WarnResult = UserNotFound | Warned(count: int)

  /** `WarnUser` on the three tables it reads and writes. The count is the warnings the
      user already has plus the new one. */
  function Warn(users: map<string, User>, warnings: seq<Warning>, bans: seq<BannedUser>,
                uid: string, complaintId: Option<int>, reason: string, issuer: string, now: int)
    : (r: (WarnResult, map<string, User>, seq<Warning>, seq<BannedUser>))
    ensures uid !in users ==> r == (UserNotFound, users, warnings, bans)
    ensures uid in users ==>
              && r.0.Warned?
              && r.0.count == Count(r.2, WarnedUser(uid)) >= 1
              && r.2 == warnings + [Warning(uid, reason, complaintId, now, issuer)]
              && |bans| <= |r.3| <= |bans| + 1 && r.3[..|bans|] == bans
              && (|r.3| == |bans| + 1 <==> r.0.count >= 2)
              && r.1.Keys == users.Keys
              && (forall k :: k in users && k != uid ==> r.1[k] == users[k])
              && r.1[uid].(isBanned := users[uid].isBanned) == users[uid]
              && (r.1[uid].isBanned <==> users[uid].isBanned || r.0.count >= 2)
  {
    if uid !in users then (UserNotFound, users, warnings, bans)
    else
      var u := users[uid];
      var w := Warning(uid, reason, complaintId, now, issuer);
      var count := Count(warnings, WarnedUser(uid)) + 1;
      CountAppend(warnings, [w], WarnedUser(uid));
      assert Count([w], WarnedUser(uid)) == 1 by {
        assert [w][..0] == [];
      }
      match LadderBan(u, count, issuer, now)
      case None => (Warned(count), users, warnings + [w], bans)
      case Some(b) =>
        assert (bans + [b])[..|bans|] == bans;
        (Warned(count), users[uid := u.(isBanned := true)], warnings + [w], bans + [b])
  }

  /** The ban record a warning adds, when it adds one, is the ladder's ban for the new count. */
  lemma WarnAddsLadderBan(users: map<string, User>, warnings: seq<Warning>, bans: seq<BannedUser>,
                          uid: string, complaintId: Option<int>, reason: string, issuer: string, now: int)
    requires uid in users
    ensures var r := Warn(users, warnings, bans, uid, complaintId, reason, issuer, now);
            var ban := LadderBan(users[uid], r.0.count, issuer, now);
            r.3 == bans + (if ban.Some? then [ban.value] else [])
  {
  }

  /** A user with no warnings who is warned four times in a row is first only warned, then
      suspended for a week, then for thirty days, then banned permanently. */
  lemma FourWarningsEscalate(users: map<string, User>, warnings: seq<Warning>, bans: seq<BannedUser>,
                             uid: string, reason: string, issuer: string, t1: int, t2: int, t3: int, t4: int)
    requires uid in users && Count(warnings, WarnedUser(uid)) == 0
    ensures var s1 := Warn(users, warnings, bans, uid, None, reason, issuer, t1);
            var s2 := Warn(s1.1, s1.2, s1.3, uid, None, reason, issuer, t2);
            var s3 := Warn(s2.1, s2.2, s2.3, uid, None, reason, issuer, t3);
            var s4 := Warn(s3.1, s3.2, s3.3, uid, None, reason, issuer, t4);
            && s1.0 == Warned(1) && s2.0 == Warned(2) && s3.0 == Warned(3) && s4.0 == Warned(4)
            && s1.3 == bans && |s4.3| == |bans| + 3
            && s4.3[|bans|].banExpiresAt == Some(t2 + 7 * SECONDS_PER_DAY)
            && s4.3[|bans| + 1].banExpiresAt == Some(t3 + 30 * SECONDS_PER_DAY)
            && s4.3[|bans| + 2].isPermanent
            && s4.1[uid].isBanned
  {
    var s1 := Warn(users, warnings, bans, uid, None, reason, issuer, t1);
    var s2 := Warn(s1.1, s1.2, s1.3, uid, None, reason, issuer, t2);
    var s3 := Warn(s2.1, s2.2, s2.3, uid, None, reason, issuer, t3);
    var s4 := Warn(s3.1, s3.2, s3.3, uid, None, reason, issuer, t4);
    WarnAddsLadderBan(users, warnings, bans, uid, None, reason, issuer, t1);
    WarnAddsLadderBan(s1.1, s1.2, s1.3, uid, None, reason, issuer, t2);
    WarnAddsLadderBan(s2.1, s2.2, s2.3, uid, None, reason, issuer, t3);
    WarnAddsLadderBan(s3.1, s3.2, s3.3, uid, None, reason, issuer, t4);
    assert s4.3 == s3.3 + [s4.3[|s3.3|]];
  }

  /** `WarnUser`: records a warning for a known user and applies the ban ladder. */
  method WarnUser(db: Store, uid: string, complaintId: Option<int>, reason: string, issuer: string, now: int)
    returns (r: WarnResult)
    requires db.Valid()
    modifies db`users, db`warnings, db`bans
    ensures db.Valid()
    ensures (r, db.users, db.warnings, db.bans)
            == Warn(old(db.users), old(db.warnings), old(db.bans), uid, complaintId, reason, issuer, now)
  {
    if uid !in db.users {
      return UserNotFound;
    }
    var user := db.users[uid];
    var warning := Warning(uid, reason, complaintId, now, issuer);
    var warningCount := Count(db.warnings, WarnedUser(uid)) + 1;
    db.warnings := db.warnings + [warning];
    var ban := LadderBan(user, warningCount, issuer, now);
    if ban.Some? {
      db.users := db.users[uid := user.(isBanned := true)];
      db.bans := db.bans + [ban.value];
    }
    r := Warned(warningCount);
  }
}
