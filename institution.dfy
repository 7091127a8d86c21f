/** The institution representative's handlers: the institution's complaint list, status
    updates with their resolution time, the profile statistics and the profile editor. */
module InstitutionController {
  import opened Options
  import opened Text
  import opened Entities
  import opened Queries
  import opened GamificationService

  /** Integer resolution rate in percent: resolved * 100 / total, or 0 without complaints.
      For the non-negative counts it is given, truncating and Euclidean division agree. */
  function ResolutionRate(resolved: nat, total: nat): (r: int)
    ensures total == 0 ==> r == 0
    ensures total > 0 ==> r * total <= resolved * 100 < (r + 1) * total
    ensures r >= 0
    ensures resolved <= total ==> r <= 100
  {
    if total > 0 then resolved * 100 / total else 0
  }

  /** Every complaint resolved is a full rate; none resolved is a zero rate. */
  lemma RateExtremes(total: nat)
    ensures ResolutionRate(total, total) == (if total > 0 then 100 else 0)
    ensures ResolutionRate(0, total) == 0
  {
  }

  /** More resolutions out of the same total never lower the rate. */
  lemma RateMonotone(a: nat, b: nat, total: nat)
    requires a <= b
    ensures ResolutionRate(a, total) <= ResolutionRate(b, total)
  {
    if total > 0 {
      var ra, rb := ResolutionRate(a, total), ResolutionRate(b, total);
      MulCancel(ra, rb + 1, total);
    }
  }

  lemma MulCancel(x: int, y: int, t: int)
    requires t > 0 && x * t < y * t
    ensures x < y
  {
    if x >= y {
      MulMonotone(y, x, t);
    }
  }

  lemma MulMonotone(x: int, y: int, t: int)
    requires x <= y && t >= 0
    ensures x * t <= y * t
  {
    assert y * t - x * t == (y - x) * t;
  }

  function OfInstitution(instId: int): Complaint -> bool
  {
    (c: Complaint) => c.institutionId == instId
  }

  function OfInstitutionWith(instId: int, s: ComplaintStatus): Complaint -> bool
  {
    (c: Complaint) => c.institutionId == instId && c.status == s
  }

  /** The counts of the profile page. */
  datatype Stats = Stats(total: nat, resolved: nat, pending: nat, inProgress: nat, representatives: nat)

  /** The profile statistics of an institution: its complaints, those Resolved, New
      ("pending") and InProgress, and the users linked to it. The three status counts
      are disjoint parts of the total. */
  function InstitutionStats(cs: seq<Complaint>, users: map<string, User>, instId: int): (s: Stats)
    ensures s.total == |Filter(cs, OfInstitution(instId))|
    ensures s.resolved == |Filter(cs, OfInstitutionWith(instId, Resolved))|
    ensures s.pending == |Filter(cs, OfInstitutionWith(instId, New))|
    ensures s.inProgress == |Filter(cs, OfInstitutionWith(instId, InProgress))|
    ensures s.resolved + s.pending + s.inProgress <= s.total <= |cs|
    ensures s.representatives == |set k | k in users && users[k].institutionId == Some(instId)|
  {
    var p1 := (c: Complaint) => c.institutionId == instId && (c.status == Resolved || c.status == New);
    var p2 := (c: Complaint) => c.institutionId == instId
                                && (c.status == Resolved || c.status == New || c.status == InProgress);
    CountSplit(cs, OfInstitutionWith(instId, Resolved), OfInstitutionWith(instId, New), p1);
    CountSplit(cs, p1, OfInstitutionWith(instId, InProgress), p2);
    CountMonotone(cs, p2, OfInstitution(instId));
    CountIsFilterLength(cs, OfInstitution(instId));
    CountIsFilterLength(cs, OfInstitutionWith(instId, Resolved));
    CountIsFilterLength(cs, OfInstitutionWith(instId, New));
    CountIsFilterLength(cs, OfInstitutionWith(instId, InProgress));
    Stats(Count(cs, OfInstitution(instId)), Count(cs, OfInstitutionWith(instId, Resolved)),
          Count(cs, OfInstitutionWith(instId, New)), Count(cs, OfInstitutionWith(instId, InProgress)),
          |set k | k in users && users[k].institutionId == Some(instId)|)
  }

  /** The rate the profile page shows always lies between 0 and 100. */
  lemma ProfileRateInRange(cs: seq<Complaint>, users: map<string, User>, instId: int)
    ensures var s := InstitutionStats(cs, users, instId);
            0 <= ResolutionRate(s.resolved, s.total) <= 100
  {
  }

  /** What a representative sees of an institution-scoped page. */
  datatype ProfileView = NotLinked | ProfileNotFound | ProfilePage(institution: Institution, stats: Stats, rate: int)

  /** The institution linked to the signed-in representative, if any. */
  function LinkedInstitution(users: map<string, User>, uid: string): Option<int>
  {
    if uid in users then users[uid].institutionId else None
  }

  /** `Profile`: refused for an account linked to no institution, not found for a dangling
      link, otherwise the institution with its statistics and resolution rate. */
  function ProfileOf(users: map<string, User>, institutions: map<int, Institution>, cs: seq<Complaint>, uid: string)
    : (r: ProfileView)
    ensures LinkedInstitution(users, uid).None? <==> r.NotLinked?
    ensures r.ProfilePage? ==>
              var id := LinkedInstitution(users, uid).value;
              && id in institutions && r.institution == institutions[id]
              && r.stats == InstitutionStats(cs, users, id)
              && r.rate == ResolutionRate(r.stats.resolved, r.stats.total) && 0 <= r.rate <= 100
    ensures r.ProfileNotFound? <==> LinkedInstitution(users, uid).Some? && LinkedInstitution(users, uid).value !in institutions
  {
    match LinkedInstitution(users, uid)
    case None => NotLinked
    case Some(id) =>
      if id !in institutions then ProfileNotFound
      else
        var stats := InstitutionStats(cs, users, id);
        ProfilePage(institutions[id], stats, ResolutionRate(stats.resolved, stats.total))
  }

  /** The list filter of `Complaints`: the institution's complaints that have passed
      moderation, narrowed to one status when `status` names one. */
  function Listed(instId: int, status: Option<ComplaintStatus>): Complaint -> bool
  {
    (c: Complaint) => c.institutionId == instId && c.status != PendingModeration
                      && (status.None? || c.status == status.value)
  }

  /** The status filter of `Complaints`: applied only for a non-empty name that parses. */
  function StatusFilter(status: Option<string>): (r: Option<ComplaintStatus>)
    ensures r.Some? ==> status.Some? && StatusName(r.value) == status.value
    ensures status.Some? && ParseStatus(status.value).Some? ==> r.Some?
  {
    if !IsNullOrEmpty(status) then ParseStatus(status.value) else None
  }

  /** `Complaints`: None for an account linked to no institution; otherwise the listed
      complaints, each of the institution, past moderation and of the named status when
      the filter parses, and all such ones. */
  function InstitutionComplaints(users: map<string, User>, cs: seq<Complaint>, uid: string, status: Option<string>)
    : (r: Option<seq<Complaint>>)
    ensures r.None? <==> LinkedInstitution(users, uid).None?
    ensures r.Some? ==>
              var id := LinkedInstitution(users, uid).value;
              && (forall i :: 0 <= i < |r.value| ==>
                    && r.value[i] in cs && r.value[i].institutionId == id && r.value[i].status != PendingModeration
                    && (StatusFilter(status).Some? ==> r.value[i].status == StatusFilter(status).value))
              && (forall c :: c in cs && Listed(id, StatusFilter(status))(c) ==> c in r.value)
  {
    match LinkedInstitution(users, uid)
    case None => None
    case Some(id) => Some(Filter(cs, Listed(id, StatusFilter(status))))
  }

  /** Naming "PendingModeration" in the status filter cannot reveal a complaint that
      awaits moderation: the list is then empty. */
  lemma PendingFilterShowsNothing(users: map<string, User>, cs: seq<Complaint>, uid: string)
    requires LinkedInstitution(users, uid).Some?
    ensures InstitutionComplaints(users, cs, uid, Some("PendingModeration")) == Some([])
  {
    var id := LinkedInstitution(users, uid).value;
    assert StatusFilter(Some("PendingModeration")) == Some(PendingModeration);
    FilterNone(cs, Listed(id, Some(PendingModeration)));
  }

  /** The complaint after a status update: the new status, whatever the old one was, and
      the resolution time set to now exactly when the new status is Resolved. */
  function SetStatus(c: Complaint, newStatus: ComplaintStatus, now: int): (r: Complaint)
    ensures r.status == newStatus
    ensures newStatus == Resolved ==> r.resolvedAt == Some(now)
    ensures newStatus != Resolved ==> r.resolvedAt == c.resolvedAt
    ensures r.(status := c.status, resolvedAt := c.resolvedAt) == c
  {
    if newStatus == Resolved then c.(status := newStatus, resolvedAt := Some(now))
    else c.(status := newStatus)
  }

  /** Reopening a resolved complaint keeps its old resolution time. */
  lemma ReopenKeepsResolvedAt(c: Complaint, t: int, s: ComplaintStatus, t': int)
    requires s != Resolved
    ensures SetStatus(SetStatus(c, Resolved, t), s, t').resolvedAt == Some(t)
    ensures SetStatus(SetStatus(c, Resolved, t), s, t').status == s
  {
  }

  /** Resolving a complaint that was not resolved adds one resolution to its owner's
      activity and leaves everybody else's resolution count as it was. */
  lemma ResolvingCountsForOwner(cs: seq<Complaint>, i: int, now: int, uid: string)
    requires 0 <= i < |cs| && cs[i].status != Resolved
    ensures var after := cs[i := SetStatus(cs[i], Resolved, now)];
            ActivityOf(after, uid).resolved
            == ActivityOf(cs, uid).resolved + (if uid == cs[i].userId then 1 else 0)
  {
    CountUpdate(cs, i, SetStatus(cs[i], Resolved, now), ResolvedFor(uid));
  }

  datatype UpdateResult = UpdateNotFound | StatusUpdated

  /** `UpdateStatus`: sets the new status (with no transition guard), records the update,
      and when the complaint is resolved and has an owner, runs the owner's badge check. */
  method UpdateStatus(db: Store, complaintId: int, newStatus: ComplaintStatus, message: string,
                      uid: string, now: int) returns (r: UpdateResult)
    requires db.Valid()
    modifies db`complaints, db`updates, db`users, db`userBadges
    ensures db.Valid()
    ensures IndexOf(old(db.complaints), complaintId).None? ==> r == UpdateNotFound && unchanged(db)
    ensures IndexOf(old(db.complaints), complaintId).Some? ==>
              var i := IndexOf(old(db.complaints), complaintId).value;
              var owner := old(db.complaints)[i].userId;
              && r == StatusUpdated
              && db.complaints == old(db.complaints)[i := SetStatus(old(db.complaints)[i], newStatus, now)]
              && db.updates == old(db.updates) + [ComplaintUpdate(complaintId, message, newStatus, Some(uid), now)]
              && (newStatus == Resolved && owner != [] ==>
                    (db.users, db.userBadges)
                    == CheckAndAward(old(db.users), db.complaints, db.badges, old(db.userBadges), db.warnings, owner, now))
              && (newStatus != Resolved || owner == [] ==>
                    db.users == old(db.users) && db.userBadges == old(db.userBadges))
  {
    var found := IndexOf(db.complaints, complaintId);
    if found.None? {
      return UpdateNotFound;
    }
    var i := found.value;
    var complaint := SetStatus(db.complaints[i], newStatus, now);
    db.complaints := db.complaints[i := complaint];
    db.updates := db.updates + [ComplaintUpdate(complaintId, message, newStatus, Some(uid), now)];
    if newStatus == Resolved && complaint.userId != [] {
      CheckAndAwardBadges(db, complaint.userId, now);
    }
    r := StatusUpdated;
  }

  /** The institution after a profile edit: address, phone, e-mail, website and about
      text come from the form; id, name and institution code are kept. */
  function ApplyProfile(inst: Institution, form: Institution): (r: Institution)
    ensures r.id == inst.id && r.name == inst.name && r.institutionCode == inst.institutionCode
    ensures r.address == form.address && r.phone == form.phone && r.email == form.email
            && r.website == form.website && r.about == form.about
  {
    inst.(address := form.address, phone := form.phone, email := form.email,
          website := form.website, about := form.about)
  }

  /** Posting the institution's own data back changes nothing, and posting the same form
      twice is posting it once. */
  lemma ProfileEditRoundTrip(inst: Institution, form: Institution)
    ensures ApplyProfile(inst, inst) == inst
    ensures ApplyProfile(ApplyProfile(inst, form), form) == ApplyProfile(inst, form)
  {
  }

  datatype EditProfileResult = EditNotLinked | EditNotFound | ProfileSaved

  /** `EditProfile` (POST): updates the whitelisted fields of the representative's own
      institution and of no other. */
  method EditProfile(db: Store, uid: string, form: Institution) returns (r: EditProfileResult)
    requires db.Valid()
    modifies db`institutions
    ensures db.Valid()
    ensures var link := LinkedInstitution(old(db.users), uid);
            && (link.None? ==> r == EditNotLinked)
            && (link.Some? && link.value !in old(db.institutions) ==> r == EditNotFound)
            && (r != ProfileSaved ==> db.institutions == old(db.institutions))
            && (link.Some? && link.value in old(db.institutions) ==>
                  r == ProfileSaved
                  && db.institutions == old(db.institutions)[link.value := ApplyProfile(old(db.institutions)[link.value], form)])
  {
    var link := LinkedInstitution(db.users, uid);
    if link.None? {
      return EditNotLinked;
    }
    var id := link.value;
    if id !in db.institutions {
      return EditNotFound;
    }
    db.institutions := db.institutions[id := ApplyProfile(db.institutions[id], form)];
    r := ProfileSaved;
  }
}
