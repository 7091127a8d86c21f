/** The entities of the complaint platform (its enums and records) and the in-memory
    `Store` that stands for the relational database the controllers read and write. */
module Entities {
  import opened Options

  /** Lifecycle of a complaint; terminal states are Resolved, Closed and Rejected. */
  datatype ComplaintStatus = PendingModeration | Rejected | New | Viewed | InProgress | Resolved | Closed

  datatype ComplaintType =
    | Crime | Religion | Health | Education | Transportation
    | Infrastructure | Environment | SocialServices | Other

  /** Gamification tier, lowest first. */
  datatype UserLevel = Bronze | Silver | Gold | Platinum | Diamond

  datatype MediaType = Photo | Video | Audio

  /** Time is a count of seconds; a calendar day is this many of them. */
  const SECONDS_PER_DAY: int := 86400

  function StatusName(s: ComplaintStatus): string
  {
    match s
    case PendingModeration => "PendingModeration"
    case Rejected => "Rejected"
    case New => "New"
    case Viewed => "Viewed"
    case InProgress => "InProgress"
    case Resolved => "Resolved"
    case Closed => "Closed"
  }

  /** `Enum.TryParse<ComplaintStatus>` as a lookup of the member names. */
  function ParseStatus(name: string): (r: Option<ComplaintStatus>)
    ensures r.Some? ==> StatusName(r.value) == name
    ensures forall s :: StatusName(s) == name ==> r == Some(s)
  {
    if name == "PendingModeration" then Some(PendingModeration)
    else if name == "Rejected" then Some(Rejected)
    else if name == "New" then Some(New)
    else if name == "Viewed" then Some(Viewed)
    else if name == "InProgress" then Some(InProgress)
    else if name == "Resolved" then Some(Resolved)
    else if name == "Closed" then Some(Closed)
    else None
  }

  function TypeName(t: ComplaintType): string
  {
    match t
    case Crime => "Crime"
    case Religion => "Religion"
    case Health => "Health"
    case Education => "Education"
    case Transportation => "Transportation"
    case Infrastructure => "Infrastructure"
    case Environment => "Environment"
    case SocialServices => "SocialServices"
    case Other => "Other"
  }

  /** `Enum.TryParse<ComplaintType>` as a lookup of the member names. */
  function ParseType(name: string): (r: Option<ComplaintType>)
    ensures r.Some? ==> TypeName(r.value) == name
    ensures forall t :: TypeName(t) == name ==> r == Some(t)
  {
    if name == "Crime" then Some(Crime)
    else if name == "Religion" then Some(Religion)
    else if name == "Health" then Some(Health)
    else if name == "Education" then Some(Education)
    else if name == "Transportation" then Some(Transportation)
    else if name == "Infrastructure" then Some(Infrastructure)
    else if name == "Environment" then Some(Environment)
    else if name == "SocialServices" then Some(SocialServices)
    else if name == "Other" then Some(Other)
    else None
  }

  /** An account. `roles` is the set of role names the identity store holds for it. */
  datatype User = User(
    id: string,
    userName: Option<string>,
    normalizedUserName: Option<string>,
    email: Option<string>,
    normalizedEmail: Option<string>,
    phoneNumber: Option<string>,
    fullName: Option<string>,
    reputationScore: int,
    level: UserLevel,
    isApproved: bool,
    isBanned: bool,
    institutionId: Option<int>,
    roles: set<string>)

  datatype Institution = Institution(
    id: int,
    name: string,
    address: Option<string>,
    phone: Option<string>,
    email: Option<string>,
    website: Option<string>,
    about: Option<string>,
    institutionCode: string)

  /** An uploaded file attached to a complaint (the stored path and thumbnail are left out). */
  datatype Media = Media(mediaType: MediaType, fileName: string, sizeBytes: int, uploadedAt: int)

  /** A complaint together with its attached media files. */
  datatype Complaint = Complaint(
    id: int,
    title: string,
    description: string,
    complaintType: ComplaintType,
    category: string,
    status: ComplaintStatus,
    isAnonymous: bool,
    isApproved: bool,
    rejectionReason: Option<string>,
    location: Option<string>,
    createdAt: int,
    resolvedAt: Option<int>,
    userId: string,
    institutionId: int,
    mediaFiles: seq<Media>)

  /** One entry of a complaint's append-only status history. */
  datatype ComplaintUpdate = ComplaintUpdate(
    complaintId: int, message: string, newStatus: ComplaintStatus, updatedBy: Option<string>, createdAt: int)

  datatype Warning = Warning(
    userId: string, reason: string, complaintId: Option<int>, createdAt: int, issuedBy: string)

  /** A ban record; it keeps the e-mail and phone the account had when it was banned. */
  datatype BannedUser = BannedUser(
    userId: string,
    reason: Option<string>,
    bannedAt: int,
    bannedBy: string,
    isPermanent: bool,
    banExpiresAt: Option<int>,
    bannedEmail: Option<string>,
    bannedPhone: Option<string>)

  /** A badge of the catalogue: earned once `criteriaType`'s activity count reaches `requiredCount`. */
  datatype Badge = Badge(id: int, name: string, requiredCount: int, criteriaType: string)

  datatype UserBadge = UserBadge(userId: string, badgeId: int, earnedAt: int)

  datatype AuditLog = AuditLog(
    userId: Option<string>,
    action: string,
    entityType: string,
    entityId: Option<int>,
    details: Option<string>,
    ipAddress: string,
    createdAt: int)

  datatype Profile = Profile(userId: string)

  /** Primary key of Complaints. */
  predicate UniqueComplaintIds(cs: seq<Complaint>)
  {
    forall i, j :: 0 <= i < j < |cs| ==> cs[i].id != cs[j].id
  }

  /** Primary key of Badges. */
  predicate UniqueBadgeIds(bs: seq<Badge>)
  {
    forall i, j :: 0 <= i < j < |bs| ==> bs[i].id != bs[j].id
  }

  /** The unique index on (UserId, BadgeId) of UserBadges. */
  predicate AwardsUnique(ubs: seq<UserBadge>)
  {
    forall i, j :: 0 <= i < j < |ubs| ==> ubs[i].userId != ubs[j].userId || ubs[i].badgeId != ubs[j].badgeId
  }

  /** Each user is stored under its own id. */
  predicate UsersKeyed(users: map<string, User>)
  {
    forall k :: k in users ==> users[k].id == k
  }

  /** Each institution is stored under its own id. */
  predicate InstitutionsKeyed(institutions: map<int, Institution>)
  {
    forall k :: k in institutions ==> institutions[k].id == k
  }

  /** The identity column of Complaints is ahead of every key in use. */
  predicate IdsBelow(cs: seq<Complaint>, next: int)
  {
    forall i :: 0 <= i < |cs| ==> cs[i].id < next
  }

  /** Saving an account twice in one request leaves the second version in the users table. */
  lemma SaveUserTwice(users: map<string, User>, uid: string, first: User, second: User)
    ensures users[uid := first][uid := second] == users[uid := second]
  {
  }

  /** A new complaint keyed by the identity column keeps the keys unique, and the
      identity column moves past it. */
  lemma AppendKeepsKeys(cs: seq<Complaint>, next: int, c: Complaint)
    requires UniqueComplaintIds(cs) && IdsBelow(cs, next) && c.id == next
    ensures UniqueComplaintIds(cs + [c]) && IdsBelow(cs + [c], next + 1)
  {
    var all := cs + [c];
    assert forall i :: 0 <= i < |cs| ==> all[i] == cs[i];
  }

  /** The database invariant: keys agree with the rows they index, primary keys are
      unique, and the identity column is ahead of every complaint id. */
  predicate Consistent(users: map<string, User>, institutions: map<int, Institution>, complaints: seq<Complaint>,
                       nextComplaintId: int, badges: seq<Badge>, userBadges: seq<UserBadge>)
  {
    && UsersKeyed(users)
    && InstitutionsKeyed(institutions)
    && UniqueComplaintIds(complaints)
    && IdsBelow(complaints, nextComplaintId)
    && UniqueBadgeIds(badges)
    && AwardsUnique(userBadges)
  }

  /** `FindAsync(id)` on Complaints: the position of the complaint with key `id`. */
  function IndexOf(cs: seq<Complaint>, id: int): (r: Option<nat>)
    ensures r.Some? ==> r.value < |cs| && cs[r.value].id == id
    ensures r.None? ==> forall i :: 0 <= i < |cs| ==> cs[i].id != id
  {
    if cs == [] then None
    else if cs[0].id == id then Some(0)
    else match IndexOf(cs[1..], id)
      case None => None
      case Some(k) => Some(k + 1)
  }

  /** `FirstOrDefaultAsync(c => c.Id == id && c.UserId == userId)`: the complaint, only when `userId` owns it. */
  function IndexOfOwned(cs: seq<Complaint>, id: int, userId: string): (r: Option<nat>)
    ensures r.Some? ==> r.value < |cs| && cs[r.value].id == id && cs[r.value].userId == userId
    ensures UniqueComplaintIds(cs) && r.None? ==>
              forall i :: 0 <= i < |cs| ==> cs[i].id != id || cs[i].userId != userId
  {
    match IndexOf(cs, id)
    case None => None
    case Some(i) => if cs[i].userId == userId then Some(i) else None
  }

  /** The database: one field per table the core reads or writes. */
  class Store {
    var users: map<string, User>
    var institutions: map<int, Institution>
    var complaints: seq<Complaint>
    var nextComplaintId: int
    var updates: seq<ComplaintUpdate>
    var warnings: seq<Warning>
    var bans: seq<BannedUser>
    var badges: seq<Badge>
    var userBadges: seq<UserBadge>
    var auditLogs: seq<AuditLog>
    var profiles: seq<Profile>

    /** The tables are consistent. */
    ghost predicate Valid()
      reads this
    {
      Consistent(users, institutions, complaints, nextComplaintId, badges, userBadges)
    }

    /** An empty database seeded with a badge catalogue. */
    constructor (catalog: seq<Badge>)
      requires UniqueBadgeIds(catalog)
      ensures Valid()
      ensures users == map[] && institutions == map[] && complaints == [] && nextComplaintId == 1
      ensures updates == [] && warnings == [] && bans == [] && badges == catalog
      ensures userBadges == [] && auditLogs == [] && profiles == []
    {
      users, institutions, complaints, nextComplaintId := map[], map[], [], 1;
      updates, warnings, bans, badges := [], [], [], catalog;
      userBadges, auditLogs, profiles := [], [], [];
    }
  }
}
