/** The public complaints REST API: the public list with its filters and paging, a single
    public complaint, status statistics, per-category counts, and filing by API. */
module ComplaintsApiController {
  import opened Options
  import opened Text
  import opened Entities
  import opened Queries

  const DESCRIPTION_LIMIT: nat := 200
  const ELLIPSIS: string := "..."

  /** Only complaints being worked on or resolved are visible through the API. */
  predicate IsPublic(c: Complaint)
  {
    c.status == Resolved || c.status == InProgress
  }

  /** The list's description: at most 200 characters of it, followed by "..." when cut. */
  function Truncate(s: string): (r: string)
    ensures |s| <= DESCRIPTION_LIMIT ==> r == s
    ensures |s| > DESCRIPTION_LIMIT ==> |r| == DESCRIPTION_LIMIT + |ELLIPSIS| && r[DESCRIPTION_LIMIT..] == ELLIPSIS
    ensures |r| <= DESCRIPTION_LIMIT + |ELLIPSIS|
    ensures var n := Min(|s|, DESCRIPTION_LIMIT); r[..n] == s[..n]
  {
    if |s| > DESCRIPTION_LIMIT then s[..DESCRIPTION_LIMIT] + ELLIPSIS else s
  }

  /** Truncating an already truncated description changes nothing. */
  lemma TruncateIdempotent(s: string)
    ensures Truncate(Truncate(s)) == Truncate(s)
  {
    if |s| > DESCRIPTION_LIMIT {
      var t := Truncate(s);
      assert t[..DESCRIPTION_LIMIT] == s[..DESCRIPTION_LIMIT];
      assert Truncate(t) == t[..DESCRIPTION_LIMIT] + ELLIPSIS;
    }
  }

  /** Two long descriptions are shown alike exactly when their first 200 characters agree. */
  lemma TruncateLongAgree(s: string, t: string)
    requires |s| > DESCRIPTION_LIMIT && |t| > DESCRIPTION_LIMIT
    ensures Truncate(s) == Truncate(t) <==> s[..DESCRIPTION_LIMIT] == t[..DESCRIPTION_LIMIT]
  {
    if Truncate(s) == Truncate(t) {
      assert Truncate(s)[..DESCRIPTION_LIMIT] == Truncate(t)[..DESCRIPTION_LIMIT];
    }
  }

  /** A complaint as the API returns it. */
  datatype ComplaintDto = ComplaintDto(
    id: int, title: string, description: string, typeName: string, category: string,
    statusName: string, institutionName: Option<string>, location: Option<string>,
    createdAt: int, resolvedAt: Option<int>)

  function InstitutionName(institutions: map<int, Institution>, id: int): Option<string>
  {
    if id in institutions then Some(institutions[id].name) else None
  }

  /** The list entry of a complaint: its fields, with the description truncated. */
  function ListEntry(c: Complaint, institutions: map<int, Institution>): (d: ComplaintDto)
    ensures d.id == c.id && d.statusName == StatusName(c.status) && d.description == Truncate(c.description)
    ensures |d.description| <= DESCRIPTION_LIMIT + |ELLIPSIS|
  {
    ComplaintDto(c.id, c.title, Truncate(c.description), TypeName(c.complaintType), c.category,
                 StatusName(c.status), InstitutionName(institutions, c.institutionId), c.location,
                 c.createdAt, c.resolvedAt)
  }

  /** The filter of `GetComplaints`: public, then the parsed status and the exact category
      when they are given and non-empty. */
  function ListFilter(status: Option<string>, category: Option<string>): Complaint -> bool
  {
    var parsed := if !IsNullOrEmpty(status) then ParseStatus(status.value) else None;
    (c: Complaint) => IsPublic(c)
                      && (parsed.None? || c.status == parsed.value)
                      && (IsNullOrEmpty(category) || c.category == category.value)
  }

  /** Whatever the filters, the list shows only public complaints; a status filter can
      only narrow the unfiltered list. */
  lemma FiltersOnlyNarrow(status: Option<string>, category: Option<string>, c: Complaint)
    ensures ListFilter(status, category)(c) ==> IsPublic(c)
    ensures ListFilter(status, category)(c) ==> ListFilter(None, category)(c)
  {
  }

  /** Asking for the complaints awaiting moderation yields none. */
  lemma PendingNeverListed(cs: seq<Complaint>, category: Option<string>)
    ensures Filter(cs, ListFilter(Some("PendingModeration"), category)) == []
  {
    FilterNone(cs, ListFilter(Some("PendingModeration"), category));
  }

  datatype ListResponse = ListResponse(data: seq<ComplaintDto>, page: int, pageSize: int, total: nat)

  /** `GetComplaints`: the total of matching complaints and the entries of one page of
      them, skipping (page - 1) * pageSize and taking at most pageSize. None when the
      database refuses the paging, which the caller sees as a server error. */
  function GetComplaints(cs: seq<Complaint>, institutions: map<int, Institution>, status: Option<string>,
                         category: Option<string>, page: int, pageSize: int): (r: Option<ListResponse>)
    ensures r.Some? <==> PageAccepted(page, pageSize)
    ensures r.Some? ==> r.value.total == Count(cs, ListFilter(status, category))
    ensures r.Some? ==>
              var shown := Page(Filter(cs, ListFilter(status, category)), page, pageSize).value;
              && |r.value.data| == |shown| <= pageSize
              && forall i :: 0 <= i < |shown| ==> r.value.data[i] == ListEntry(shown[i], institutions)
    ensures r.Some? ==> r.value.page == page && r.value.pageSize == pageSize
  {
    var matching := Filter(cs, ListFilter(status, category));
    CountIsFilterLength(cs, ListFilter(status, category));
    match Page(matching, page, pageSize)
    case None => None
    case Some(shown) =>
      Some(ListResponse(seq(|shown|, i requires 0 <= i < |shown| => ListEntry(shown[i], institutions)),
                        page, pageSize, |matching|))
  }

  /** Every entry of a page is the entry of a complaint that passes the filters, and a
      page never holds more entries than the total. */
  lemma ListedMatch(cs: seq<Complaint>, institutions: map<int, Institution>, status: Option<string>,
                    category: Option<string>, page: int, pageSize: int)
    requires PageAccepted(page, pageSize)
    ensures var r := GetComplaints(cs, institutions, status, category, page, pageSize).value;
            && |r.data| <= r.total
            && forall i :: 0 <= i < |r.data| ==>
                 exists c :: c in cs && ListFilter(status, category)(c) && r.data[i] == ListEntry(c, institutions)
  {
    var matching := Filter(cs, ListFilter(status, category));
    CountIsFilterLength(cs, ListFilter(status, category));
    var shown := Page(matching, page, pageSize).value;
    var skip := Min((page - 1) * pageSize, |matching|);
    forall i | 0 <= i < |shown|
      ensures shown[i] in matching
    {
      assert shown[i] == matching[skip + i];
    }
  }

  /** A complaint with its update count, as the single fetch returns it. */
  datatype ComplaintDetail = ComplaintDetail(dto: ComplaintDto, updateCount: nat)

  function PublicWithId(id: int): Complaint -> bool
  {
    (c: Complaint) => c.id == id && IsPublic(c)
  }

  /** `GetComplaint`: the public complaint with key `id`, with its full description and the
      number of its updates; not found when missing or not public. */
  function GetComplaint(cs: seq<Complaint>, updates: seq<ComplaintUpdate>, institutions: map<int, Institution>,
                        id: int): (r: Option<ComplaintDetail>)
    ensures r.Some? <==> exists c :: c in cs && c.id == id && IsPublic(c)
    ensures r.Some? ==> exists c :: c in cs && c.id == id && IsPublic(c) && r.value.dto.description == c.description
                                   && r.value.dto.statusName == StatusName(c.status)
    ensures r.Some? ==> r.value.updateCount == Count(updates, (u: ComplaintUpdate) => u.complaintId == id)
  {
    var matching := Filter(cs, PublicWithId(id));
    if matching == [] then None
    else
      var c := matching[0];
      assert c in matching;
      Some(ComplaintDetail(
        ComplaintDto(c.id, c.title, c.description, TypeName(c.complaintType), c.category, StatusName(c.status),
                     InstitutionName(institutions, c.institutionId), c.location, c.createdAt, c.resolvedAt),
        Count(updates, (u: ComplaintUpdate) => u.complaintId == id)))
  }

  /** The figures of `GetStats`. */
  datatype Stats = Stats(total: nat, resolved: nat, inProgress: nat, pending: nat, rejected: nat)

  function HasStatus(s: ComplaintStatus): Complaint -> bool
  {
    (c: Complaint) => c.status == s
  }

  function AwaitingWork(): Complaint -> bool
  {
    (c: Complaint) => c.status == New || c.status == PendingModeration
  }

  /** `GetStats`: the complaints, those Resolved, InProgress and Rejected, and as "pending"
      the new complaints together with those awaiting moderation. */
  function GetStats(cs: seq<Complaint>): (s: Stats)
    ensures s.total == |cs|
    ensures s.resolved == |Filter(cs, HasStatus(Resolved))|
    ensures s.inProgress == |Filter(cs, HasStatus(InProgress))|
    ensures s.rejected == |Filter(cs, HasStatus(Rejected))|
    ensures s.pending == |Filter(cs, HasStatus(New))| + |Filter(cs, HasStatus(PendingModeration))|
  {
    CountSplit(cs, HasStatus(New), HasStatus(PendingModeration), AwaitingWork());
    CountIsFilterLength(cs, HasStatus(Resolved));
    CountIsFilterLength(cs, HasStatus(InProgress));
    CountIsFilterLength(cs, HasStatus(Rejected));
    CountIsFilterLength(cs, HasStatus(New));
    CountIsFilterLength(cs, HasStatus(PendingModeration));
    Stats(|cs|, Count(cs, HasStatus(Resolved)), Count(cs, HasStatus(InProgress)), Count(cs, AwaitingWork()),
          Count(cs, HasStatus(Rejected)))
  }

  /** The five figures, with the viewed and closed complaints that none of them shows,
      account for every complaint exactly once. */
  lemma StatsPartition(cs: seq<Complaint>)
    ensures var s := GetStats(cs);
            s.resolved + s.inProgress + s.pending + s.rejected
            + Count(cs, HasStatus(Viewed)) + Count(cs, HasStatus(Closed)) == s.total
  {
    var p1 := (c: Complaint) => c.status == Resolved || c.status == InProgress;
    var p2 := (c: Complaint) => c.status == Resolved || c.status == InProgress || c.status == New
                                || c.status == PendingModeration;
    var p3 := (c: Complaint) => c.status != Viewed && c.status != Closed;
    var p4 := (c: Complaint) => c.status != Closed;
    var all := (c: Complaint) => true;
    CountSplit(cs, HasStatus(Resolved), HasStatus(InProgress), p1);
    CountSplit(cs, p1, AwaitingWork(), p2);
    CountSplit(cs, p2, HasStatus(Rejected), p3);
    CountSplit(cs, p3, HasStatus(Viewed), p4);
    CountSplit(cs, p4, HasStatus(Closed), all);
    CountIsFilterLength(cs, all);
    FilterAll(cs, all);
  }

  /** Complaints the category counts include: all but the rejected and the closed. */
  predicate Counted(c: Complaint)
  {
    c.status != Rejected && c.status != Closed
  }

  function InCategory(cat: string): Complaint -> bool
  {
    (c: Complaint) => c.category == cat && Counted(c)
  }

  /** `GetCategories`: each category of a counted complaint with the number of counted
      complaints in it. */
  function GetCategories(cs: seq<Complaint>): (m: map<string, nat>)
    ensures forall cat :: cat in m <==> exists c :: c in cs && Counted(c) && c.category == cat
    ensures forall cat :: cat in m ==> m[cat] == Count(cs, InCategory(cat)) && m[cat] >= 1
  {
    var cats := set c | c in cs && Counted(c) :: c.category;
    map cat | cat in cats :: CategoryCount(cs, cat)
  }

  /** The count of a category that holds a counted complaint is at least one. */
  function CategoryCount(cs: seq<Complaint>, cat: string): (n: nat)
    ensures n == Count(cs, InCategory(cat))
    ensures (exists c :: c in cs && Counted(c) && c.category == cat) ==> n >= 1
  {
    if exists c :: c in cs && Counted(c) && c.category == cat then
      var c :| c in cs && Counted(c) && c.category == cat;
      var i :| 0 <= i < |cs| && cs[i] == c;
      assert InCategory(cat)(cs[i]);
      Count(cs, InCategory(cat))
    else Count(cs, InCategory(cat))
  }

  /** The body of an API filing request. */
  datatype CreateComplaintDto = CreateComplaintDto(
    title: string, description: string, typeName: string, category: string, institutionId: int,
    location: Option<string>)

  datatype CreateError = InvalidModel | Unauthorized | InstitutionNotFound | InvalidType

  /** The checks of `CreateComplaint`, in order: the model, the signed-in account, the
      institution, and only then the complaint type. */
  function CreateCheck(dto: CreateComplaintDto, modelValid: bool, users: map<string, User>,
                       institutions: map<int, Institution>, uid: string): (r: Option<CreateError>)
    ensures r == Some(InvalidModel) <==> !modelValid
    ensures r == Some(Unauthorized) <==> modelValid && uid !in users
    ensures r == Some(InstitutionNotFound) <==> modelValid && uid in users && dto.institutionId !in institutions
    ensures r.None? <==> modelValid && uid in users && dto.institutionId in institutions
                         && ParseType(dto.typeName).Some?
    ensures r == Some(InvalidType) <==> modelValid && uid in users && dto.institutionId in institutions
                                        && ParseType(dto.typeName).None?
  {
    if !modelValid then Some(InvalidModel)
    else if uid !in users then Some(Unauthorized)
    else if dto.institutionId !in institutions then Some(InstitutionNotFound)
    else if ParseType(dto.typeName).None? then Some(InvalidType)
    else None
  }

  /** An unknown institution is reported as such whatever the type says: the type is
      parsed only for a known institution. */
  lemma InstitutionCheckedBeforeType(dto: CreateComplaintDto, typeName: string, users: map<string, User>,
                                     institutions: map<int, Institution>, uid: string)
    requires uid in users && dto.institutionId !in institutions
    ensures CreateCheck(dto, true, users, institutions, uid) == Some(InstitutionNotFound)
    ensures CreateCheck(dto.(typeName := typeName), true, users, institutions, uid) == Some(InstitutionNotFound)
  {
  }

  /** The complaint an API filing stores: awaiting moderation, not approved, not anonymous,
      without media. */
  function ApiComplaint(id: int, dto: CreateComplaintDto, t: ComplaintType, uid: string, now: int): (c: Complaint)
    ensures c.status == PendingModeration && !c.isApproved && !c.isAnonymous && c.mediaFiles == []
    ensures c.id == id && c.userId == uid && c.institutionId == dto.institutionId && c.complaintType == t
  {
    Complaint(id, dto.title, dto.description, t, dto.category, PendingModeration, false, false, None,
              dto.location, now, None, uid, dto.institutionId, [])
  }

  datatype CreateResult = Refused(error: CreateError) | Filed(dto: ComplaintDto)

  /** `CreateComplaint`: after the checks, stores one complaint awaiting moderation and
      returns it with its institution's name. A refused request changes nothing. */
  method CreateComplaint(db: Store, dto: CreateComplaintDto, modelValid: bool, uid: string, now: int)
    returns (r: CreateResult)
    requires db.Valid()
    modifies db`complaints, db`nextComplaintId
    ensures db.Valid()
    ensures var check := CreateCheck(dto, modelValid, old(db.users), old(db.institutions), uid);
            && (check.Some? ==> r == Refused(check.value) && unchanged(db))
            && (check.None? ==>
                  var c := ApiComplaint(old(db.nextComplaintId), dto, ParseType(dto.typeName).value, uid, now);
                  && db.complaints == old(db.complaints) + [c]
                  && db.nextComplaintId == old(db.nextComplaintId) + 1
                  && r.Filed? && r.dto.id == c.id && r.dto.statusName == "PendingModeration"
                  && r.dto.institutionName == Some(db.institutions[dto.institutionId].name))
  {
    var check := CreateCheck(dto, modelValid, db.users, db.institutions, uid);
    if check.Some? {
      return Refused(check.value);
    }
    var institution := db.institutions[dto.institutionId];
    var complaintType := ParseType(dto.typeName).value;
    var complaint := ApiComplaint(db.nextComplaintId, dto, complaintType, uid, now);
    assert Consistent(db.users, db.institutions, db.complaints + [complaint], db.nextComplaintId + 1,
                      db.badges, db.userBadges) by {
      AppendKeepsKeys(db.complaints, db.nextComplaintId, complaint);
    }
    db.complaints, db.nextComplaintId := db.complaints + [complaint], db.nextComplaintId + 1;
    r := Filed(ComplaintDto(complaint.id, complaint.title, complaint.description, TypeName(complaintType),
                            complaint.category, StatusName(complaint.status), Some(institution.name), None, now, None));
  }
}
