/** The citizen's handlers: filing a complaint with its uploaded files, cancelling a
    complaint that has not been taken up, and editing one that still awaits moderation. */
module CitizenController {
  import opened Options
  import opened Text
  import opened Entities
  import opened Queries
  import opened GamificationService
  import opened AuditService

  const CANCELLED_MESSAGE: string := "Başvuru vatandaş tarafından iptal edildi."

  /** An uploaded file as the handler sees it: its declared content type, name and length. */
  datatype Upload = Upload(contentType: string, fileName: string, length: int)

  /** The fields of the complaint form. */
  datatype ComplaintForm = ComplaintForm(
    title: string, description: string, complaintType: ComplaintType, category: string,
    location: Option<string>, isAnonymous: bool, institutionId: int)

  /** The fields of the edit form. */
  datatype EditForm = EditForm(
    title: string, description: string, complaintType: ComplaintType, category: string, location: Option<string>)

  /** The media type of an upload from its content type; anything unrecognised is a photo. */
  function GetMediaType(contentType: string): (r: MediaType)
    ensures r == Video <==> StartsWith(contentType, "video/")
    ensures r == Audio <==> StartsWith(contentType, "audio/")
    ensures r == Photo <==> !StartsWith(contentType, "video/") && !StartsWith(contentType, "audio/")
  {
    if StartsWith(contentType, "image/") then Photo
    else if StartsWith(contentType, "video/") then Video
    else if StartsWith(contentType, "audio/") then Audio
    else Photo
  }

  predicate NonEmpty(f: Upload)
  {
    f.length > 0
  }

  /** The media row kept for one upload: its media type, name and length, stamped now. */
  function MediaRow(f: Upload, now: int): (m: Media)
    ensures m.fileName == f.fileName && m.sizeBytes == f.length && m.uploadedAt == now
    ensures m.mediaType == GetMediaType(f.contentType)
  {
    Media(GetMediaType(f.contentType), f.fileName, f.length, now)
  }

  /** The media rows stored for a list of uploads: one per non-empty file, in order. */
  function MediaFor(files: seq<Upload>, now: int): (r: seq<Media>)
    ensures |r| <= |files|
    ensures forall i :: 0 <= i < |r| ==> r[i].sizeBytes > 0 && r[i].uploadedAt == now
  {
    if files == [] then []
    else
      var f := files[|files| - 1];
      MediaFor(files[..|files| - 1], now) + (if NonEmpty(f) then [MediaRow(f, now)] else [])
  }

  /** The media rows are exactly the rows of the non-empty uploads, in upload order: a
      zero-length file is skipped and every other file keeps its own name, length and type. */
  lemma {:induction false} MediaForCountsNonEmpty(files: seq<Upload>, now: int)
    ensures var kept := Filter(files, NonEmpty);
            && |MediaFor(files, now)| == |kept| == Count(files, NonEmpty)
            && forall i :: 0 <= i < |kept| ==> MediaFor(files, now)[i] == MediaRow(kept[i], now)
  {
    CountIsFilterLength(files, NonEmpty);
    if files != [] {
      MediaForCountsNonEmpty(files[..|files| - 1], now);
    }
  }

  /** The upload loop of `Create`: skips zero-length files and keeps one media row for
      each of the others. */
  method CollectMedia(files: seq<Upload>, now: int) returns (media: seq<Media>)
    ensures media == MediaFor(files, now)
  {
    media := [];
    var i := 0;
    while i < |files|
      invariant 0 <= i <= |files|
      invariant media == MediaFor(files[..i], now)
    {
      var file := files[i];
      assert files[..i + 1][..i] == files[..i];
      if file.length > 0 {
        media := media + [MediaRow(file, now)];
      }
      i := i + 1;
    }
    assert files[..i] == files;
  }

  /** The complaint `Create` stores: awaiting moderation, not approved, owned by the filer. */
  function NewComplaint(id: int, form: ComplaintForm, uid: string, media: seq<Media>, now: int): (c: Complaint)
    ensures c.status == PendingModeration && !c.isApproved && c.rejectionReason.None? && c.resolvedAt.None?
    ensures c.id == id && c.userId == uid && c.institutionId == form.institutionId && c.createdAt == now
    ensures c.mediaFiles == media
  {
    Complaint(id, form.title, form.description, form.complaintType, form.category, PendingModeration,
              form.isAnonymous, false, None, form.location, now, None, uid, form.institutionId, media)
  }

  /** The audit details of a new complaint. */
  function CreatedDetails(c: Complaint): string
  {
    "Title: " + c.title + ", Institution: " + IntToString(c.institutionId)
  }

  datatype CreateResult = Invalid | Created(id: int)

  /** `Create` (POST): stores the complaint with its media, runs the badge check for the
      filer and writes the audit entry. An invalid form changes nothing. */
  method Create(db: Store, form: ComplaintForm, formValid: bool, files: Option<seq<Upload>>,
                uid: string, ctx: Option<HttpContext>, now: int) returns (r: CreateResult)
    requires db.Valid()
    modifies db`complaints, db`nextComplaintId, db`users, db`userBadges, db`auditLogs
    ensures db.Valid()
    ensures !formValid ==> r == Invalid && unchanged(db)
    ensures formValid ==>
              var c := NewComplaint(old(db.nextComplaintId), form, uid,
                                    if files.Some? then MediaFor(files.value, now) else [], now);
              && r == Created(c.id)
              && db.complaints == old(db.complaints) + [c]
              && db.nextComplaintId == old(db.nextComplaintId) + 1
              && (db.users, db.userBadges)
                 == CheckAndAward(old(db.users), db.complaints, db.badges, old(db.userBadges), db.warnings, uid, now)
              && db.auditLogs == old(db.auditLogs)
                 + [AuditLog(Some(uid), "ComplaintCreated", "Complaint", Some(c.id), Some(CreatedDetails(c)),
                             GetClientIpAddress(ctx), now)]
  {
    if !formValid {
      return Invalid;
    }
    var media: seq<Media> := [];
    if files.Some? {
      media := CollectMedia(files.value, now);
    }
    var complaint := NewComplaint(db.nextComplaintId, form, uid, media, now);
    assert complaint == NewComplaint(old(db.nextComplaintId), form, uid,
                                     if files.Some? then MediaFor(files.value, now) else [], now);
    var details := CreatedDetails(complaint);
    assert Consistent(db.users, db.institutions, db.complaints + [complaint], db.nextComplaintId + 1,
                      db.badges, db.userBadges) by {
      AppendKeepsKeys(db.complaints, db.nextComplaintId, complaint);
    }
    db.complaints, db.nextComplaintId := db.complaints + [complaint], db.nextComplaintId + 1;
    CheckAndAwardBadges(db, uid, now);
    Log(db, uid, "ComplaintCreated", "Complaint", Some(complaint.id), Some(details), ctx, now);
    r := Created(complaint.id);
  }

  /** Filing a complaint counts as one more submission for its filer. */
  lemma FilingAddsSubmission(cs: seq<Complaint>, c: Complaint)
    ensures ActivityOf(cs + [c], c.userId).submitted == ActivityOf(cs, c.userId).submitted + 1
  {
    CountAppend(cs, [c], SubmittedBy(c.userId));
    assert [c][..0] == [];
  }

  /** A complaint may be cancelled only while it awaits moderation or is new. */
  predicate CanCancel(c: Complaint)
  {
    c.status == PendingModeration || c.status == New
  }

  /** A complaint may be edited only while it awaits moderation. */
  predicate CanEdit(c: Complaint)
  {
    c.status == PendingModeration
  }

  /** The complaint after its owner cancels it: Closed, nothing else changed. */
  function Cancel(c: Complaint): (r: Complaint)
    ensures r.status == Closed && r.(status := c.status) == c
  {
    c.(status := Closed)
  }

  /** Cancelling is final: a cancelled complaint can be neither cancelled again nor edited. */
  lemma CancelIsFinal(c: Complaint)
    ensures !CanCancel(Cancel(c)) && !CanEdit(Cancel(c))
  {
  }

  /** Whatever may be edited may be cancelled. */
  lemma EditableIsCancellable(c: Complaint)
    ensures CanEdit(c) ==> CanCancel(c)
  {
  }

  datatype CancelResult = CancelNotFound | NotCancellable | Cancelled

  /** `CancelComplaint`: the caller's own complaint, if still cancellable, is closed and
      the cancellation recorded; anybody else's complaint is not found. */
  method CancelComplaint(db: Store, id: int, uid: string, now: int) returns (r: CancelResult)
    requires db.Valid()
    modifies db`complaints, db`updates
    ensures db.Valid()
    ensures var found := IndexOfOwned(old(db.complaints), id, uid);
            && (found.None? ==> r == CancelNotFound)
            && (found.Some? && !CanCancel(old(db.complaints)[found.value]) ==> r == NotCancellable)
            && (r != Cancelled ==> db.complaints == old(db.complaints) && db.updates == old(db.updates))
            && (found.Some? && CanCancel(old(db.complaints)[found.value]) ==>
                  && r == Cancelled
                  && db.complaints == old(db.complaints)[found.value := Cancel(old(db.complaints)[found.value])]
                  && db.updates == old(db.updates) + [ComplaintUpdate(id, CANCELLED_MESSAGE, Closed, Some(uid), now)])
  {
    var found := IndexOfOwned(db.complaints, id, uid);
    if found.None? {
      return CancelNotFound;
    }
    var i := found.value;
    if !CanCancel(db.complaints[i]) {
      return NotCancellable;
    }
    db.complaints := db.complaints[i := Cancel(db.complaints[i])];
    db.updates := db.updates + [ComplaintUpdate(id, CANCELLED_MESSAGE, Closed, Some(uid), now)];
    r := Cancelled;
  }

  /** The edit form filled from a complaint. */
  function FormOf(c: Complaint): EditForm
  {
    EditForm(c.title, c.description, c.complaintType, c.category, c.location)
  }

  /** The complaint after an edit: the five form fields are taken from the form and
      nothing else changes. */
  function ApplyEdit(c: Complaint, f: EditForm): (r: Complaint)
    ensures FormOf(r) == f
    ensures r.(title := c.title, description := c.description, complaintType := c.complaintType,
               category := c.category, location := c.location) == c
  {
    c.(title := f.title, description := f.description, complaintType := f.complaintType,
       category := f.category, location := f.location)
  }

  /** Submitting the form the edit page showed, unchanged, leaves the complaint as it was;
      an edit keeps the complaint editable. */
  lemma EditRoundTrip(c: Complaint, f: EditForm)
    ensures ApplyEdit(c, FormOf(c)) == c
    ensures CanEdit(ApplyEdit(c, f)) == CanEdit(c)
    ensures ApplyEdit(ApplyEdit(c, f), f) == ApplyEdit(c, f)
  {
  }

  datatype EditView = EditNotFound | NotEditable | Form(form: EditForm)

  /** `Edit` (GET): the form for the caller's own complaint awaiting moderation. */
  function EditPage(cs: seq<Complaint>, id: int, uid: string): (r: EditView)
    ensures r.Form? <==> IndexOfOwned(cs, id, uid).Some? && CanEdit(cs[IndexOfOwned(cs, id, uid).value])
    ensures r.Form? ==> exists i :: 0 <= i < |cs| && cs[i].id == id && cs[i].userId == uid && r.form == FormOf(cs[i])
  {
    match IndexOfOwned(cs, id, uid)
    case None => EditNotFound
    case Some(i) => if CanEdit(cs[i]) then Form(FormOf(cs[i])) else NotEditable
  }

  datatype EditResult = EditMissing | EditRefused | EditInvalid | Edited

  /** `Edit` (POST): for the caller's own complaint awaiting moderation and a valid form,
      replaces the five editable fields. */
  method Edit(db: Store, id: int, uid: string, f: EditForm, formValid: bool) returns (r: EditResult)
    requires db.Valid()
    modifies db`complaints
    ensures db.Valid()
    ensures var found := IndexOfOwned(old(db.complaints), id, uid);
            && (found.None? ==> r == EditMissing)
            && (found.Some? && !CanEdit(old(db.complaints)[found.value]) ==> r == EditRefused)
            && (found.Some? && CanEdit(old(db.complaints)[found.value]) && !formValid ==> r == EditInvalid)
            && (r != Edited ==> db.complaints == old(db.complaints))
            && (found.Some? && CanEdit(old(db.complaints)[found.value]) && formValid ==>
                  r == Edited && db.complaints == old(db.complaints)[found.value := ApplyEdit(old(db.complaints)[found.value], f)])
  {
    var found := IndexOfOwned(db.complaints, id, uid);
    if found.None? {
      return EditMissing;
    }
    var i := found.value;
    if !CanEdit(db.complaints[i]) {
      return EditRefused;
    }
    if !formValid {
      return EditInvalid;
    }
    db.complaints := db.complaints[i := ApplyEdit(db.complaints[i], f)];
    r := Edited;
  }
}
