/** Account handlers: registration (with the institution check for representatives and
    approval only for them), the login gates, and the role-based landing page. */
module AccountController {
  import opened Options
  import opened Text
  import opened Entities
  import opened Queries

  const REPRESENTATIVE: string := "InstitutionRepresentative"
  const CITIZEN: string := "Citizen"
  const ADMIN: string := "Admin"
  const MODERATOR: string := "Moderator"

  /** The registration form. */
  datatype RegisterForm = RegisterForm(
    fullName: string, email: string, phoneNumber: Option<string>, role: string,
    institutionId: Option<int>, institutionCode: Option<string>)

  /** Why a registration form is sent back before any account is created. */
  datatype RegisterError = InvalidForm | InstitutionMissing | CodeMissing | CodeMismatch

  /** The verdict of the checks: refused, or passed with the institution to link. */
  datatype Checked = Refused(error: RegisterError) | Passed(institution: Option<int>)

  /** The checks before account creation, in order. Only representatives are checked
      against an institution: it must be chosen, a code given, and the two must match. */
  function RegisterCheck(form: RegisterForm, formValid: bool, institutions: map<int, Institution>)
    : (r: Checked)
    ensures r.Passed? <==> formValid && (form.role == REPRESENTATIVE ==>
              form.institutionId.Some? && !IsNullOrEmpty(form.institutionCode)
              && form.institutionId.value in institutions
              && institutions[form.institutionId.value].institutionCode == form.institutionCode.value)
    ensures r.Passed? ==> r.institution == (if form.role == REPRESENTATIVE then form.institutionId else None)
    ensures r == Refused(InvalidForm) <==> !formValid
    ensures formValid && form.role == REPRESENTATIVE && form.institutionId.None? ==> r == Refused(InstitutionMissing)
    ensures formValid && form.role == REPRESENTATIVE && form.institutionId.Some? && IsNullOrEmpty(form.institutionCode)
            ==> r == Refused(CodeMissing)
    ensures formValid && form.role == REPRESENTATIVE && form.institutionId.Some? && !IsNullOrEmpty(form.institutionCode)
            ==> r.Passed? || r == Refused(CodeMismatch)
  {
    if !formValid then Refused(InvalidForm)
    else if form.role != REPRESENTATIVE then Passed(None)
    else if form.institutionId.None? then Refused(InstitutionMissing)
    else if IsNullOrEmpty(form.institutionCode) then Refused(CodeMissing)
    else
      var id := form.institutionId.value;
      if id in institutions && institutions[id].institutionCode == form.institutionCode.value then Passed(Some(id))
      else Refused(CodeMismatch)
  }

  /** The account registration creates: user name and e-mail from the form, normalised by
      upper-casing, no score, the lowest level, not banned, holding the chosen role, and
      approved unless it is a representative's. */
  function NewAccount(id: string, form: RegisterForm, institutionId: Option<int>): (u: User)
    ensures u.id == id && u.email == Some(form.email) && u.userName == Some(form.email)
    ensures u.isApproved <==> form.role != REPRESENTATIVE
    ensures !u.isBanned && u.reputationScore == 0 && u.level == Bronze && u.roles == {form.role}
    ensures u.institutionId == institutionId
  {
    User(id, Some(form.email), Some(Upper(form.email)), Some(form.email), Some(Upper(form.email)),
         form.phoneNumber, Some(form.fullName), 0, Bronze, form.role != REPRESENTATIVE, false, institutionId,
         {form.role})
  }

  /** The identity errors the form shows: those that are not blank, in order. */
  function VisibleErrors(errors: seq<string>): (r: seq<string>)
    ensures forall i :: 0 <= i < |r| ==> !IsBlank(r[i]) && r[i] in errors
    ensures forall e :: e in errors && !IsBlank(e) ==> e in r
  {
    var r := Filter(errors, (e: string) => !IsBlank(e));
    assert forall i :: 0 <= i < |r| ==> r[i] in r;
    r
  }

  /** A failed creation never shows an empty form error, even when every identity error is blank. */
  lemma BlankErrorsHidden(errors: seq<string>)
    requires forall i :: 0 <= i < |errors| ==> IsBlank(errors[i])
    ensures VisibleErrors(errors) == []
  {
    FilterNone(errors, (e: string) => !IsBlank(e));
  }

  /** The outcome of `Register`: the form sent back with the check that refused it, the form
      with the identity errors, or where a new account goes next. */
  datatype RegisterResult = SentBack(error: RegisterError) | FormErrors(errors: seq<string>) | AwaitApproval | SignedIn | ToLogin

  /** `Register` (POST). `identityErrors` are the identity store's verdict on creating the
      account (empty on success) and `newId` the key it assigns. A successful registration
      adds the account and its profile; a representative then waits for approval, a citizen
      is signed in, and anyone else is sent to the login page. */
  method Register(db: Store, form: RegisterForm, formValid: bool, identityErrors: seq<string>, newId: string)
    returns (r: RegisterResult)
    requires db.Valid() && newId !in db.users
    modifies db`users, db`profiles
    ensures db.Valid()
    ensures var check := RegisterCheck(form, formValid, old(db.institutions));
            && (check.Refused? ==> r == SentBack(check.error) && unchanged(db))
            && (check.Passed? && identityErrors != [] ==> r == FormErrors(VisibleErrors(identityErrors)) && unchanged(db))
            && (check.Passed? && identityErrors == [] ==>
                  && db.users == old(db.users)[newId := NewAccount(newId, form, check.institution)]
                  && db.profiles == old(db.profiles) + [Profile(newId)]
                  && r == (if form.role == REPRESENTATIVE then AwaitApproval
                           else if form.role == CITIZEN then SignedIn else ToLogin))
  {
    var check := RegisterCheck(form, formValid, db.institutions);
    if check.Refused? {
      return SentBack(check.error);
    }
    if identityErrors != [] {
      return FormErrors(VisibleErrors(identityErrors));
    }
    var user := NewAccount(newId, form, check.institution);
    db.users := db.users[newId := user];
    db.profiles := db.profiles + [Profile(newId)];
    if form.role == REPRESENTATIVE && !IsNullOrEmpty(form.institutionCode) {
      user := user.(isApproved := false);
      db.users := db.users[newId := user];
      return AwaitApproval;
    }
    if form.role == CITIZEN {
      return SignedIn;
    }
    r := ToLogin;
  }

  /** The only accounts registration leaves unapproved are representatives', and they are
      linked to the institution whose code they gave. */
  lemma RepresentativesAwaitApproval(form: RegisterForm, institutions: map<int, Institution>, id: string)
    requires RegisterCheck(form, true, institutions).Passed?
    ensures var u := NewAccount(id, form, RegisterCheck(form, true, institutions).institution);
            && (!u.isApproved <==> form.role == REPRESENTATIVE)
            && (form.role == REPRESENTATIVE ==>
                  u.institutionId.Some? && u.institutionId.value in institutions
                  && institutions[u.institutionId.value].institutionCode == form.institutionCode.value)
  {
  }

  /** The role is not restricted: a form naming the administrator role passes every check
      and yields an approved administrator account. */
  lemma AnyRoleRegisters(form: RegisterForm, institutions: map<int, Institution>, id: string)
    requires form.role == ADMIN
    ensures RegisterCheck(form, true, institutions) == Passed(None)
    ensures var u := NewAccount(id, form, None); u.isApproved && ADMIN in u.roles
  {
  }

  /** The landing area after sign-in. */
  datatype Area = AdminArea | ModeratorArea | InstitutionArea | CitizenArea

  /** Landing page by role, in priority Admin, Moderator, representative, and otherwise citizen. */
  function RedirectArea(roles: set<string>): (a: Area)
    ensures a == AdminArea <==> ADMIN in roles
    ensures a == ModeratorArea <==> ADMIN !in roles && MODERATOR in roles
    ensures a == InstitutionArea <==> ADMIN !in roles && MODERATOR !in roles && REPRESENTATIVE in roles
    ensures a == CitizenArea <==> ADMIN !in roles && MODERATOR !in roles && REPRESENTATIVE !in roles
  {
    if ADMIN in roles then AdminArea
    else if MODERATOR in roles then ModeratorArea
    else if REPRESENTATIVE in roles then InstitutionArea
    else CitizenArea
  }

  function AreaRank(a: Area): nat
  {
    match a
    case CitizenArea => 0
    case InstitutionArea => 1
    case ModeratorArea => 2
    case AdminArea => 3
  }

  /** Holding more roles never lands lower. */
  lemma RedirectMonotone(roles: set<string>, more: set<string>)
    requires roles <= more
    ensures AreaRank(RedirectArea(roles)) <= AreaRank(RedirectArea(more))
  {
  }

  /** How the password check went, as the sign-in manager reports it. */
  datatype SignInOutcome = Succeeded | LockedOut | Failed

  datatype LoginResult =
    | LoginForm | InvalidLogin | NotApproved | BannedAccount | AccountLocked | Landing(area: Area) | LookupFailed

  /** The result of a single-account lookup. */
  datatype Lookup = NoAccount | OneAccount(user: User) | SeveralAccounts

  function EmailIs(email: string): User -> bool
  {
    (u: User) => u.normalizedEmail == Some(Upper(email))
  }

  /** `FindByEmailAsync` over the accounts in row order: the single account whose
      normalised e-mail is the upper-cased input; more than one is an error of the store,
      as `SingleOrDefault` makes it. */
  function FindByEmail(accounts: seq<User>, email: string): (r: Lookup)
    ensures r == NoAccount <==> forall i :: 0 <= i < |accounts| ==> !EmailIs(email)(accounts[i])
    ensures r.OneAccount? ==> r.user in accounts && EmailIs(email)(r.user)
    ensures r.OneAccount? ==> forall i :: 0 <= i < |accounts| && EmailIs(email)(accounts[i]) ==> accounts[i] == r.user
    ensures r.OneAccount? <==> |Filter(accounts, EmailIs(email))| == 1
    ensures r == SeveralAccounts <==> |Filter(accounts, EmailIs(email))| >= 2
  {
    var matches := Filter(accounts, EmailIs(email));
    assert forall i :: 0 <= i < |accounts| && EmailIs(email)(accounts[i]) ==> accounts[i] in matches;
    if |matches| == 0 then NoAccount
    else
      assert matches[0] in matches;
      if |matches| == 1 then OneAccount(matches[0]) else SeveralAccounts
  }

  /** `Login` (POST): the account is looked up, then approval and then the ban are checked,
      all before the password; `password` is what the password check would report. */
  function Login(accounts: seq<User>, email: string, formValid: bool, password: SignInOutcome): (r: LoginResult)
    ensures !formValid ==> r == LoginForm
    ensures formValid && FindByEmail(accounts, email) == NoAccount ==> r == InvalidLogin
    ensures formValid && FindByEmail(accounts, email) == SeveralAccounts ==> r == LookupFailed
    ensures formValid && FindByEmail(accounts, email).OneAccount? ==>
              var u := FindByEmail(accounts, email).user;
              && (!u.isApproved ==> r == NotApproved)
              && (u.isApproved && u.isBanned ==> r == BannedAccount)
              && (u.isApproved && !u.isBanned ==>
                    r == match password
                         case Succeeded => Landing(RedirectArea(u.roles))
                         case LockedOut => AccountLocked
                         case Failed => InvalidLogin)
  {
    if !formValid then LoginForm
    else match FindByEmail(accounts, email)
      case NoAccount => InvalidLogin
      case SeveralAccounts => LookupFailed
      case OneAccount(u) =>
        if !u.isApproved then NotApproved
        else if u.isBanned then BannedAccount
        else match password
          case Succeeded => Landing(RedirectArea(u.roles))
          case LockedOut => AccountLocked
          case Failed => InvalidLogin
  }

  /** The gates decide before the password: for an unknown e-mail, an unapproved or a
      banned account, the answer is the same whatever the password, and never a landing. */
  lemma GatesPrecedePassword(accounts: seq<User>, email: string, p: SignInOutcome, q: SignInOutcome)
    requires var found := FindByEmail(accounts, email);
             !found.OneAccount? || !found.user.isApproved || found.user.isBanned
    ensures Login(accounts, email, true, p) == Login(accounts, email, true, q)
    ensures !Login(accounts, email, true, p).Landing?
  {
  }

  /** Only a valid form for an approved, unbanned account with a successful password
      check lands anywhere, and it lands where the account's roles say. */
  lemma LandingNeedsEverything(accounts: seq<User>, email: string, formValid: bool, p: SignInOutcome)
    requires Login(accounts, email, formValid, p).Landing?
    ensures formValid && p == Succeeded
    ensures var found := FindByEmail(accounts, email);
            && found.OneAccount? && found.user in accounts && found.user.isApproved && !found.user.isBanned
            && Login(accounts, email, formValid, p).area == RedirectArea(found.user.roles)
  {
  }

  /** An unknown e-mail gets the same answer as a wrong password. */
  lemma UnknownEmailLooksLikeWrongPassword(accounts: seq<User>, email: string, other: string)
    requires FindByEmail(accounts, email) == NoAccount
    requires FindByEmail(accounts, other).OneAccount?
    requires FindByEmail(accounts, other).user.isApproved && !FindByEmail(accounts, other).user.isBanned
    ensures Login(accounts, email, true, Succeeded) == Login(accounts, other, true, Failed)
  {
  }
}
