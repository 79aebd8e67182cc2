/** The account records of the newsroom (radio stations and users) and the
    rules their model classes apply on their own: the field defaults, the
    normalisation CustomUser.save performs before it writes, the check it
    makes, the display names, and the superuser defaults of the manager. */
module Accounts {
  import opened Common
  import opened Text
  import opened Emails

  datatype Province =
    | EasternCape | FreeState | Gauteng | KwaZuluNatal | Limpopo
    | Mpumalanga | NorthernCape | NorthWest | WesternCape | National

  datatype ReligionAccess = GeneralOnly | GeneralPlusChristian | GeneralPlusMuslim

  /** The eight access_* switches of a station. */
  datatype Access = Access(
    english: bool, afrikaans: bool, xhosa: bool,
    newsStories: bool, newsBulletins: bool, sport: bool, finance: bool, specialty: bool)

  datatype RadioStation = RadioStation(
    name: string,
    description: string,
    province: Province,
    contactNumber: string,
    contactEmail: string,
    website: string,
    isActive: bool,
    religionAccess: ReligionAccess,
    access: Access)

  datatype UserType = Staff | Radio

  datatype StaffRole = SuperAdmin | Admin | Editor | SubEditor | Journalist | Intern

  datatype User = User(
    email: string,
    firstName: string,
    lastName: string,
    mobileNumber: string,
    isActive: bool,
    isStaff: bool,
    isSuperuser: bool,
    userType: UserType,
    staffRole: Option<StaffRole>,
    station: Option<StationId>,
    isPrimaryContact: bool)

  /** A station as the model's field defaults build it from a name. */
  function NewStation(name: string): (s: RadioStation)
    ensures s.name == name && s.isActive && s.province == Gauteng
    ensures s.religionAccess == GeneralOnly
    ensures s.access.english
    ensures !(s.access.afrikaans || s.access.xhosa || s.access.newsStories || s.access.newsBulletins
              || s.access.sport || s.access.finance || s.access.specialty)
  {
    RadioStation(name, "", Gauteng, "", "", "", true, GeneralOnly,
                 Access(true, false, false, false, false, false, false, false))
  }

  /** A user as the field defaults build it from an email: active, STAFF,
      no role, no station, not staff, not superuser, not primary contact. */
  function NewUser(email: string): (u: User)
    ensures u.email == email && u.isActive && u.userType == Staff
    ensures !u.isStaff && !u.isSuperuser && !u.isPrimaryContact
    ensures u.staffRole == None && u.station == None
  {
    User(email, "", "", "", true, false, false, Staff, None, None, false)
  }

  /** The roles that keep staff status on a user who is not STAFF. */
  predicate IsAdminRole(role: Option<StaffRole>) {
    role == Some(SuperAdmin) || role == Some(Admin)
  }

  /** The flag rewriting CustomUser.save does before it writes: a STAFF
      user always gets staff status; any other user loses superuser status,
      and keeps staff status only with the SUPERADMIN or ADMIN role. */
  function Normalise(u: User): (r: User)
    ensures r == u.(isStaff := r.isStaff, isSuperuser := r.isSuperuser)
    ensures u.userType == Staff ==> r.isStaff && r.isSuperuser == u.isSuperuser
    ensures u.userType != Staff ==> !r.isSuperuser
    ensures u.userType != Staff ==> (r.isStaff <==> u.isStaff && IsAdminRole(u.staffRole))
  {
    if u.userType == Staff then u.(isStaff := true)
    else u.(isSuperuser := false, isStaff := u.isStaff && IsAdminRole(u.staffRole))
  }

  /** A user whose flags already agree with the save rules. */
  predicate Normalised(u: User) {
    (u.userType == Staff ==> u.isStaff)
    && (u.userType != Staff ==> !u.isSuperuser && (u.isStaff ==> IsAdminRole(u.staffRole)))
  }

  /** Saving twice normalises no further, and what save writes is normalised. */
  lemma NormaliseIdempotent(u: User)
    ensures Normalised(Normalise(u))
    ensures Normalise(Normalise(u)) == Normalise(u)
    ensures Normalised(u) <==> Normalise(u) == u
  {
  }

  /** The user create_user writes for u: the email normalised, then the
      flags rewritten as save does. */
  function Created(u: User): (r: User)
    ensures r == Normalise(u).(email := NormaliseEmail(u.email))
    ensures Normalised(r)
  {
    NormaliseIdempotent(u);
    Normalise(u.(email := NormaliseEmail(u.email)))
  }

  /** The check CustomUser.save makes after normalising: a RADIO user must
      have a station. */
  function SaveCheck(u: User): (o: Outcome)
    ensures o.Fail? <==> u.userType == Radio && u.station == None
    ensures o.Fail? ==> o.error.ValueError?
  {
    if u.userType == Radio && u.station == None then
      Fail(ValueError("Radio station users must be associated with a radio station"))
    else Pass
  }

  /** get_full_name: "first last" with surrounding whitespace stripped,
      or the email when nothing is left. */
  function FullName(u: User): (r: string)
    ensures AllSpace(u.firstName + " " + u.lastName) ==> r == u.email
    ensures !AllSpace(u.firstName + " " + u.lastName) ==>
              r != [] && StrippedOf(r, u.firstName + " " + u.lastName)
  {
    var joined := Strip(u.firstName + " " + u.lastName);
    if joined != [] then joined else u.email
  }

  /** A user's full name falls back to the email exactly when both name
      parts are whitespace only. */
  lemma FullNameFallsBack(u: User)
    ensures AllSpace(u.firstName) && AllSpace(u.lastName) ==> FullName(u) == u.email
    ensures !(AllSpace(u.firstName) && AllSpace(u.lastName)) ==>
              FullName(u) != [] && StrippedOf(FullName(u), u.firstName + " " + u.lastName)
  {
    var j := u.firstName + " " + u.lastName;
    if AllSpace(u.firstName) && AllSpace(u.lastName) {
      forall k | 0 <= k < |j| ensures IsSpace(j[k]) {
        if k < |u.firstName| { assert j[k] == u.firstName[k]; }
        else if k > |u.firstName| { assert j[k] == u.lastName[k - |u.firstName| - 1]; }
      }
    }
    if AllSpace(j) {
      forall k | 0 <= k < |u.firstName| ensures IsSpace(u.firstName[k]) { assert j[k] == u.firstName[k]; }
      forall k | 0 <= k < |u.lastName| ensures IsSpace(u.lastName[k]) {
        assert j[|u.firstName| + 1 + k] == u.lastName[k];
      }
    }
  }

  /** get_short_name: the first name when non-empty, else the part of the
      email before the first '@'. */
  function ShortName(u: User): (r: string)
    ensures u.firstName != [] ==> r == u.firstName
    ensures u.firstName == [] ==> |r| <= |u.email| && r == u.email[..|r|] && '@' !in r
    ensures u.firstName == [] && |r| < |u.email| ==> u.email[|r|] == '@'
  {
    if u.firstName != [] then u.firstName else BeforeFirst(u.email, '@')
  }

  /** The keyword overrides create_superuser may receive; None means the
      keyword was not passed and its default applies. */
  datatype SuperuserOptions = SuperuserOptions(
    isStaff: Option<bool>,
    isSuperuser: Option<bool>,
    isActive: Option<bool>,
    userType: Option<UserType>,
    staffRole: Option<Option<StaffRole>>,
    station: Option<StationId>)

  /** create_superuser up to the call of create_user: the defaults it fills
      in and the two flags it insists on. */
  function SuperuserDraft(email: string, opts: SuperuserOptions): (r: Result<User>)
    ensures r.Ok? <==> opts.isStaff != Some(false) && opts.isSuperuser != Some(false)
    ensures r.Err? ==> r.error.ValueError?
    ensures r.Ok? ==> r.value.email == email && r.value.isStaff && r.value.isSuperuser
    ensures r.Ok? ==> r.value.isActive == opts.isActive.GetOr(true)
    ensures r.Ok? ==> r.value.userType == opts.userType.GetOr(Staff)
    ensures r.Ok? ==> r.value.staffRole == opts.staffRole.GetOr(Some(SuperAdmin))
    ensures r.Ok? ==> r.value.station == opts.station && !r.value.isPrimaryContact
  {
    var isStaff := opts.isStaff.GetOr(true);
    var isSuperuser := opts.isSuperuser.GetOr(true);
    if !isStaff then Err(ValueError("Superuser must have is_staff=True."))
    else if !isSuperuser then Err(ValueError("Superuser must have is_superuser=True."))
    else Ok(NewUser(email).(
      isStaff := true, isSuperuser := true,
      isActive := opts.isActive.GetOr(true),
      userType := opts.userType.GetOr(Staff),
      staffRole := opts.staffRole.GetOr(Some(SuperAdmin)),
      station := opts.station))
  }

  /** With no overrides, create_superuser prepares an active STAFF
      SUPERADMIN with staff and superuser status, which save leaves as it is. */
  lemma DefaultSuperuser(email: string)
    ensures var r := SuperuserDraft(email, SuperuserOptions(None, None, None, None, None, None));
      r.Ok? && r.value.isActive && r.value.userType == Staff && r.value.staffRole == Some(SuperAdmin)
      && Normalise(r.value) == r.value && SaveCheck(r.value) == Pass
  {
  }

  /** The users of station sid (None: of no station) flagged as primary contact. */
  function PrimaryContacts(users: map<UserId, User>, st: Option<StationId>): (p: set<UserId>)
    ensures forall k :: k in p <==> k in users && users[k].station == st && users[k].isPrimaryContact
  {
    set k | k in users && users[k].station == st && users[k].isPrimaryContact
  }

  /** No station has two primary contacts. */
  predicate AtMostOnePrimary(users: map<UserId, User>) {
    forall a, b ::
      (a in users && b in users && users[a].isPrimaryContact && users[b].isPrimaryContact
       && users[a].station.Some? && users[a].station == users[b].station) ==> a == b
  }

  /** Any email already taken by a stored user. */
  predicate EmailInUse(users: map<UserId, User>, email: string) {
    exists k :: k in users && users[k].email == email
  }

  /** The bulk update station.users.filter(is_primary_contact=True)
      .update(is_primary_contact=False): no user of station sid stays a primary
      contact, and nothing else changes. */
  function ClearPrimaries(users: map<UserId, User>, sid: StationId): (r: map<UserId, User>)
    ensures r.Keys == users.Keys
    ensures forall k :: k in r ==> r[k] == users[k].(isPrimaryContact := r[k].isPrimaryContact)
    ensures forall k :: k in r ==> (r[k].isPrimaryContact <==> users[k].isPrimaryContact && users[k].station != Some(sid))
    ensures PrimaryContacts(r, Some(sid)) == {}
  {
    map k | k in users :: if users[k].station == Some(sid) then users[k].(isPrimaryContact := false) else users[k]
  }

  /** The bulk update self.users.update(is_active=False) of a station being
      deactivated: every user of station sid becomes inactive, nothing else
      changes. */
  function Deactivated(users: map<UserId, User>, sid: StationId): (r: map<UserId, User>)
    ensures r.Keys == users.Keys
    ensures forall k :: k in r ==> r[k] == users[k].(isActive := r[k].isActive)
    ensures forall k :: k in r ==> (r[k].isActive <==> users[k].isActive && users[k].station != Some(sid))
  {
    map k | k in users :: if users[k].station == Some(sid) then users[k].(isActive := false) else users[k]
  }
}
