/** The account side of the newsroom as a store of users and radio stations
    (the two tables the account views read and write), with the model-level
    save rules and each account view or API action as a method. The views
    keep one primary contact per station by clearing the old flag before
    setting a new one; edit_user is the exception (see EditedUsers). */
module AccountViews {
  import opened Common
  import opened Accounts
  import opened Emails
  import opened Permissions
  import opened AccountSerializers

  /** The outcome of LoginView.post: 400 with the missing field names,
      403 for an inactive account, 401 for bad credentials, or success. */
  datatype LoginResult = MissingFields(fields: set<string>) | Inactive | InvalidCredentials | LoggedIn(user: User)

  /** LoginView.post. `authenticated` is what authenticate() returned for
      the submitted credentials (the password check itself is not modelled). */
  function Login(email: string, password: string, authenticated: Option<User>): (r: LoginResult)
    ensures r.MissingFields? <==> email == "" || password == ""
    ensures r.MissingFields? ==> ("email" in r.fields <==> email == "")
                                 && ("password" in r.fields <==> password == "")
                                 && r.fields <= {"email", "password"}
    ensures r == Inactive <==> email != "" && password != "" && authenticated.Some? && !authenticated.value.isActive
    ensures r == InvalidCredentials <==> email != "" && password != "" && authenticated == None
    ensures r.LoggedIn? <==> email != "" && password != "" && authenticated.Some? && authenticated.value.isActive
    ensures r.LoggedIn? ==> authenticated == Some(r.user)
  {
    var errors := (if email == "" then {"email"} else {}) + (if password == "" then {"password"} else {});
    if errors != {} then MissingFields(errors)
    else match authenticated
      case Some(user) => if !user.isActive then Inactive else LoggedIn(user)
      case None => InvalidCredentials
  }

  /** The form fields the user-creating account views read. */
  datatype UserForm = UserForm(
    email: string, password: string,
    firstName: string, lastName: string, mobileNumber: string,
    isActive: bool)

  /** The form fields edit_user reads. */
  datatype EditForm = EditForm(
    firstName: string, lastName: string, mobileNumber: string, isActive: bool,
    staffRole: Option<StaffRole>, station: Option<StationId>, isPrimaryContact: bool)

  /** The user station_create, station_add_user and create_radio_user hand
      to create_user. */
  function RadioDraft(f: UserForm, sid: StationId, primary: bool): (u: User)
    ensures u.email == f.email && u.firstName == f.firstName && u.lastName == f.lastName
    ensures u.mobileNumber == f.mobileNumber && u.isActive == f.isActive
    ensures u.userType == Radio && u.station == Some(sid) && u.isPrimaryContact == primary
    ensures Normalised(u) && SaveCheck(u) == Pass
  {
    NewUser(f.email).(firstName := f.firstName, lastName := f.lastName, mobileNumber := f.mobileNumber,
                      isActive := f.isActive, userType := Radio, station := Some(sid), isPrimaryContact := primary)
  }

  /** The user create_staff_user hands to create_user. */
  function StaffDraft(f: UserForm, role: Option<StaffRole>): (u: User)
    ensures u.email == f.email && u.firstName == f.firstName && u.lastName == f.lastName
    ensures u.mobileNumber == f.mobileNumber && u.isActive == f.isActive
    ensures u.userType == Staff && u.staffRole == role && u.station == None && !u.isPrimaryContact
    ensures SaveCheck(u) == Pass
  {
    NewUser(f.email).(firstName := f.firstName, lastName := f.lastName, mobileNumber := f.mobileNumber,
                      isActive := f.isActive, userType := Staff, staffRole := role)
  }

  /** The users after the set_primary_contact actions: station sid's flags
      cleared, then uid's set. */
  function WithPrimary(users: map<UserId, User>, sid: StationId, uid: UserId): (r: map<UserId, User>)
    requires uid in users && users[uid].station == Some(sid)
    ensures r.Keys == users.Keys
    ensures forall k :: k in r ==> r[k] == users[k].(isPrimaryContact := r[k].isPrimaryContact)
    ensures PrimaryContacts(r, Some(sid)) == {uid}
    ensures forall st :: st != Some(sid) ==> PrimaryContacts(r, st) == PrimaryContacts(users, st)
    ensures AtMostOnePrimary(users) ==> AtMostOnePrimary(r)
  {
    ClearPrimaries(users, sid)[uid := users[uid].(isPrimaryContact := true)]
  }

  /** The users after station_add_user or create_radio_user add the user u
      to station sid: when u is to be primary, the station's old primary
      contact is cleared first. */
  function AddedRadioUser(users: map<UserId, User>, sid: StationId, uid: UserId, u: User)
    : (r: map<UserId, User>)
    requires uid !in users && u.station == Some(sid)
    ensures r.Keys == users.Keys + {uid} && r[uid] == u
    ensures forall k :: k in users ==> r[k] == users[k].(isPrimaryContact := r[k].isPrimaryContact)
    ensures u.isPrimaryContact ==> PrimaryContacts(r, Some(sid)) == {uid}
    ensures !u.isPrimaryContact ==> PrimaryContacts(r, Some(sid)) == PrimaryContacts(users, Some(sid))
    ensures forall st :: st != Some(sid) ==> PrimaryContacts(r, st) == PrimaryContacts(users, st)
    ensures AtMostOnePrimary(users) ==> AtMostOnePrimary(r)
  {
    (if u.isPrimaryContact then ClearPrimaries(users, sid) else users)[uid := u]
  }

  /** The fields edit_user overwrites on every user. */
  function EditedFields(u: User, form: EditForm): (r: User)
    ensures r == u.(firstName := form.firstName, lastName := r.lastName, mobileNumber := r.mobileNumber, isActive := r.isActive)
    ensures r.lastName == form.lastName && r.mobileNumber == form.mobileNumber && r.isActive == form.isActive
  {
    u.(firstName := form.firstName, lastName := form.lastName, mobileNumber := form.mobileNumber,
       isActive := form.isActive)
  }

  /** The users after a successful edit_user: a STAFF user gets the submitted
      role; a RADIO user moves to the submitted station, and only when the
      submitted primary flag differs from the stored one and is true are
      that station's primary contacts cleared first. */
  function EditedUsers(users: map<UserId, User>, uid: UserId, form: EditForm): (r: map<UserId, User>)
    requires uid in users
    requires users[uid].userType != Staff ==> form.station.Some?
    ensures r.Keys == users.Keys
    ensures users[uid].userType == Staff ==>
              r == users[uid := Normalise(EditedFields(users[uid].(staffRole := form.staffRole), form))]
    ensures users[uid].userType != Staff ==>
              r[uid] == Normalise(EditedFields(users[uid].(station := form.station,
                                                           isPrimaryContact := form.isPrimaryContact), form))
    ensures users[uid].userType != Staff ==>
              r[uid].station == form.station && r[uid].isPrimaryContact == form.isPrimaryContact
              && r[uid].firstName == form.firstName && r[uid].lastName == form.lastName
              && r[uid].mobileNumber == form.mobileNumber && r[uid].isActive == form.isActive
    ensures users[uid].userType != Staff && form.isPrimaryContact && !users[uid].isPrimaryContact ==>
              PrimaryContacts(r, form.station) == {uid}
    ensures (users[uid].userType == Staff || form.isPrimaryContact == users[uid].isPrimaryContact
             || !form.isPrimaryContact) ==>
              forall k :: k in users && k != uid ==> r[k] == users[k]
  {
    var u := users[uid];
    if u.userType == Staff then
      var e := Normalise(EditedFields(u.(staffRole := form.staffRole), form));
      MovedFrame(users, users, uid, e, u.station, 0, false);
      users[uid := e]
    else
      var sid := form.station.value;
      var clear := form.isPrimaryContact != u.isPrimaryContact && form.isPrimaryContact;
      var base := if clear then ClearPrimaries(users, sid) else users;
      var e := Normalise(EditedFields(u.(station := Some(sid), isPrimaryContact := form.isPrimaryContact), form));
      MovedFrame(users, base, uid, e, Some(sid), sid, clear);
      base[uid := e]
  }

  /** edit_user touches the other users only through the clearing: each
      keeps every field, and its primary flag goes exactly when it belongs
      to the submitted station and the RADIO user's flag turns on; stations
      other than the user's old and new one keep their primary contacts. */
  lemma EditedUsersFrame(users: map<UserId, User>, uid: UserId, form: EditForm)
    requires uid in users
    requires users[uid].userType != Staff ==> form.station.Some?
    ensures var r := EditedUsers(users, uid, form);
      forall k :: k in users && k != uid ==> r[k] == users[k].(isPrimaryContact := r[k].isPrimaryContact)
    ensures var r := EditedUsers(users, uid, form);
      forall k :: k in users && k != uid ==>
        (r[k].isPrimaryContact <==>
           users[k].isPrimaryContact
           && !(users[uid].userType != Staff && form.isPrimaryContact && !users[uid].isPrimaryContact
                && users[k].station == form.station))
    ensures var r := EditedUsers(users, uid, form);
      forall st :: st != form.station && st != users[uid].station ==>
        PrimaryContacts(r, st) == PrimaryContacts(users, st)
  {
    var u := users[uid];
    if u.userType == Staff {
      var e := Normalise(EditedFields(u.(staffRole := form.staffRole), form));
      MovedFrame(users, users, uid, e, u.station, 0, false);
    } else {
      var sid := form.station.value;
      var clear := form.isPrimaryContact != u.isPrimaryContact && form.isPrimaryContact;
      var base := if clear then ClearPrimaries(users, sid) else users;
      var e := Normalise(EditedFields(u.(station := Some(sid), isPrimaryContact := form.isPrimaryContact), form));
      MovedFrame(users, base, uid, e, Some(sid), sid, clear);
    }
  }

  /** The other users of an edit_user that stores e, at station target, for
      uid keep everything but their primary flag, which goes only when
      station sid's contacts are cleared; stations other than uid's old and
      new one keep their primary contacts. */
  lemma MovedFrame(users: map<UserId, User>, base: map<UserId, User>, uid: UserId, e: User,
                   target: Option<StationId>, sid: StationId, clear: bool)
    requires uid in users && e.station == target && (clear ==> target == Some(sid))
    requires base == if clear then ClearPrimaries(users, sid) else users
    ensures base[uid := e].Keys == users.Keys
    ensures forall k :: k in users && k != uid ==> base[uid := e][k] == users[k].(isPrimaryContact := base[uid := e][k].isPrimaryContact)
    ensures forall k :: k in users && k != uid ==>
              (base[uid := e][k].isPrimaryContact <==> users[k].isPrimaryContact && !(clear && users[k].station == Some(sid)))
    ensures forall st :: st != target && st != users[uid].station ==>
              PrimaryContacts(base[uid := e], st) == PrimaryContacts(users, st)
    ensures clear && e.isPrimaryContact ==> PrimaryContacts(base[uid := e], Some(sid)) == {uid}
  {
    var r := base[uid := e];
    if clear && e.isPrimaryContact {
      forall k ensures k in PrimaryContacts(r, Some(sid)) <==> k == uid {
        if k != uid && k in users { assert !r[k].isPrimaryContact || r[k].station != Some(sid); }
      }
    }
    forall st | st != target && st != users[uid].station
      ensures PrimaryContacts(r, st) == PrimaryContacts(users, st)
    {
      forall k ensures k in PrimaryContacts(r, st) <==> k in PrimaryContacts(users, st) {
        if k != uid && k in users { assert r[k].station == users[k].station; }
      }
    }
  }

  /** edit_user does not keep one primary contact per station: moving a
      primary contact to a station that already has one, with the flag left
      on, skips the clearing and leaves that station with two. */
  lemma EditUserCanLeaveTwoPrimaries()
    ensures exists users: map<UserId, User>, form: EditForm ::
      1 in users && users[1].userType == Radio && form.station.Some?
      && AtMostOnePrimary(users) && !AtMostOnePrimary(EditedUsers(users, 1, form))
  {
    var a := NewUser("a@example.org").(userType := Radio, station := Some(10), isPrimaryContact := true);
    var b := NewUser("b@example.org").(userType := Radio, station := Some(20), isPrimaryContact := true);
    var users := map[1 := a, 2 := b];
    var form := EditForm("", "", "", true, None, Some(20), true);
    var r := EditedUsers(users, 1, form);
    assert r[1].station == Some(20) && r[1].isPrimaryContact && r[2] == b;
    assert users[1].station != users[2].station;
  }

  /** The views look for the email as typed, create_user stores it
      normalised: an email that differs from a stored one only in the case
      of its domain passes the duplicate check and is then refused by the
      unique constraint, after the old primary contact has been cleared. */
  lemma DomainCaseSlipsPastDuplicateCheck()
    ensures var users := map[1 := NewUser("a@b")];
      !EmailInUse(users, "a@B") && EmailInUse(users, NormaliseEmail("a@B"))
  {
    DomainCaseIgnored();
    var users := map[1 := NewUser("a@b")];
    assert users[1].email == NormaliseEmail("a@B");
  }

  /** Email addresses in use by a user other than id. */
  predicate EmailTakenByOther(users: map<UserId, User>, id: UserId, email: string) {
    exists k :: k in users && k != id && users[k].email == email
  }

  class Directory {
    var users: map<UserId, User>
    var stations: map<StationId, RadioStation>

    /** A stored user: saved through CustomUser.save, so normalised and, when
        RADIO, attached to a station; the station exists. */
    ghost predicate Stored(u: User)
      reads this
    {
      Normalised(u) && SaveCheck(u) == Pass && (u.station.Some? ==> u.station.value in stations)
    }

    /** What the database guarantees: every user went through save, emails
        are unique, and station references resolve. */
    ghost predicate Valid()
      reads this
    {
      (forall id :: id in users ==> Stored(users[id]))
      && (forall a, b :: a in users && b in users && users[a].email == users[b].email ==> a == b)
    }

    constructor()
      ensures Valid() && users == map[] && stations == map[]
    {
      users := map[];
      stations := map[];
    }

    /** CustomUser.save: normalise the flags, refuse a RADIO user without a
        station, and let the unique email constraint refuse a taken email. */
    method SaveUser(id: UserId, u: User) returns (o: Outcome)
      requires Valid()
      requires u.station.Some? ==> u.station.value in stations
      modifies this`users
      ensures Valid()
      ensures o.Fail? <==> SaveCheck(u).Fail? || EmailTakenByOther(old(users), id, u.email)
      ensures SaveCheck(u).Fail? ==> o == SaveCheck(u)
      ensures SaveCheck(u).Pass? && o.Fail? ==> o.error == IntegrityError
      ensures o.Pass? ==> users == old(users)[id := Normalise(u)]
      ensures o.Fail? ==> users == old(users)
    {
      o := SaveCheck(u);
      if o.Fail? {
        return;
      }
      if exists k :: k in users && k != id && users[k].email == u.email {
        o := Fail(IntegrityError);
        return;
      }
      NormaliseIdempotent(u);
      users := users[id := Normalise(u)];
    }

    /** RadioStation.save. A station saved inactive is looked up first (the
        primary key is always set, so a new inactive station fails the
        lookup); when the stored station was active, all of its users are
        deactivated before the station is written. */
    method SaveStation(id: StationId, s: RadioStation) returns (o: Outcome)
      requires Valid()
      modifies this
      ensures Valid()
      ensures o.Fail? <==> !s.isActive && id !in old(stations)
      ensures o.Fail? ==> o.error == NotFound && users == old(users) && stations == old(stations)
      ensures o.Pass? ==> stations == old(stations)[id := s]
      ensures o.Pass? ==> users == (if !s.isActive && id in old(stations) && old(stations)[id].isActive
                                   then Deactivated(old(users), id) else old(users))
    {
      if !s.isActive {
        if id !in stations {
          return Fail(NotFound);
        }
        if stations[id].isActive {
          users := Deactivated(users, id);
        }
      }
      stations := stations[id := s];
      o := Pass;
    }

    /** CustomUserManager.create_user: refuse an empty email, normalise it,
        then save; the unique constraint sees the normalised email. */
    method CreateUser(id: UserId, u: User) returns (o: Outcome)
      requires Valid() && id !in users
      requires u.station.Some? ==> u.station.value in stations
      modifies this`users
      ensures Valid()
      ensures o.Fail? <==> u.email == "" || SaveCheck(u).Fail? || EmailInUse(old(users), NormaliseEmail(u.email))
      ensures u.email == "" ==> o == Fail(ValueError("The Email field must be set"))
      ensures u.email != "" && SaveCheck(u).Pass? && o.Fail? ==> o == Fail(IntegrityError)
      ensures o.Pass? ==> users == old(users)[id := Created(u)]
      ensures o.Fail? ==> users == old(users)
    {
      if u.email == "" {
        return Fail(ValueError("The Email field must be set"));
      }
      o := SaveUser(id, u.(email := NormaliseEmail(u.email)));
    }

    /** CustomUserManager.create_superuser. */
    method CreateSuperuser(id: UserId, email: string, opts: SuperuserOptions) returns (o: Outcome)
      requires Valid() && id !in users
      requires opts.station.Some? ==> opts.station.value in stations
      modifies this`users
      ensures Valid()
      ensures o.Pass? <==> (SuperuserDraft(email, opts).Ok? && email != ""
                           && SaveCheck(SuperuserDraft(email, opts).value).Pass?
                           && !EmailInUse(old(users), NormaliseEmail(email)))
      ensures SuperuserDraft(email, opts).Err? ==> o == Fail(SuperuserDraft(email, opts).error)
      ensures o.Pass? ==> users == old(users)[id := Created(SuperuserDraft(email, opts).value)]
      ensures o.Fail? ==> users == old(users)
    {
      var draft := SuperuserDraft(email, opts);
      if draft.Err? {
        return Fail(draft.error);
      }
      o := CreateUser(id, draft.value);
    }

    /** The common step of both set_primary_contact actions: the bulk clear
        of the station's flags, then the chosen user's flag set and saved. */
    method MakePrimary(sid: StationId, uid: UserId)
      requires Valid() && sid in stations && uid in users && users[uid].station == Some(sid)
      modifies this`users
      ensures Valid()
      ensures users == WithPrimary(old(users), sid, uid)
    {
      var u := users[uid];
      users := ClearPrimaries(users, sid);
      var saved := SaveUser(uid, u.(isPrimaryContact := true));
    }

    /** RadioStationViewSet.set_primary_contact (the API action). */
    method SetPrimaryContactApi(actor: Actor, sid: StationId, userId: Option<UserId>) returns (o: Outcome)
      requires Valid()
      modifies this`users
      ensures Valid()
      ensures o.Pass? <==> (IsAdmin(actor) && sid in stations && userId.Some? && userId.value in old(users)
                           && old(users)[userId.value].station == Some(sid))
      ensures !IsAdmin(actor) ==> o == Fail(PermissionDenied)
      ensures IsAdmin(actor) && sid !in stations ==> o == Fail(NotFound)
      ensures IsAdmin(actor) && sid in stations && userId == None ==> o == Fail(Required("user_id"))
      ensures o.Fail? ==> users == old(users)
      ensures o.Pass? ==> users == WithPrimary(old(users), sid, userId.value)
    {
      if !IsAdmin(actor) {
        return Fail(PermissionDenied);
      }
      if sid !in stations {
        return Fail(NotFound);
      }
      if userId == None {
        return Fail(Required("user_id"));
      }
      var uid := userId.value;
      if uid !in users || users[uid].station != Some(sid) {
        return Fail(NotFound);
      }
      MakePrimary(sid, uid);
      o := Pass;
    }

    /** The set_primary_contact view (station and user taken from the URL).
        Both lookups run inside the view's catch-all handler, so a station
        or user that is not found is answered with 400 and the message of
        the 404 exception; NotFound stands for that answer here. */
    method SetPrimaryContact(actor: Actor, sid: StationId, uid: UserId) returns (o: Outcome)
      requires Valid()
      modifies this`users
      ensures Valid()
      ensures o.Pass? <==> IsAdmin(actor) && sid in stations && uid in old(users) && old(users)[uid].station == Some(sid)
      ensures !IsAdmin(actor) ==> o == Fail(PermissionDenied)
      ensures IsAdmin(actor) && o.Fail? ==> o == Fail(NotFound)
      ensures o.Fail? ==> users == old(users)
      ensures o.Pass? ==> users == WithPrimary(old(users), sid, uid)
    {
      if !IsAdmin(actor) {
        return Fail(PermissionDenied);
      }
      if sid !in stations || uid !in users || users[uid].station != Some(sid) {
        return Fail(NotFound);
      }
      MakePrimary(sid, uid);
      o := Pass;
    }

    /** station_create: validate, then in one transaction create the station
        and, when both email and password were given, its primary contact,
        who copies the station's active flag. The duplicate check looks for
        the email as typed, create_user stores it normalised: when only the
        normalised form is taken, the create fails and the transaction takes
        the new station back. */
    method StationCreate(actor: Actor, sid: StationId, uid: UserId, station: RadioStation, contact: UserForm)
      returns (o: Outcome)
      requires Valid() && sid !in stations && uid !in users
      modifies this
      ensures Valid()
      ensures o.Pass? <==> (IsAdmin(actor) && station.name != ""
                           && !(contact.email != "" && contact.password == "")
                           && !(contact.email != "" && EmailInUse(old(users), contact.email))
                           && station.isActive
                           && !(contact.email != "" && EmailInUse(old(users), NormaliseEmail(contact.email))))
      ensures !IsAdmin(actor) ==> o == Fail(PermissionDenied)
      ensures IsAdmin(actor) && station.name == "" ==> o == Fail(Required("name"))
      ensures (IsAdmin(actor) && station.name != "" && contact.email != "" && contact.password != ""
               && !EmailInUse(old(users), contact.email) && station.isActive
               && EmailInUse(old(users), NormaliseEmail(contact.email))) ==> o == Fail(IntegrityError)
      ensures o.Fail? ==> users == old(users) && stations == old(stations)
      ensures o.Pass? ==> stations == old(stations)[sid := station]
      ensures o.Pass? && contact.email != "" ==>
                users == old(users)[uid := Created(RadioDraft(contact.(isActive := station.isActive), sid, true))]
      ensures o.Pass? && contact.email == "" ==> users == old(users)
    {
      if !IsAdmin(actor) {
        return Fail(PermissionDenied);
      }
      if station.name == "" {
        return Fail(Required("name"));
      }
      if contact.email != "" && contact.password == "" {
        return Fail(Required("password"));
      }
      if contact.email != "" && exists k :: k in users && users[k].email == contact.email {
        return Fail(Duplicate("email"));
      }
      o := StationTransaction(sid, uid, station, contact);
    }

    /** The transaction.atomic() block of station_create: the station, then
        its primary contact when both email and password were given; a
        failure inside the block leaves neither. */
    method StationTransaction(sid: StationId, uid: UserId, station: RadioStation, contact: UserForm)
      returns (o: Outcome)
      requires Valid() && sid !in stations && uid !in users
      modifies this
      ensures Valid()
      ensures o.Pass? <==> station.isActive && !(contact.email != "" && contact.password != ""
                                                 && EmailInUse(old(users), NormaliseEmail(contact.email)))
      ensures !station.isActive ==> o == Fail(NotFound)
      ensures station.isActive && o.Fail? ==> o == Fail(IntegrityError)
      ensures o.Fail? ==> users == old(users) && stations == old(stations)
      ensures o.Pass? ==> stations == old(stations)[sid := station]
      ensures o.Pass? ==> users == if contact.email != "" && contact.password != ""
                                   then old(users)[uid := Created(RadioDraft(contact.(isActive := station.isActive), sid, true))]
                                   else old(users)
    {
      var before := stations;
      o := SaveStation(sid, station);
      if o.Fail? {
        return;
      }
      if contact.email != "" && contact.password != "" {
        o := CreateUser(uid, RadioDraft(contact.(isActive := station.isActive), sid, true));
        if o.Fail? {
          stations := before;
        }
      }
    }

    /** The tail shared by station_add_user and create_radio_user: when the
        new user is to be primary and the station has a primary contact, that
        user (fetched with .get(), which fails on more than one) is cleared
        and saved; then the user is created. The clearing is saved on its
        own, so when create_user then refuses the normalised email the old
        primary contact stays cleared. */
    method AddRadioUser(sid: StationId, uid: UserId, f: UserForm, primary: bool) returns (o: Outcome)
      requires Valid() && sid in stations && uid !in users
      requires f.email != "" && !EmailInUse(users, f.email)
      modifies this`users
      ensures Valid()
      ensures o.Fail? <==> (primary && |PrimaryContacts(old(users), Some(sid))| > 1)
                           || EmailInUse(old(users), NormaliseEmail(f.email))
      ensures o == Fail(MultipleObjectsReturned) <==> primary && |PrimaryContacts(old(users), Some(sid))| > 1
      ensures o == Fail(MultipleObjectsReturned) ==> users == old(users)
      ensures o.Fail? && o != Fail(MultipleObjectsReturned) ==>
                o == Fail(IntegrityError) && users == (if primary then ClearPrimaries(old(users), sid) else old(users))
      ensures o.Pass? ==> users == AddedRadioUser(old(users), sid, uid, Created(RadioDraft(f, sid, primary)))
    {
      var prims := PrimaryContacts(users, Some(sid));
      if primary && prims != {} {
        if |prims| > 1 {
          return Fail(MultipleObjectsReturned);
        }
        var p :| p in prims;
        SingletonSet(prims, p);
        ClearOnePrimary(users, sid, p);
        NormaliseIdempotent(users[p]);
        var cleared := SaveUser(p, users[p].(isPrimaryContact := false));
      } else if primary {
        ClearNoPrimary(users, sid);
      }
      o := CreateUser(uid, RadioDraft(f, sid, primary));
    }

    /** station_add_user. */
    method StationAddUser(actor: Actor, sid: StationId, uid: UserId, f: UserForm, primary: bool)
      returns (o: Outcome)
      requires Valid() && uid !in users
      modifies this`users
      ensures Valid()
      ensures o.Pass? <==> (IsAdmin(actor) && sid in stations && f.email != "" && f.password != ""
                           && !EmailInUse(old(users), f.email)
                           && !(primary && |PrimaryContacts(old(users), Some(sid))| > 1)
                           && !EmailInUse(old(users), NormaliseEmail(f.email)))
      ensures (IsAdmin(actor) && sid in stations && f.email != "" && f.password != ""
               && EmailInUse(old(users), f.email)) ==> o == Fail(Duplicate("email"))
      ensures o == Fail(IntegrityError) <==>
                (IsAdmin(actor) && sid in stations && f.email != "" && f.password != ""
                 && !EmailInUse(old(users), f.email)
                 && !(primary && |PrimaryContacts(old(users), Some(sid))| > 1)
                 && EmailInUse(old(users), NormaliseEmail(f.email)))
      ensures o == Fail(IntegrityError) ==>
                users == (if primary then ClearPrimaries(old(users), sid) else old(users))
      ensures o.Fail? && o != Fail(IntegrityError) ==> users == old(users)
      ensures o.Pass? ==> users == AddedRadioUser(old(users), sid, uid, Created(RadioDraft(f, sid, primary)))
    {
      if !IsAdmin(actor) {
        return Fail(PermissionDenied);
      }
      if sid !in stations {
        return Fail(NotFound);
      }
      if f.email == "" || f.password == "" {
        return Fail(Required("email and password"));
      }
      if exists k :: k in users && users[k].email == f.email {
        return Fail(Duplicate("email"));
      }
      o := AddRadioUser(sid, uid, f, primary);
    }

    /** create_staff_user. */
    method CreateStaffUser(actor: Actor, uid: UserId, f: UserForm, role: Option<StaffRole>) returns (o: Outcome)
      requires Valid() && uid !in users
      modifies this`users
      ensures Valid()
      ensures o.Pass? <==> IsAdmin(actor) && f.email != "" && f.password != "" && !EmailInUse(old(users), f.email)
                           && !EmailInUse(old(users), NormaliseEmail(f.email))
      ensures IsAdmin(actor) && f.email != "" && f.password != "" && EmailInUse(old(users), f.email) ==>
                o == Fail(Duplicate("email"))
      ensures (IsAdmin(actor) && f.email != "" && f.password != "" && !EmailInUse(old(users), f.email)
               && EmailInUse(old(users), NormaliseEmail(f.email))) ==> o == Fail(IntegrityError)
      ensures o.Fail? ==> users == old(users)
      ensures o.Pass? ==> users == old(users)[uid := Created(StaffDraft(f, role))] && users[uid].isStaff
    {
      if !IsAdmin(actor) {
        return Fail(PermissionDenied);
      }
      if f.email == "" || f.password == "" {
        return Fail(Required("email and password"));
      }
      if exists k :: k in users && users[k].email == f.email {
        return Fail(Duplicate("email"));
      }
      o := CreateUser(uid, StaffDraft(f, role));
    }

    /** create_radio_user. */
    method CreateRadioUser(actor: Actor, uid: UserId, sid: Option<StationId>, f: UserForm, primary: bool)
      returns (o: Outcome)
      requires Valid() && uid !in users
      modifies this`users
      ensures Valid()
      ensures o.Pass? <==> (IsAdmin(actor) && f.email != "" && f.password != "" && sid.Some?
                           && !EmailInUse(old(users), f.email) && sid.value in stations
                           && !(primary && |PrimaryContacts(old(users), sid)| > 1)
                           && !EmailInUse(old(users), NormaliseEmail(f.email)))
      ensures (IsAdmin(actor) && f.email != "" && f.password != "" && sid.Some?
               && EmailInUse(old(users), f.email)) ==> o == Fail(Duplicate("email"))
      ensures o == Fail(IntegrityError) <==>
                (IsAdmin(actor) && f.email != "" && f.password != "" && sid.Some?
                 && !EmailInUse(old(users), f.email) && sid.value in stations
                 && !(primary && |PrimaryContacts(old(users), sid)| > 1)
                 && EmailInUse(old(users), NormaliseEmail(f.email)))
      ensures o == Fail(IntegrityError) ==>
                users == (if primary then ClearPrimaries(old(users), sid.value) else old(users))
      ensures o.Fail? && o != Fail(IntegrityError) ==> users == old(users)
      ensures o.Pass? ==> users == AddedRadioUser(old(users), sid.value, uid, Created(RadioDraft(f, sid.value, primary)))
    {
      if !IsAdmin(actor) {
        return Fail(PermissionDenied);
      }
      if f.email == "" || f.password == "" || sid == None {
        return Fail(Required("email, password and radio station"));
      }
      if exists k :: k in users && users[k].email == f.email {
        return Fail(Duplicate("email"));
      }
      if sid.value !in stations {
        return Fail(NotFound);
      }
      o := AddRadioUser(sid.value, uid, f, primary);
    }

    /** edit_user. */
    method EditUser(actor: Actor, uid: UserId, form: EditForm) returns (o: Outcome)
      requires Valid()
      modifies this`users
      ensures Valid()
      ensures o.Pass? <==> (IsAdmin(actor) && uid in old(users)
                           && (old(users)[uid].userType == Staff || (form.station.Some? && form.station.value in stations)))
      ensures o.Fail? ==> users == old(users)
      ensures o.Pass? ==> users == EditedUsers(old(users), uid, form)
    {
      if !IsAdmin(actor) {
        return Fail(PermissionDenied);
      }
      if uid !in users {
        return Fail(NotFound);
      }
      var u := users[uid];
      if u.userType == Staff {
        u := u.(staffRole := form.staffRole);
      } else {
        if form.station == None || form.station.value !in stations {
          return Fail(NotFound);
        }
        var sid := form.station.value;
        u := u.(station := Some(sid));
        if form.isPrimaryContact != u.isPrimaryContact {
          if form.isPrimaryContact {
            users := ClearPrimaries(users, sid);
          }
          u := u.(isPrimaryContact := form.isPrimaryContact);
        }
      }
      o := SaveUser(uid, EditedFields(u, form));
    }

    /** RadioStationViewSet.add_user: the station is injected into the data
        and RadioUserCreateSerializer runs. Its field checks drop the keys
        outside its field list (staff_role, user_type), demand an email that
        no user has (as typed) and a non-blank password; then validate() runs,
        and an accepted request is stored through create_user, whose
        normalised email can still be taken. */
    method AddUserApi(actor: Actor, sid: StationId, uid: UserId, d: UserData) returns (o: Outcome)
      requires Valid() && uid !in users
      modifies this`users
      ensures Valid()
      ensures o.Pass? <==> (IsAdmin(actor) && sid in stations && d.email != "" && d.password != ""
                           && !EmailInUse(old(users), d.email)
                           && ValidateRadioCreate(old(users), d.(station := Some(sid))).Ok?
                           && !EmailInUse(old(users), NormaliseEmail(d.email)))
      ensures IsAdmin(actor) && sid in stations && d.email != "" && d.password == "" ==> o == Fail(Required("password"))
      ensures o.Fail? ==> users == old(users)
      ensures o.Pass? ==> users == old(users)[uid := Created(UserFromData(
                d.(station := Some(sid), staffRole := None, userType := Some(Radio))))]
      ensures o.Pass? ==> users[uid].userType == Radio && users[uid].staffRole == None && users[uid].station == Some(sid)
      ensures o.Pass? && AtMostOnePrimary(old(users)) ==> AtMostOnePrimary(users)
    {
      if !IsAdmin(actor) {
        return Fail(PermissionDenied);
      }
      if sid !in stations {
        return Fail(NotFound);
      }
      var data := d.(station := Some(sid), staffRole := None, userType := None);
      if data.email == "" {
        return Fail(Required("email"));
      }
      if data.password == "" {
        return Fail(Required("password"));
      }
      if exists k :: k in users && users[k].email == data.email {
        return Fail(Duplicate("email"));
      }
      var validated := ValidateRadioCreate(users, data);
      if validated.Err? {
        return Fail(validated.error);
      }
      if AtMostOnePrimary(users) {
        RadioCreateKeepsOnePrimary(users, data, uid);
      }
      o := CreateUser(uid, UserFromData(validated.value));
    }
  }

  /** Clearing a station without primary contacts changes nothing. */
  lemma ClearNoPrimary(users: map<UserId, User>, sid: StationId)
    requires PrimaryContacts(users, Some(sid)) == {}
    ensures ClearPrimaries(users, sid) == users
  {
    var r := ClearPrimaries(users, sid);
    forall k | k in users ensures r[k] == users[k] {
      if users[k].station == Some(sid) { assert k !in PrimaryContacts(users, Some(sid)); }
    }
  }

  /** Clearing a station whose only primary contact is p clears just p. */
  lemma ClearOnePrimary(users: map<UserId, User>, sid: StationId, p: UserId)
    requires PrimaryContacts(users, Some(sid)) == {p}
    ensures ClearPrimaries(users, sid) == users[p := users[p].(isPrimaryContact := false)]
  {
    var r := ClearPrimaries(users, sid);
    var e := users[p := users[p].(isPrimaryContact := false)];
    assert p in PrimaryContacts(users, Some(sid));
    forall k | k in users ensures r[k] == e[k] {
      if k != p && users[k].station == Some(sid) { assert k !in PrimaryContacts(users, Some(sid)); }
    }
  }

  /** A set of at most one element holding p is {p}. */
  lemma SingletonSet<T>(s: set<T>, p: T)
    requires p in s && |s| <= 1
    ensures s == {p}
  {
    assert |s - {p}| == |s| - 1;
  }
}
