/** The validate() hooks of the user-creation and user-update API
    serializers. Each is a function from the submitted data (and, where the
    hook queries the database, the stored users) to the validated data or
    the validation error. Unlike the template views, these hooks refuse a
    second primary contact instead of replacing the first. */
module AccountSerializers {
  import opened Common
  import opened Accounts

  /** The submitted fields of a user serializer. None is a key that was not
      sent (or a value that is falsy for the `not data.get(...)` tests); an
      empty password is one that was not sent or was blank. */
  datatype UserData = UserData(
    email: string,
    password: string,
    firstName: string,
    lastName: string,
    mobileNumber: string,
    staffRole: Option<StaffRole>,
    station: Option<StationId>,
    isPrimaryContact: Option<bool>,
    isActive: Option<bool>,
    userType: Option<UserType>)

  /** StaffUserCreateSerializer.validate: fixes the user type to STAFF and
      demands a staff role. */
  function ValidateStaffCreate(d: UserData): (r: Result<UserData>)
    ensures r.Ok? <==> d.staffRole.Some?
    ensures r.Ok? ==> r.value == d.(userType := Some(Staff))
    ensures r.Err? ==> r.error == Required("staff_role")
  {
    var data := d.(userType := Some(Staff));
    if data.staffRole == None then Err(Required("staff_role")) else Ok(data)
  }

  /** RadioUserCreateSerializer.validate: fixes the user type to RADIO,
      demands a station, and refuses a primary-contact request for a station
      that already has one. */
  function ValidateRadioCreate(users: map<UserId, User>, d: UserData): (r: Result<UserData>)
    ensures r.Ok? <==> d.station.Some? && !(d.isPrimaryContact == Some(true) && PrimaryContacts(users, d.station) != {})
    ensures r.Ok? ==> r.value == d.(userType := Some(Radio))
    ensures d.station == None ==> r == Err(Required("radio_station"))
    ensures d.station.Some? && r.Err? ==> r.error == Duplicate("is_primary_contact")
  {
    var data := d.(userType := Some(Radio));
    if data.station == None then Err(Required("radio_station"))
    else if data.isPrimaryContact == Some(true)
            && (exists k :: k in users && users[k].station == data.station && users[k].isPrimaryContact)
    then Err(Duplicate("is_primary_contact"))
    else Ok(data)
  }

  /** The station an update request is about: the submitted one, else the
      user's current one. */
  function UpdateTarget(instance: User, d: UserData): (st: Option<StationId>)
    ensures d.station.Some? ==> st == d.station
    ensures d.station == None ==> st == instance.station
  {
    if d.station.Some? then d.station else instance.station
  }

  /** RadioUserUpdateSerializer.validate for the stored user `self` with
      record `instance`: a primary-contact request is refused when some
      other user of the target station (the submitted one, else the
      instance's own) is already primary. */
  function ValidateRadioUpdate(users: map<UserId, User>, self: UserId, instance: User, d: UserData): (r: Result<UserData>)
    ensures r.Ok? <==> !(d.isPrimaryContact == Some(true)
                         && exists k :: k in PrimaryContacts(users, UpdateTarget(instance, d)) && k != self)
    ensures r.Ok? ==> r.value == d
    ensures r.Err? ==> r.error == Duplicate("is_primary_contact")
  {
    if d.isPrimaryContact == Some(true) then
      var station := UpdateTarget(instance, d);
      if exists k :: k in PrimaryContacts(users, station) && k != self
      then Err(Duplicate("is_primary_contact"))
      else Ok(d)
    else Ok(d)
  }

  /** Requests that do not ask for primary-contact status are never refused
      by the primary-contact checks. */
  lemma NoPrimaryRequestNoCheck(users: map<UserId, User>, self: UserId, instance: User, d: UserData)
    requires d.isPrimaryContact != Some(true)
    ensures d.station.Some? ==> ValidateRadioCreate(users, d).Ok?
    ensures ValidateRadioUpdate(users, self, instance, d).Ok?
  {
  }

  /** The user an accepted creation request stores: the submitted fields
      on top of the field defaults. */
  function UserFromData(d: UserData): (u: User)
    ensures u.email == d.email && u.firstName == d.firstName && u.lastName == d.lastName
    ensures u.userType == d.userType.GetOr(Staff) && u.staffRole == d.staffRole && u.station == d.station
    ensures u.isPrimaryContact == d.isPrimaryContact.GetOr(false) && u.isActive == d.isActive.GetOr(true)
    ensures !u.isStaff && !u.isSuperuser
  {
    NewUser(d.email).(
      firstName := d.firstName, lastName := d.lastName, mobileNumber := d.mobileNumber,
      userType := d.userType.GetOr(Staff), staffRole := d.staffRole, station := d.station,
      isPrimaryContact := d.isPrimaryContact.GetOr(false), isActive := d.isActive.GetOr(true))
  }

  /** Storing the user of an accepted RadioUserCreateSerializer request keeps
      every station at one primary contact at most. */
  lemma RadioCreateKeepsOnePrimary(users: map<UserId, User>, d: UserData, id: UserId)
    requires AtMostOnePrimary(users) && id !in users
    requires ValidateRadioCreate(users, d).Ok?
    ensures AtMostOnePrimary(users[id := Created(UserFromData(ValidateRadioCreate(users, d).value))])
  {
    var u := Created(UserFromData(ValidateRadioCreate(users, d).value));
    assert u.isPrimaryContact ==> PrimaryContacts(users, u.station) == {};
  }
}
