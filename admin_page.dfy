/**
 * The admin panel's user and room forms: what the form schemas accept, what the dialogs
 * are filled with when they open, and where a submitted form is sent.
 *
 * Whether a string is a well-formed e-mail address or URL is decided by the form library;
 * the model takes that verdict as a boolean.
 */
module AdminPage {
  import opened Collections
  import opened Schema

  // ---------------------------------------------------------------------------
  // Users

  datatype UserForm = UserForm(
    username: string, password: string, name: string, email: string, role: string, isActive: bool)

  /** The body of a user update: the form, with the password left out when `password` is None. */
  datatype UserUpdate = UserUpdate(
    username: string, password: Option<string>, name: string, email: string, role: string, isActive: bool)

  datatype UserSubmission = UpdateUser(id: int, update: UserUpdate) | CreateUser(form: UserForm)

  /** `userSchema`: username and name required, a password of at least six characters, a known role. */
  predicate ValidUserForm(f: UserForm, emailIsValid: bool)
  {
    |f.username| >= 1 && |f.password| >= 6 && |f.name| >= 1 && emailIsValid && f.role in {"user", "admin"}
  }

  /**
   * `openUserDialog`: blank for a new user; for an existing one its fields with the password
   * cleared. Stored users have no `isActive`, so the schema's default `true` applies.
   */
  function OpenUserDialog(user: Option<User>): (f: UserForm)
    ensures f.password == ""
    ensures user.None? ==> f == UserForm("", "", "", "", "user", true)
    ensures user.Some? ==>
              f.username == user.value.username && f.name == user.value.name
              && f.email == user.value.email && f.role == user.value.role
  {
    if user.Some? then
      UserForm(user.value.username, "", user.value.name, user.value.email, user.value.role, true)
    else
      UserForm("", "", "", "", "user", true)
  }

  /**
   * `handleUserSubmit`: an edit sends the form to the selected user, leaving the password out
   * when it is empty; otherwise the whole form creates a user.
   */
  function HandleUserSubmit(data: UserForm, selectedUser: Option<int>): (s: UserSubmission)
    ensures selectedUser.None? ==> s == CreateUser(data)
    ensures selectedUser.Some? ==> s.UpdateUser? && s.id == selectedUser.value
    ensures s.UpdateUser? ==> (s.update.password.None? <==> data.password == "")
    ensures s.UpdateUser? && data.password != "" ==> s.update.password == Some(data.password)
    ensures s.UpdateUser? ==>
              s.update.username == data.username && s.update.name == data.name && s.update.email == data.email
              && s.update.role == data.role && s.update.isActive == data.isActive
  {
    if selectedUser.Some? then
      var password := if data.password != "" then Some(data.password) else None;
      UpdateUser(selectedUser.value,
                 UserUpdate(data.username, password, data.name, data.email, data.role, data.isActive))
    else
      CreateUser(data)
  }

  /**
   * As written, no form the schema accepts has an empty password, so an accepted edit always
   * sends a password, and the dialog opened on an existing user is rejected until a new
   * password is typed.
   */
  lemma AcceptedEditAlwaysSendsPassword(data: UserForm, emailIsValid: bool, id: int, user: User)
    ensures ValidUserForm(data, emailIsValid) ==> HandleUserSubmit(data, Some(id)).update.password.Some?
    ensures !ValidUserForm(OpenUserDialog(Some(user)), emailIsValid)
  {
  }

  /** The edit schema that keeps the current password: empty, or at least six characters. */
  predicate ValidUserEditForm(f: UserForm, emailIsValid: bool)
  {
    |f.username| >= 1 && (f.password == "" || |f.password| >= 6) && |f.name| >= 1 && emailIsValid
    && f.role in {"user", "admin"}
  }

  /**
   * Under the edit schema, a well-formed user opened for editing can be submitted as it is,
   * and the update leaves the password out; a new password is still at least six characters.
   */
  lemma EditKeepsPassword(user: User, emailIsValid: bool, data: UserForm, id: int)
    requires |user.username| >= 1 && |user.name| >= 1 && emailIsValid && user.role in {"user", "admin"}
    ensures ValidUserEditForm(OpenUserDialog(Some(user)), emailIsValid)
    ensures HandleUserSubmit(OpenUserDialog(Some(user)), Some(id)).update.password.None?
    ensures ValidUserEditForm(data, emailIsValid) && HandleUserSubmit(data, Some(id)).update.password.Some?
            ==> |HandleUserSubmit(data, Some(id)).update.password.value| >= 6
  {
  }

  // ---------------------------------------------------------------------------
  // Rooms

  const ROOM_TYPES: set<string> := {"conference", "meeting", "event", "huddle"}

  /** The room form; an image URL or description left out is None. */
  datatype RoomForm = RoomForm(
    name: string, capacity: int, roomType: string, amenities: seq<string>, hourlyRate: int,
    imageUrl: Option<string>, description: Option<string>, isActive: bool)

  datatype RoomSubmission = UpdateRoom(id: int, form: RoomForm) | CreateRoom(form: RoomForm)

  /**
   * `roomSchema`: a name, room for at least one person, a known type, a non-negative rate,
   * and an image URL that is absent, empty or well-formed.
   */
  predicate ValidRoomForm(f: RoomForm, urlIsValid: bool)
  {
    |f.name| >= 1 && f.capacity >= 1 && f.roomType in ROOM_TYPES && f.hourlyRate >= 0
    && (f.imageUrl.None? || f.imageUrl.value == "" || urlIsValid)
  }

  /** `value || ""`. */
  function OrEmpty(s: Option<string>): (r: string)
    ensures s.Some? ==> r == s.value
    ensures s.None? ==> r == ""
  {
    if s.Some? then s.value else ""
  }

  const DEFAULT_ROOM_FORM: RoomForm := RoomForm("", 1, "conference", [], 0, Some(""), Some(""), true)

  /**
   * `openRoomDialog`: the defaults for a new room; for an existing one its fields, with a
   * missing image URL or description shown as empty text.
   */
  function OpenRoomDialog(room: Option<Room>): (f: RoomForm)
    ensures room.None? ==> f == DEFAULT_ROOM_FORM
    ensures room.Some? ==>
              f.name == room.value.name && f.capacity == room.value.capacity
              && f.roomType == room.value.roomType && f.amenities == room.value.amenities
              && f.hourlyRate == room.value.hourlyRate && f.isActive == room.value.isActive
              && f.imageUrl == Some(OrEmpty(room.value.imageUrl))
              && f.description == Some(OrEmpty(room.value.description))
  {
    if room.Some? then
      var r := room.value;
      RoomForm(r.name, r.capacity, r.roomType, r.amenities, r.hourlyRate,
               Some(OrEmpty(r.imageUrl)), Some(OrEmpty(r.description)), r.isActive)
    else
      DEFAULT_ROOM_FORM
  }

  /** The default form is rejected only for its empty name: any name makes it acceptable. */
  lemma DefaultRoomFormNeedsOnlyAName(name: string, urlIsValid: bool)
    ensures !ValidRoomForm(DEFAULT_ROOM_FORM, urlIsValid)
    ensures |name| >= 1 ==> ValidRoomForm(DEFAULT_ROOM_FORM.(name := name), urlIsValid)
    ensures DEFAULT_ROOM_FORM.capacity == 1 && DEFAULT_ROOM_FORM.hourlyRate == 0
            && DEFAULT_ROOM_FORM.amenities == [] && DEFAULT_ROOM_FORM.isActive
  {
  }

  /** `handleRoomSubmit`: update the selected room, or create one. */
  function HandleRoomSubmit(data: RoomForm, selectedRoom: Option<int>): (s: RoomSubmission)
    ensures s.form == data
    ensures s.UpdateRoom? <==> selectedRoom.Some?
    ensures s.UpdateRoom? ==> s.id == selectedRoom.value
  {
    if selectedRoom.Some? then UpdateRoom(selectedRoom.value, data) else CreateRoom(data)
  }

  /**
   * The update the server receives for a submitted room form (client/src/pages/admin.tsx:187
   * sends the form data as the body): every field present.
   */
  function AsRoomPatch(f: RoomForm): RoomPatch
  {
    RoomPatch(Some(f.name), Some(f.capacity), Some(f.roomType), Some(f.amenities), Some(f.hourlyRate),
              Some(f.imageUrl), Some(f.description), Some(f.isActive))
  }

  /**
   * Opening a room for editing and saving it unchanged gives back the same room, except that
   * a missing image URL or description is stored as empty text.
   */
  lemma UnchangedEditRoundTrip(room: Room)
    ensures PatchRoom(room, AsRoomPatch(OpenRoomDialog(Some(room))))
            == room.(imageUrl := Some(OrEmpty(room.imageUrl)), description := Some(OrEmpty(room.description)))
    ensures room.imageUrl.Some? && room.description.Some? ==>
              PatchRoom(room, AsRoomPatch(OpenRoomDialog(Some(room)))) == room
  {
    PatchRoomSpec(room, AsRoomPatch(OpenRoomDialog(Some(room))));
  }
}
