/**
 * `UserModel`: the user table and the operations the backend runs on it. The store is the
 * sequence of rows; the clock (`now`, milliseconds), the current calendar year, the
 * identifiers the database generates and the salts bcrypt draws are parameters.
 */
module Users {
  import opened Wrappers
  import opened Text
  import opened Patch

  // ---------------------------------------------------------------------------
  // Rows

  /** `UserPreferences`. */
  datatype Preferences = Preferences(
    quietHoursStart: Option<string>,
    quietHoursEnd: Option<string>,
    temperaturePreference: Option<int>,
    notificationsEnabled: bool,
    biometricEnabled: bool)

  const DefaultPreferences: Preferences := Preferences(Some("22:00"), Some("08:00"), Some(72), true, false)

  /** A bcrypt hash: the password it was computed from and the salt drawn for it. */
  datatype Digest = Digest(password: string, salt: nat)

  /** `bcrypt.compare`: a password matches the hash computed from it, whatever the salt. */
  predicate PasswordMatches(password: string, hash: Digest) {
    hash.password == password
  }

  /** A row of `users`; times are milliseconds since the epoch. */
  datatype UserRow = UserRow(
    id: string,
    email: string,
    passwordHash: Digest,
    fullName: string,
    roomNumber: Option<string>,
    profilePhotoUrl: Option<string>,
    year: Option<string>,
    graduationYear: Option<int>,
    emergencyContact: Option<string>,
    schoolId: string,
    role: string,
    preferences: UserValue,
    isVerified: bool,
    verificationToken: Option<string>,
    resetToken: Option<string>,
    resetTokenExpires: Option<nat>,
    lastLogin: Option<nat>,
    isActive: bool,
    createdAt: nat,
    updatedAt: nat)

  /** The table's keys: ids and e-mails are unique, and e-mails are stored lower-case. */
  ghost predicate ValidRows(rows: seq<UserRow>) {
    (forall i, j :: 0 <= i < j < |rows| ==> rows[i].id != rows[j].id && rows[i].email != rows[j].email) &&
    (forall i :: 0 <= i < |rows| ==> IsLowerCase(rows[i].email))
  }

  /** Two tables with the same ids, e-mails and active flags, row by row. */
  predicate SameKeys(a: seq<UserRow>, b: seq<UserRow>) {
    |a| == |b| &&
    forall i :: 0 <= i < |a| ==> a[i].id == b[i].id && a[i].email == b[i].email && a[i].isActive == b[i].isActive
  }

  lemma SameKeysValid(a: seq<UserRow>, b: seq<UserRow>)
    requires ValidRows(a) && SameKeys(a, b)
    ensures ValidRows(b)
  {
  }

  // ---------------------------------------------------------------------------
  // Lookups

  /** `findByEmail`: the active user with the lower-cased e-mail. */
  function FindByEmail(rows: seq<UserRow>, email: string): (r: Option<UserRow>)
    ensures r.Some? ==> r.value in rows && r.value.isActive && r.value.email == ToLower(email)
    ensures r.None? ==> forall u :: u in rows ==> !(u.isActive && u.email == ToLower(email))
  {
    if rows == [] then None
    else if rows[0].isActive && rows[0].email == ToLower(email) then Some(rows[0])
    else
      var r := FindByEmail(rows[1..], email);
      assert forall u :: u in rows ==> u == rows[0] || u in rows[1..];
      r
  }

  /** The position of the active user with the given id; `None` stands for `undefined`. */
  function ActiveIndex(rows: seq<UserRow>, id: Option<string>): (r: Option<nat>)
    ensures r.Some? ==> r.value < |rows| && rows[r.value].isActive && Some(rows[r.value].id) == id
    ensures r.None? ==> forall i :: 0 <= i < |rows| ==> !(rows[i].isActive && Some(rows[i].id) == id)
  {
    if id.None? || rows == [] then None
    else if rows[0].isActive && rows[0].id == id.value then Some(0)
    else
      match ActiveIndex(rows[1..], id)
      case None => None
      case Some(i) => Some(i + 1)
  }

  /** Lookups by id see only the keys, so tables with the same keys answer at the same row. */
  lemma {:induction false} SameKeysIndex(a: seq<UserRow>, b: seq<UserRow>, id: Option<string>)
    requires SameKeys(a, b)
    ensures ActiveIndex(a, id) == ActiveIndex(b, id)
    decreases |a|
  {
    if id.Some? && a != [] && !(a[0].isActive && a[0].id == id.value) {
      SameKeysIndex(a[1..], b[1..], id);
    }
  }

  /** `findById`: the active user with the id. */
  function FindById(rows: seq<UserRow>, id: Option<string>): (r: Option<UserRow>)
    ensures r.Some? ==> r.value in rows && r.value.isActive && Some(r.value.id) == id
    ensures r.None? ==> forall u :: u in rows ==> !(u.isActive && Some(u.id) == id)
  {
    match ActiveIndex(rows, id)
    case None => None
    case Some(i) => Some(rows[i])
  }

  /** In a valid table a user is found by e-mail exactly when it is found by id. */
  lemma FindersAgree(rows: seq<UserRow>, u: UserRow)
    requires ValidRows(rows)
    requires u in rows
    ensures FindByEmail(rows, u.email) == FindById(rows, Some(u.id))
    ensures u.isActive <==> FindById(rows, Some(u.id)) == Some(u)
  {
    assert ToLower(u.email) == u.email by { ToLowerNormalizes(u.email); }
    forall v | v in rows && (v.email == u.email || v.id == u.id) ensures v == u {
      var i :| 0 <= i < |rows| && rows[i] == u;
      var j :| 0 <= j < |rows| && rows[j] == v;
    }
  }

  /** In a valid table the active row with the lower-cased e-mail is the one found. */
  lemma FindByEmailAt(rows: seq<UserRow>, i: nat, email: string)
    requires ValidRows(rows)
    requires i < |rows| && rows[i].isActive && rows[i].email == ToLower(email)
    ensures FindByEmail(rows, email) == Some(rows[i])
  {
    forall v | v in rows && v.email == rows[i].email ensures v == rows[i] {
      var j :| 0 <= j < |rows| && rows[j] == v;
    }
  }

  // ---------------------------------------------------------------------------
  // Grade level and room floor

  /** `Math.max(1, Math.min(4, graduationYear - currentYear))`; `None` stands for `NaN`. */
  function GradeLevel(graduationYear: Option<int>, currentYear: int): Option<int> {
    match graduationYear
    case None => None
    case Some(g) =>
      var diff := g - currentYear;
      Some(if diff < 1 then 1 else if diff > 4 then 4 else diff)
  }

  /** The grade level is clamped to 1..4 and is the years to graduation when those lie in 1..4. */
  lemma GradeLevelClamped(graduationYear: Option<int>, currentYear: int)
    ensures GradeLevel(graduationYear, currentYear).Some? <==> graduationYear.Some?
    ensures graduationYear.Some? ==>
      var level := GradeLevel(graduationYear, currentYear).value;
      var diff := graduationYear.value - currentYear;
      1 <= level <= 4 && (1 <= diff <= 4 ==> level == diff) &&
      (diff <= 1 ==> level == 1) && (diff >= 4 ==> level == 4)
  {
  }

  /** `gradeNames[gradeLevel]`. */
  function GradeName(level: Option<int>): Option<string> {
    match level
    case Some(1) => Some("Freshman")
    case Some(2) => Some("Sophomore")
    case Some(3) => Some("Junior")
    case Some(4) => Some("Senior")
    case _ => None
  }

  /** `Math.floor(parseInt(roomNumber) / 100)`; `None` stands for `NaN`. */
  function RoomFloor(roomNumber: Option<string>): Option<int> {
    if roomNumber.None? then None
    else
      match ParseInt(roomNumber.value)
      case None => None
      case Some(n) => Some(n / 100)
  }

  /**
   * A room number written in hexadecimal is read as such: after '0x' the hexadecimal digits
   * give the room, so '0x1F4' is room 500, on floor 5.
   */
  lemma HexRoomFloor(hs: string, tail: string)
    requires |hs| >= 1 && AllHexDigits(hs)
    requires tail == [] || !IsHexDigit(tail[0])
    ensures RoomFloor(Some(['0', 'x'] + (hs + tail))) == Some(HexValue(hs) / 100)
  {
    ParseIntHex(hs, tail);
  }

  /** The hexadecimal digits 1F4 spell 500, so the room '0x1F4' is on floor 5. */
  lemma HexOneF4()
    ensures AllHexDigits(['1', 'F', '4']) && HexValue(['1', 'F', '4']) == 500
  {
    var one, oneF, hs := ['1'], ['1', 'F'], ['1', 'F', '4'];
    assert one[..0] == [] && oneF[..1] == one && hs[..2] == oneF;
    assert HexValue(one) == 1;
    assert HexValue(oneF) == 31;
  }

  /** Floors 2 to 5 house one grade each, floor f the grade f - 1; other floors house anyone. */
  predicate FloorMismatch(floor: Option<int>, level: Option<int>) {
    floor.Some? && 2 <= floor.value <= 5 && level != Some(floor.value - 1)
  }

  /** A template literal's rendering of an optional text. */
  function Describe(text: Option<string>): string {
    text.GetOr("undefined")
  }

  // ---------------------------------------------------------------------------
  // create

  /** The fields `create` receives; `None` stands for `undefined`. */
  datatype NewUser = NewUser(
    email: string,
    password: string,
    fullName: string,
    roomNumber: Option<string>,
    graduationYear: Option<int>,
    schoolId: string,
    role: Option<string>)

  predicate KeyTaken(rows: seq<UserRow>, id: string, email: string) {
    exists u :: u in rows && (u.id == id || u.email == email)
  }

  /**
   * `create`: the room rule first (its error escapes unwrapped), then hashing and the insert,
   * where `fault` stands for any storage failure other than a unique violation, and a taken
   * e-mail or id is the unique violation.
   */
  function CreateOutcome(rows: seq<UserRow>, input: NewUser, currentYear: int, now: nat,
                         id: string, salt: nat, fault: bool): Result<UserRow, string>
  {
    var level := GradeLevel(input.graduationYear, currentYear);
    var year := GradeName(level);
    if FloorMismatch(RoomFloor(input.roomNumber), level) then
      Err("Room " + Describe(input.roomNumber) + " is not available for " + Describe(year) + " students")
    else if fault then Err("Failed to create user")
    else if KeyTaken(rows, id, ToLower(input.email)) then Err("Email already exists")
    else
      Ok(UserRow(id, ToLower(input.email), Digest(input.password, salt), input.fullName,
                 input.roomNumber, None, year, input.graduationYear, None, input.schoolId,
                 input.role.GetOr("student"), Prefs(DefaultPreferences), false, None, None, None, None,
                 true, now, now))
  }

  /**
   * The room rule: `create` refuses exactly the rooms on floors 2 to 5 whose floor does not
   * match the grade, before anything else can fail.
   */
  lemma CreateRoomRule(rows: seq<UserRow>, input: NewUser, currentYear: int, now: nat, id: string, salt: nat, fault: bool)
    ensures var level := GradeLevel(input.graduationYear, currentYear);
            var result := CreateOutcome(rows, input, currentYear, now, id, salt, fault);
            (result.Err? && result.error == "Room " + Describe(input.roomNumber) + " is not available for " +
                                             Describe(GradeName(level)) + " students")
            <==> FloorMismatch(RoomFloor(input.roomNumber), level)
  {
    var level := GradeLevel(input.graduationYear, currentYear);
    var msg := "Room " + Describe(input.roomNumber) + " is not available for " + Describe(GradeName(level)) + " students";
    assert msg[0] == 'R';
    assert "Failed to create user"[0] != 'R' && "Email already exists"[0] != 'R';
  }

  /** A room number without digits, or no room at all, passes the room rule whatever the grade. */
  lemma NoFloorNoRule(roomNumber: Option<string>, level: Option<int>)
    requires roomNumber.None? || ParseInt(roomNumber.value).None?
    ensures !FloorMismatch(RoomFloor(roomNumber), level)
  {
  }

  /** What a created row holds, and which errors `create` reports. */
  lemma CreateStores(rows: seq<UserRow>, input: NewUser, currentYear: int, now: nat, id: string, salt: nat, fault: bool)
    requires !FloorMismatch(RoomFloor(input.roomNumber), GradeLevel(input.graduationYear, currentYear))
    ensures var result := CreateOutcome(rows, input, currentYear, now, id, salt, fault);
            (fault ==> result == Err("Failed to create user")) &&
            (!fault && KeyTaken(rows, id, ToLower(input.email)) ==> result == Err("Email already exists")) &&
            (!fault && !KeyTaken(rows, id, ToLower(input.email)) ==>
              result.Ok? &&
              result.value.id == id &&
              result.value.email == ToLower(input.email) &&
              PasswordMatches(input.password, result.value.passwordHash) &&
              result.value.role == (if input.role.Some? then input.role.value else "student") &&
              result.value.preferences == Prefs(DefaultPreferences) &&
              result.value.year == GradeName(GradeLevel(input.graduationYear, currentYear)) &&
              result.value.isActive && !result.value.isVerified &&
              result.value.verificationToken.None? && result.value.resetToken.None?)
  {
  }

  /** A successful `create` keeps the table valid, and the new user is then found by e-mail and by id. */
  lemma CreateThenFind(rows: seq<UserRow>, input: NewUser, currentYear: int, now: nat, id: string, salt: nat, fault: bool)
    requires ValidRows(rows)
    requires CreateOutcome(rows, input, currentYear, now, id, salt, fault).Ok?
    ensures var u := CreateOutcome(rows, input, currentYear, now, id, salt, fault).value;
            ValidRows(rows + [u]) &&
            FindByEmail(rows + [u], input.email) == Some(u) &&
            FindById(rows + [u], Some(id)) == Some(u)
  {
    var u := CreateOutcome(rows, input, currentYear, now, id, salt, fault).value;
    var next := rows + [u];
    ToLowerNormalizes(input.email);
    assert forall i :: 0 <= i < |rows| ==> rows[i] in rows;
    assert ValidRows(next);
    assert u in next;
    FindersAgree(next, u);
    assert FindById(next, Some(id)) == Some(u);
  }

  // ---------------------------------------------------------------------------
  // updateById

  /**
   * A value in `updateData`, and what the JSON column `preferences` holds: `null`, a text,
   * or a preferences object.
   */
  datatype UserValue = Null | Text(text: string) | Prefs(prefs: Preferences)

  const UserColumns: seq<string> := ["full_name", "room_number", "profile_photo_url", "year", "emergency_contact", "preferences"]
  const PreferencesKey: string := "preferences"

  /** The text columns, and those of them that `null` clears. */
  const TextColumns: seq<string> := ["full_name", "room_number", "profile_photo_url", "year", "emergency_contact"]
  const NullableColumns: seq<string> := ["room_number", "profile_photo_url", "year", "emergency_contact"]

  /**
   * What the store makes of `column = value` on a row: texts into the text columns (`null`
   * clears an optional one) and any JSON-encoded value into `preferences`; anything else is
   * refused.
   */
  function AssignUser(row: UserRow, column: string, value: Param<UserValue>): Option<UserRow> {
    match value
    case Plain(Text(s)) =>
      if column == "full_name" then Some(row.(fullName := s))
      else if column == "room_number" then Some(row.(roomNumber := Some(s)))
      else if column == "profile_photo_url" then Some(row.(profilePhotoUrl := Some(s)))
      else if column == "year" then Some(row.(year := Some(s)))
      else if column == "emergency_contact" then Some(row.(emergencyContact := Some(s)))
      else None
    case Plain(Null) =>
      if column == "room_number" then Some(row.(roomNumber := None))
      else if column == "profile_photo_url" then Some(row.(profilePhotoUrl := None))
      else if column == "year" then Some(row.(year := None))
      else if column == "emergency_contact" then Some(row.(emergencyContact := None))
      else None
    case Json(v) =>
      if column == "preferences" then Some(row.(preferences := v)) else None
    case _ => None
  }

  /** The columns an update can reach, read back as values. */
  function ReadUser(row: UserRow, column: string): UserValue {
    if column == "full_name" then Text(row.fullName)
    else if column == "room_number" then OptText(row.roomNumber)
    else if column == "profile_photo_url" then OptText(row.profilePhotoUrl)
    else if column == "year" then OptText(row.year)
    else if column == "emergency_contact" then OptText(row.emergencyContact)
    else if column == "preferences" then row.preferences
    else Null
  }

  function OptText(text: Option<string>): UserValue {
    if text.Some? then Text(text.value) else Null
  }

  /** Everything about a user that no update can change. */
  function Protected(u: UserRow): (string, string, Digest, Option<int>, string, string, bool, Option<string>, Option<string>, Option<nat>, Option<nat>, bool, nat) {
    (u.id, u.email, u.passwordHash, u.graduationYear, u.schoolId, u.role, u.isVerified, u.verificationToken,
     u.resetToken, u.resetTokenExpires, u.lastLogin, u.isActive, u.createdAt)
  }

  /**
   * The store accepts a text in a text column, `null` in an optional one and any JSON value in
   * `preferences`, and nothing else.
   */
  lemma AssignUserAccepts(row: UserRow, column: string, value: Param<UserValue>)
    ensures AssignUser(row, column, value).Some? <==>
              (value.Json? && column == PreferencesKey) ||
              (value.Plain? && value.v.Text? && column in TextColumns) ||
              (value.Plain? && value.v.Null? && column in NullableColumns)
  {
  }

  /** An assignment the store accepts sets its column to the value and touches nothing else. */
  lemma AssignUserFacts(row: UserRow, column: string, value: Param<UserValue>)
    ensures AssignUser(row, column, value).Some? ==>
              var next := AssignUser(row, column, value).value;
              Protected(next) == Protected(row) && next.updatedAt == row.updatedAt &&
              ReadUser(next, column) == value.v &&
              forall other :: other != column ==> ReadUser(next, other) == ReadUser(row, other)
  {
    if AssignUser(row, column, value).Some? {
      var next := AssignUser(row, column, value).value;
      AssignedColumn(row, column, value);
      forall other | other != column
        ensures ReadUser(next, other) == ReadUser(row, other)
      {
        ReadOtherColumn(row, column, value, other);
      }
    }
  }

  /** An assignment writes its column and touches nothing protected. */
  lemma AssignedColumn(row: UserRow, column: string, value: Param<UserValue>)
    requires AssignUser(row, column, value).Some?
    ensures var next := AssignUser(row, column, value).value;
            Protected(next) == Protected(row) && next.updatedAt == row.updatedAt &&
            ReadUser(next, column) == value.v
  {
    var next := AssignUser(row, column, value).value;
    match value
    case Plain(Text(s)) =>
      if column == "full_name" {
        assert next == row.(fullName := s);
      } else if column == "room_number" {
        assert next == row.(roomNumber := Some(s));
      } else if column == "profile_photo_url" {
        assert next == row.(profilePhotoUrl := Some(s));
      } else if column == "year" {
        assert next == row.(year := Some(s));
      } else {
        assert next == row.(emergencyContact := Some(s));
      }
    case Plain(Null) =>
      if column == "room_number" {
        assert next == row.(roomNumber := None);
      } else if column == "profile_photo_url" {
        assert next == row.(profilePhotoUrl := None);
      } else if column == "year" {
        assert next == row.(year := None);
      } else {
        assert next == row.(emergencyContact := None);
      }
    case Json(v) =>
  }

  /** An assignment to one column leaves every other column reading as before. */
  lemma ReadOtherColumn(row: UserRow, column: string, value: Param<UserValue>, other: string)
    requires AssignUser(row, column, value).Some?
    requires other != column
    ensures ReadUser(AssignUser(row, column, value).value, other) == ReadUser(row, other)
  {
    var next := AssignUser(row, column, value).value;
    match value
    case Plain(Text(s)) =>
      if column == "full_name" {
        assert next == row.(fullName := s);
      } else if column == "room_number" {
        assert next == row.(roomNumber := Some(s));
      } else if column == "profile_photo_url" {
        assert next == row.(profilePhotoUrl := Some(s));
      } else if column == "year" {
        assert next == row.(year := Some(s));
      } else {
        assert next == row.(emergencyContact := Some(s));
      }
    case Plain(Null) =>
      if column == "room_number" {
        assert next == row.(roomNumber := None);
      } else if column == "profile_photo_url" {
        assert next == row.(profilePhotoUrl := None);
      } else if column == "year" {
        assert next == row.(year := None);
      } else {
        assert next == row.(emergencyContact := None);
      }
    case Json(v) =>
      assert next == row.(preferences := v);
  }

  /**
   * `updateById` on a table: the kept entries applied to the active row with the id, which
   * is stamped `updated_at`; 'Failed to update user' when nothing qualifies, two entries name
   * one column, a value does not fit its column, or no active user has the id.
   */
  function UpdateOutcome(rows: seq<UserRow>, id: string, entries: seq<Entry<UserValue>>, now: nat): Result<UserRow, string> {
    var kept := Kept(entries, UserColumns);
    if kept == [] || !DistinctKeptColumns(kept) then Err("Failed to update user")
    else
      match ActiveIndex(rows, Some(id))
      case None => Err("Failed to update user")
      case Some(i) =>
        match ApplyEntries(rows[i], kept, PreferencesKey, AssignUser)
        case None => Err("Failed to update user")
        case Some(u) => Ok(u.(updatedAt := now))
  }

  /**
   * A successful update writes every kept value to its column, changes no other column an
   * update can reach, and leaves the e-mail, password, role, flags and tokens alone.
   */
  lemma UpdateWrites(rows: seq<UserRow>, id: string, entries: seq<Entry<UserValue>>, now: nat)
    requires UpdateOutcome(rows, id, entries, now).Ok?
    ensures var u := UpdateOutcome(rows, id, entries, now).value;
            var old_u := rows[ActiveIndex(rows, Some(id)).value];
            var kept := Kept(entries, UserColumns);
            Protected(u) == Protected(old_u) && u.updatedAt == now &&
            (forall i :: 0 <= i < |kept| ==> ReadUser(u, CamelToSnake(kept[i].key)) == kept[i].value.value) &&
            (forall column :: (forall i :: 0 <= i < |kept| ==> CamelToSnake(kept[i].key) != column) ==>
                              ReadUser(u, column) == ReadUser(old_u, column))
  {
    var kept := Kept(entries, UserColumns);
    var i := ActiveIndex(rows, Some(id)).value;
    var applied := ApplyEntries(rows[i], kept, PreferencesKey, AssignUser).value;
    assert UpdateOutcome(rows, id, entries, now).value == applied.(updatedAt := now);
    ApplyEntriesFacts(rows[i], kept, 0);
    assert kept[0..] == kept;
    forall column ensures ReadUser(applied.(updatedAt := now), column) == ReadUser(applied, column) {
      StampKeepsColumns(applied, now, column);
    }
  }

  /** Stamping `updated_at` changes none of the columns an update can reach. */
  lemma StampKeepsColumns(row: UserRow, now: nat, column: string)
    ensures ReadUser(row.(updatedAt := now), column) == ReadUser(row, column)
  {
  }

  lemma {:induction false} ApplyEntriesFacts(row: UserRow, kept: seq<Entry<UserValue>>, k: nat)
    requires forall i :: 0 <= i < |kept| ==> kept[i].value.Some?
    requires DistinctKeptColumns(kept)
    requires k <= |kept|
    ensures var result := ApplyEntries(row, kept[k..], PreferencesKey, AssignUser);
            result.Some? ==>
              Protected(result.value) == Protected(row) &&
              (forall i :: k <= i < |kept| ==> ReadUser(result.value, CamelToSnake(kept[i].key)) == kept[i].value.value) &&
              (forall column :: (forall i :: k <= i < |kept| ==> CamelToSnake(kept[i].key) != column) ==>
                                ReadUser(result.value, column) == ReadUser(row, column))
    decreases |kept| - k
  {
    var rest := kept[k..];
    if k < |kept| {
      assert rest[0] == kept[k] && rest[1..] == kept[k + 1..];
      var column := CamelToSnake(kept[k].key);
      AssignUserFacts(row, column, ParamOf(kept[k], PreferencesKey));
      match AssignUser(row, column, ParamOf(kept[k], PreferencesKey))
      case None =>
      case Some(next) =>
        ApplyEntriesFacts(next, kept, k + 1);
        var result := ApplyEntries(next, kept[k + 1..], PreferencesKey, AssignUser);
        if result.Some? {
          assert ReadUser(next, column) == kept[k].value.value;
          forall i | k < i < |kept| ensures CamelToSnake(kept[i].key) != column { }
        }
    }
  }

  /** `updateById` fails on an update with nothing to set and on an id no active user has. */
  lemma UpdateFailures(rows: seq<UserRow>, id: string, entries: seq<Entry<UserValue>>, now: nat)
    ensures Kept(entries, UserColumns) == [] ==> UpdateOutcome(rows, id, entries, now) == Err("Failed to update user")
    ensures (forall u :: u in rows ==> !(u.isActive && u.id == id)) ==>
              UpdateOutcome(rows, id, entries, now) == Err("Failed to update user")
  {
    if ActiveIndex(rows, Some(id)).Some? {
      var i := ActiveIndex(rows, Some(id)).value;
      assert rows[i] in rows && rows[i].isActive && rows[i].id == id;
    }
  }

  /** An update keeps the table valid. */
  lemma UpdateKeepsValid(rows: seq<UserRow>, id: string, entries: seq<Entry<UserValue>>, now: nat)
    requires ValidRows(rows)
    requires UpdateOutcome(rows, id, entries, now).Ok?
    ensures ValidRows(rows[ActiveIndex(rows, Some(id)).value := UpdateOutcome(rows, id, entries, now).value])
  {
    UpdateWrites(rows, id, entries, now);
  }

  // ---------------------------------------------------------------------------
  // Tokens, verification and password reset

  /** `verifyEmail`'s `UPDATE`: every row holding the token is verified and its token cleared. */
  function MarkVerified(rows: seq<UserRow>, token: string, now: nat): (r: seq<UserRow>)
    ensures SameKeys(rows, r)
  {
    seq(|rows|, i requires 0 <= i < |rows| =>
      if rows[i].verificationToken == Some(token)
      then rows[i].(isVerified := true, verificationToken := None, updatedAt := now)
      else rows[i])
  }

  /** The first row holding a verification token. */
  function FirstWithVerification(rows: seq<UserRow>, token: string): (r: Option<nat>)
    ensures r.Some? ==> r.value < |rows| && rows[r.value].verificationToken == Some(token)
    ensures r.None? ==> forall i :: 0 <= i < |rows| ==> rows[i].verificationToken != Some(token)
  {
    if rows == [] then None
    else if rows[0].verificationToken == Some(token) then Some(0)
    else
      match FirstWithVerification(rows[1..], token)
      case None => None
      case Some(i) => Some(i + 1)
  }

  /** `verifyEmail`'s answer: the first updated row, or `null` when no row held the token. */
  function VerifyEmailResult(rows: seq<UserRow>, token: string, now: nat): Option<UserRow> {
    match FirstWithVerification(rows, token)
    case None => None
    case Some(i) => Some(MarkVerified(rows, token, now)[i])
  }

  /**
   * `verifyEmail` answers a user exactly when one held the token; that user is then verified
   * and no row holds the token any more, so a second call answers `null`.
   */
  lemma VerifyEmailConsumes(rows: seq<UserRow>, token: string, now: nat, later: nat)
    ensures VerifyEmailResult(rows, token, now).Some? <==> exists u :: u in rows && u.verificationToken == Some(token)
    ensures var u := VerifyEmailResult(rows, token, now);
            u.Some? ==> u.value.isVerified && u.value.verificationToken.None? && u.value in MarkVerified(rows, token, now)
    ensures forall i :: 0 <= i < |rows| ==> MarkVerified(rows, token, now)[i].verificationToken != Some(token)
    ensures VerifyEmailResult(MarkVerified(rows, token, now), token, later).None?
  {
    if exists u :: u in rows && u.verificationToken == Some(token) {
      var u :| u in rows && u.verificationToken == Some(token);
      var i :| 0 <= i < |rows| && rows[i] == u;
    }
  }

  /** `setVerificationToken` / `setResetToken`'s `WHERE email = lower(email)`, active or not. */
  function SetVerification(rows: seq<UserRow>, email: string, token: string, now: nat): (r: seq<UserRow>)
    ensures SameKeys(rows, r)
  {
    seq(|rows|, i requires 0 <= i < |rows| =>
      if rows[i].email == ToLower(email) then rows[i].(verificationToken := Some(token), updatedAt := now)
      else rows[i])
  }

  function SetReset(rows: seq<UserRow>, email: string, token: string, expires: nat, now: nat): (r: seq<UserRow>)
    ensures SameKeys(rows, r)
  {
    seq(|rows|, i requires 0 <= i < |rows| =>
      if rows[i].email == ToLower(email)
      then rows[i].(resetToken := Some(token), resetTokenExpires := Some(expires), updatedAt := now)
      else rows[i])
  }

  /** `resetPassword`'s check: some row holds the token and its expiry is still ahead. */
  predicate ResetAllowed(rows: seq<UserRow>, token: string, now: nat) {
    exists i :: 0 <= i < |rows| && rows[i].resetToken == Some(token) &&
                rows[i].resetTokenExpires.Some? && rows[i].resetTokenExpires.value > now
  }

  /** `resetPassword`'s `UPDATE`: every row holding the token gets the new hash and loses the token. */
  function ApplyReset(rows: seq<UserRow>, token: string, hash: Digest, now: nat): (r: seq<UserRow>)
    ensures SameKeys(rows, r)
  {
    seq(|rows|, i requires 0 <= i < |rows| =>
      if rows[i].resetToken == Some(token)
      then rows[i].(passwordHash := hash, resetToken := None, resetTokenExpires := None, updatedAt := now)
      else rows[i])
  }

  function FirstWithReset(rows: seq<UserRow>, token: string): (r: Option<nat>)
    ensures r.Some? ==> r.value < |rows| && rows[r.value].resetToken == Some(token)
    ensures r.None? ==> forall i :: 0 <= i < |rows| ==> rows[i].resetToken != Some(token)
  {
    if rows == [] then None
    else if rows[0].resetToken == Some(token) then Some(0)
    else
      match FirstWithReset(rows[1..], token)
      case None => None
      case Some(i) => Some(i + 1)
  }

  /** `resetPassword`: `null` unless the check passes, else the first updated row. */
  function ResetResult(rows: seq<UserRow>, token: Option<string>, newPassword: string, salt: nat, now: nat): Option<UserRow> {
    if token.None? || !ResetAllowed(rows, token.value, now) then None
    else
      match FirstWithReset(rows, token.value)
      case None => None
      case Some(i) => Some(ApplyReset(rows, token.value, Digest(newPassword, salt), now)[i])
  }

  /**
   * `resetPassword` answers a user exactly when a row holds the token with an expiry later
   * than now; that user's password is then the new one, and the token cannot be used again.
   */
  lemma ResetConsumes(rows: seq<UserRow>, token: Option<string>, newPassword: string, salt: nat, now: nat, later: nat, again: string)
    ensures ResetResult(rows, token, newPassword, salt, now).Some? <==> token.Some? && ResetAllowed(rows, token.value, now)
    ensures var u := ResetResult(rows, token, newPassword, salt, now);
            u.Some? ==> PasswordMatches(newPassword, u.value.passwordHash) && u.value.resetToken.None? &&
                        u.value in ApplyReset(rows, token.value, Digest(newPassword, salt), now)
    ensures token.Some? ==>
              ResetResult(ApplyReset(rows, token.value, Digest(newPassword, salt), now), token, again, salt, later).None?
  {
    if token.Some? && ResetAllowed(rows, token.value, now) {
      var i :| 0 <= i < |rows| && rows[i].resetToken == Some(token.value) &&
               rows[i].resetTokenExpires.Some? && rows[i].resetTokenExpires.value > now;
    }
  }

  /** `updateLastLogin`'s `UPDATE`: the row with the id, active or not. */
  function StampLogin(rows: seq<UserRow>, id: string, now: nat): (r: seq<UserRow>)
    ensures SameKeys(rows, r)
  {
    seq(|rows|, i requires 0 <= i < |rows| =>
      if rows[i].id == id then rows[i].(lastLogin := Some(now), updatedAt := now) else rows[i])
  }

  /**
   * `setVerificationToken` gives every row with the lower-cased e-mail the token and the time
   * and leaves all else alone; a user who has the e-mail can then verify with the token.
   */
  lemma SetVerificationFacts(rows: seq<UserRow>, email: string, token: string, now: nat, later: nat)
    ensures var r := SetVerification(rows, email, token, now);
            (forall i :: 0 <= i < |rows| && rows[i].email == ToLower(email) ==>
               r[i].verificationToken == Some(token) && r[i].updatedAt == now &&
               r[i].(verificationToken := rows[i].verificationToken, updatedAt := rows[i].updatedAt) == rows[i]) &&
            (forall i :: 0 <= i < |rows| && rows[i].email != ToLower(email) ==> r[i] == rows[i])
    ensures (exists u :: u in rows && u.email == ToLower(email)) ==>
              VerifyEmailResult(SetVerification(rows, email, token, now), token, later).Some?
  {
    var r := SetVerification(rows, email, token, now);
    if exists u :: u in rows && u.email == ToLower(email) {
      var u :| u in rows && u.email == ToLower(email);
      var i :| 0 <= i < |rows| && rows[i] == u;
      assert r[i] in r && r[i].verificationToken == Some(token);
      VerifyEmailConsumes(r, token, later, later);
    }
  }

  /**
   * `setResetToken` gives every row with the lower-cased e-mail the token, its expiry and the
   * time and leaves all else alone; until that expiry the token allows a reset.
   */
  lemma SetResetFacts(rows: seq<UserRow>, email: string, token: string, expires: nat, now: nat, at: nat)
    ensures var r := SetReset(rows, email, token, expires, now);
            (forall i :: 0 <= i < |rows| && rows[i].email == ToLower(email) ==>
               r[i].resetToken == Some(token) && r[i].resetTokenExpires == Some(expires) && r[i].updatedAt == now &&
               r[i].(resetToken := rows[i].resetToken, resetTokenExpires := rows[i].resetTokenExpires,
                     updatedAt := rows[i].updatedAt) == rows[i]) &&
            (forall i :: 0 <= i < |rows| && rows[i].email != ToLower(email) ==> r[i] == rows[i])
    ensures (exists u :: u in rows && u.email == ToLower(email)) && at < expires ==>
              ResetAllowed(SetReset(rows, email, token, expires, now), token, at)
  {
    var r := SetReset(rows, email, token, expires, now);
    if (exists u :: u in rows && u.email == ToLower(email)) && at < expires {
      var u :| u in rows && u.email == ToLower(email);
      var i :| 0 <= i < |rows| && rows[i] == u;
      assert r[i].resetToken == Some(token) && r[i].resetTokenExpires == Some(expires);
    }
  }

  /**
   * `updateLastLogin` stamps the row with the id and leaves all else alone; the active user
   * with the id is then found with that last login.
   */
  lemma StampLoginFacts(rows: seq<UserRow>, id: string, now: nat)
    ensures var r := StampLogin(rows, id, now);
            (forall i :: 0 <= i < |rows| && rows[i].id == id ==>
               r[i].lastLogin == Some(now) && r[i].updatedAt == now &&
               r[i].(lastLogin := rows[i].lastLogin, updatedAt := rows[i].updatedAt) == rows[i]) &&
            (forall i :: 0 <= i < |rows| && rows[i].id != id ==> r[i] == rows[i])
    ensures FindById(rows, Some(id)).Some? ==>
              var u := FindById(StampLogin(rows, id, now), Some(id));
              u == Some(FindById(rows, Some(id)).value.(lastLogin := Some(now), updatedAt := now))
  {
    SameKeysIndex(rows, StampLogin(rows, id, now), Some(id));
  }

  // ---------------------------------------------------------------------------
  // The table

  class UserTable {
    var rows: seq<UserRow>

    ghost predicate Valid()
      reads this
    {
      ValidRows(rows)
    }

    constructor ()
      ensures rows == [] && Valid()
    {
      rows := [];
    }

    /** `create`: inserts the new row unless the room rule, a fault or a taken key stops it. */
    method Create(input: NewUser, currentYear: int, now: nat, id: string, salt: nat, fault: bool)
      returns (r: Result<UserRow, string>)
      requires Valid()
      modifies this
      ensures Valid()
      ensures r == CreateOutcome(old(rows), input, currentYear, now, id, salt, fault)
      ensures rows == if r.Ok? then old(rows) + [r.value] else old(rows)
    {
      r := CreateOutcome(rows, input, currentYear, now, id, salt, fault);
      if r.Ok? {
        CreateThenFind(rows, input, currentYear, now, id, salt, fault);
        rows := rows + [r.value];
      }
    }

    /**
     * `updateById`: builds the numbered `SET` list, binds the id after the values, and runs
     * the statement on the active row whose id is the last parameter.
     */
    method UpdateById(id: string, entries: seq<Entry<UserValue>>, now: nat) returns (r: Result<UserRow, string>)
      requires Valid()
      modifies this
      ensures Valid()
      ensures r == UpdateOutcome(old(rows), id, entries, now)
      ensures rows == if r.Ok? then old(rows)[ActiveIndex(old(rows), Some(id)).value := r.value] else old(rows)
    {
      var updates, values, paramCount := BuildSetClause(entries, UserColumns, PreferencesKey);
      var kept := Kept(entries, UserColumns);
      if |updates| == 0 {
        return Err("Failed to update user");
      }
      var params := values + [Plain(Text(id))];
      var target := params[paramCount - 1];
      assert target == Plain(Text(id));
      var index := ActiveIndex(rows, Some(target.v.text));
      if index.None? {
        return Err("Failed to update user");
      }
      ExecuteBuilt(rows[index.value], kept, UserColumns, PreferencesKey, updates, values, paramCount, Text(id), AssignUser);
      match Execute(rows[index.value], updates, params, AssignUser)
      case None =>
        r := Err("Failed to update user");
      case Some(u) =>
        r := Ok(u.(updatedAt := now));
        UpdateKeepsValid(rows, id, entries, now);
        rows := rows[index.value := r.value];
    }

    /** `setVerificationToken`. */
    method SetVerificationToken(email: string, token: string, now: nat)
      requires Valid()
      modifies this
      ensures Valid()
      ensures rows == SetVerification(old(rows), email, token, now)
    {
      rows := SetVerification(rows, email, token, now);
    }

    /** `verifyEmail`: verifies every row holding the token and answers the first of them. */
    method VerifyEmail(token: string, now: nat) returns (r: Option<UserRow>)
      requires Valid()
      modifies this
      ensures Valid()
      ensures r == VerifyEmailResult(old(rows), token, now)
      ensures rows == MarkVerified(old(rows), token, now)
    {
      r := VerifyEmailResult(rows, token, now);
      rows := MarkVerified(rows, token, now);
    }

    /** `setResetToken`. */
    method SetResetToken(email: string, token: string, expires: nat, now: nat)
      requires Valid()
      modifies this
      ensures Valid()
      ensures rows == SetReset(old(rows), email, token, expires, now)
    {
      rows := SetReset(rows, email, token, expires, now);
    }

    /** `resetPassword`: checks the token's expiry, then rewrites every row holding it. */
    method ResetPassword(token: Option<string>, newPassword: string, salt: nat, now: nat) returns (r: Option<UserRow>)
      requires Valid()
      modifies this
      ensures Valid()
      ensures r == ResetResult(old(rows), token, newPassword, salt, now)
      ensures rows == if r.Some? then ApplyReset(old(rows), token.value, Digest(newPassword, salt), now) else old(rows)
    {
      r := ResetResult(rows, token, newPassword, salt, now);
      if r.Some? {
        rows := ApplyReset(rows, token.value, Digest(newPassword, salt), now);
      }
    }

    /** `updateLastLogin`; its failures are logged and swallowed. */
    method UpdateLastLogin(id: string, now: nat)
      requires Valid()
      modifies this
      ensures Valid()
      ensures rows == StampLogin(old(rows), id, now)
    {
      rows := StampLogin(rows, id, now);
    }
  }
}
