/**
 * `SchoolModel`: the schools table (names are unique), its whitelisted partial update, and
 * the per-school statistics drawn from the users, requests and temperature tables.
 */
module Schools {
  import opened Wrappers
  import opened Sorting
  import opened Tables
  import opened Patch
  import Users
  import Requests
  import Temperature

  /** A row of `schools`; `settings` is a JSON value, an object of key/value pairs when created. */
  datatype SchoolRow = SchoolRow(
    id: string,
    name: string,
    address: Option<string>,
    logoUrl: Option<string>,
    timezone: string,
    settings: SchoolValue,
    createdAt: nat,
    updatedAt: nat)

  /** The table's keys: ids and names are unique. */
  ghost predicate ValidSchools(rows: seq<SchoolRow>) {
    forall i, j :: 0 <= i < j < |rows| ==> rows[i].id != rows[j].id && rows[i].name != rows[j].name
  }

  // ---------------------------------------------------------------------------
  // Reads

  function NameKey(s: SchoolRow): seq<int> {
    Codes(s.name)
  }

  /** `findAll`: every school, by name. */
  function FindAll(rows: seq<SchoolRow>): (r: seq<SchoolRow>)
    ensures multiset(r) == multiset(rows)
    ensures forall i, j :: 0 <= i < j < |r| ==> LexLe(Codes(r[i].name), Codes(r[j].name))
  {
    var sorted := SortBy(rows, NameKey);
    assert forall i, j :: 0 <= i < j < |sorted| ==> LexLe(NameKey(sorted[i]), NameKey(sorted[j]));
    sorted
  }

  /** `findById`. */
  function FindById(rows: seq<SchoolRow>, id: string): (r: Option<SchoolRow>)
    ensures r.None? <==> forall s :: s in rows ==> s.id != id
    ensures r.Some? ==> r.value in rows && r.value.id == id
  {
    if rows == [] then None
    else if rows[0].id == id then Some(rows[0])
    else FindById(rows[1..], id)
  }

  /** The position of the school with the id. */
  function IndexOf(rows: seq<SchoolRow>, id: string): (r: Option<nat>)
    ensures r.None? <==> forall i :: 0 <= i < |rows| ==> rows[i].id != id
    ensures r.Some? ==> r.value < |rows| && rows[r.value].id == id
  {
    if rows == [] then None
    else if rows[0].id == id then Some(0)
    else
      match IndexOf(rows[1..], id)
      case None => None
      case Some(k) => Some(k + 1)
  }

  // ---------------------------------------------------------------------------
  // create

  /** The `schoolData` `create` receives; `None` stands for `undefined`. */
  datatype NewSchool = NewSchool(
    name: string,
    address: Option<string>,
    logoUrl: Option<string>,
    timezone: Option<string>,
    settings: Option<map<string, string>>)

  /** The row inserted: the time zone defaults to 'UTC' and the settings to `{}`. */
  function NewRow(input: NewSchool, id: string, now: nat): SchoolRow {
    SchoolRow(id, input.name, input.address, input.logoUrl, input.timezone.GetOr("UTC"),
              Settings(input.settings.GetOr(map[])), now, now)
  }

  predicate KeyTaken(rows: seq<SchoolRow>, id: string, name: string) {
    exists s :: s in rows && (s.id == id || s.name == name)
  }

  /**
   * `create`: a unique violation is 'School name already exists', any other failure 'Failed to
   * create school'.
   */
  function CreateOutcome(rows: seq<SchoolRow>, input: NewSchool, id: string, now: nat, fault: bool): Result<SchoolRow, string> {
    if fault then Err("Failed to create school")
    else if KeyTaken(rows, id, input.name) then Err("School name already exists")
    else Ok(NewRow(input, id, now))
  }

  /**
   * A created school has the defaults filled in, and the table keeps its unique keys; a name
   * already present is refused.
   */
  lemma CreateFacts(rows: seq<SchoolRow>, input: NewSchool, id: string, now: nat, fault: bool)
    requires ValidSchools(rows)
    ensures var r := CreateOutcome(rows, input, id, now, fault);
            (!fault && (exists s :: s in rows && s.name == input.name) ==> r == Err("School name already exists")) &&
            (r.Ok? ==> ValidSchools(rows + [r.value]) &&
                       r.value.timezone == (if input.timezone.Some? then input.timezone.value else "UTC") &&
                       r.value.settings == Settings(if input.settings.Some? then input.settings.value else map[]) &&
                       r.value.name == input.name && r.value.id == id)
  {
    var r := CreateOutcome(rows, input, id, now, fault);
    if r.Ok? {
      var after := rows + [r.value];
      forall i, j | 0 <= i < j < |after| ensures after[i].id != after[j].id && after[i].name != after[j].name {
        if j == |rows| {
          assert after[i] in rows;
        }
      }
    }
  }

  // ---------------------------------------------------------------------------
  // updateById

  /**
   * A value in `updateData`, and what the JSON column `settings` holds: `null`, a text, or a
   * settings object.
   */
  datatype SchoolValue = Null | Text(text: string) | Settings(settings: map<string, string>)

  const SchoolColumns: seq<string> := ["name", "address", "logo_url", "timezone", "settings"]
  const SettingsKey: string := "settings"

  /** The text columns, and those of them that `null` clears. */
  const SchoolTextColumns: seq<string> := ["name", "address", "logo_url", "timezone"]
  const SchoolNullableColumns: seq<string> := ["address", "logo_url"]

  /**
   * What the store makes of `column = value` on a row: texts into the text columns (`null`
   * clears the address or the logo) and any JSON-encoded value into `settings`.
   */
  function AssignSchool(row: SchoolRow, column: string, value: Param<SchoolValue>): Option<SchoolRow> {
    match value
    case Plain(Text(s)) =>
      if column == "name" then Some(row.(name := s))
      else if column == "address" then Some(row.(address := Some(s)))
      else if column == "logo_url" then Some(row.(logoUrl := Some(s)))
      else if column == "timezone" then Some(row.(timezone := s))
      else None
    case Plain(Null) =>
      if column == "address" then Some(row.(address := None))
      else if column == "logo_url" then Some(row.(logoUrl := None))
      else None
    case Json(v) =>
      if column == "settings" then Some(row.(settings := v)) else None
    case _ => None
  }

  /** The columns an update can reach, read back as values. */
  function ReadSchool(row: SchoolRow, column: string): SchoolValue {
    if column == "name" then Text(row.name)
    else if column == "address" then (if row.address.Some? then Text(row.address.value) else Null)
    else if column == "logo_url" then (if row.logoUrl.Some? then Text(row.logoUrl.value) else Null)
    else if column == "timezone" then Text(row.timezone)
    else if column == "settings" then row.settings
    else Null
  }

  /**
   * The store accepts a text in a text column, `null` for the address or the logo and any
   * JSON value in `settings`, and nothing else.
   */
  lemma AssignSchoolAccepts(row: SchoolRow, column: string, value: Param<SchoolValue>)
    ensures AssignSchool(row, column, value).Some? <==>
              (value.Json? && column == SettingsKey) ||
              (value.Plain? && value.v.Text? && column in SchoolTextColumns) ||
              (value.Plain? && value.v.Null? && column in SchoolNullableColumns)
  {
  }

  /** An assignment the store accepts sets its column to the value and touches nothing else. */
  lemma AssignSchoolFacts(row: SchoolRow, column: string, value: Param<SchoolValue>)
    ensures AssignSchool(row, column, value).Some? ==>
              var next := AssignSchool(row, column, value).value;
              next.id == row.id && next.createdAt == row.createdAt && next.updatedAt == row.updatedAt &&
              ReadSchool(next, column) == value.v &&
              forall other :: other != column ==> ReadSchool(next, other) == ReadSchool(row, other)
  {
  }

  /** A school other than the one at position `i` already has the name. */
  predicate NameClash(rows: seq<SchoolRow>, i: int, name: string)
    decreases |rows|
  {
    rows != [] && ((i != 0 && rows[0].name == name) || NameClash(rows[1..], i - 1, name))
  }

  lemma {:induction false} NameClashExactly(rows: seq<SchoolRow>, i: int, name: string)
    ensures NameClash(rows, i, name) <==> exists j :: 0 <= j < |rows| && j != i && rows[j].name == name
    decreases |rows|
  {
    if rows != [] {
      NameClashExactly(rows[1..], i - 1, name);
      if exists j :: 0 <= j < |rows| && j != i && rows[j].name == name {
        var j :| 0 <= j < |rows| && j != i && rows[j].name == name;
        if j > 0 {
          assert rows[1..][j - 1] == rows[j];
        }
      }
    }
  }

  /**
   * `updateById` on a table: the kept entries applied to the school with the id, stamped
   * `updated_at`; every failure (nothing to update, a column named twice, a value that does
   * not fit, no such school, a name another school has) is 'Failed to update school'.
   */
  function UpdateOutcome(rows: seq<SchoolRow>, id: string, entries: seq<Entry<SchoolValue>>, now: nat): Result<SchoolRow, string> {
    var kept := Kept(entries, SchoolColumns);
    if kept == [] || !DistinctKeptColumns(kept) then Err("Failed to update school")
    else
      match IndexOf(rows, id)
      case None => Err("Failed to update school")
      case Some(i) =>
        match ApplyEntries(rows[i], kept, SettingsKey, AssignSchool)
        case None => Err("Failed to update school")
        case Some(s) =>
          if NameClash(rows, i, s.name) then Err("Failed to update school")
          else Ok(s.(updatedAt := now))
  }

  lemma {:induction false} ApplyEntriesFacts(row: SchoolRow, kept: seq<Entry<SchoolValue>>, k: nat)
    requires forall i :: 0 <= i < |kept| ==> kept[i].value.Some?
    requires DistinctKeptColumns(kept)
    requires k <= |kept|
    ensures var result := ApplyEntries(row, kept[k..], SettingsKey, AssignSchool);
            result.Some? ==>
              result.value.id == row.id && result.value.createdAt == row.createdAt &&
              result.value.updatedAt == row.updatedAt &&
              (forall i :: k <= i < |kept| ==> ReadSchool(result.value, CamelToSnake(kept[i].key)) == kept[i].value.value) &&
              (forall column :: (forall i :: k <= i < |kept| ==> CamelToSnake(kept[i].key) != column) ==>
                                  ReadSchool(result.value, column) == ReadSchool(row, column))
    decreases |kept| - k
  {
    if k < |kept| {
      assert kept[k..][0] == kept[k] && kept[k..][1..] == kept[k + 1..];
      var column := CamelToSnake(kept[k].key);
      AssignSchoolFacts(row, column, ParamOf(kept[k], SettingsKey));
      match AssignSchool(row, column, ParamOf(kept[k], SettingsKey))
      case None =>
      case Some(next) =>
        ApplyEntriesFacts(next, kept, k + 1);
        var result := ApplyEntries(next, kept[k + 1..], SettingsKey, AssignSchool);
        if result.Some? {
          forall i | k < i < |kept| ensures CamelToSnake(kept[i].key) != column { }
        }
    }
  }

  /**
   * A successful update writes every kept value to its column, changes no other column, and
   * keeps the id and creation time.
   */
  lemma UpdateWrites(rows: seq<SchoolRow>, id: string, entries: seq<Entry<SchoolValue>>, now: nat)
    requires UpdateOutcome(rows, id, entries, now).Ok?
    ensures var s := UpdateOutcome(rows, id, entries, now).value;
            var i := IndexOf(rows, id).value;
            var kept := Kept(entries, SchoolColumns);
            s.id == id && s.createdAt == rows[i].createdAt && s.updatedAt == now &&
            (forall k :: 0 <= k < |kept| ==> ReadSchool(s, CamelToSnake(kept[k].key)) == kept[k].value.value) &&
            (forall column :: (forall k :: 0 <= k < |kept| ==> CamelToSnake(kept[k].key) != column) ==>
                              ReadSchool(s, column) == ReadSchool(rows[i], column))
  {
    var kept := Kept(entries, SchoolColumns);
    var i := IndexOf(rows, id).value;
    var applied := ApplyEntries(rows[i], kept, SettingsKey, AssignSchool);
    var s := UpdateOutcome(rows, id, entries, now).value;
    assert applied.Some? && s == applied.value.(updatedAt := now);
    assert kept[0..] == kept;
    ApplyEntriesFacts(rows[i], kept, 0);
    forall column ensures ReadSchool(s, column) == ReadSchool(applied.value, column) {
      StampKeepsColumns(applied.value, now, column);
    }
  }

  /** Stamping `updated_at` changes none of the columns an update can reach. */
  lemma StampKeepsColumns(row: SchoolRow, now: nat, column: string)
    ensures ReadSchool(row.(updatedAt := now), column) == ReadSchool(row, column)
  {
  }

  /** An update never gives two schools one name or one id. */
  lemma UpdateKeepsValid(rows: seq<SchoolRow>, id: string, entries: seq<Entry<SchoolValue>>, now: nat)
    requires ValidSchools(rows)
    requires UpdateOutcome(rows, id, entries, now).Ok?
    ensures ValidSchools(rows[IndexOf(rows, id).value := UpdateOutcome(rows, id, entries, now).value])
  {
    UpdateWrites(rows, id, entries, now);
    var i := IndexOf(rows, id).value;
    var s := UpdateOutcome(rows, id, entries, now).value;
    NameClashExactly(rows, i, s.name);
  }

  /** Nothing to update, and a missing school, are failures. */
  lemma UpdateFailures(rows: seq<SchoolRow>, id: string, entries: seq<Entry<SchoolValue>>, now: nat)
    ensures Kept(entries, SchoolColumns) == [] ==> UpdateOutcome(rows, id, entries, now) == Err("Failed to update school")
    ensures (forall s :: s in rows ==> s.id != id) ==> UpdateOutcome(rows, id, entries, now) == Err("Failed to update school")
    ensures UpdateOutcome(rows, id, entries, now).Err? ==> UpdateOutcome(rows, id, entries, now) == Err("Failed to update school")
  {
  }

  // ---------------------------------------------------------------------------
  // getSchoolStats

  datatype SchoolStats = SchoolStats(totalUsers: nat, totalRequests: nat, activeRequests: nat, averageTemperatureVote: real)

  /** `requests r JOIN users u ON r.user_id = u.id WHERE u.school_id = $1 [AND r.status ...]`, counted. */
  function JoinCount(requests: seq<Requests.RequestRow>, users: seq<Users.UserRow>, schoolId: string, activeOnly: bool): nat {
    if requests == [] then 0
    else
      var r := requests[0];
      var here := if activeOnly && !(r.status == "pending" || r.status == "in_progress") then 0
                  else |Filter(users, (u: Users.UserRow) => u.id == r.userId && u.schoolId == schoolId)|;
      here + JoinCount(requests[1..], users, schoolId, activeOnly)
  }

  /** The temperatures of the joined votes: each once per zone of the school it matches. */
  function JoinedTemps(votes: seq<Temperature.Vote>, zones: seq<Temperature.Zone>, schoolId: string, now: nat): seq<real> {
    if votes == [] then []
    else
      var v := votes[0];
      var matches := Filter(zones, (z: Temperature.Zone) => z.id == v.zoneId && z.schoolId == schoolId);
      var mine := if v.createdAt + Temperature.WeekMs > now then seq(|matches|, _ => v.temperature) else [];
      mine + JoinedTemps(votes[1..], zones, schoolId, now)
  }

  /** `getSchoolStats`: a `NULL` average reads as 0. */
  function GetSchoolStats(users: seq<Users.UserRow>, requests: seq<Requests.RequestRow>,
                          votes: seq<Temperature.Vote>, zones: seq<Temperature.Zone>, schoolId: string, now: nat): SchoolStats {
    var temps := JoinedTemps(votes, zones, schoolId, now);
    SchoolStats(
      |Filter(users, (u: Users.UserRow) => u.schoolId == schoolId && u.isActive)|,
      JoinCount(requests, users, schoolId, false),
      JoinCount(requests, users, schoolId, true),
      if |temps| == 0 then 0.0 else Mean(temps))
  }

  /** Open requests are among all requests. */
  lemma {:induction false} ActiveAtMostTotal(requests: seq<Requests.RequestRow>, users: seq<Users.UserRow>, schoolId: string)
    ensures JoinCount(requests, users, schoolId, true) <= JoinCount(requests, users, schoolId, false)
    decreases |requests|
  {
    if requests != [] {
      ActiveAtMostTotal(requests[1..], users, schoolId);
    }
  }

  /** Every joined temperature is the temperature of a recent vote in a zone of the school. */
  lemma {:induction false} JoinedTempsFrom(votes: seq<Temperature.Vote>, zones: seq<Temperature.Zone>, schoolId: string, now: nat)
    ensures forall t :: t in JoinedTemps(votes, zones, schoolId, now) ==>
              exists v, z :: v in votes && z in zones && z.id == v.zoneId && z.schoolId == schoolId &&
                             v.createdAt + Temperature.WeekMs > now && t == v.temperature
    decreases |votes|
  {
    if votes != [] {
      JoinedTempsFrom(votes[1..], zones, schoolId, now);
      var v := votes[0];
      var matches := Filter(zones, (z: Temperature.Zone) => z.id == v.zoneId && z.schoolId == schoolId);
      forall t | t in JoinedTemps(votes, zones, schoolId, now)
        ensures exists v, z :: v in votes && z in zones && z.id == v.zoneId && z.schoolId == schoolId &&
                               v.createdAt + Temperature.WeekMs > now && t == v.temperature
      {
        var rest := JoinedTemps(votes[1..], zones, schoolId, now);
        if t !in rest {
          assert |matches| > 0 && v.createdAt + Temperature.WeekMs > now;
          assert matches[0] in matches;
        } else {
          var w, z :| w in votes[1..] && z in zones && z.id == w.zoneId && z.schoolId == schoolId &&
                      w.createdAt + Temperature.WeekMs > now && t == w.temperature;
        }
      }
    }
  }

  /**
   * Active users only are counted, open requests never outnumber requests, and the average
   * vote is 0 or lies within any bounds the votes respect.
   */
  lemma StatsFacts(users: seq<Users.UserRow>, requests: seq<Requests.RequestRow>,
                   votes: seq<Temperature.Vote>, zones: seq<Temperature.Zone>, schoolId: string, now: nat,
                   lo: real, hi: real)
    requires forall v :: v in votes ==> lo <= v.temperature <= hi
    ensures var s := GetSchoolStats(users, requests, votes, zones, schoolId, now);
            s.activeRequests <= s.totalRequests &&
            s.totalUsers <= |users| &&
            (s.totalUsers == 0 <==> forall u :: u in users ==> !(u.schoolId == schoolId && u.isActive)) &&
            (s.averageTemperatureVote == 0.0 || lo <= s.averageTemperatureVote <= hi)
  {
    ActiveAtMostTotal(requests, users, schoolId);
    var temps := JoinedTemps(votes, zones, schoolId, now);
    JoinedTempsFrom(votes, zones, schoolId, now);
    if |temps| > 0 {
      forall i | 0 <= i < |temps| ensures lo <= temps[i] <= hi {
        assert temps[i] in temps;
      }
      MeanBounds(temps, lo, hi);
    }
    var active := Filter(users, (u: Users.UserRow) => u.schoolId == schoolId && u.isActive);
    if |active| > 0 {
      assert active[0] in active;
    }
  }

  // ---------------------------------------------------------------------------
  // The table

  class SchoolTable {
    var rows: seq<SchoolRow>

    ghost predicate Valid()
      reads this
    {
      ValidSchools(rows)
    }

    constructor ()
      ensures Valid() && rows == []
    {
      rows := [];
    }

    /** `create`: inserts the new row unless a fault or a taken key stops it. */
    method Create(input: NewSchool, id: string, now: nat, fault: bool) returns (r: Result<SchoolRow, string>)
      requires Valid()
      modifies this
      ensures Valid()
      ensures r == CreateOutcome(old(rows), input, id, now, fault)
      ensures rows == if r.Ok? then old(rows) + [r.value] else old(rows)
    {
      r := CreateOutcome(rows, input, id, now, fault);
      if r.Ok? {
        CreateFacts(rows, input, id, now, fault);
        rows := rows + [r.value];
      }
    }

    /**
     * `updateById`: builds the numbered `SET` list, binds the id after the values, and runs
     * the statement on the school whose id is the last parameter.
     */
    method UpdateById(id: string, entries: seq<Entry<SchoolValue>>, now: nat) returns (r: Result<SchoolRow, string>)
      requires Valid()
      modifies this
      ensures Valid()
      ensures r == UpdateOutcome(old(rows), id, entries, now)
      ensures rows == if r.Ok? then old(rows)[IndexOf(old(rows), id).value := r.value] else old(rows)
    {
      var updates, values, paramCount := BuildSetClause(entries, SchoolColumns, SettingsKey);
      var kept := Kept(entries, SchoolColumns);
      if |updates| == 0 {
        return Err("Failed to update school");
      }
      var params := values + [Plain(Text(id))];
      var target := params[paramCount - 1];
      assert target == Plain(Text(id));
      var index := IndexOf(rows, target.v.text);
      if index.None? {
        return Err("Failed to update school");
      }
      ExecuteBuilt(rows[index.value], kept, SchoolColumns, SettingsKey, updates, values, paramCount, Text(id), AssignSchool);
      match Execute(rows[index.value], updates, params, AssignSchool)
      case None =>
        r := Err("Failed to update school");
      case Some(s) =>
        if NameClash(rows, index.value, s.name) {
          return Err("Failed to update school");
        }
        r := Ok(s.(updatedAt := now));
        UpdateKeepsValid(rows, id, entries, now);
        rows := rows[index.value := r.value];
    }
  }
}
