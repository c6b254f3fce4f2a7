/**
 * `TemperatureController`: the handlers behind `/api/temperature`. Each picks a zone (the
 * one asked for, or else the school's first by name) and answers from the temperature store.
 */
module TemperatureController {
  import opened Wrappers
  import opened Text
  import opened Tables
  import opened Temperature
  import opened Http

  /** The `data` of the handlers' successful replies. */
  datatype TemperatureData =
    | Current(zone: Zone, temperature: real, targetTemperature: real, canVote: bool,
              userLastVote: Option<Vote>, stats: Stats)
    | Submitted(vote: Vote, nextVoteTime: nat)
    | StatsView(stats: Stats, userLastVote: Option<Vote>)
    | ZoneList(zones: seq<Zone>)

  const NoZones := "No temperature zones found for your school"
  const UnknownZone := "Temperature zone not found"

  /**
   * The zone a handler works on: the one asked for unless that is missing or empty, else the
   * first zone of the caller's school; `None` when the school has none.
   */
  function ChooseZone(zones: seq<Zone>, schoolId: string, zone: Option<string>): Option<string> {
    if zone.Some? && zone.value != "" then zone
    else
      var listed := ZonesBySchool(zones, schoolId);
      if |listed| == 0 then None else Some(listed[0].id)
  }

  /**
   * Without a zone asked for, there is none to work on exactly when the school has no active
   * zone.
   */
  lemma NoZoneToChoose(zones: seq<Zone>, schoolId: string, zone: Option<string>)
    requires zone.None? || zone == Some("")
    ensures ChooseZone(zones, schoolId, zone).None? <==>
              forall z :: z in zones ==> !(z.schoolId == schoolId && z.isActive)
  {
    ZonesBySchoolExactly(zones, schoolId);
    var listed := ZonesBySchool(zones, schoolId);
    if |listed| > 0 {
      assert listed[0] in listed;
    }
  }

  /**
   * A zone asked for is used as given, whether or not it exists; otherwise the choice is an
   * active zone of the school whose name comes first.
   */
  lemma ChosenZoneFirst(zones: seq<Zone>, schoolId: string, zone: Option<string>)
    ensures zone.Some? && zone.value != "" ==> ChooseZone(zones, schoolId, zone) == zone
    ensures (zone.None? || zone == Some("")) && ChooseZone(zones, schoolId, zone).Some? ==>
              exists z :: z in zones && z.schoolId == schoolId && z.isActive &&
                          ChooseZone(zones, schoolId, zone) == Some(z.id) &&
                          forall y :: y in zones && y.schoolId == schoolId && y.isActive ==>
                                        Sorting.LexLe(Sorting.Codes(z.name), Sorting.Codes(y.name))
  {
    if (zone.None? || zone == Some("")) && ChooseZone(zones, schoolId, zone).Some? {
      ZonesBySchoolExactly(zones, schoolId);
      var listed := ZonesBySchool(zones, schoolId);
      assert listed[0] in listed;
      var z :| z in zones && z.schoolId == schoolId && z.isActive && listed[0] == ZoneOf(z);
      forall y | y in zones && y.schoolId == schoolId && y.isActive
        ensures Sorting.LexLe(Sorting.Codes(z.name), Sorting.Codes(y.name))
      {
        assert ZoneOf(y) in listed;
        var j :| 0 <= j < |listed| && listed[j] == ZoneOf(y);
        if j == 0 {
          Sorting.LexLeTotal(Sorting.Codes(z.name), Sorting.Codes(y.name));
        }
      }
    }
  }

  /** `x || 72` on a reading the API shows: unset (missing or 0) reads as 72°F. */
  function OrDefault(t: Option<real>): real {
    if t.Some? then t.value else 72.0
  }

  /** `getCurrentTemperature`; the user's last vote and the eligibility check swallow their faults. */
  function GetCurrentTemperature(zones: seq<Zone>, votes: seq<Vote>, userId: string, schoolId: string,
                                 zone: Option<string>, now: nat, lastVoteFault: bool, eligibilityFault: bool)
    : Reply<TemperatureData>
  {
    match ChooseZone(zones, schoolId, zone)
    case None => Fail(404, NoZones)
    case Some(zoneId) =>
      match ZoneById(zones, zoneId)
      case None => Fail(404, UnknownZone)
      case Some(z) =>
        Reply(200, Success(None, Some(Current(
          z,
          OrDefault(z.currentTemperature),
          OrDefault(z.targetTemperature),
          CanUserVote(votes, userId, zoneId, now, eligibilityFault),
          UserLastVote(votes, userId, zoneId, lastVoteFault),
          ZoneStats(votes, zoneId, now)))))
  }

  /**
   * The reading is the zone's current temperature, or 72°F exactly when that is missing or 0,
   * and likewise the target; an inactive or missing zone is a 404.
   */
  lemma CurrentTemperatureFacts(zones: seq<Zone>, votes: seq<Vote>, userId: string, schoolId: string,
                                zone: Option<string>, now: nat, lastVoteFault: bool, eligibilityFault: bool)
    requires zone.Some? && zone.value != ""
    ensures var r := GetCurrentTemperature(zones, votes, userId, schoolId, zone, now, lastVoteFault, eligibilityFault);
            (r == Fail(404, UnknownZone) <==> forall z :: z in zones ==> !(z.id == zone.value && z.isActive)) &&
            (r.status == 200 <==> r != Fail(404, UnknownZone)) &&
            (r.status == 200 ==>
               r.body.Success? && r.body.data.Some? && r.body.data.value.Current? &&
               exists z :: z in zones && z.id == zone.value && z.isActive &&
                 var d := r.body.data.value;
                 d.zone == ZoneOf(z) &&
                 (z.currentTemperature.None? || z.currentTemperature == Some(0.0) <==> d.temperature == 72.0 && z.currentTemperature != Some(72.0)) &&
                 (z.currentTemperature.Some? && z.currentTemperature.value != 0.0 ==> d.temperature == z.currentTemperature.value) &&
                 (z.targetTemperature.Some? && z.targetTemperature.value != 0.0 ==> d.targetTemperature == z.targetTemperature.value) &&
                 (z.targetTemperature.None? || z.targetTemperature == Some(0.0) ==> d.targetTemperature == 72.0) &&
                 d.canVote == CanUserVote(votes, userId, zone.value, now, eligibilityFault) &&
                 d.stats == ZoneStats(votes, zone.value, now))
  {
  }

  /** `Temperature must be between ${min}°F and ${max}°F`. */
  function IntString(i: int): string {
    if i < 0 then "-" + NatToString(-i) else NatToString(i)
  }

  function RangeMessage(min: int, max: int): string {
    "Temperature must be between " + IntString(min) + "°F and " + IntString(max) + "°F"
  }

  /** The checks `submitVote` makes before it touches the store: the zone, then the range. */
  function VoteTarget(zones: seq<Zone>, schoolId: string, zone: Option<string>, temperature: real)
    : Result<string, Reply<TemperatureData>>
  {
    match ChooseZone(zones, schoolId, zone)
    case None => Err(Fail(404, NoZones))
    case Some(zoneId) =>
      match ZoneById(zones, zoneId)
      case None => Err(Fail(404, UnknownZone))
      case Some(z) =>
        if temperature < z.minTemperature as real || temperature > z.maxTemperature as real then
          Err(Fail(400, RangeMessage(z.minTemperature, z.maxTemperature)))
        else Ok(zoneId)
  }

  /**
   * A vote reaches the store exactly when it names (or defaults to) an active zone and lies
   * within that zone's bounds, inclusive; a missing zone is a 404 even when the temperature is
   * out of any range, and a vote out of range is a 400 that names the bounds.
   */
  lemma VoteTargetFacts(zones: seq<Zone>, schoolId: string, zone: Option<string>, temperature: real)
    ensures var r := VoteTarget(zones, schoolId, zone, temperature);
            var chosen := ChooseZone(zones, schoolId, zone);
            var found := if chosen.Some? then ZoneById(zones, chosen.value) else None;
            (r.Ok? <==> found.Some? && found.value.minTemperature as real <= temperature <= found.value.maxTemperature as real) &&
            (r.Ok? ==> r.value == chosen.value && exists z :: z in zones && z.id == r.value && z.isActive) &&
            (r.Err? ==> r.error.status in {400, 404}) &&
            (r.Err? && r.error.status == 400 ==>
               found.Some? && r.error == Fail(400, RangeMessage(found.value.minTemperature, found.value.maxTemperature))) &&
            (chosen.Some? && (forall z :: z in zones ==> !(z.id == chosen.value && z.isActive)) ==>
               r == Err(Fail(404, UnknownZone)))
  {
  }

  const AlreadyVoted := "User has already voted today"

  /** `getTemperatureStats`: no check that the zone exists. */
  function GetTemperatureStats(zones: seq<Zone>, votes: seq<Vote>, userId: string, schoolId: string,
                               zone: Option<string>, now: nat, lastVoteFault: bool): Reply<TemperatureData>
  {
    match ChooseZone(zones, schoolId, zone)
    case None => Fail(404, NoZones)
    case Some(zoneId) =>
      Reply(200, Success(None, Some(StatsView(ZoneStats(votes, zoneId, now), UserLastVote(votes, userId, zoneId, lastVoteFault)))))
  }

  /** Statistics for a zone nobody voted in, existing or not, are all zero and carry no last vote. */
  lemma StatsOfSilentZone(zones: seq<Zone>, votes: seq<Vote>, userId: string, schoolId: string,
                          zoneId: string, now: nat, lastVoteFault: bool)
    requires zoneId != ""
    requires forall v :: v in votes ==> v.zoneId != zoneId
    ensures GetTemperatureStats(zones, votes, userId, schoolId, Some(zoneId), now, lastVoteFault) ==
            Reply(200, Success(None, Some(StatsView(Stats(0.0, 0, 0, []), None))))
  {
    StatsCounts(votes, zoneId, now);
  }

  /**
   * `getZones`: 200 with the school's listing, which holds exactly the school's active zones
   * as the API shows them.
   */
  function GetZones(zones: seq<Zone>, schoolId: string): (r: Reply<TemperatureData>)
    ensures r.status == 200 && r.body == Success(None, Some(ZoneList(ZonesBySchool(zones, schoolId))))
    ensures forall z :: z in zones && z.schoolId == schoolId && z.isActive ==> ZoneOf(z) in r.body.data.value.zones
    ensures forall y :: y in r.body.data.value.zones ==>
              exists z :: z in zones && z.schoolId == schoolId && z.isActive && y == ZoneOf(z)
  {
    ZonesBySchoolExactly(zones, schoolId);
    Reply(200, Success(None, Some(ZoneList(ZonesBySchool(zones, schoolId)))))
  }

  /**
   * `submitVote`. After the zone and range checks, the store's verdict decides: its refusal
   * becomes 429 'You can only vote once per 24 hours', any other failure 500 'Failed to submit
   * vote', and a stored vote 200 with the next vote a day from now.
   */
  method SubmitVote(store: TemperatureStore, userId: string, schoolId: string, zone: Option<string>,
                    temperature: real, now: nat, voteId: string,
                    eligibilityFault: bool, insertError: Option<string>, averageFault: bool)
    returns (reply: Reply<TemperatureData>)
    modifies store
    ensures store.history == old(store.history)
    ensures var target := VoteTarget(old(store.zones), schoolId, zone, temperature);
            (target.Err? ==> reply == target.error && store.votes == old(store.votes) && store.zones == old(store.zones)) &&
            (target.Ok? && !CanUserVote(old(store.votes), userId, target.value, now, eligibilityFault) ==>
               reply == Fail(429, "You can only vote once per 24 hours") &&
               store.votes == old(store.votes) && store.zones == old(store.zones)) &&
            (target.Ok? && CanUserVote(old(store.votes), userId, target.value, now, eligibilityFault) && insertError.Some? ==>
               reply == (if insertError.value == AlreadyVoted then Fail(429, "You can only vote once per 24 hours")
                         else Fail(500, "Failed to submit vote")) &&
               store.votes == old(store.votes) && store.zones == old(store.zones)) &&
            (target.Ok? && CanUserVote(old(store.votes), userId, target.value, now, eligibilityFault) && insertError.None? ==>
               var vote := Vote(voteId, userId, target.value, temperature, 1.0, now);
               reply == Reply(200, Success(Some("Vote submitted successfully"), Some(Submitted(vote, now + DayMs)))) &&
               store.votes == old(store.votes) + [vote] &&
               store.zones == if averageFault then old(store.zones)
                              else AverageTarget(old(store.zones), store.votes, target.value, now))
  {
    var target := VoteTarget(store.zones, schoolId, zone, temperature);
    if target.Err? {
      return target.error;
    }
    var result := store.SubmitVote(userId, target.value, temperature, now, voteId, eligibilityFault, insertError, averageFault);
    match result
    case Err(message) =>
      if message == AlreadyVoted {
        reply := Fail(429, "You can only vote once per 24 hours");
      } else {
        reply := Fail(500, "Failed to submit vote");
      }
    case Ok(vote) =>
      reply := Reply(200, Success(Some("Vote submitted successfully"), Some(Submitted(vote, now + DayMs))));
  }
}
