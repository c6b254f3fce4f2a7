/**
 * `TemperatureModel`: the temperature zones of a school, the residents' daily votes on them,
 * the statistics drawn from the votes, and the zone target the votes steer.
 *
 * The three tables live in a `TemperatureStore`; the reads are functions of its fields and
 * the writes are its methods. Times are milliseconds since the epoch; a calendar day is the
 * UTC day `t / DayMs`.
 */
module Temperature {
  import opened Wrappers
  import opened Sorting
  import opened Tables

  const DayMs: nat := 24 * 60 * 60 * 1000
  const WeekMs: nat := 7 * DayMs

  /** `DATE(created_at)`. */
  function Day(t: nat): nat {
    t / DayMs
  }

  /** A row of `temperature_zones`; the bounds are whole degrees Fahrenheit. */
  datatype Zone = Zone(
    id: string,
    name: string,
    description: Option<string>,
    schoolId: string,
    currentTemperature: Option<real>,
    targetTemperature: Option<real>,
    minTemperature: int,
    maxTemperature: int,
    isActive: bool,
    updatedAt: nat)

  /** A row of `temperature_votes`. */
  datatype Vote = Vote(id: string, userId: string, zoneId: string, temperature: real, voteWeight: real, createdAt: nat)

  /** A row of `temperature_history`. */
  datatype Reading = Reading(zoneId: string, temperature: real, targetTemperature: Option<real>, recordedAt: nat)

  // ---------------------------------------------------------------------------
  // Zones

  /** `mapDbZoneToZone` on a temperature: a missing reading and a reading of 0 both read as unset. */
  function Shown(t: Option<real>): (r: Option<real>)
    ensures r.Some? <==> t.Some? && t.value != 0.0
    ensures r.Some? ==> r == t
  {
    if t.Some? && t.value != 0.0 then t else None
  }

  /** `mapDbZoneToZone`: the zone as the API shows it. */
  function ZoneOf(z: Zone): Zone {
    z.(currentTemperature := Shown(z.currentTemperature), targetTemperature := Shown(z.targetTemperature))
  }

  function NameKey(z: Zone): seq<int> {
    Codes(z.name)
  }

  function MapZones(zs: seq<Zone>): (r: seq<Zone>)
    ensures |r| == |zs|
    ensures forall i :: 0 <= i < |zs| ==> r[i] == ZoneOf(zs[i])
  {
    if zs == [] then [] else [ZoneOf(zs[0])] + MapZones(zs[1..])
  }

  /** `getZonesBySchool`: the active zones of a school, by name. */
  function ZonesBySchool(zones: seq<Zone>, schoolId: string): seq<Zone> {
    MapZones(SortBy(Filter(zones, (z: Zone) => z.schoolId == schoolId && z.isActive), NameKey))
  }

  /**
   * The listing holds, once each, exactly the active zones of the school as the API shows
   * them, in order of name.
   */
  lemma ZonesBySchoolExactly(zones: seq<Zone>, schoolId: string)
    ensures var r := ZonesBySchool(zones, schoolId);
            (forall i, j :: 0 <= i < j < |r| ==> LexLe(Codes(r[i].name), Codes(r[j].name))) &&
            (forall z :: z in zones && z.schoolId == schoolId && z.isActive ==> ZoneOf(z) in r) &&
            (forall y :: y in r ==> exists z :: z in zones && z.schoolId == schoolId && z.isActive && y == ZoneOf(z)) &&
            |r| == |Filter(zones, (z: Zone) => z.schoolId == schoolId && z.isActive)|
  {
    var kept := Filter(zones, (z: Zone) => z.schoolId == schoolId && z.isActive);
    var sorted := SortBy(kept, NameKey);
    MappedInNameOrder(sorted);
    MappedExactly(kept, sorted);
  }

  /** Mapping keeps the names, so it keeps an order by name. */
  lemma MappedInNameOrder(sorted: seq<Zone>)
    requires SortedBy(sorted, NameKey)
    ensures var r := MapZones(sorted);
            forall i, j :: 0 <= i < j < |r| ==> LexLe(Codes(r[i].name), Codes(r[j].name))
  {
    var r := MapZones(sorted);
    forall i, j | 0 <= i < j < |r| ensures LexLe(Codes(r[i].name), Codes(r[j].name)) {
      assert LexLe(NameKey(sorted[i]), NameKey(sorted[j]));
    }
  }

  /** The mapped permutation of the kept zones holds exactly their mapped forms. */
  lemma MappedExactly(kept: seq<Zone>, sorted: seq<Zone>)
    requires multiset(sorted) == multiset(kept)
    ensures var r := MapZones(sorted);
            (forall z :: z in kept ==> ZoneOf(z) in r) &&
            (forall y :: y in r ==> exists z :: z in kept && y == ZoneOf(z)) &&
            |r| == |kept|
  {
    var r := MapZones(sorted);
    forall z | z in kept ensures ZoneOf(z) in r {
      assert z in multiset(sorted);
      var i :| 0 <= i < |sorted| && sorted[i] == z;
      assert r[i] == ZoneOf(z);
    }
    forall y | y in r ensures exists z :: z in kept && y == ZoneOf(z) {
      var i :| 0 <= i < |r| && r[i] == y;
      assert sorted[i] in multiset(kept);
    }
    assert |sorted| == |multiset(sorted)| == |multiset(kept)| == |kept|;
  }

  /** `getZoneById`: an active zone with the id, as the API shows it. */
  function ZoneById(zones: seq<Zone>, id: string): (r: Option<Zone>)
    ensures r.None? <==> forall z :: z in zones ==> !(z.id == id && z.isActive)
    ensures r.Some? ==> exists z :: z in zones && z.id == id && z.isActive && r.value == ZoneOf(z)
  {
    if zones == [] then None
    else if zones[0].id == id && zones[0].isActive then Some(ZoneOf(zones[0]))
    else ZoneById(zones[1..], id)
  }

  // ---------------------------------------------------------------------------
  // Votes

  /** The votes of a user in a zone on a calendar day. */
  function VotesOnDay(votes: seq<Vote>, userId: string, zoneId: string, day: nat): seq<Vote> {
    Filter(votes, (v: Vote) => v.userId == userId && v.zoneId == zoneId && Day(v.createdAt) == day)
  }

  /** `canUserVote`: no vote by the user in the zone today; a failing query answers no. */
  function CanUserVote(votes: seq<Vote>, userId: string, zoneId: string, now: nat, fault: bool): bool {
    !fault && |VotesOnDay(votes, userId, zoneId, Day(now))| == 0
  }

  lemma CanUserVoteExactly(votes: seq<Vote>, userId: string, zoneId: string, now: nat, fault: bool)
    ensures CanUserVote(votes, userId, zoneId, now, fault) <==>
            !fault && forall v :: v in votes ==> !(v.userId == userId && v.zoneId == zoneId && Day(v.createdAt) == Day(now))
  {
    var today := VotesOnDay(votes, userId, zoneId, Day(now));
    if !fault && |today| != 0 {
      assert today[0] in today;
    }
  }

  /** The invariant the daily check keeps: a user votes at most once per zone and day. */
  ghost predicate OneVotePerDay(votes: seq<Vote>) {
    forall i, j :: 0 <= i < j < |votes| && votes[i].userId == votes[j].userId && votes[i].zoneId == votes[j].zoneId ==>
      Day(votes[i].createdAt) != Day(votes[j].createdAt)
  }

  /** A vote the check lets through keeps one vote per user, zone and day. */
  lemma SubmitKeepsOneVotePerDay(votes: seq<Vote>, vote: Vote)
    requires OneVotePerDay(votes)
    requires CanUserVote(votes, vote.userId, vote.zoneId, vote.createdAt, false)
    ensures OneVotePerDay(votes + [vote])
  {
    CanUserVoteExactly(votes, vote.userId, vote.zoneId, vote.createdAt, false);
    var after := votes + [vote];
    forall i, j | 0 <= i < j < |after| && after[i].userId == after[j].userId && after[i].zoneId == after[j].zoneId
      ensures Day(after[i].createdAt) != Day(after[j].createdAt)
    {
      if j == |votes| {
        assert after[i] in votes;
      }
    }
  }

  /** Once a vote is in, its user cannot vote again in that zone on that day. */
  lemma VotedToday(votes: seq<Vote>, vote: Vote, later: nat, fault: bool)
    requires Day(later) == Day(vote.createdAt)
    ensures !CanUserVote(votes + [vote], vote.userId, vote.zoneId, later, fault)
  {
    CanUserVoteExactly(votes + [vote], vote.userId, vote.zoneId, later, fault);
    assert vote in votes + [vote];
  }

  /** The newest of some votes; of several equally new, the one furthest down the table. */
  function Latest(vs: seq<Vote>): (r: Vote)
    requires |vs| > 0
    ensures r in vs
    ensures forall v :: v in vs ==> v.createdAt <= r.createdAt
  {
    if |vs| == 1 then vs[0]
    else
      var rest := Latest(vs[1..]);
      assert forall v :: v in vs ==> v == vs[0] || v in vs[1..];
      if vs[0].createdAt > rest.createdAt then vs[0] else rest
  }

  /** `getUserLastVote`: the user's newest vote in the zone; a failing query answers none. */
  function UserLastVote(votes: seq<Vote>, userId: string, zoneId: string, fault: bool): (r: Option<Vote>)
    ensures r.None? <==> fault || forall v :: v in votes ==> !(v.userId == userId && v.zoneId == zoneId)
    ensures r.Some? ==> r.value in votes && r.value.userId == userId && r.value.zoneId == zoneId &&
                        forall v :: v in votes && v.userId == userId && v.zoneId == zoneId ==> v.createdAt <= r.value.createdAt
  {
    var mine := Filter(votes, (v: Vote) => v.userId == userId && v.zoneId == zoneId);
    if fault || |mine| == 0 then None
    else Some(Latest(mine))
  }

  // ---------------------------------------------------------------------------
  // Statistics

  function Temps(vs: seq<Vote>): (r: seq<real>)
    ensures |r| == |vs|
    ensures forall i :: 0 <= i < |vs| ==> r[i] == vs[i].temperature
  {
    if vs == [] then [] else [vs[0].temperature] + Temps(vs[1..])
  }

  function ZoneVotes(votes: seq<Vote>, zoneId: string): seq<Vote> {
    Filter(votes, (v: Vote) => v.zoneId == zoneId)
  }

  /** `created_at >= NOW() - INTERVAL '7 days'`. */
  function LastWeek(votes: seq<Vote>, zoneId: string, now: nat): seq<Vote> {
    Filter(votes, (v: Vote) => v.zoneId == zoneId && v.createdAt + WeekMs >= now)
  }

  function OnDay(vs: seq<Vote>, day: nat): seq<Vote> {
    Filter(vs, (v: Vote) => Day(v.createdAt) == day)
  }

  /** The days `from`, `from + 1`, ... `from + n - 1` on which some of the votes fall. */
  function DaysWithVotes(vs: seq<Vote>, from: nat, n: nat): (days: seq<nat>)
    ensures forall i :: 0 <= i < |days| ==> from <= days[i] < from + n && |OnDay(vs, days[i])| > 0
    ensures forall i, j :: 0 <= i < j < |days| ==> days[i] < days[j]
    ensures forall d :: from <= d < from + n && |OnDay(vs, d)| > 0 ==> d in days
    decreases n
  {
    if n == 0 then []
    else (if |OnDay(vs, from)| > 0 then [from] else []) + DaysWithVotes(vs, from + 1, n - 1)
  }

  /** The last day on which one of the votes falls. */
  function LastDay(vs: seq<Vote>): (d: nat)
    requires |vs| > 0
    ensures forall v :: v in vs ==> Day(v.createdAt) <= d
    ensures exists v :: v in vs && Day(v.createdAt) == d
  {
    Day(Latest(vs).createdAt)
  }

  lemma DayMonotone(a: nat, b: nat)
    requires a <= b
    ensures Day(a) <= Day(b)
  {
  }

  /** The `GROUP BY DATE(created_at) ORDER BY vote_date ASC` of the trend query. */
  function TrendDays(votes: seq<Vote>, zoneId: string, now: nat): seq<nat> {
    var week := LastWeek(votes, zoneId, now);
    var from := Day(if now >= WeekMs then now - WeekMs else 0);
    if |week| == 0 || LastDay(week) < from then []
    else DaysWithVotes(week, from, LastDay(week) - from + 1)
  }

  /** `getZoneStats`'s result. */
  datatype Stats = Stats(averageVote: real, totalVotes: nat, todayVotes: nat, lastWeekTrend: seq<real>)

  /** `getZoneStats`: an average of 0 stands for a zone without votes. */
  function ZoneStats(votes: seq<Vote>, zoneId: string, now: nat): Stats {
    var all := ZoneVotes(votes, zoneId);
    var week := LastWeek(votes, zoneId, now);
    var days := TrendDays(votes, zoneId, now);
    Stats(
      if |all| == 0 then 0.0 else Mean(Temps(all)),
      |all|,
      |OnDay(all, Day(now))|,
      seq(|days|, i requires 0 <= i < |days| => if |OnDay(week, days[i])| == 0 then 0.0 else Mean(Temps(OnDay(week, days[i])))))
  }

  /** Today's votes are among all the votes, and a zone without votes has all-zero statistics. */
  lemma StatsCounts(votes: seq<Vote>, zoneId: string, now: nat)
    ensures var s := ZoneStats(votes, zoneId, now);
            s.todayVotes <= s.totalVotes &&
            s.totalVotes == |ZoneVotes(votes, zoneId)| &&
            (s.totalVotes == 0 <==> forall v :: v in votes ==> v.zoneId != zoneId) &&
            (s.totalVotes == 0 ==> s.averageVote == 0.0 && s.todayVotes == 0 && s.lastWeekTrend == [])
  {
    var all := ZoneVotes(votes, zoneId);
    if |all| > 0 {
      assert all[0] in all;
    }
  }

  /**
   * The trend has one entry per day of the last week on which the zone got a vote, in order
   * of day, and each entry is the mean of that day's votes.
   */
  lemma TrendExactly(votes: seq<Vote>, zoneId: string, now: nat)
    ensures var days := TrendDays(votes, zoneId, now);
            var week := LastWeek(votes, zoneId, now);
            var trend := ZoneStats(votes, zoneId, now).lastWeekTrend;
            |trend| == |days| &&
            (forall i, j :: 0 <= i < j < |days| ==> days[i] < days[j]) &&
            (forall d :: d in days <==> exists v :: v in votes && v.zoneId == zoneId && v.createdAt + WeekMs >= now && Day(v.createdAt) == d) &&
            (forall i :: 0 <= i < |days| ==> |OnDay(week, days[i])| > 0 && trend[i] == Mean(Temps(OnDay(week, days[i]))))
  {
    var week := LastWeek(votes, zoneId, now);
    var days := TrendDays(votes, zoneId, now);
    var lo := if now >= WeekMs then now - WeekMs else 0;
    var from := Day(lo);
    forall v | v in week ensures from <= Day(v.createdAt) {
      DayMonotone(lo, v.createdAt);
    }
    if |week| > 0 {
      assert week[0] in week;
    }
    forall d ensures d in days <==> exists v :: v in votes && v.zoneId == zoneId && v.createdAt + WeekMs >= now && Day(v.createdAt) == d {
      if d in days {
        var i :| 0 <= i < |days| && days[i] == d;
        var day := OnDay(week, d);
        assert day[0] in day;
      }
      if exists v :: v in votes && v.zoneId == zoneId && v.createdAt + WeekMs >= now && Day(v.createdAt) == d {
        var v :| v in votes && v.zoneId == zoneId && v.createdAt + WeekMs >= now && Day(v.createdAt) == d;
        assert v in week;
        assert v in OnDay(week, d);
      }
    }
  }

  // ---------------------------------------------------------------------------
  // The target the votes steer

  /** `Math.round`: the nearest integer, halves rounded up. */
  function Round(x: real): int {
    (x + 0.5).Floor
  }

  lemma RoundNearest(x: real)
    ensures x - 0.5 < Round(x) as real <= x + 0.5
  {
  }

  /** Rounding a value between two whole numbers stays between them. */
  lemma RoundWithin(x: real, lo: int, hi: int)
    requires lo as real <= x <= hi as real
    ensures lo <= Round(x) <= hi
  {
  }

  /** `created_at >= NOW() - INTERVAL '24 hours'`. */
  function LastDayVotes(votes: seq<Vote>, zoneId: string, now: nat): seq<Vote> {
    Filter(votes, (v: Vote) => v.zoneId == zoneId && v.createdAt + DayMs >= now)
  }

  /** The rows with the id get the target and the time; the others are untouched. */
  function SetTarget(zones: seq<Zone>, zoneId: string, target: real, now: nat): (r: seq<Zone>)
    ensures |r| == |zones|
    ensures forall i :: 0 <= i < |zones| ==>
              r[i] == if zones[i].id == zoneId then zones[i].(targetTemperature := Some(target), updatedAt := now) else zones[i]
  {
    seq(|zones|, i requires 0 <= i < |zones| =>
      if zones[i].id == zoneId then zones[i].(targetTemperature := Some(target), updatedAt := now) else zones[i])
  }

  /** `updateZoneAverage`: the target becomes the rounded mean of the last day's votes, if any. */
  function AverageTarget(zones: seq<Zone>, votes: seq<Vote>, zoneId: string, now: nat): seq<Zone> {
    var recent := LastDayVotes(votes, zoneId, now);
    if |recent| == 0 then zones
    else SetTarget(zones, zoneId, Round(Mean(Temps(recent))) as real, now)
  }

  /**
   * After a vote at `now` the window is never empty, so the zone's target becomes the mean of
   * the last day's votes rounded to a whole degree; when those votes lie between two whole
   * bounds, so does the target.
   */
  lemma TargetFollowsVotes(zones: seq<Zone>, votes: seq<Vote>, vote: Vote, lo: int, hi: int)
    requires forall v :: v in votes + [vote] && v.zoneId == vote.zoneId ==> lo as real <= v.temperature <= hi as real
    ensures var recent := LastDayVotes(votes + [vote], vote.zoneId, vote.createdAt);
            var after := AverageTarget(zones, votes + [vote], vote.zoneId, vote.createdAt);
            |recent| > 0 &&
            (forall i :: 0 <= i < |zones| && zones[i].id == vote.zoneId ==>
               after[i].targetTemperature == Some(Round(Mean(Temps(recent))) as real) &&
               lo <= Round(Mean(Temps(recent))) <= hi &&
               after[i].updatedAt == vote.createdAt) &&
            (forall i :: 0 <= i < |zones| && zones[i].id != vote.zoneId ==> after[i] == zones[i])
  {
    var all := votes + [vote];
    var recent := LastDayVotes(all, vote.zoneId, vote.createdAt);
    assert vote in all;
    assert vote in recent;
    var ts := Temps(recent);
    forall i | 0 <= i < |ts| ensures lo as real <= ts[i] <= hi as real {
      assert recent[i] in recent;
    }
    MeanBounds(ts, lo as real, hi as real);
    RoundWithin(Mean(ts), lo, hi);
  }

  /** `SET current_temperature = $1[, target_temperature = $2]` and `updated_at = NOW()`. */
  function SetTemperature(zones: seq<Zone>, zoneId: string, current: real, target: Option<real>, now: nat): (r: seq<Zone>)
    ensures |r| == |zones|
  {
    seq(|zones|, i requires 0 <= i < |zones| =>
      if zones[i].id == zoneId then
        zones[i].(currentTemperature := Some(current),
                  targetTemperature := if target.Some? then target else zones[i].targetTemperature,
                  updatedAt := now)
      else zones[i])
  }

  /** A column `updateZoneTemperature` may set, and the placeholder it reads. */
  datatype ZoneColumn = CurrentTemperature | TargetTemperature
  datatype ZoneAssignment = ZoneAssignment(column: ZoneColumn, placeholder: nat)
  datatype ZoneParam = Degrees(degrees: real) | ZoneKey(id: string)

  predicate Resolves(updates: seq<ZoneAssignment>, values: seq<ZoneParam>) {
    forall k :: 0 <= k < |updates| ==>
      1 <= updates[k].placeholder <= |values| && values[updates[k].placeholder - 1].Degrees?
  }

  /** A zone row after the assignments, each reading its placeholder's value. */
  function Assign(z: Zone, updates: seq<ZoneAssignment>, values: seq<ZoneParam>): Zone
    requires Resolves(updates, values)
    decreases |updates|
  {
    if updates == [] then z
    else
      var t := values[updates[0].placeholder - 1].degrees;
      var z' := match updates[0].column
                case CurrentTemperature => z.(currentTemperature := Some(t))
                case TargetTemperature => z.(targetTemperature := Some(t));
      Assign(z', updates[1..], values)
  }

  /** The `UPDATE ... WHERE id = $n` statement on the table. */
  function RunUpdate(zones: seq<Zone>, updates: seq<ZoneAssignment>, values: seq<ZoneParam>, key: string, now: nat): (r: seq<Zone>)
    requires Resolves(updates, values)
    ensures |r| == |zones|
  {
    seq(|zones|, i requires 0 <= i < |zones| =>
      if zones[i].id == key then Assign(zones[i], updates, values).(updatedAt := now) else zones[i])
  }

  /** `updateZoneTemperature` moves the current reading and, when one is given, the target; nothing else. */
  lemma SetTemperatureFacts(zones: seq<Zone>, zoneId: string, current: real, target: Option<real>, now: nat)
    ensures var r := SetTemperature(zones, zoneId, current, target, now);
            forall i :: 0 <= i < |zones| ==>
              (zones[i].id == zoneId ==>
                 r[i].currentTemperature == Some(current) && r[i].updatedAt == now &&
                 r[i].targetTemperature == (if target.Some? then target else zones[i].targetTemperature) &&
                 r[i].(currentTemperature := zones[i].currentTemperature, targetTemperature := zones[i].targetTemperature,
                       updatedAt := zones[i].updatedAt) == zones[i]) &&
              (zones[i].id != zoneId ==> r[i] == zones[i])
  {
  }

  // ---------------------------------------------------------------------------
  // The store

  class TemperatureStore {
    var zones: seq<Zone>
    var votes: seq<Vote>
    var history: seq<Reading>

    constructor (zones0: seq<Zone>)
      ensures zones == zones0 && votes == [] && history == []
    {
      zones := zones0;
      votes := [];
      history := [];
    }

    /** `updateZoneAverage`; a failure is logged and swallowed. */
    method UpdateZoneAverage(zoneId: string, now: nat, fault: bool)
      modifies this
      ensures zones == if fault then old(zones) else AverageTarget(old(zones), votes, zoneId, now)
      ensures votes == old(votes) && history == old(history)
    {
      if fault {
        return;
      }
      var recent := LastDayVotes(votes, zoneId, now);
      if |recent| > 0 {
        var average := Mean(Temps(recent));
        zones := SetTarget(zones, zoneId, Round(average) as real, now);
      }
    }

    /**
     * `submitVote`: refused with 'User has already voted today' unless `canUserVote` agrees;
     * an insert that fails passes its error on; otherwise the vote is stored with weight 1 and
     * the zone's target recomputed.
     */
    method SubmitVote(userId: string, zoneId: string, temperature: real, now: nat, voteId: string,
                      eligibilityFault: bool, insertError: Option<string>, averageFault: bool)
      returns (r: Result<Vote, string>)
      modifies this
      ensures !CanUserVote(old(votes), userId, zoneId, now, eligibilityFault) ==>
                r == Err("User has already voted today") && votes == old(votes) && zones == old(zones)
      ensures CanUserVote(old(votes), userId, zoneId, now, eligibilityFault) && insertError.Some? ==>
                r == Err(insertError.value) && votes == old(votes) && zones == old(zones)
      ensures CanUserVote(old(votes), userId, zoneId, now, eligibilityFault) && insertError.None? ==>
                r == Ok(Vote(voteId, userId, zoneId, temperature, 1.0, now)) &&
                votes == old(votes) + [r.value] &&
                zones == if averageFault then old(zones) else AverageTarget(old(zones), votes, zoneId, now)
      ensures history == old(history)
    {
      var canVote := CanUserVote(votes, userId, zoneId, now, eligibilityFault);
      if !canVote {
        return Err("User has already voted today");
      }
      if insertError.Some? {
        return Err(insertError.value);
      }
      var vote := Vote(voteId, userId, zoneId, temperature, 1.0, now);
      votes := votes + [vote];
      UpdateZoneAverage(zoneId, now, averageFault);
      r := Ok(vote);
    }

    /**
     * `updateZoneTemperature`: builds the assignments and their values the way the source
     * does, runs the update and records a history row. Nothing checks that the zone exists.
     */
    method UpdateZoneTemperature(zoneId: string, current: real, target: Option<real>, now: nat,
                                 updateFault: bool, historyFault: bool)
      returns (error: Option<string>)
      modifies this
      ensures votes == old(votes)
      ensures updateFault ==>
                error == Some("Failed to update temperature") && zones == old(zones) && history == old(history)
      ensures !updateFault ==> zones == SetTemperature(old(zones), zoneId, current, target, now)
      ensures !updateFault && historyFault ==> error == Some("Failed to update temperature") && history == old(history)
      ensures !updateFault && !historyFault ==>
                error == None && history == old(history) + [Reading(zoneId, current, target, now)]
    {
      var updates := [ZoneAssignment(CurrentTemperature, 1)];
      var values := [Degrees(current)];
      var paramCount := 2;
      if target.Some? {
        updates := updates + [ZoneAssignment(TargetTemperature, paramCount)];
        values := values + [Degrees(target.value)];
        paramCount := paramCount + 1;
      }
      values := values + [ZoneKey(zoneId)];
      assert values[paramCount - 1] == ZoneKey(zoneId);
      if updateFault {
        return Some("Failed to update temperature");
      }
      var updated := RunUpdate(zones, updates, values, values[paramCount - 1].id, now);
      forall i | 0 <= i < |zones| && zones[i].id == zoneId
        ensures updated[i] == SetTemperature(zones, zoneId, current, target, now)[i]
      {
        var z := zones[i];
        var z1 := z.(currentTemperature := Some(current));
        assert Assign(z1, updates[1..], values) == Assign(z, updates, values);
        if target.Some? {
          var z2 := z1.(targetTemperature := target);
          assert Assign(z2, updates[2..], values) == Assign(z1, updates[1..], values);
        }
      }
      assert updated == SetTemperature(zones, zoneId, current, target, now);
      zones := updated;
      if historyFault {
        return Some("Failed to update temperature");
      }
      history := history + [Reading(zoneId, current, target, now)];
      error := None;
    }
  }
}
