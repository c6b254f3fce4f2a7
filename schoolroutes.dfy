/**
 * The `/api/schools` routes: the public list and lookup, and the statistics route behind
 * `authenticate` and `requireRole('admin')`.
 */
module SchoolRoutes {
  import opened Wrappers
  import opened Sorting
  import opened Http
  import opened AccessControl
  import Jwt
  import Users
  import Requests
  import Temperature
  import Schools

  /** What the public list shows of a school: no timezone, settings or timestamps. */
  datatype Summary = Summary(id: string, name: string, address: Option<string>, logoUrl: Option<string>)

  function Summarize(s: Schools.SchoolRow): Summary {
    Summary(s.id, s.name, s.address, s.logoUrl)
  }

  function Summaries(rows: seq<Schools.SchoolRow>): (r: seq<Summary>)
    ensures |r| == |rows|
    ensures forall i :: 0 <= i < |r| ==> r[i] == Summarize(rows[i])
  {
    seq(|rows|, i requires 0 <= i < |rows| => Summarize(rows[i]))
  }

  /** `GET /`: a failing query is 500 'Failed to fetch schools'. */
  function ListSchools(rows: seq<Schools.SchoolRow>, fault: bool): Reply<seq<Summary>> {
    if fault then Fail(500, "Failed to fetch schools")
    else Reply(200, Success(None, Some(Summaries(Schools.FindAll(rows)))))
  }

  /**
   * The list answers 200 unless the query fails, and then holds one summary per school, each
   * the summary of a stored school, ordered by name.
   */
  lemma ListSchoolsFacts(rows: seq<Schools.SchoolRow>, fault: bool)
    ensures var r := ListSchools(rows, fault);
            (r.status == 200 <==> !fault) &&
            (fault ==> r == Fail(500, "Failed to fetch schools")) &&
            (!fault ==> r.body.Success? && r.body.data.Some? &&
                        |r.body.data.value| == |rows| &&
                        (forall i :: 0 <= i < |r.body.data.value| ==>
                           exists s :: s in rows && r.body.data.value[i] == Summarize(s)) &&
                        (forall i, j :: 0 <= i < j < |r.body.data.value| ==>
                           LexLe(Codes(r.body.data.value[i].name), Codes(r.body.data.value[j].name))))
  {
    if !fault {
      var sorted := Schools.FindAll(rows);
      var data := Summaries(sorted);
      assert |sorted| == |multiset(sorted)| == |multiset(rows)| == |rows|;
      forall i | 0 <= i < |data|
        ensures exists s :: s in rows && data[i] == Summarize(s)
      {
        assert sorted[i] in multiset(sorted);
        assert sorted[i] in rows;
      }
    }
  }

  /** `GET /:id`. */
  function GetSchool(rows: seq<Schools.SchoolRow>, id: string, fault: bool): Reply<Schools.SchoolRow> {
    if fault then Fail(500, "Failed to fetch school")
    else
      match Schools.FindById(rows, id)
      case None => Fail(404, "School not found")
      case Some(s) => Reply(200, Success(None, Some(s)))
  }

  /** An unknown id is 404; a known one answers with the whole stored school. */
  lemma GetSchoolFacts(rows: seq<Schools.SchoolRow>, id: string, fault: bool)
    ensures var r := GetSchool(rows, id, fault);
            (r == Fail(404, "School not found") <==> !fault && forall s :: s in rows ==> s.id != id) &&
            (r.status == 200 <==> !fault && exists s :: s in rows && s.id == id) &&
            (r.status == 200 ==> r.body.Success? && r.body.data.Some? &&
                                 r.body.data.value in rows && r.body.data.value.id == id)
  {
  }

  /** A middleware's answer, passed on as the route's. */
  function Relay<D>(r: Reply<Nothing>): Reply<D> {
    match r.body
    case Failure(e) => Fail(r.status, e)
    case Success(m, _) => Reply(r.status, Success(m, None))
  }

  /**
   * `GET /:id/stats`: `authenticate`, then `requireRole('admin')`, then the handler, whose
   * own 403 'Access denied' applies to a user of another school who is not an admin.
   */
  function SchoolStatsRoute(users: seq<Users.UserRow>, requests: seq<Requests.RequestRow>,
                            votes: seq<Temperature.Vote>, zones: seq<Temperature.Zone>,
                            env: Jwt.Env, header: Option<string>, now: nat, id: string, fault: bool): Reply<Schools.SchoolStats> {
    match AuthenticateGate(users, env, header, now)
    case Stop(r) => Relay(r)
    case Next(user) =>
      match RequireRole(user, One("admin"))
      case Stop(r) => Relay(r)
      case Next(admin) =>
        if admin.None? then Fail(401, "Authentication required")
        else if admin.value.schoolId != id && admin.value.role != "admin" then Fail(403, "Access denied")
        else if fault then Fail(500, "Failed to fetch school statistics")
        else Reply(200, Success(None, Some(Schools.GetSchoolStats(users, requests, votes, zones, id, now))))
  }

  /**
   * The statistics are answered exactly to an authenticated admin, of any school; everyone
   * else gets the middleware's 401 or 403, and 'Access denied' is never answered.
   */
  lemma SchoolStatsRouteFacts(users: seq<Users.UserRow>, requests: seq<Requests.RequestRow>,
                              votes: seq<Temperature.Vote>, zones: seq<Temperature.Zone>,
                              env: Jwt.Env, header: Option<string>, now: nat, id: string, fault: bool)
    ensures var r := SchoolStatsRoute(users, requests, votes, zones, env, header, now, id, fault);
            var gate := AuthenticateGate(users, env, header, now);
            var admitted := gate.Next? && gate.user.Some? && gate.user.value.role == "admin";
            r != Fail(403, "Access denied") &&
            (!admitted ==> r.body.Failure? && (r.status == 401 || r.status == 403)) &&
            (admitted && fault ==> r == Fail(500, "Failed to fetch school statistics")) &&
            (r.status == 200 <==> admitted && !fault) &&
            (r.status == 200 ==> r.body == Success(None, Some(Schools.GetSchoolStats(users, requests, votes, zones, id, now))))
  {
    AuthenticateDecides(users, env, header, now);
    var gate := AuthenticateGate(users, env, header, now);
    if gate.Next? {
      RequireRoleDecides(gate.user, One("admin"));
    }
  }
}
