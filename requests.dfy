/**
 * `RequestModel`: maintenance requests. New requests start 'pending'; an update changes the
 * status (stamping `resolved_at` on resolution) or adds an upvote; listings join the author's
 * name and room.
 */
module Requests {
  import opened Wrappers
  import opened Sorting
  import opened Users

  datatype Priority = Low | Medium | High | Urgent

  /** A row of `requests`. */
  datatype RequestRow = RequestRow(
    id: string,
    userId: string,
    categoryId: Option<string>,
    title: string,
    description: string,
    priority: Priority,
    status: string,
    isAnonymous: bool,
    photos: seq<string>,
    upvotes: int,
    assignedTo: Option<string>,
    resolvedAt: Option<nat>,
    createdAt: nat,
    updatedAt: nat)

  /** `RequestData` as `create` receives it; `None` stands for a missing property. */
  datatype NewRequest = NewRequest(
    userId: string,
    categoryId: Option<string>,
    title: string,
    description: string,
    priority: Priority,
    isAnonymous: Option<bool>,
    photos: Option<seq<string>>)

  /** The row `create` inserts: always 'pending', anonymous only when asked, the category dropped. */
  function NewRow(input: NewRequest, id: string, now: nat): RequestRow {
    RequestRow(id, input.userId, None, input.title, input.description, input.priority, "pending",
               input.isAnonymous == Some(true), input.photos.GetOr([]), 0, None, None, now, now)
  }

  lemma NewRowFacts(input: NewRequest, id: string, now: nat)
    ensures var r := NewRow(input, id, now);
            r.status == "pending" && r.categoryId.None? && r.upvotes == 0 && r.resolvedAt.None? &&
            (r.isAnonymous <==> input.isAnonymous == Some(true)) &&
            (input.photos.None? ==> r.photos == []) && (input.photos.Some? ==> r.photos == input.photos.value) &&
            r.userId == input.userId && r.title == input.title && r.description == input.description &&
            r.priority == input.priority
  {
  }

  // ---------------------------------------------------------------------------
  // Reads

  /** A request with its author's `full_name` and `room_number` from the left join. */
  datatype Listed = Listed(request: RequestRow, fullName: Option<string>, roomNumber: Option<string>)

  /** The author row the join finds, active or not. */
  function Author(users: seq<UserRow>, userId: string): (r: Option<UserRow>)
    ensures r.Some? ==> r.value in users && r.value.id == userId
    ensures r.None? <==> forall u :: u in users ==> u.id != userId
  {
    if users == [] then None
    else if users[0].id == userId then Some(users[0])
    else Author(users[1..], userId)
  }

  function ListedOf(users: seq<UserRow>, r: RequestRow): Listed {
    match Author(users, r.userId)
    case None => Listed(r, None, None)
    case Some(u) => Listed(r, Some(u.fullName), u.roomNumber)
  }

  function NewestKey(r: RequestRow): seq<int> {
    [0 - r.createdAt as int]
  }

  /** `ORDER BY created_at DESC LIMIT limit OFFSET offset`. */
  function Page(rows: seq<RequestRow>, limit: nat, offset: nat): seq<RequestRow> {
    var sorted := SortBy(rows, NewestKey);
    var from := if offset <= |sorted| then offset else |sorted|;
    var to := if from + limit <= |sorted| then from + limit else |sorted|;
    sorted[from..to]
  }

  /** `findAll(limit = 50, offset = 0)`. */
  function FindAll(users: seq<UserRow>, rows: seq<RequestRow>, limit: Option<nat>, offset: Option<nat>): (r: seq<Listed>)
    ensures |r| == |Page(rows, limit.GetOr(50), offset.GetOr(0))|
    ensures forall i :: 0 <= i < |r| ==> r[i] == ListedOf(users, Page(rows, limit.GetOr(50), offset.GetOr(0))[i])
  {
    var page := Page(rows, limit.GetOr(50), offset.GetOr(0));
    seq(|page|, i requires 0 <= i < |page| => ListedOf(users, page[i]))
  }

  /** Sorting on the negated creation time puts the newest request first. */
  lemma NewestFirst(rows: seq<RequestRow>)
    ensures var sorted := SortBy(rows, NewestKey);
            forall i, j :: 0 <= i < j < |sorted| ==> sorted[i].createdAt >= sorted[j].createdAt
  {
    var sorted := SortBy(rows, NewestKey);
    forall i, j | 0 <= i < j < |sorted| ensures sorted[i].createdAt >= sorted[j].createdAt {
      assert LexLe(NewestKey(sorted[i]), NewestKey(sorted[j]));
    }
  }

  /** A page is a window of the sorted table. */
  lemma PageWindow(rows: seq<RequestRow>, limit: nat, offset: nat)
    ensures var sorted := SortBy(rows, NewestKey);
            var p := Page(rows, limit, offset);
            var from := if offset <= |sorted| then offset else |sorted|;
            |p| <= limit && from + |p| <= |sorted| &&
            (forall i :: 0 <= i < |p| ==> p[i] == sorted[from + i]) &&
            (offset == 0 && |rows| <= limit ==> p == sorted)
  {
  }

  /**
   * A page holds at most `limit` requests, newest first, all from the table; with the
   * defaults and at most 50 requests it is the whole table, newest first.
   */
  lemma PageFacts(rows: seq<RequestRow>, limit: nat, offset: nat)
    ensures var p := Page(rows, limit, offset);
            |p| <= limit &&
            (forall i, j :: 0 <= i < j < |p| ==> p[i].createdAt >= p[j].createdAt) &&
            (forall r :: r in p ==> r in rows) &&
            (offset == 0 && |rows| <= limit ==> p == SortBy(rows, NewestKey))
  {
    var sorted := SortBy(rows, NewestKey);
    var p := Page(rows, limit, offset);
    PageWindow(rows, limit, offset);
    NewestFirst(rows);
    forall r | r in p ensures r in rows {
      assert r in sorted;
      assert r in multiset(sorted);
    }
  }

  /** `findById`: the request with its author's name and room, or `null`. */
  function FindById(users: seq<UserRow>, rows: seq<RequestRow>, id: string): (r: Option<Listed>)
    ensures r.None? <==> forall q :: q in rows ==> q.id != id
    ensures r.Some? ==> r.value.request in rows && r.value.request.id == id && r.value == ListedOf(users, r.value.request)
  {
    if rows == [] then None
    else if rows[0].id == id then Some(ListedOf(users, rows[0]))
    else FindById(users, rows[1..], id)
  }

  // ---------------------------------------------------------------------------
  // Updates

  /** `SET status = $1, resolved_at = CASE WHEN $1 = 'resolved' THEN NOW() ELSE resolved_at END`. */
  function SetStatus(rows: seq<RequestRow>, id: string, status: string, now: nat): (r: seq<RequestRow>)
    ensures |r| == |rows|
  {
    seq(|rows|, i requires 0 <= i < |rows| =>
      if rows[i].id == id then
        rows[i].(status := status, resolvedAt := if status == "resolved" then Some(now) else rows[i].resolvedAt,
                 updatedAt := now)
      else rows[i])
  }

  /**
   * The status changes on the matching rows alone; `resolved_at` becomes now exactly when the
   * new status is 'resolved' and is otherwise kept, and nothing else moves but `updated_at`.
   */
  lemma SetStatusFacts(rows: seq<RequestRow>, id: string, status: string, now: nat)
    ensures var r := SetStatus(rows, id, status, now);
            forall i :: 0 <= i < |rows| ==>
              (rows[i].id != id ==> r[i] == rows[i]) &&
              (rows[i].id == id ==>
                 r[i].status == status && r[i].updatedAt == now &&
                 (r[i].resolvedAt == Some(now) || r[i].resolvedAt == rows[i].resolvedAt) &&
                 (status == "resolved" ==> r[i].resolvedAt == Some(now)) &&
                 (status != "resolved" ==> r[i].resolvedAt == rows[i].resolvedAt) &&
                 r[i].(status := rows[i].status, resolvedAt := rows[i].resolvedAt, updatedAt := rows[i].updatedAt) == rows[i])
  {
  }

  /** `SET upvotes = upvotes + 1`. */
  function AddUpvote(rows: seq<RequestRow>, id: string, now: nat): (r: seq<RequestRow>)
    ensures |r| == |rows|
  {
    seq(|rows|, i requires 0 <= i < |rows| =>
      if rows[i].id == id then rows[i].(upvotes := rows[i].upvotes + 1, updatedAt := now) else rows[i])
  }

  /** An upvote adds exactly one to the matching rows and changes nothing else but `updated_at`. */
  lemma AddUpvoteFacts(rows: seq<RequestRow>, id: string, now: nat)
    ensures var r := AddUpvote(rows, id, now);
            forall i :: 0 <= i < |rows| ==>
              (rows[i].id != id ==> r[i] == rows[i]) &&
              (rows[i].id == id ==> r[i].upvotes == rows[i].upvotes + 1 && r[i].updatedAt == now &&
                                    r[i].(upvotes := rows[i].upvotes, updatedAt := rows[i].updatedAt) == rows[i])
  {
  }

  /** `RETURNING ...` of an `UPDATE ... WHERE id = $n`: the first updated row, or `undefined`. */
  function Returning(rows: seq<RequestRow>, id: string): (r: Option<RequestRow>)
    ensures r.None? <==> forall q :: q in rows ==> q.id != id
    ensures r.Some? ==> r.value in rows && r.value.id == id
  {
    if rows == [] then None
    else if rows[0].id == id then Some(rows[0])
    else Returning(rows[1..], id)
  }

  /**
   * What `updateStatus` and `incrementUpvotes` return is the updated request: it carries the
   * new status, or one more upvote than some matching row had.
   */
  lemma ReturnsUpdated(rows: seq<RequestRow>, id: string, status: string, now: nat)
    ensures var r := Returning(SetStatus(rows, id, status, now), id);
            (r.None? <==> forall q :: q in rows ==> q.id != id) &&
            (r.Some? ==> r.value.status == status && r.value.updatedAt == now)
    ensures var r := Returning(AddUpvote(rows, id, now), id);
            (r.None? <==> forall q :: q in rows ==> q.id != id) &&
            (r.Some? ==> r.value.updatedAt == now && exists q :: q in rows && q.id == id && r.value.upvotes == q.upvotes + 1)
  {
    var s := SetStatus(rows, id, status, now);
    var a := AddUpvote(rows, id, now);
    var r1 := Returning(s, id);
    var r2 := Returning(a, id);
    if r1.Some? {
      var i :| 0 <= i < |s| && s[i] == r1.value;
    }
    if r2.Some? {
      var i :| 0 <= i < |a| && a[i] == r2.value;
      assert rows[i] in rows;
    }
    if exists q :: q in rows && q.id == id {
      var q :| q in rows && q.id == id;
      var i :| 0 <= i < |rows| && rows[i] == q;
      assert s[i] in s && a[i] in a;
    }
  }

  /** An update of an absent request changes nothing and returns nothing. */
  lemma AbsentRequest(rows: seq<RequestRow>, id: string, status: string, now: nat)
    requires forall q :: q in rows ==> q.id != id
    ensures SetStatus(rows, id, status, now) == rows && Returning(SetStatus(rows, id, status, now), id).None?
    ensures AddUpvote(rows, id, now) == rows && Returning(AddUpvote(rows, id, now), id).None?
  {
    assert forall i :: 0 <= i < |rows| ==> rows[i] in rows;
  }

  // ---------------------------------------------------------------------------
  // The table

  class RequestTable {
    var rows: seq<RequestRow>

    constructor ()
      ensures rows == []
    {
      rows := [];
    }

    /** `create`: a failing insert passes its error on and stores nothing. */
    method Create(input: NewRequest, id: string, now: nat, insertError: Option<string>)
      returns (r: Result<RequestRow, string>)
      modifies this
      ensures insertError.Some? ==> r == Err(insertError.value) && rows == old(rows)
      ensures insertError.None? ==> r == Ok(NewRow(input, id, now)) && rows == old(rows) + [r.value]
    {
      if insertError.Some? {
        return Err(insertError.value);
      }
      var row := NewRow(input, id, now);
      rows := rows + [row];
      r := Ok(row);
    }

    /** `updateStatus`; `adminNotes` is accepted and ignored. */
    method UpdateStatus(id: string, status: string, adminNotes: Option<string>, now: nat)
      returns (r: Option<RequestRow>)
      modifies this
      ensures rows == SetStatus(old(rows), id, status, now)
      ensures r == Returning(rows, id)
    {
      rows := SetStatus(rows, id, status, now);
      r := Returning(rows, id);
    }

    /** `incrementUpvotes`. */
    method IncrementUpvotes(id: string, now: nat) returns (r: Option<RequestRow>)
      modifies this
      ensures rows == AddUpvote(old(rows), id, now)
      ensures r == Returning(rows, id)
    {
      rows := AddUpvote(rows, id, now);
      r := Returning(rows, id);
    }
  }
}
