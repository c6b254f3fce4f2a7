/**
 * `runMigrations`: the schema file split into statements, which run in order; an
 * "already exists" error is skipped and any other error ends the run with exit code 1.
 */
module Migrate {
  import opened Wrappers
  import opened Text
  import opened Tables

  // ---------------------------------------------------------------------------
  // Splitting the schema

  function TrimAll(parts: seq<string>): (r: seq<string>)
    ensures |r| == |parts|
    ensures forall i :: 0 <= i < |r| ==> r[i] == Trim(parts[i])
  {
    seq(|parts|, i requires 0 <= i < |parts| => Trim(parts[i]))
  }

  predicate NonEmpty(s: string) { |s| > 0 }

  /** The schema split on ';', each piece trimmed, empty pieces dropped. */
  function Statements(schema: string): seq<string> {
    Filter(TrimAll(Split(schema, ';')), NonEmpty)
  }

  /** A statement as the splitter leaves it: not empty, no ';', no surrounding whitespace. */
  predicate Clean(s: string) {
    |s| > 0 && ';' !in s && !IsSpace(s[0]) && !IsSpace(s[|s| - 1])
  }

  /** Trimming keeps a character of the text only. */
  lemma TrimWithin(s: string, c: char)
    requires c in Trim(s)
    ensures c in s
  {
    var t := TrimStart(s);
    assert c in TrimEnd(t);
    assert c in t;
  }

  lemma TrimmedEnds(s: string)
    requires |Trim(s)| > 0
    ensures !IsSpace(Trim(s)[0]) && !IsSpace(Trim(s)[|Trim(s)| - 1])
  {
    var t := TrimStart(s);
    assert Trim(s)[0] == t[0];
  }

  /** Every statement is clean. */
  lemma StatementsClean(schema: string)
    ensures forall s :: s in Statements(schema) ==> Clean(s)
  {
    var parts := Split(schema, ';');
    var trimmed := TrimAll(parts);
    forall s | s in Statements(schema)
      ensures Clean(s)
    {
      assert s in trimmed && NonEmpty(s);
      var i :| 0 <= i < |trimmed| && trimmed[i] == s;
      TrimmedEnds(parts[i]);
      if ';' in s {
        TrimWithin(parts[i], ';');
      }
    }
  }

  lemma TrimClean(s: string)
    requires Clean(s)
    ensures Trim(s) == s
  {
  }

  /** Splitting the joined statements gives the pieces back. */
  lemma {:induction false} SplitJoin(ss: seq<string>)
    requires |ss| >= 1
    requires forall i :: 0 <= i < |ss| ==> ';' !in ss[i]
    ensures Split(Join(ss, ';'), ';') == ss
    decreases |ss|
  {
    if |ss| == 1 {
      SplitWithout(ss[0], ';');
    } else {
      SplitJoin(ss[1..]);
      SplitAtFirst(ss[0], ';', Join(ss[1..], ';'));
    }
  }

  /** Clean statements joined with ';' split back into the same statements, in order. */
  lemma StatementsOfJoin(ss: seq<string>)
    requires |ss| >= 1
    requires forall i :: 0 <= i < |ss| ==> Clean(ss[i])
    ensures Statements(Join(ss, ';')) == ss
  {
    SplitJoin(ss);
    forall i | 0 <= i < |ss| ensures Trim(ss[i]) == ss[i] {
      TrimClean(ss[i]);
    }
    assert TrimAll(ss) == ss;
    KeepAll(ss);
  }

  lemma {:induction false} KeepAll(ss: seq<string>)
    requires forall i :: 0 <= i < |ss| ==> NonEmpty(ss[i])
    ensures Filter(ss, NonEmpty) == ss
    decreases |ss|
  {
    if ss != [] {
      KeepAll(ss[1..]);
    }
  }

  // ---------------------------------------------------------------------------
  // Running the statements

  /** What the database answers to a statement; an error may carry no code. */
  datatype Answer = Done | Error(code: Option<string>)

  /** Codes for an object that already exists: table (42P07), schema (42P06), other object (42710). */
  predicate AlreadyExists(code: Option<string>) {
    code == Some("42P07") || code == Some("42P06") || code == Some("42710")
  }

  /** The statement as sent: with ';' put back. */
  function Sent(s: string): string { s + ";" }

  predicate Fatal(a: Answer) { a.Error? && !AlreadyExists(a.code) }

  /** The first statement at or after `i` whose error ends the run. */
  function FirstFailure(statements: seq<string>, answer: (nat, string) -> Answer, i: nat): (r: Option<nat>)
    requires i <= |statements|
    ensures r.Some? ==> i <= r.value < |statements| && Fatal(answer(r.value, Sent(statements[r.value])))
    ensures forall j :: i <= j < (if r.Some? then r.value else |statements|) ==>
              !Fatal(answer(j, Sent(statements[j])))
    decreases |statements| - i
  {
    if i == |statements| then None
    else if Fatal(answer(i, Sent(statements[i]))) then Some(i)
    else FirstFailure(statements, answer, i + 1)
  }

  /**
   * The loop of `runMigrations`, with the database as the answer it gives to the `i`-th
   * statement sent: the statements are sent in order up to and including the first whose
   * error is not an "already exists" one, which makes the run fail.
   */
  method Execute(statements: seq<string>, answer: (nat, string) -> Answer)
    returns (executed: seq<string>, failed: bool)
    ensures var failure := FirstFailure(statements, answer, 0);
            var count := if failure.Some? then failure.value + 1 else |statements|;
            count <= |statements| &&
            |executed| == count &&
            (forall k :: 0 <= k < count ==> executed[k] == Sent(statements[k])) &&
            (failed <==> failure.Some?)
  {
    executed := [];
    for i := 0 to |statements|
      invariant |executed| == i
      invariant forall k :: 0 <= k < i ==> executed[k] == Sent(statements[k])
      invariant forall j :: 0 <= j < i ==> !Fatal(answer(j, Sent(statements[j])))
    {
      var sql := Sent(statements[i]);
      executed := executed + [sql];
      var reply := answer(i, sql);
      if reply.Error? && !AlreadyExists(reply.code) {
        var failure := FirstFailure(statements, answer, 0);
        assert failure.Some? && failure.value == i;
        return executed, true;
      }
    }
    failed := false;
  }

  /**
   * `runMigrations`: failing to connect or to read the schema ends the run before any
   * statement; otherwise the schema's statements are executed, and the exit code is 1
   * exactly when one failed.
   */
  method RunMigrations(schema: string, setupFault: bool, answer: (nat, string) -> Answer)
    returns (executed: seq<string>, exitCode: nat)
    ensures setupFault ==> executed == [] && exitCode == 1
    ensures !setupFault ==>
              var statements := Statements(schema);
              var failure := FirstFailure(statements, answer, 0);
              var count := if failure.Some? then failure.value + 1 else |statements|;
              count <= |statements| &&
              |executed| == count &&
              (forall k :: 0 <= k < count ==> executed[k] == Sent(statements[k])) &&
              (exitCode == 1 <==> failure.Some?) && (exitCode == 0 <==> failure.None?)
  {
    if setupFault {
      return [], 1;
    }
    var failed;
    executed, failed := Execute(Statements(schema), answer);
    exitCode := if failed then 1 else 0;
  }
}
