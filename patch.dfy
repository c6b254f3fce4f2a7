/**
 * The partial update both `UserModel.updateById` and `SchoolModel.updateById` build: the
 * request's keys are converted with `camelToSnake`, those naming a whitelisted column with
 * a defined value become `column = $n` assignments numbered from 1 in input order, and the
 * row's id is bound last.
 */
module Patch {
  import opened Wrappers
  import opened Text

  // ---------------------------------------------------------------------------
  // Keys to columns

  /** `camelToSnake`: every ASCII capital becomes '_' and its lower-case letter. */
  function CamelToSnake(key: string): (column: string)
    ensures IsLowerCase(column)
    ensures |column| >= |key|
    ensures |column| == |key| <==> IsLowerCase(key)
  {
    if key == [] then []
    else
      var rest := CamelToSnake(key[1..]);
      if IsUpper(key[0]) then ['_', LowerChar(key[0])] + rest
      else
        assert IsLowerCase(key) <==> IsLowerCase(key[1..]) by {
          assert forall i :: 0 < i < |key| ==> key[i] == key[1..][i - 1];
        }
        [key[0]] + rest
  }

  /** A key is its own column name exactly when it has no capitals. */
  lemma {:induction false} CamelToSnakeFixed(key: string)
    ensures CamelToSnake(key) == key <==> IsLowerCase(key)
    decreases |key|
  {
    if key != [] && !IsUpper(key[0]) {
      CamelToSnakeFixed(key[1..]);
      if IsLowerCase(key) {
        assert IsLowerCase(key[1..]);
        assert CamelToSnake(key) == [key[0]] + key[1..] == key;
      }
    }
  }

  /** Splitting a key splits its column name. */
  lemma {:induction false} CamelToSnakeAppend(a: string, b: string)
    ensures CamelToSnake(a + b) == CamelToSnake(a) + CamelToSnake(b)
    decreases |a|
  {
    if a == [] {
      assert a + b == b;
    } else {
      assert (a + b)[0] == a[0] && (a + b)[1..] == a[1..] + b;
      CamelToSnakeAppend(a[1..], b);
      var head := if IsUpper(a[0]) then ['_', LowerChar(a[0])] else [a[0]];
      assert CamelToSnake(a) == head + CamelToSnake(a[1..]);
      assert CamelToSnake(a + b) == head + CamelToSnake(a[1..] + b);
    }
  }

  /**
   * Two distinct keys can name one column (`fullName` and `full_name`, say), so one request
   * can assign a column twice.
   */
  lemma KeysCollide(a: string, c: char, b: string)
    requires IsUpper(c)
    ensures a + [c] + b != a + ['_', LowerChar(c)] + b
    ensures CamelToSnake(a + [c] + b) == CamelToSnake(a + ['_', LowerChar(c)] + b)
  {
    assert (a + [c] + b)[|a|] == c;
    assert (a + ['_', LowerChar(c)] + b)[|a|] == '_';
    var upper := [c] + b;
    var spelled := ['_', LowerChar(c)] + b;
    assert a + [c] + b == a + upper;
    assert a + ['_', LowerChar(c)] + b == a + spelled;
    CamelToSnakeAppend(a, upper);
    CamelToSnakeAppend(a, spelled);
    CapitalSpelled(c, b);
  }

  lemma CapitalSpelled(c: char, b: string)
    requires IsUpper(c)
    ensures CamelToSnake([c] + b) == CamelToSnake(['_', LowerChar(c)] + b)
  {
    var lower := LowerChar(c);
    CamelToSnakeCons(c, b);
    PairPrefix('_', lower, b);
    CamelToSnakeCons('_', [lower] + b);
    CamelToSnakeCons(lower, b);
    PairPrefix('_', lower, CamelToSnake(b));
  }

  lemma PairPrefix<T>(x: T, y: T, s: seq<T>)
    ensures [x, y] + s == [x] + ([y] + s)
  {
  }

  lemma CamelToSnakeCons(head: char, tail: string)
    ensures CamelToSnake([head] + tail) ==
            (if IsUpper(head) then ['_', LowerChar(head)] else [head]) + CamelToSnake(tail)
  {
    assert ([head] + tail)[0] == head && ([head] + tail)[1..] == tail;
  }

  // ---------------------------------------------------------------------------
  // The assignments

  /** One `[key, value]` of `Object.entries(updateData)`; `None` stands for `undefined`. */
  datatype Entry<V> = Entry(key: string, value: Option<V>)

  /** `column = $placeholder` in the `SET` list. */
  datatype Assignment = Assignment(column: string, placeholder: nat)

  /** A bound parameter: the value itself, or its `JSON.stringify` for the JSON key. */
  datatype Param<V> = Plain(v: V) | Json(v: V)

  predicate Qualifies<V>(e: Entry<V>, allowed: seq<string>) {
    CamelToSnake(e.key) in allowed && e.value.Some?
  }

  /** The entries that become assignments, in input order. */
  function Kept<V>(entries: seq<Entry<V>>, allowed: seq<string>): (kept: seq<Entry<V>>)
    ensures |kept| <= |entries|
    ensures forall i :: 0 <= i < |kept| ==> kept[i] in entries && Qualifies(kept[i], allowed)
    decreases |entries|
  {
    if entries == [] then []
    else
      var init := entries[..|entries| - 1];
      var last := entries[|entries| - 1];
      Kept(init, allowed) + (if Qualifies(last, allowed) then [last] else [])
  }

  /** An entry is kept exactly when it qualifies. */
  lemma {:induction false} KeptExactly<V>(entries: seq<Entry<V>>, allowed: seq<string>, e: Entry<V>)
    ensures e in Kept(entries, allowed) <==> e in entries && Qualifies(e, allowed)
    decreases |entries|
  {
    if entries != [] {
      var init := entries[..|entries| - 1];
      assert entries == init + [entries[|entries| - 1]];
      KeptExactly(init, allowed, e);
    }
  }

  /** Keeping commutes with concatenation, so kept entries stay in input order. */
  lemma {:induction false} KeptAppend<V>(a: seq<Entry<V>>, b: seq<Entry<V>>, allowed: seq<string>)
    ensures Kept(a + b, allowed) == Kept(a, allowed) + Kept(b, allowed)
    decreases |b|
  {
    if b == [] {
      assert a + b == a;
    } else {
      var init := b[..|b| - 1];
      assert (a + b)[..|a + b| - 1] == a + init;
      KeptAppend(a, init, allowed);
    }
  }

  function ParamOf<V>(e: Entry<V>, jsonKey: string): Param<V>
    requires e.value.Some?
  {
    if e.key == jsonKey then Json(e.value.value) else Plain(e.value.value)
  }

  /** The `SET` list and its values, as the loop leaves them for the first `n` kept entries. */
  ghost predicate Built<V>(kept: seq<Entry<V>>, allowed: seq<string>, jsonKey: string,
                     updates: seq<Assignment>, values: seq<Param<V>>, paramCount: nat)
  {
    (forall i :: 0 <= i < |kept| ==> kept[i].value.Some?) &&
    |updates| == |kept| && |values| == |kept| && paramCount == |kept| + 1 &&
    forall i :: 0 <= i < |kept| ==>
      updates[i] == Assignment(CamelToSnake(kept[i].key), i + 1) && values[i] == ParamOf(kept[i], jsonKey)
  }

  lemma KeptStep<V>(entries: seq<Entry<V>>, j: nat, allowed: seq<string>)
    requires j < |entries|
    ensures Kept(entries[..j + 1], allowed) ==
            Kept(entries[..j], allowed) + (if Qualifies(entries[j], allowed) then [entries[j]] else [])
  {
    assert entries[..j + 1][..j] == entries[..j];
  }

  lemma BuiltExtend<V>(kept: seq<Entry<V>>, allowed: seq<string>, jsonKey: string,
                       updates: seq<Assignment>, values: seq<Param<V>>, paramCount: nat, e: Entry<V>)
    requires Built(kept, allowed, jsonKey, updates, values, paramCount)
    requires e.value.Some?
    ensures Built(kept + [e], allowed, jsonKey, updates + [Assignment(CamelToSnake(e.key), paramCount)],
                  values + [ParamOf(e, jsonKey)], paramCount + 1)
  {
  }

  /**
   * The loop of `updateById`: for each qualifying entry, `column = $paramCount` joins the
   * `SET` list, its value (JSON-encoded for `jsonKey`) joins the values, and `paramCount`
   * moves on; the id's placeholder is the final `paramCount`.
   */
  method BuildSetClause<V>(entries: seq<Entry<V>>, allowed: seq<string>, jsonKey: string)
    returns (updates: seq<Assignment>, values: seq<Param<V>>, paramCount: nat)
    ensures Built(Kept(entries, allowed), allowed, jsonKey, updates, values, paramCount)
  {
    updates := [];
    values := [];
    paramCount := 1;
    for j := 0 to |entries|
      invariant Built(Kept(entries[..j], allowed), allowed, jsonKey, updates, values, paramCount)
    {
      var e := entries[j];
      var column := CamelToSnake(e.key);
      KeptStep(entries, j, allowed);
      if column in allowed && e.value.Some? {
        BuiltExtend(Kept(entries[..j], allowed), allowed, jsonKey, updates, values, paramCount, e);
        updates := updates + [Assignment(column, paramCount)];
        if e.key == jsonKey {
          values := values + [Json(e.value.value)];
        } else {
          values := values + [Plain(e.value.value)];
        }
        paramCount := paramCount + 1;
      }
    }
    assert entries[..|entries|] == entries;
  }

  // ---------------------------------------------------------------------------
  // Running the statement

  predicate DistinctColumns(updates: seq<Assignment>) {
    forall i, j :: 0 <= i < j < |updates| ==> updates[i].column != updates[j].column
  }

  /**
   * What the store does with `SET updates ... WHERE id = $idPlaceholder` and the bound
   * values on one row: `None` when a column is assigned twice, a placeholder is out of range,
   * or `assign` refuses a value.
   */
  function Execute<R, V>(row: R, updates: seq<Assignment>, values: seq<Param<V>>,
                         assign: (R, string, Param<V>) -> Option<R>): Option<R>
    decreases |updates|
  {
    if !DistinctColumns(updates) then None
    else if updates == [] then Some(row)
    else
      var u := updates[0];
      if u.placeholder < 1 || u.placeholder > |values| then None
      else
        match assign(row, u.column, values[u.placeholder - 1])
        case None => None
        case Some(next) => Execute(next, updates[1..], values, assign)
  }

  /** The reference meaning of an update: each kept entry assigned to its column in turn. */
  function ApplyEntries<R, V>(row: R, kept: seq<Entry<V>>, jsonKey: string,
                              assign: (R, string, Param<V>) -> Option<R>): Option<R>
    requires forall i :: 0 <= i < |kept| ==> kept[i].value.Some?
    decreases |kept|
  {
    if kept == [] then Some(row)
    else
      match assign(row, CamelToSnake(kept[0].key), ParamOf(kept[0], jsonKey))
      case None => None
      case Some(next) => ApplyEntries(next, kept[1..], jsonKey, assign)
  }

  predicate DistinctKeptColumns<V>(kept: seq<Entry<V>>) {
    forall i, j :: 0 <= i < j < |kept| ==> CamelToSnake(kept[i].key) != CamelToSnake(kept[j].key)
  }

  /**
   * The numbering is right: running the built statement, with the id bound after the
   * values, assigns every kept entry's value to that entry's column, and fails exactly when
   * two kept entries name one column.
   */
  lemma ExecuteBuilt<R, V>(row: R, kept: seq<Entry<V>>, allowed: seq<string>, jsonKey: string,
                           updates: seq<Assignment>, values: seq<Param<V>>, paramCount: nat, id: V,
                           assign: (R, string, Param<V>) -> Option<R>)
    requires Built(kept, allowed, jsonKey, updates, values, paramCount)
    ensures (values + [Plain(id)])[paramCount - 1] == Plain(id)
    ensures Execute(row, updates, values + [Plain(id)], assign) ==
            if DistinctKeptColumns(kept) then ApplyEntries(row, kept, jsonKey, assign) else None
  {
    assert DistinctColumns(updates) <==> DistinctKeptColumns(kept) by {
      assert forall i :: 0 <= i < |kept| ==> updates[i].column == CamelToSnake(kept[i].key);
    }
    if DistinctKeptColumns(kept) {
      ExecuteShifted(row, kept, jsonKey, updates, values + [Plain(id)], 0, assign);
      assert updates[0..] == updates && kept[0..] == kept;
    }
  }

  lemma {:induction false} ExecuteShifted<R, V>(row: R, kept: seq<Entry<V>>, jsonKey: string,
                                                updates: seq<Assignment>, params: seq<Param<V>>, k: nat,
                                                assign: (R, string, Param<V>) -> Option<R>)
    requires forall i :: 0 <= i < |kept| ==> kept[i].value.Some?
    requires |updates| == |kept| <= |params| && k <= |kept|
    requires forall i :: 0 <= i < |kept| ==>
      updates[i] == Assignment(CamelToSnake(kept[i].key), i + 1) && params[i] == ParamOf(kept[i], jsonKey)
    requires DistinctColumns(updates)
    ensures Execute(row, updates[k..], params, assign) == ApplyEntries(row, kept[k..], jsonKey, assign)
    decreases |kept| - k
  {
    var rest := updates[k..];
    assert DistinctColumns(rest) by {
      forall i, j | 0 <= i < j < |rest| ensures rest[i].column != rest[j].column {
        assert rest[i] == updates[k + i] && rest[j] == updates[k + j];
      }
    }
    if k < |kept| {
      assert rest[0] == updates[k] && kept[k..][0] == kept[k];
      assert rest[1..] == updates[k + 1..] && kept[k..][1..] == kept[k + 1..];
      match assign(row, CamelToSnake(kept[k].key), ParamOf(kept[k], jsonKey))
      case None =>
      case Some(next) =>
        ExecuteShifted(next, kept, jsonKey, updates, params, k + 1, assign);
    }
  }
}
