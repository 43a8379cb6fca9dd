/** Small value types and sequence helpers shared by the backend and frontend models. */
module Common {

  datatype Option<+T> = None | Some(value: T)

  /** The outcome of an operation that can fail with an error of type `E`. */
  datatype Result<+T, +E> = Ok(value: T) | Err(error: E) {
    predicate IsFailure() { Err? }

    function PropagateFailure<U>(): Result<U, E>
      requires Err?
    {
      Err(error)
    }

    function Extract(): T
      requires Ok?
    {
      value
    }
  }

  /** No element occurs twice. */
  ghost predicate NoDuplicates<T>(s: seq<T>) {
    forall i, j :: 0 <= i < j < |s| ==> s[i] != s[j]
  }

  /** Number of occurrences of `x` in `s`. */
  function Count<T(==)>(s: seq<T>, x: T): nat {
    if |s| == 0 then 0 else (if s[0] == x then 1 else 0) + Count(s[1..], x)
  }

  /** Position of the first element of `s` equal to `x`, if there is one. */
  function IndexOf<T(==)>(s: seq<T>, x: T): (r: Option<nat>)
    ensures r.Some? ==> r.value < |s| && s[r.value] == x && x !in s[..r.value]
    ensures r.None? <==> x !in s
  {
    if |s| == 0 then None
    else if s[0] == x then Some(0)
    else match IndexOf(s[1..], x)
      case None => None
      case Some(i) =>
        assert s[1..][..i] == s[1..i + 1];
        Some(i + 1)
  }

  /** The lookup of a get-or-create: scans `s` from the front for the first row equal to `x`. */
  method Find<T(==)>(s: seq<T>, x: T) returns (r: Option<nat>)
    ensures r == IndexOf(s, x)
  {
    var i := 0;
    while i < |s|
      invariant 0 <= i <= |s|
      invariant x !in s[..i]
    {
      if s[i] == x {
        return Some(i);
      }
      assert s[..i + 1] == s[..i] + [s[i]];
      i := i + 1;
    }
    assert s[..i] == s;
    return None;
  }

  /**
   * A lookup followed by an insert only if nothing matched: the table
   * after the call, and the position of the matching row.
   */
  function GetOrCreate<T(==)>(s: seq<T>, x: T): (r: (seq<T>, nat))
    ensures r.1 < |r.0| && r.0[r.1] == x
    ensures x in s ==> r.0 == s && r.1 == IndexOf(s, x).value
    ensures x !in s ==> r.0 == s + [x] && r.1 == |s|
  {
    match IndexOf(s, x)
    case Some(i) => (s, i)
    case None => (s + [x], |s|)
  }

  lemma {:induction false} CountAppend<T>(s: seq<T>, t: seq<T>, x: T)
    ensures Count(s + t, x) == Count(s, x) + Count(t, x)
  {
    if |s| == 0 {
      assert s + t == t;
    } else {
      assert (s + t)[1..] == s[1..] + t;
      CountAppend(s[1..], t, x);
    }
  }

  lemma {:induction false} CountAbsent<T>(s: seq<T>, x: T)
    requires x !in s
    ensures Count(s, x) == 0
  {
    if |s| > 0 {
      CountAbsent(s[1..], x);
    }
  }

  /** In a table without duplicates, a row that is present occurs exactly once. */
  lemma {:induction false} CountNoDuplicates<T>(s: seq<T>, x: T)
    requires NoDuplicates(s)
    ensures Count(s, x) == (if x in s then 1 else 0)
  {
    if |s| > 0 {
      assert NoDuplicates(s[1..]) by {
        forall i, j | 0 <= i < j < |s[1..]| ensures s[1..][i] != s[1..][j] {
          assert s[1..][i] == s[i + 1] && s[1..][j] == s[j + 1];
        }
      }
      CountNoDuplicates(s[1..], x);
      if s[0] == x {
        assert x !in s[1..] by {
          forall k | 0 <= k < |s[1..]| ensures s[1..][k] != x {
            assert s[1..][k] == s[k + 1];
          }
        }
      } else {
        assert x in s <==> x in s[1..] by {
          assert s == [s[0]] + s[1..];
        }
      }
    }
  }

  /** A get-or-create never introduces a duplicate row. */
  lemma GetOrCreateNoDuplicates<T>(s: seq<T>, x: T)
    requires NoDuplicates(s)
    ensures NoDuplicates(GetOrCreate(s, x).0)
  {
    if x !in s {
      var r := s + [x];
      forall i, j | 0 <= i < j < |r| ensures r[i] != r[j] {
        if j == |s| {
          assert r[i] == s[i];
        }
      }
    }
  }

  /** Getting the same row twice changes nothing the second time. */
  lemma GetOrCreateIdempotent<T>(s: seq<T>, x: T)
    ensures GetOrCreate(GetOrCreate(s, x).0, x) == GetOrCreate(s, x)
  {
    var t := GetOrCreate(s, x).0;
    if x !in s {
      assert IndexOf(t, x) == Some(|s|);
    }
  }

  /** After a get-or-create the row occurs as often as before, and at least once. */
  lemma GetOrCreateCount<T>(s: seq<T>, x: T)
    ensures Count(GetOrCreate(s, x).0, x) == (if x in s then Count(s, x) else 1)
  {
    if x !in s {
      CountAppend(s, [x], x);
      CountAbsent(s, x);
      assert [x][1..] == [];
    }
  }

  /** The positions of the rows of `s` that `matches` accepts, in increasing order. */
  function MatchingPositions<T>(s: seq<T>, matches: T -> bool): (r: seq<nat>)
    ensures forall k :: 0 <= k < |r| ==> r[k] < |s| && matches(s[r[k]])
    ensures forall j :: 0 <= j < |s| && matches(s[j]) ==> j in r
    ensures forall a, b :: 0 <= a < b < |r| ==> r[a] < r[b]
  {
    if |s| == 0 then []
    else
      var init := s[..|s| - 1];
      var r := MatchingPositions(init, matches);
      assert forall j :: 0 <= j < |init| ==> init[j] == s[j];
      r + (if matches(s[|s| - 1]) then [|s| - 1] else [])
  }

  /** The query of a filtered get: scans `s` from the front and collects every matching position. */
  method FindAll<T>(s: seq<T>, matches: T -> bool) returns (r: seq<nat>)
    ensures r == MatchingPositions(s, matches)
  {
    r := [];
    var i := 0;
    while i < |s|
      invariant 0 <= i <= |s|
      invariant r == MatchingPositions(s[..i], matches)
    {
      assert s[..i + 1][..i] == s[..i];
      if matches(s[i]) {
        r := r + [i];
      }
      i := i + 1;
    }
    assert s[..i] == s;
  }

  /** Django's `MultipleObjectsReturned`: the filter of a get matched more than one row. */
  datatype LookupError = MultipleObjectsReturned

  /**
   * `get_or_create` with a filter: the one row the filter matches, or
   * `row` appended when none does; more than one match is an error and
   * leaves the table alone.
   */
  function GetOrCreateWhere<T>(s: seq<T>, matches: T -> bool, row: T): (r: Result<(seq<T>, nat), LookupError>)
    ensures r.Ok? ==> r.value.1 < |r.value.0|
  {
    var found := MatchingPositions(s, matches);
    if |found| == 0 then Ok((s + [row], |s|))
    else if |found| == 1 then Ok((s, found[0]))
    else Err(MultipleObjectsReturned)
  }

  /** Appending a row adds its position when it matches, and changes nothing before it. */
  lemma MatchingPositionsAppend<T>(s: seq<T>, matches: T -> bool, x: T)
    ensures MatchingPositions(s + [x], matches) == MatchingPositions(s, matches) + (if matches(x) then [|s|] else [])
  {
    assert (s + [x])[..|s|] == s;
  }

  /** No matching row: no position. */
  lemma {:induction false} MatchingPositionsNone<T>(s: seq<T>, matches: T -> bool)
    requires forall j :: 0 <= j < |s| ==> !matches(s[j])
    ensures MatchingPositions(s, matches) == []
  {
    if |s| > 0 {
      var init := s[..|s| - 1];
      assert forall j :: 0 <= j < |init| ==> init[j] == s[j];
      MatchingPositionsNone(init, matches);
    }
  }

  /** Exactly the row at `j` matches: its position alone. */
  lemma {:induction false} MatchingPositionsOne<T>(s: seq<T>, matches: T -> bool, j: nat)
    requires j < |s| && matches(s[j])
    requires forall k :: 0 <= k < |s| && matches(s[k]) ==> k == j
    ensures MatchingPositions(s, matches) == [j]
  {
    var init := s[..|s| - 1];
    assert forall k :: 0 <= k < |init| ==> init[k] == s[k];
    if j == |s| - 1 {
      MatchingPositionsNone(init, matches);
    } else {
      MatchingPositionsOne(init, matches, j);
    }
  }

  /** Two matching rows: at least two positions. */
  lemma {:induction false} MatchingPositionsTwo<T>(s: seq<T>, matches: T -> bool, i: nat, j: nat)
    requires i < j < |s| && matches(s[i]) && matches(s[j])
    ensures |MatchingPositions(s, matches)| >= 2
  {
    var init := s[..|s| - 1];
    assert forall k :: 0 <= k < |init| ==> init[k] == s[k];
    if j == |s| - 1 {
      assert i in MatchingPositions(init, matches);
    } else {
      MatchingPositionsTwo(init, matches, i, j);
    }
  }

  /** When no row matches, the filtered get-or-create appends the new row. */
  lemma GetOrCreateWhereNone<T>(s: seq<T>, matches: T -> bool, row: T)
    requires forall j :: 0 <= j < |s| ==> !matches(s[j])
    ensures GetOrCreateWhere(s, matches, row) == Ok((s + [row], |s|))
  {
    MatchingPositionsNone(s, matches);
  }

  /** When exactly the row at `j` matches, the filtered get-or-create returns `j` and writes nothing. */
  lemma GetOrCreateWhereOne<T>(s: seq<T>, matches: T -> bool, row: T, j: nat)
    requires j < |s| && matches(s[j])
    requires forall k :: 0 <= k < |s| && matches(s[k]) ==> k == j
    ensures GetOrCreateWhere(s, matches, row) == Ok((s, j))
  {
    MatchingPositionsOne(s, matches, j);
  }

  /** When two rows match, the filtered get-or-create fails and writes nothing. */
  lemma GetOrCreateWhereTwo<T>(s: seq<T>, matches: T -> bool, row: T, i: nat, j: nat)
    requires i < j < |s| && matches(s[i]) && matches(s[j])
    ensures GetOrCreateWhere(s, matches, row) == Err(MultipleObjectsReturned)
  {
    MatchingPositionsTwo(s, matches, i, j);
  }

  /** The filter of a lookup on every column of `x`. */
  function EqualTo<T(==)>(x: T): T -> bool {
    y => y == x
  }

  /**
   * On a table without duplicate rows, a get-or-create filtered on equality
   * with the new row never raises, and it is `GetOrCreate`.
   */
  lemma GetOrCreateWhereEquality<T>(s: seq<T>, x: T)
    requires NoDuplicates(s)
    ensures GetOrCreateWhere(s, EqualTo(x), x) == Ok(GetOrCreate(s, x))
  {
    var matches := EqualTo(x);
    if x in s {
      var j := IndexOf(s, x).value;
      GetOrCreateWhereOne(s, matches, x, j);
    } else {
      GetOrCreateWhereNone(s, matches, x);
    }
  }

  /** A filtered get-or-create fails exactly when two rows match. */
  lemma GetOrCreateWhereFails<T>(s: seq<T>, matches: T -> bool, row: T)
    ensures GetOrCreateWhere(s, matches, row).Err? <==> exists i, j :: 0 <= i < j < |s| && matches(s[i]) && matches(s[j])
  {
    var found := MatchingPositions(s, matches);
    if |found| >= 2 {
      assert found[0] < found[1] && matches(s[found[0]]) && matches(s[found[1]]);
    }
    if exists i, j :: 0 <= i < j < |s| && matches(s[i]) && matches(s[j]) {
      var i, j :| 0 <= i < j < |s| && matches(s[i]) && matches(s[j]);
      GetOrCreateWhereTwo(s, matches, row, i, j);
    }
  }

  /** The row returned by a successful filtered get-or-create matches, given that the new row does. */
  lemma GetOrCreateWhereMatches<T>(s: seq<T>, matches: T -> bool, row: T)
    requires matches(row)
    requires GetOrCreateWhere(s, matches, row).Ok?
    ensures var (s', id) := GetOrCreateWhere(s, matches, row).value; matches(s'[id])
  {
  }

  /** Repeating a successful filtered get-or-create whose new row matches the filter changes nothing. */
  lemma GetOrCreateWhereIdempotent<T>(s: seq<T>, matches: T -> bool, row: T)
    requires matches(row)
    requires GetOrCreateWhere(s, matches, row).Ok?
    ensures var (s', id) := GetOrCreateWhere(s, matches, row).value;
            GetOrCreateWhere(s', matches, row) == Ok((s', id))
  {
    if |MatchingPositions(s, matches)| == 0 {
      MatchingPositionsAppend(s, matches, row);
    }
  }

  /** The error a serializer reports. */
  datatype ValidationError =
    | Required                      // a required field is missing
    | NotNull                       // a field that may not be null is null
    | Blank                         // a text field is empty after trimming
    | MaxLength(length: nat)        // a text field is longer than its column
    | MinValue(least: int)            // an integer below its column's range
    | MaxValue(most: int)             // an integer above its column's range
    | InvalidChoice(code: string)   // not one of the listed choice codes
    | InvalidDate                   // text that is not a date in the accepted format
    | InvalidDateTime               // text that is not a date-time
    | NotUnique(fields: seq<string>) // a unique-together validator found an equal row
    | NonField(message: string)     // raised by a serializer's own `validate`

  /** Python's `str.endswith`: `suffix` is the last part of `s`. */
  predicate EndsWith(s: string, suffix: string) {
    |suffix| <= |s| && s[|s| - |suffix|..] == suffix
  }
}
