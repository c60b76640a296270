// The comparison of two observed record sets against an accepted criterion.
module Observations {
  import opened Wrappers

  // A field of a row: a JSON string, or anything else.
  datatype Json = Text(s: string) | NotText

  type Row = map<string, Json>

  datatype Envelope = Envelope(schema: string, start: int, end: int, complete: bool, watermark: int, rows: seq<Row>)

  datatype Rule = Rule(leftSchema: string, rightSchema: string, maxWindow: int,
                       joinField: string, valueField: string, expected: string)

  datatype Outcome = Inconclusive | Violated | Satisfied

  datatype Reason = WindowsDiffer | LeftKeysInvalid | RightRowsInvalid | RecordsViolate | NoInput | Incomplete | AllMeet

  datatype Evaluation = Evaluation(outcome: Outcome, matched: nat, missing: nat, mismatched: nat, reason: Reason)

  // The zero time.
  const NO_TIME := 0

  // A field that holds a string other than the empty one.
  function StringField(row: Row, field: string): Option<string> {
    if field in row && row[field].Text? && row[field].s != "" then Some(row[field].s) else None
  }

  predicate Comparable(rule: Rule, left: Envelope, right: Envelope) {
    && left.schema == rule.leftSchema && right.schema == rule.rightSchema
    && left.start != NO_TIME && left.start < left.end
    && left.start == right.start && left.end == right.end && left.end - left.start <= rule.maxWindow
  }

  predicate Covers(e: Envelope) { e.complete && e.watermark >= e.end }

  // --------------------------------------------------------------- what is valid

  predicate HasKey(rule: Rule, row: Row) { StringField(row, rule.joinField).Some? }

  predicate HasValue(rule: Rule, row: Row) { StringField(row, rule.valueField).Some? }

  function Key(rule: Rule, row: Row): string
    requires HasKey(rule, row)
  {
    StringField(row, rule.joinField).value
  }

  function Value(rule: Rule, row: Row): string
    requires HasValue(rule, row)
  {
    StringField(row, rule.valueField).value
  }

  // Every row has a key of its own.
  predicate Keyed(rule: Rule, rows: seq<Row>) {
    && (forall i | 0 <= i < |rows| :: HasKey(rule, rows[i]))
    && (forall i, j | 0 <= i < j < |rows| :: Key(rule, rows[i]) != Key(rule, rows[j]))
  }

  predicate Valued(rule: Rule, rows: seq<Row>) { forall i | 0 <= i < |rows| :: HasValue(rule, rows[i]) }

  function Keys(rule: Rule, rows: seq<Row>): set<string> {
    set i | 0 <= i < |rows| && HasKey(rule, rows[i]) :: Key(rule, rows[i])
  }

  function Values(rule: Rule, rows: seq<Row>): map<string, string>
    requires Keyed(rule, rows) && Valued(rule, rows)
  {
    if rows == [] then map[]
    else
      var last := rows[|rows| - 1];
      Values(rule, rows[..|rows| - 1])[Key(rule, last) := Value(rule, last)]
  }

  // ------------------------------------------------------------- what is counted

  predicate Matches(rule: Rule, values: map<string, string>, key: string) {
    key in values && values[key] == rule.expected
  }

  predicate Mismatches(rule: Rule, values: map<string, string>, key: string) {
    key in values && values[key] != rule.expected
  }

  function MatchedKeys(rule: Rule, keys: set<string>, values: map<string, string>): set<string> {
    set key | key in keys && Matches(rule, values, key)
  }

  function MissingKeys(keys: set<string>, values: map<string, string>): set<string> {
    set key | key in keys && key !in values
  }

  function MismatchedKeys(rule: Rule, keys: set<string>, values: map<string, string>): set<string> {
    set key | key in keys && Mismatches(rule, values, key)
  }

  function Judged(matched: nat, missing: nat, mismatched: nat, observed: nat, leftCovers: bool,
                  rightCovers: bool): Evaluation {
    if mismatched > 0 || (missing > 0 && rightCovers) then
      Evaluation(Violated, matched, missing, mismatched, RecordsViolate)
    else if observed == 0 then Evaluation(Inconclusive, matched, missing, mismatched, NoInput)
    else if !leftCovers || !rightCovers then Evaluation(Inconclusive, matched, missing, mismatched, Incomplete)
    else Evaluation(Satisfied, matched, missing, mismatched, AllMeet)
  }

  function Compared(rule: Rule, left: Envelope, right: Envelope): Evaluation {
    if !Comparable(rule, left, right) then Evaluation(Inconclusive, 0, 0, 0, WindowsDiffer)
    else if !Keyed(rule, left.rows) then Evaluation(Inconclusive, 0, 0, 0, LeftKeysInvalid)
    else if !Keyed(rule, right.rows) || !Valued(rule, right.rows) then
      Evaluation(Inconclusive, 0, 0, 0, RightRowsInvalid)
    else
      var keys, values := Keys(rule, left.rows), Values(rule, right.rows);
      Judged(|MatchedKeys(rule, keys, values)|, |MissingKeys(keys, values)|, |MismatchedKeys(rule, keys, values)|,
             |keys|, Covers(left), Covers(right))
  }

  // ------------------------------------------------------------------ the method

  method CollectKeys(rule: Rule, rows: seq<Row>) returns (keys: Option<set<string>>)
    ensures keys.Some? <==> Keyed(rule, rows)
    ensures keys.Some? ==> keys.value == Keys(rule, rows)
  {
    var seen: set<string> := {};
    for n := 0 to |rows|
      invariant Keyed(rule, rows[..n])
      invariant forall k :: k in seen <==> exists i | 0 <= i < n :: HasKey(rule, rows[i]) && Key(rule, rows[i]) == k
    {
      var field := StringField(rows[n], rule.joinField);
      if field.None? || field.value in seen {
        return None;
      }
      seen := seen + {field.value};
    }
    assert rows[..|rows|] == rows;
    return Some(seen);
  }

  lemma {:induction false} ValuesHaveKeys(rule: Rule, rows: seq<Row>)
    requires Keyed(rule, rows) && Valued(rule, rows)
    ensures Values(rule, rows).Keys == Keys(rule, rows)
  {
    if rows != [] {
      var n := |rows| - 1;
      ValuesHaveKeys(rule, rows[..n]);
      KeysGrow(rule, rows, n);
      assert rows[..n + 1] == rows;
    }
  }

  lemma {:induction false} KeysGrow(rule: Rule, rows: seq<Row>, n: nat)
    requires n < |rows| && HasKey(rule, rows[n])
    ensures Keys(rule, rows[..n + 1]) == Keys(rule, rows[..n]) + {Key(rule, rows[n])}
  {
    hide StringField;
  }

  lemma {:induction false} KeyedGrows(rule: Rule, rows: seq<Row>, n: nat)
    requires n < |rows| && Keyed(rule, rows[..n])
    ensures Keyed(rule, rows[..n + 1]) <==> HasKey(rule, rows[n]) && Key(rule, rows[n]) !in Keys(rule, rows[..n])
    ensures Keyed(rule, rows) ==> Keyed(rule, rows[..n + 1])
  {
    hide StringField;
    forall i | 0 <= i < n && HasKey(rule, rows[n]) && Key(rule, rows[i]) == Key(rule, rows[n])
      ensures Key(rule, rows[n]) in Keys(rule, rows[..n])
    {
      assert rows[..n][i] == rows[i];
    }
  }

  method CollectValues(rule: Rule, rows: seq<Row>) returns (values: Option<map<string, string>>)
    ensures values.Some? <==> Keyed(rule, rows) && Valued(rule, rows)
    ensures values.Some? ==> values.value == Values(rule, rows)
  {
    hide Keyed, Keys;
    var seen: map<string, string> := map[];
    assert rows[..0] == [] && Keyed(rule, []) by { NoRows(rule); }
    for n := 0 to |rows|
      invariant Keyed(rule, rows[..n]) && Valued(rule, rows[..n])
      invariant seen == Values(rule, rows[..n])
    {
      var key := StringField(rows[n], rule.joinField);
      var value := StringField(rows[n], rule.valueField);
      KeyedGrows(rule, rows, n);
      ValuesHaveKeys(rule, rows[..n]);
      if key.None? || value.None? || key.value in seen {
        return None;
      }
      seen := seen[key.value := value.value];
      assert rows[..n + 1][..n] == rows[..n];
    }
    assert rows[..|rows|] == rows;
    return Some(seen);
  }

  lemma NoRows(rule: Rule)
    ensures Keyed(rule, [])
  {
  }

  method CompareObservations(rule: Rule, left: Envelope, right: Envelope) returns (out: Evaluation)
    ensures out == Compared(rule, left, right)
  {
    hide Comparable, Keyed, Valued, Keys, Values;
    out := Evaluation(Inconclusive, 0, 0, 0, AllMeet);
    if !Comparable(rule, left, right) { return out.(reason := WindowsDiffer); }
    var leftKeys := CollectKeys(rule, left.rows);
    if leftKeys.None? { return out.(reason := LeftKeysInvalid); }
    var rightValues := CollectValues(rule, right.rows);
    if rightValues.None? { return out.(reason := RightRowsInvalid); }
    var keys, values := leftKeys.value, rightValues.value;
    var matched, missing, mismatched := Count(rule, keys, values);
    out := Evaluation(Inconclusive, matched, missing, mismatched, Incomplete);
    var leftComplete := left.complete && left.watermark >= left.end;
    var rightComplete := right.complete && right.watermark >= right.end;
    if mismatched > 0 || (missing > 0 && rightComplete) {
      out := out.(outcome := Violated, reason := RecordsViolate);
    } else if |keys| == 0 {
      out := out.(reason := NoInput);
    } else if leftComplete && rightComplete {
      out := out.(outcome := Satisfied, reason := AllMeet);
    }
  }

  method Count(rule: Rule, keys: set<string>, values: map<string, string>)
    returns (matched: nat, missing: nat, mismatched: nat)
    ensures matched == |MatchedKeys(rule, keys, values)| && missing == |MissingKeys(keys, values)|
    ensures mismatched == |MismatchedKeys(rule, keys, values)|
  {
    hide MatchedKeys, MissingKeys, MismatchedKeys;
    matched, missing, mismatched := 0, 0, 0;
    NoneYet(rule, values);
    var left := keys;
    ghost var done: set<string> := {};
    while left != {}
      invariant keys == left + done && left !! done
      invariant matched == |MatchedKeys(rule, done, values)| && missing == |MissingKeys(done, values)|
      invariant mismatched == |MismatchedKeys(rule, done, values)|
    {
      var key :| key in left;
      OneMore(rule, done, values, key);
      if key !in values {
        missing := missing + 1;
      } else if values[key] != rule.expected {
        mismatched := mismatched + 1;
      } else {
        matched := matched + 1;
      }
      left := left - {key};
      done := done + {key};
    }
    assert done == keys;
  }

  lemma NoneYet(rule: Rule, values: map<string, string>)
    ensures MatchedKeys(rule, {}, values) == {} && MissingKeys({}, values) == {}
    ensures MismatchedKeys(rule, {}, values) == {}
  {
  }

  lemma {:induction false} OneMore(rule: Rule, done: set<string>, values: map<string, string>, key: string)
    requires key !in done
    ensures |MatchedKeys(rule, done + {key}, values)|
            == |MatchedKeys(rule, done, values)| + if Matches(rule, values, key) then 1 else 0
    ensures |MissingKeys(done + {key}, values)| == |MissingKeys(done, values)| + if key !in values then 1 else 0
    ensures |MismatchedKeys(rule, done + {key}, values)|
            == |MismatchedKeys(rule, done, values)| + if Mismatches(rule, values, key) then 1 else 0
  {
    OneMoreMatched(rule, done, values, key);
    OneMoreMissing(done, values, key);
    OneMoreMismatched(rule, done, values, key);
  }

  lemma {:induction false} OneMoreMatched(rule: Rule, done: set<string>, values: map<string, string>, key: string)
    requires key !in done
    ensures |MatchedKeys(rule, done + {key}, values)|
            == |MatchedKeys(rule, done, values)| + if Matches(rule, values, key) then 1 else 0
  {
    hide Matches;
    var a := MatchedKeys(rule, done, values);
    assert MatchedKeys(rule, done + {key}, values) == if Matches(rule, values, key) then a + {key} else a;
  }

  lemma {:induction false} OneMoreMissing(done: set<string>, values: map<string, string>, key: string)
    requires key !in done
    ensures |MissingKeys(done + {key}, values)| == |MissingKeys(done, values)| + if key !in values then 1 else 0
  {
    var a := MissingKeys(done, values);
    assert MissingKeys(done + {key}, values) == if key !in values then a + {key} else a;
  }

  lemma {:induction false} OneMoreMismatched(rule: Rule, done: set<string>, values: map<string, string>, key: string)
    requires key !in done
    ensures |MismatchedKeys(rule, done + {key}, values)|
            == |MismatchedKeys(rule, done, values)| + if Mismatches(rule, values, key) then 1 else 0
  {
    hide Mismatches;
    var a := MismatchedKeys(rule, done, values);
    assert MismatchedKeys(rule, done + {key}, values) == if Mismatches(rule, values, key) then a + {key} else a;
  }

  // ------------------------------------------------------------------ theorems

  lemma {:induction false} KeyForEachRow(rule: Rule, rows: seq<Row>)
    requires Keyed(rule, rows)
    ensures |Keys(rule, rows)| == |rows|
  {
    if rows == [] {
      assert Keys(rule, rows) == {};
    } else {
      var n := |rows| - 1;
      KeyForEachRow(rule, rows[..n]);
      assert Keys(rule, rows) == Keys(rule, rows[..n]) + {Key(rule, rows[n])};
    }
  }

  lemma {:induction false} EachKeyCounted(rule: Rule, keys: set<string>, values: map<string, string>)
    ensures |MatchedKeys(rule, keys, values)| + |MissingKeys(keys, values)| + |MismatchedKeys(rule, keys, values)|
            == |keys|
  {
    hide MatchedKeys, MissingKeys, MismatchedKeys;
    if keys == {} {
      NoneYet(rule, values);
    } else {
      var key :| key in keys;
      EachKeyCounted(rule, keys - {key}, values);
      OneMore(rule, keys - {key}, values, key);
      assert keys - {key} + {key} == keys;
    }
  }

  // The rows of both sides can be compared.
  predicate Valid(rule: Rule, left: Envelope, right: Envelope) {
    Comparable(rule, left, right) && Keyed(rule, left.rows) && Keyed(rule, right.rows) && Valued(rule, right.rows)
  }

  // Every left row is counted once.
  lemma {:induction false} CountsAddUp(rule: Rule, left: Envelope, right: Envelope)
    requires Valid(rule, left, right)
    ensures var r := Compared(rule, left, right);
            r.matched + r.missing + r.mismatched == |left.rows|
  {
    hide Comparable, Keyed, Valued, Keys, Values, MatchedKeys, MissingKeys, MismatchedKeys;
    KeyForEachRow(rule, left.rows);
    EachKeyCounted(rule, Keys(rule, left.rows), Values(rule, right.rows));
  }

  // A row of the right side says the key has the value.
  predicate Says(rule: Rule, rows: seq<Row>, key: string, value: string) {
    exists i | 0 <= i < |rows| ::
      HasKey(rule, rows[i]) && Key(rule, rows[i]) == key && HasValue(rule, rows[i]) && Value(rule, rows[i]) == value
  }

  lemma {:induction false} SaysGrows(rule: Rule, rows: seq<Row>, n: nat, key: string, value: string)
    requires n < |rows| && HasKey(rule, rows[n]) && HasValue(rule, rows[n])
    ensures Says(rule, rows[..n + 1], key, value) <==>
            Says(rule, rows[..n], key, value) || (Key(rule, rows[n]) == key && Value(rule, rows[n]) == value)
  {
    hide StringField;
    assert rows[..n + 1][n] == rows[n] && forall i | 0 <= i < n :: rows[..n + 1][i] == rows[..n][i];
  }

  lemma {:induction false} ValuesSay(rule: Rule, rows: seq<Row>, key: string, value: string)
    requires Keyed(rule, rows) && Valued(rule, rows)
    ensures key in Values(rule, rows) && Values(rule, rows)[key] == value <==> Says(rule, rows, key, value)
  {
    hide Says, StringField;
    if rows == [] {
      assert !Says(rule, rows, key, value) by { NothingSaid(rule, key, value); }
    } else {
      var n := |rows| - 1;
      ValuesSay(rule, rows[..n], key, value);
      SaysGrows(rule, rows, n, key, value);
      assert rows[..n + 1] == rows;
      if Key(rule, rows[n]) == key {
        ValuesHaveKeys(rule, rows[..n]);
        KeyedGrows(rule, rows, n);
        assert key !in Values(rule, rows[..n]);
      }
    }
  }

  lemma NothingSaid(rule: Rule, key: string, value: string)
    ensures !Says(rule, [], key, value)
  {
  }

  // Some left row's key is said to have another value than the expected one.
  predicate SomeWrong(rule: Rule, left: seq<Row>, right: seq<Row>) {
    exists i, j | 0 <= i < |left| && 0 <= j < |right| ::
      HasKey(rule, left[i]) && HasKey(rule, right[j]) && Key(rule, left[i]) == Key(rule, right[j])
      && HasValue(rule, right[j]) && Value(rule, right[j]) != rule.expected
  }

  // Some left row's key has no right row.
  predicate SomeAbsent(rule: Rule, left: seq<Row>, right: seq<Row>) {
    exists i | 0 <= i < |left| :: HasKey(rule, left[i]) && Key(rule, left[i]) !in Keys(rule, right)
  }

  lemma {:induction false} SomeWrongCounted(rule: Rule, left: seq<Row>, right: seq<Row>)
    requires Keyed(rule, left) && Keyed(rule, right) && Valued(rule, right)
    ensures |MismatchedKeys(rule, Keys(rule, left), Values(rule, right))| > 0 <==> SomeWrong(rule, left, right)
  {
    hide StringField, Values;
    var wrong := MismatchedKeys(rule, Keys(rule, left), Values(rule, right));
    if |wrong| > 0 {
      var key :| key in wrong;
      ValuesSay(rule, right, key, Values(rule, right)[key]);
      var i :| 0 <= i < |left| && Key(rule, left[i]) == key;
    }
    if SomeWrong(rule, left, right) {
      var i, j :| 0 <= i < |left| && 0 <= j < |right| && Key(rule, left[i]) == Key(rule, right[j])
                  && Value(rule, right[j]) != rule.expected;
      ValuesSay(rule, right, Key(rule, left[i]), Value(rule, right[j]));
      assert Key(rule, left[i]) in wrong;
    }
  }

  lemma {:induction false} SomeAbsentCounted(rule: Rule, left: seq<Row>, right: seq<Row>)
    requires Keyed(rule, left) && Keyed(rule, right) && Valued(rule, right)
    ensures |MissingKeys(Keys(rule, left), Values(rule, right))| > 0 <==> SomeAbsent(rule, left, right)
  {
    hide StringField, Values;
    ValuesHaveKeys(rule, right);
    var absent := MissingKeys(Keys(rule, left), Values(rule, right));
    if |absent| > 0 {
      var key :| key in absent;
    }
    if SomeAbsent(rule, left, right) {
      var i :| 0 <= i < |left| && Key(rule, left[i]) !in Keys(rule, right);
      assert Key(rule, left[i]) in absent;
    }
  }

  // A violation is a wrong value, or an absent one that the right side had the
  // time to show.
  lemma {:induction false} ViolatedIff(rule: Rule, left: Envelope, right: Envelope)
    ensures Compared(rule, left, right).outcome == Violated <==>
            Valid(rule, left, right)
            && (SomeWrong(rule, left.rows, right.rows) || (Covers(right) && SomeAbsent(rule, left.rows, right.rows)))
  {
    hide Comparable, Keyed, Valued, Keys, Values, MatchedKeys, MissingKeys, MismatchedKeys, SomeWrong, SomeAbsent,
         Covers;
    if Valid(rule, left, right) {
      SomeWrongCounted(rule, left.rows, right.rows);
      SomeAbsentCounted(rule, left.rows, right.rows);
    }
  }

  // Satisfaction needs both sides complete, some input, and the expected value
  // said for every left row.
  lemma {:induction false} SatisfiedIff(rule: Rule, left: Envelope, right: Envelope)
    ensures Compared(rule, left, right).outcome == Satisfied <==>
            Valid(rule, left, right) && Covers(left) && Covers(right) && left.rows != []
            && forall i | 0 <= i < |left.rows| && HasKey(rule, left.rows[i]) ::
                 Says(rule, right.rows, Key(rule, left.rows[i]), rule.expected)
  {
    hide Comparable, Covers, StringField, Says, Keyed, Valued, Keys, MatchedKeys, MissingKeys, MismatchedKeys;
    if Valid(rule, left, right) {
      var keys, values := Keys(rule, left.rows), Values(rule, right.rows);
      KeyForEachRow(rule, left.rows);
      SomeWrongCounted(rule, left.rows, right.rows);
      SomeAbsentCounted(rule, left.rows, right.rows);
      EachRowSaid(rule, left.rows, right.rows);
    }
  }

  lemma {:induction false} EachRowSaid(rule: Rule, left: seq<Row>, right: seq<Row>)
    requires Keyed(rule, left) && Keyed(rule, right) && Valued(rule, right)
    ensures !SomeWrong(rule, left, right) && !SomeAbsent(rule, left, right) <==>
            forall i | 0 <= i < |left| && HasKey(rule, left[i]) :: Says(rule, right, Key(rule, left[i]), rule.expected)
  {
    hide StringField, Values, Says;
    ValuesHaveKeys(rule, right);
    SomeWrongCounted(rule, left, right);
    SomeAbsentCounted(rule, left, right);
    var keys, values := Keys(rule, left), Values(rule, right);
    forall i | 0 <= i < |left|
      ensures Matches(rule, values, Key(rule, left[i])) <==> Says(rule, right, Key(rule, left[i]), rule.expected)
      ensures Key(rule, left[i]) in keys
    {
      ValuesSay(rule, right, Key(rule, left[i]), rule.expected);
    }
    if SomeWrong(rule, left, right) {
      var key :| key in MismatchedKeys(rule, keys, values);
      var i :| 0 <= i < |left| && Key(rule, left[i]) == key;
    }
    if SomeAbsent(rule, left, right) {
      var key :| key in MissingKeys(keys, values);
      var i :| 0 <= i < |left| && Key(rule, left[i]) == key;
    }
    if i: nat :| i < |left| && !Says(rule, right, Key(rule, left[i]), rule.expected) {
      var key := Key(rule, left[i]);
      assert !Matches(rule, values, key);
      assert key in MissingKeys(keys, values) || key in MismatchedKeys(rule, keys, values);
    }
  }

  // ------------------------------------------------------ the order of the rows

  predicate AllHaveKeys(rule: Rule, rows: seq<Row>) { forall i | 0 <= i < |rows| :: HasKey(rule, rows[i]) }

  lemma {:induction false} KeyedBySize(rule: Rule, rows: seq<Row>)
    requires AllHaveKeys(rule, rows)
    ensures |Keys(rule, rows)| <= |rows|
    ensures Keyed(rule, rows) <==> |Keys(rule, rows)| == |rows|
  {
    hide StringField;
    if rows != [] {
      var n := |rows| - 1;
      KeyedBySize(rule, rows[..n]);
      KeysGrow(rule, rows, n);
      assert rows[..n + 1] == rows;
      if Keyed(rule, rows[..n]) { KeyedGrows(rule, rows, n); }
      else { NotKeyed(rule, rows, n); }
    }
  }

  lemma {:induction false} NotKeyed(rule: Rule, rows: seq<Row>, n: nat)
    requires n <= |rows| && !Keyed(rule, rows[..n])
    ensures !Keyed(rule, rows)
  {
    hide StringField;
    if Keyed(rule, rows) {
      assert forall i | 0 <= i < n :: rows[..n][i] == rows[i];
    }
  }

  lemma {:induction false} SameRows(rule: Rule, a: seq<Row>, b: seq<Row>)
    requires multiset(a) == multiset(b)
    ensures |a| == |b| && Keys(rule, a) == Keys(rule, b)
    ensures AllHaveKeys(rule, a) <==> AllHaveKeys(rule, b)
    ensures Valued(rule, a) <==> Valued(rule, b)
    ensures forall key, value :: Says(rule, a, key, value) <==> Says(rule, b, key, value)
  {
    hide StringField;
    assert |a| == |multiset(a)| == |multiset(b)| == |b|;
    forall i | 0 <= i < |a| ensures a[i] in b { assert a[i] in multiset(a); }
    forall i | 0 <= i < |b| ensures b[i] in a { assert b[i] in multiset(b); }
  }

  lemma {:induction false} SameKeyed(rule: Rule, a: seq<Row>, b: seq<Row>)
    requires multiset(a) == multiset(b)
    ensures Keyed(rule, a) <==> Keyed(rule, b)
    ensures Valued(rule, a) <==> Valued(rule, b)
    ensures Keys(rule, a) == Keys(rule, b)
  {
    SameRows(rule, a, b);
    if AllHaveKeys(rule, a) {
      KeyedBySize(rule, a);
      KeyedBySize(rule, b);
    }
  }

  lemma {:induction false} SameValues(rule: Rule, a: seq<Row>, b: seq<Row>)
    requires multiset(a) == multiset(b) && Keyed(rule, a) && Keyed(rule, b) && Valued(rule, a) && Valued(rule, b)
    ensures Values(rule, a) == Values(rule, b)
  {
    hide StringField, Says, Values, Keyed, Valued, Keys;
    SameRows(rule, a, b);
    ValuesHaveKeys(rule, a);
    ValuesHaveKeys(rule, b);
    forall key | key in Values(rule, a) ensures key in Values(rule, b) && Values(rule, b)[key] == Values(rule, a)[key] {
      ValuesSay(rule, a, key, Values(rule, a)[key]);
      ValuesSay(rule, b, key, Values(rule, a)[key]);
    }
  }

  predicate Permuted(a: Envelope, b: Envelope) { multiset(a.rows) == multiset(b.rows) && b == a.(rows := b.rows) }

  // Neither the outcome nor a count depends on the order of the rows.
  lemma {:induction false} OrderDoesNotMatter(rule: Rule, left: Envelope, right: Envelope, left2: Envelope,
                                              right2: Envelope)
    requires Permuted(left, left2) && Permuted(right, right2)
    ensures Compared(rule, left2, right2) == Compared(rule, left, right)
  {
    hide Keyed, Valued, Keys, Values, MatchedKeys, MissingKeys, MismatchedKeys;
    SameKeyed(rule, left.rows, left2.rows);
    SameKeyed(rule, right.rows, right2.rows);
    if Keyed(rule, right.rows) && Valued(rule, right.rows) { SameValues(rule, right.rows, right2.rows); }
  }

  // --------------------------------------------------------- more rows arriving

  // b has the rows of a and perhaps more, seen later.
  predicate Extends(a: Envelope, b: Envelope) {
    && b.schema == a.schema && b.start == a.start && b.end == a.end
    && multiset(a.rows) <= multiset(b.rows)
  }

  lemma {:induction false} MoreRows(a: seq<Row>, b: seq<Row>, i: nat) returns (j: nat)
    requires multiset(a) <= multiset(b) && i < |a|
    ensures j < |b| && b[j] == a[i]
  {
    assert a[i] in multiset(a);
    assert a[i] in multiset(b);
    j :| 0 <= j < |b| && b[j] == a[i];
  }

  // A violation stays one when rows are added: to the left always, to the right
  // as long as it was not complete.
  lemma {:induction false} ViolatedIsStable(rule: Rule, left: Envelope, right: Envelope, left2: Envelope,
                                            right2: Envelope)
    requires Compared(rule, left, right).outcome == Violated
    requires Extends(left, left2) && Extends(right, right2) && Valid(rule, left2, right2)
    requires Covers(right) ==> Covers(right2) && multiset(right2.rows) == multiset(right.rows)
    ensures Compared(rule, left2, right2).outcome == Violated
  {
    hide Compared, Comparable, Keyed, Valued, StringField, Keys, Covers;
    ViolatedIff(rule, left, right);
    ViolatedIff(rule, left2, right2);
    if SomeWrong(rule, left.rows, right.rows) {
      var i, j :| 0 <= i < |left.rows| && 0 <= j < |right.rows|
        && HasKey(rule, left.rows[i]) && HasKey(rule, right.rows[j])
        && Key(rule, left.rows[i]) == Key(rule, right.rows[j])
        && HasValue(rule, right.rows[j]) && Value(rule, right.rows[j]) != rule.expected;
      var i2 := MoreRows(left.rows, left2.rows, i);
      var j2 := MoreRows(right.rows, right2.rows, j);
    } else {
      var i :| 0 <= i < |left.rows| && HasKey(rule, left.rows[i]) && Key(rule, left.rows[i]) !in Keys(rule, right.rows);
      var i2 := MoreRows(left.rows, left2.rows, i);
      SameRows(rule, right.rows, right2.rows);
    }
  }

  // ------------------------------------------------------ in terms of the data

  // The field is a string, and not the empty one.
  predicate Holds(row: Row, field: string, s: string) { field in row && row[field] == Text(s) && s != "" }

  ghost predicate Named(row: Row, field: string) { exists s :: Holds(row, field, s) }

  predicate SameWindow(rule: Rule, left: Envelope, right: Envelope) {
    && left.schema == rule.leftSchema && right.schema == rule.rightSchema
    && left.start != NO_TIME && left.start < left.end <= left.start + rule.maxWindow
    && right.start == left.start && right.end == left.end
  }

  // Every row names a key, and no two rows the same.
  ghost predicate KeysHeld(rule: Rule, rows: seq<Row>) {
    && (forall i | 0 <= i < |rows| :: Named(rows[i], rule.joinField))
    && (forall i, j, s | 0 <= i < j < |rows| && Holds(rows[i], rule.joinField, s) :: !Holds(rows[j], rule.joinField, s))
  }

  ghost predicate ValuesHeld(rule: Rule, rows: seq<Row>) {
    forall i | 0 <= i < |rows| :: Named(rows[i], rule.valueField)
  }

  lemma {:induction false} FieldHeld(row: Row, field: string)
    ensures forall s :: Holds(row, field, s) <==> StringField(row, field) == Some(s)
    ensures StringField(row, field).Some? <==> exists s :: Holds(row, field, s)
  {
    if StringField(row, field).Some? { assert Holds(row, field, StringField(row, field).value); }
  }

  lemma {:induction false} RowHeld(rule: Rule, row: Row)
    ensures HasKey(rule, row) <==> Named(row, rule.joinField)
    ensures HasValue(rule, row) <==> Named(row, rule.valueField)
    ensures forall s :: Holds(row, rule.joinField, s) <==> HasKey(rule, row) && Key(rule, row) == s
  {
    hide StringField, Holds;
    FieldHeld(row, rule.joinField);
    FieldHeld(row, rule.valueField);
  }

  lemma {:induction false} KeyedIsHeld(rule: Rule, rows: seq<Row>)
    requires Keyed(rule, rows)
    ensures KeysHeld(rule, rows)
  {
    hide StringField, Holds, HasKey, Named;
    forall i | 0 <= i < |rows| ensures Named(rows[i], rule.joinField) { RowHeld(rule, rows[i]); }
    forall i, j, s | 0 <= i < j < |rows| && Holds(rows[i], rule.joinField, s) ensures !Holds(rows[j], rule.joinField, s)
    {
      RowHeld(rule, rows[i]);
      RowHeld(rule, rows[j]);
    }
  }

  lemma {:induction false} HeldIsKeyed(rule: Rule, rows: seq<Row>)
    requires KeysHeld(rule, rows)
    ensures Keyed(rule, rows)
  {
    hide StringField, Holds, HasKey, Named;
    forall i | 0 <= i < |rows| ensures HasKey(rule, rows[i]) { RowHeld(rule, rows[i]); }
    forall i, j | 0 <= i < j < |rows| ensures Key(rule, rows[i]) != Key(rule, rows[j]) {
      RowHeld(rule, rows[i]);
      RowHeld(rule, rows[j]);
      assert Holds(rows[i], rule.joinField, Key(rule, rows[i]));
    }
  }

  lemma {:induction false} ValuedIsHeld(rule: Rule, rows: seq<Row>)
    ensures Valued(rule, rows) <==> ValuesHeld(rule, rows)
  {
    hide StringField, Holds, HasValue, Named;
    forall i | 0 <= i < |rows| ensures HasValue(rule, rows[i]) <==> Named(rows[i], rule.valueField) {
      RowHeld(rule, rows[i]);
    }
  }

  // The criterion is satisfied exactly by two complete observations of one
  // window, no longer than allowed, that was watched to its end, in which some
  // left row was seen and the right side holds the expected value for each.
  lemma {:induction false} SatisfiedExactly(rule: Rule, left: Envelope, right: Envelope)
    ensures Compared(rule, left, right).outcome == Satisfied <==>
            && SameWindow(rule, left, right) && KeysHeld(rule, left.rows) && KeysHeld(rule, right.rows)
            && ValuesHeld(rule, right.rows)
            && left.complete && left.end <= left.watermark && right.complete && right.end <= right.watermark
            && |left.rows| > 0
            && forall i, s | 0 <= i < |left.rows| && Holds(left.rows[i], rule.joinField, s) ::
                 exists j | 0 <= j < |right.rows| ::
                   Holds(right.rows[j], rule.joinField, s) && Holds(right.rows[j], rule.valueField, rule.expected)
  {
    hide StringField, Holds, Keyed, Valued, KeysHeld, ValuesHeld, Compared, Says;
    SatisfiedIff(rule, left, right);
    if Keyed(rule, left.rows) { KeyedIsHeld(rule, left.rows); }
    if KeysHeld(rule, left.rows) { HeldIsKeyed(rule, left.rows); }
    if Keyed(rule, right.rows) { KeyedIsHeld(rule, right.rows); }
    if KeysHeld(rule, right.rows) { HeldIsKeyed(rule, right.rows); }
    ValuedIsHeld(rule, right.rows);
    forall i | 0 <= i < |left.rows|
      ensures forall s :: Holds(left.rows[i], rule.joinField, s)
                          <==> StringField(left.rows[i], rule.joinField) == Some(s)
    {
      FieldHeld(left.rows[i], rule.joinField);
    }
    forall s ensures Says(rule, right.rows, s, rule.expected) <==>
                     exists j | 0 <= j < |right.rows| ::
                       Holds(right.rows[j], rule.joinField, s) && Holds(right.rows[j], rule.valueField, rule.expected)
    {
      SaysMeans(rule, right.rows, s);
    }
  }

  lemma {:induction false} SaysMeans(rule: Rule, rows: seq<Row>, s: string)
    ensures Says(rule, rows, s, rule.expected) <==>
            exists j | 0 <= j < |rows| ::
              Holds(rows[j], rule.joinField, s) && Holds(rows[j], rule.valueField, rule.expected)
  {
    hide StringField, Holds;
    forall j | 0 <= j < |rows|
      ensures Holds(rows[j], rule.joinField, s) <==> StringField(rows[j], rule.joinField) == Some(s)
      ensures Holds(rows[j], rule.valueField, rule.expected) <==>
              StringField(rows[j], rule.valueField) == Some(rule.expected)
    {
      FieldHeld(rows[j], rule.joinField);
      FieldHeld(rows[j], rule.valueField);
    }
  }
}
