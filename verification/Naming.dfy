/**
 Column names (crates/baresync-core/src/schema.rs, lines 5-34): rows travel with camelCase keys and are
 stored under snake_case columns. Names are ASCII; every other character passes through unchanged.
 */
module Naming {

  predicate IsUpper(c: char) { 'A' <= c <= 'Z' }

  predicate IsLower(c: char) { 'a' <= c <= 'z' }

  function ToLower(c: char): (r: char)
    ensures IsUpper(c) ==> IsLower(r)
    ensures !IsUpper(c) ==> r == c
  {
    if IsUpper(c) then ((c as int) + 32) as char else c
  }

  function ToUpper(c: char): (r: char)
    ensures IsLower(c) ==> IsUpper(r) && ToLower(r) == c
    ensures !IsLower(c) ==> r == c
  {
    if IsLower(c) then ((c as int) - 32) as char else c
  }

  /** The snake_case form of `s`, a suffix of a name; `first` says that it is the whole name. */
  function Snake(s: string, first: bool): string {
    if s == [] then []
    else if IsUpper(s[0]) then (if first then [] else ['_']) + [ToLower(s[0])] + Snake(s[1..], false)
    else [s[0]] + Snake(s[1..], false)
  }

  /** The camelCase form of `s`, a suffix of a name; `capitalize` says that an underscore went before. */
  function Camel(s: string, capitalize: bool): string {
    if s == [] then []
    else if s[0] == '_' then Camel(s[1..], true)
    else if capitalize then [ToUpper(s[0])] + Camel(s[1..], false)
    else [s[0]] + Camel(s[1..], false)
  }

  function CamelToSnakeName(s: string): string { Snake(s, true) }

  function SnakeToCamelName(s: string): string { Camel(s, false) }

  /** What one character of a camelCase name turns into. */
  function SnakePiece(c: char, first: bool): string {
    if IsUpper(c) then (if first then [] else ['_']) + [ToLower(c)] else [c]
  }

  lemma SnakeStep(done: string, s: string, i: nat)
    requires i < |s|
    ensures done + Snake(s[i..], i == 0) == done + SnakePiece(s[i], i == 0) + Snake(s[i + 1..], false)
  {
  }

  method CamelToSnake(s: string) returns (result: string)
    ensures result == CamelToSnakeName(s)
  {
    result := [];
    for i := 0 to |s|
      invariant result + Snake(s[i..], i == 0) == Snake(s, true)
    {
      SnakeStep(result, s, i);
      ghost var next := result + SnakePiece(s[i], i == 0);
      if IsUpper(s[i]) {
        if i > 0 {
          result := result + ['_'];
        }
        result := result + [ToLower(s[i])];
      } else {
        result := result + [s[i]];
      }
      assert result == next;
    }
  }

  method SnakeToCamel(s: string) returns (result: string)
    ensures result == SnakeToCamelName(s)
  {
    result := [];
    var capitalizeNext := false;
    for i := 0 to |s|
      invariant result + Camel(s[i..], capitalizeNext) == SnakeToCamelName(s)
    {
      var c := s[i];
      assert s[i..][1..] == s[i + 1..];
      if c == '_' {
        capitalizeNext := true;
      } else if capitalizeNext {
        result := result + [ToUpper(c)];
        capitalizeNext := false;
      } else {
        result := result + [c];
      }
    }
  }

  /** No capitals, and every underscore stands between a character and a lower-case letter. */
  predicate IsColumnName(s: string) {
    forall i :: 0 <= i < |s| ==> InnerOk(s, i) && (s[i] == '_' ==> i > 0)
  }

  /** No underscores, and the first character is not a capital. */
  predicate IsJsonKey(s: string) {
    '_' !in s && (s != [] ==> !IsUpper(s[0]))
  }

  // ---------------------------------------------------------------------------------------------
  // Snake to camel and back
  // ---------------------------------------------------------------------------------------------

  /** As IsColumnName, for a suffix: `first` at the start of the name, `after` right behind an underscore. */
  predicate SuffixOk(s: string, first: bool, after: bool) {
    if s == [] then !after
    else
      && !IsUpper(s[0])
      && (after ==> IsLower(s[0]))
      && (s[0] == '_' ==> !first)
      && SuffixOk(s[1..], false, s[0] == '_')
  }

  predicate InnerOk(s: string, i: nat)
    requires i < |s|
  {
    !IsUpper(s[i]) && (s[i] == '_' ==> i + 1 < |s| && IsLower(s[i + 1]))
  }

  ghost predicate Body(s: string) {
    forall i :: 0 <= i < |s| ==> InnerOk(s, i)
  }

  lemma BodyUnfolds(s: string)
    requires s != []
    ensures Body(s) <==> InnerOk(s, 0) && Body(s[1..])
  {
    var rest := s[1..];
    assert forall i :: 0 <= i < |rest| ==> InnerOk(rest, i) == InnerOk(s, i + 1);
    if Body(rest) && InnerOk(s, 0) {
      forall i | 0 <= i < |s| ensures InnerOk(s, i) {
        assert i > 0 ==> InnerOk(rest, i - 1);
      }
    }
  }

  lemma {:induction false} SuffixOkMeans(s: string, first: bool, after: bool)
    ensures SuffixOk(s, first, after) <==>
      && (after ==> s != [] && IsLower(s[0]))
      && (first && s != [] ==> s[0] != '_')
      && Body(s)
  {
    if s != [] {
      SuffixOkMeans(s[1..], false, s[0] == '_');
      BodyUnfolds(s);
    }
  }

  lemma {:induction false} CamelHasNoUnderscore(s: string, capitalize: bool)
    ensures '_' !in Camel(s, capitalize)
  {
    if s != [] {
      CamelHasNoUnderscore(s[1..], s[0] == '_');
    }
  }

  /** What becomes of a suffix on its way to JSON and back. */
  function There(s: string, first: bool, after: bool): string {
    Snake(Camel(s, after), first)
  }

  /** What it has to be: the suffix, with the underscore it owes in front. */
  function Owed(s: string, after: bool): string {
    (if after then ['_'] else []) + s
  }

  lemma UnderscoreSuffix(rest: string, first: bool, after: bool)
    requires first ==> !after
    requires There(rest, false, true) == Owed(rest, true) <==> SuffixOk(rest, false, true)
    ensures There(['_'] + rest, first, after) == Owed(['_'] + rest, after) <==> SuffixOk(['_'] + rest, first, after)
  {
    var s, out := ['_'] + rest, There(['_'] + rest, first, after);
    assert s[1..] == rest;
    CamelHasNoUnderscore(rest, true);
    if first {
      assert out != [] ==> out[0] != s[0];
    } else if after {
      assert |out| >= 2 ==> out[0] != '_' || out[1] != '_';
      assert Owed(s, true)[1] == '_';
    }
  }

  lemma LetterSuffix(c: char, rest: string, first: bool, after: bool)
    requires c != '_' && (first ==> !after)
    requires There(rest, false, false) == Owed(rest, false) <==> SuffixOk(rest, false, false)
    ensures There([c] + rest, first, after) == Owed([c] + rest, after) <==> SuffixOk([c] + rest, first, after)
  {
    var s, out, tail := [c] + rest, There([c] + rest, first, after), There(rest, false, false);
    assert s[1..] == rest;
    var d := if after then ToUpper(c) else c;
    assert Camel(s, after) == [d] + Camel(rest, false);
    assert out == (if IsUpper(d) && !first then ['_'] else []) + [ToLower(d)] + tail;
    if after {
      assert Owed(s, true) == ['_', c] + rest;
      if IsLower(c) {
        assert out == ['_', c] + tail;
        assert tail == out[2..] && rest == Owed(s, true)[2..];
      } else {
        assert out[0] == '_' ==> out[1] != c;
      }
    } else if IsUpper(c) {
      assert out[0] != s[0];
    } else {
      assert out == [c] + tail;
      assert tail == out[1..];
    }
  }

  /** A suffix comes back with the underscore it owes in front exactly when it is well formed. */
  lemma {:induction false} CamelSnakeSuffix(s: string, first: bool, after: bool)
    requires first ==> !after
    ensures There(s, first, after) == Owed(s, after) <==> SuffixOk(s, first, after)
  {
    if s != [] {
      var c, rest := s[0], s[1..];
      assert s == [c] + rest;
      if c == '_' {
        CamelSnakeSuffix(rest, false, true);
        UnderscoreSuffix(rest, first, after);
      } else {
        CamelSnakeSuffix(rest, false, false);
        LetterSuffix(c, rest, first, after);
      }
    }
  }

  /** A column name survives the trip to JSON and back exactly when it is a column name proper. */
  lemma ColumnRoundTrip(s: string)
    ensures CamelToSnakeName(SnakeToCamelName(s)) == s <==> IsColumnName(s)
  {
    CamelSnakeSuffix(s, true, false);
    SuffixOkMeans(s, true, false);
    assert IsColumnName(s) <==> (s != [] ==> s[0] != '_') && Body(s) by {
      if s != [] && Body(s) && s[0] != '_' {
        assert forall i :: 0 <= i < |s| && s[i] == '_' ==> i > 0;
      }
      if IsColumnName(s) {
        assert forall i :: 0 <= i < |s| ==> InnerOk(s, i) && (s[i] == '_' ==> i > 0);
      }
    }
  }

  lemma {:induction false} SnakeIsSnake(s: string, first: bool)
    requires forall c :: c in s ==> !IsUpper(c)
    ensures Snake(s, first) == s
  {
    if s != [] {
      SnakeIsSnake(s[1..], false);
      assert s == [s[0]] + s[1..];
    }
  }

  /** Distinct columns never share a JSON key. */
  lemma ColumnsDoNotCollide(s: string, t: string)
    requires IsColumnName(s) && IsColumnName(t) && SnakeToCamelName(s) == SnakeToCamelName(t)
    ensures s == t
  {
    ColumnRoundTrip(s);
    ColumnRoundTrip(t);
  }

  // ---------------------------------------------------------------------------------------------
  // Camel to snake and back
  // ---------------------------------------------------------------------------------------------

  lemma CamelOfCapital(l: char, tail: string)
    requires IsLower(l)
    ensures Camel(['_', l] + tail, false) == [ToUpper(l)] + Camel(tail, false)
  {
  }

  lemma CamelOfPlain(c: char, tail: string)
    requires c != '_'
    ensures Camel([c] + tail, false) == [c] + Camel(tail, false)
  {
  }

  lemma {:induction false} SnakeCamelSuffix(s: string, first: bool)
    requires '_' !in s && (first && s != [] ==> !IsUpper(s[0]))
    ensures Camel(Snake(s, first), false) == s
  {
    if s != [] {
      var c, rest := s[0], s[1..];
      SnakeCamelSuffix(rest, false);
      var tail := Snake(rest, false);
      assert s == [c] + rest;
      if IsUpper(c) {
        assert Snake(s, first) == ['_', ToLower(c)] + tail;
        CamelOfCapital(ToLower(c), tail);
      } else {
        assert Snake(s, first) == [c] + tail;
        CamelOfPlain(c, tail);
      }
    }
  }

  /** A JSON key survives the trip to a column and back exactly when it is a JSON key proper. */
  lemma JsonKeyRoundTrip(s: string)
    ensures SnakeToCamelName(CamelToSnakeName(s)) == s <==> IsJsonKey(s)
  {
    if IsJsonKey(s) {
      SnakeCamelSuffix(s, true);
    } else {
      CamelHasNoUnderscore(CamelToSnakeName(s), false);
      if '_' !in s {
        var l, tail := ToLower(s[0]), Snake(s[1..], false);
        assert CamelToSnakeName(s) == [l] + tail;
        assert ([l] + tail)[1..] == tail;
        assert Camel([l] + tail, false)[0] == l;
      }
    }
  }

  // ---------------------------------------------------------------------------------------------
  // Rows
  // ---------------------------------------------------------------------------------------------

  /** `to` holds the entries of `from` under new names. */
  ghost predicate IsRenaming<V>(name: string -> string, from: map<string, V>, to: map<string, V>) {
    && (forall c :: c in from ==> name(c) in to)
    && (forall k :: k in to ==> exists c :: c in from && name(c) == k && to[k] == from[c])
  }

  lemma RenamedBack<V>(there: string -> string, back: string -> string,
                       row: map<string, V>, json: map<string, V>, copy: map<string, V>)
    requires forall c :: c in row ==> back(there(c)) == c
    requires IsRenaming(there, row, json) && IsRenaming(back, json, copy)
    ensures copy == row
  {
  }

  /**
   A row sent with camelCase keys (schema.rs, lines 208-217) and stored again under snake_case columns
   (push.rs, lines 64-68) has the same columns with the same values.
   */
  lemma RowRoundTrip<V>(row: map<string, V>, json: map<string, V>, copy: map<string, V>)
    requires forall c :: c in row ==> IsColumnName(c)
    requires IsRenaming(SnakeToCamelName, row, json) && IsRenaming(CamelToSnakeName, json, copy)
    ensures copy == row
  {
    forall c | c in row ensures CamelToSnakeName(SnakeToCamelName(c)) == c {
      ColumnRoundTrip(c);
    }
    RenamedBack(SnakeToCamelName, CamelToSnakeName, row, json, copy);
  }
}
