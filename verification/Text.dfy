/** Characters, splitting and joining text at a separator, and the order of strings. */
module Text {

  predicate IsHexDigit(c: char) {
    '0' <= c <= '9' || 'a' <= c <= 'f' || 'A' <= c <= 'F'
  }

  predicate IsDigit(c: char) {
    '0' <= c <= '9'
  }

  function HexValue(c: char): (n: nat)
    requires IsHexDigit(c)
    ensures n < 16
  {
    if c <= '9' then c as int - '0' as int
    else if c <= 'F' then c as int - 'A' as int + 10
    else c as int - 'a' as int + 10
  }

  predicate HasPrefix(value: string, prefix: string) {
    |prefix| <= |value| && value[..|prefix|] == prefix
  }

  predicate Distinct(names: seq<string>) {
    forall i, j :: 0 <= i < j < |names| ==> names[i] != names[j]
  }

  // ---------------------------------------------------------------- split and join

  /** The parts of `text` between separators, empty ones included. */
  function SplitOn(separator: char, text: string): (parts: seq<string>)
    ensures |parts| > 0
  {
    if text == "" then [""]
    else
      var rest := SplitOn(separator, text[1..]);
      if text[0] == separator then [""] + rest else [[text[0]] + rest[0]] + rest[1..]
  }

  function JoinWith(separator: char, parts: seq<string>): string
    requires |parts| > 0
  {
    if |parts| == 1 then parts[0] else parts[0] + [separator] + JoinWith(separator, parts[1..])
  }

  lemma JoinGlues(separator: char, c: char, parts: seq<string>)
    requires |parts| > 0
    ensures JoinWith(separator, [[c] + parts[0]] + parts[1..]) == [c] + JoinWith(separator, parts)
  {
    var glued := [[c] + parts[0]] + parts[1..];
    if |parts| > 1 {
      assert glued[1..] == parts[1..];
      assert glued[0] + [separator] + JoinWith(separator, parts[1..])
          == [c] + (parts[0] + [separator] + JoinWith(separator, parts[1..]));
    }
  }

  lemma {:induction false} JoinInvertsSplit(separator: char, text: string)
    ensures JoinWith(separator, SplitOn(separator, text)) == text
  {
    if text != "" {
      var rest := SplitOn(separator, text[1..]);
      JoinInvertsSplit(separator, text[1..]);
      assert text == [text[0]] + text[1..];
      if text[0] == separator {
        assert ([""] + rest)[1..] == rest;
        assert "" + [separator] + JoinWith(separator, rest) == [separator] + text[1..];
      } else {
        JoinGlues(separator, text[0], rest);
      }
    }
  }

  predicate Free(separator: char, parts: seq<string>) {
    forall part :: part in parts ==> separator !in part
  }

  lemma {:induction false} SplitIsFree(separator: char, text: string)
    ensures Free(separator, SplitOn(separator, text))
  {
    if text != "" {
      SplitIsFree(separator, text[1..]);
      var rest := SplitOn(separator, text[1..]);
      assert rest[0] in rest;
    }
  }

  lemma {:induction false} SplitOfFree(separator: char, part: string)
    requires separator !in part
    ensures SplitOn(separator, part) == [part]
  {
    if part != "" {
      SplitOfFree(separator, part[1..]);
      assert [part[0]] + part[1..] == part;
    }
  }

  lemma {:induction false} SplitAtFirst(separator: char, part: string, rest: string)
    requires separator !in part
    ensures SplitOn(separator, part + [separator] + rest) == [part] + SplitOn(separator, rest)
  {
    var text := part + [separator] + rest;
    if part == "" {
      assert text == [separator] + rest;
      assert text[1..] == rest;
    } else {
      SplitAtFirst(separator, part[1..], rest);
      assert text[1..] == part[1..] + [separator] + rest;
      assert [part[0]] + part[1..] == part;
    }
  }

  lemma {:induction false} SplitInvertsJoin(separator: char, parts: seq<string>)
    requires |parts| > 0 && Free(separator, parts)
    ensures SplitOn(separator, JoinWith(separator, parts)) == parts
  {
    if |parts| == 1 {
      SplitOfFree(separator, parts[0]);
    } else {
      SplitInvertsJoin(separator, parts[1..]);
      SplitAtFirst(separator, parts[0], JoinWith(separator, parts[1..]));
      assert parts == [parts[0]] + parts[1..];
    }
  }

  /** Joining separator-free parts loses nothing. */
  lemma JoinIsInjective(separator: char, a: seq<string>, b: seq<string>)
    requires |a| > 0 && |b| > 0 && Free(separator, a) && Free(separator, b)
    requires JoinWith(separator, a) == JoinWith(separator, b)
    ensures a == b
  {
    SplitInvertsJoin(separator, a);
    SplitInvertsJoin(separator, b);
  }

  /** `name` stands in the text from `i` on, between separators or the ends. */
  predicate StandsAt(separator: char, text: string, name: string, i: int) {
    && 0 <= i <= |text| - |name| && text[i..i + |name|] == name
    && (i == 0 || text[i - 1] == separator)
    && (i + |name| == |text| || text[i + |name|] == separator)
  }

  lemma {:induction false} SplitFirst(separator: char, text: string)
    ensures var parts := SplitOn(separator, text);
            && separator !in parts[0]
            && (|parts| == 1 ==> text == parts[0])
            && (|parts| > 1 ==> |parts[0]| < |text| && text[..|parts[0]|] == parts[0] && text[|parts[0]|] == separator
                                && SplitOn(separator, text[|parts[0]| + 1..]) == parts[1..])
  {
    var parts := SplitOn(separator, text);
    SplitIsFree(separator, text);
    JoinInvertsSplit(separator, text);
    assert parts[0] in parts;
    if |parts| > 1 {
      var rest := JoinWith(separator, parts[1..]);
      assert text == parts[0] + [separator] + rest;
      assert text[|parts[0]| + 1..] == rest;
      SplitInvertsJoin(separator, parts[1..]);
    }
  }

  /** The parts of a text are exactly the separator-free names that stand in it between separators. */
  lemma {:induction false} PartsStandInText(separator: char, text: string, name: string)
    requires separator !in name
    ensures name in SplitOn(separator, text) <==> exists i :: StandsAt(separator, text, name, i)
    decreases |text|
  {
    hide SplitOn;
    var parts := SplitOn(separator, text);
    SplitFirst(separator, text);
    if |parts| == 1 {
      if name == text { assert StandsAt(separator, text, name, 0); }
      if i :| StandsAt(separator, text, name, i) { AloneIsAll(separator, text, name, i); }
    } else {
      var n := |parts[0]| + 1;
      var rest := text[n..];
      PartsStandInText(separator, rest, name);
      assert name in parts <==> name == parts[0] || name in parts[1..];
      if name == parts[0] { assert StandsAt(separator, text, name, 0); }
      if i :| StandsAt(separator, rest, name, i) { StandsLater(separator, text, n, name, i); }
      if i :| StandsAt(separator, text, name, i) { StandsFirstOrLater(separator, text, n, name, i); }
    }
  }

  lemma NowhereIn(c: char, text: string)
    requires c !in text
    ensures forall k :: 0 <= k < |text| ==> text[k] != c
  {
  }

  lemma AloneIsAll(separator: char, text: string, name: string, i: int)
    requires separator !in text && StandsAt(separator, text, name, i)
    ensures name == text
  {
    NowhereIn(separator, text);
  }

  lemma StandsLater(separator: char, text: string, n: nat, name: string, i: int)
    requires 0 < n <= |text| && text[n - 1] == separator && StandsAt(separator, text[n..], name, i)
    ensures StandsAt(separator, text, name, n + i)
  {
    assert text[n..][i..i + |name|] == text[n + i..n + i + |name|];
  }

  lemma StandsFirstOrLater(separator: char, text: string, n: nat, name: string, i: int)
    requires 0 < n <= |text| && text[n - 1] == separator && separator !in text[..n - 1] && separator !in name
    requires StandsAt(separator, text, name, i)
    ensures name == text[..n - 1] || StandsAt(separator, text[n..], name, i - n)
  {
    NowhereIn(separator, text[..n - 1]);
    NowhereIn(separator, name);
    assert forall k :: 0 <= k < n - 1 ==> text[..n - 1][k] == text[k];
    assert forall k :: 0 <= k < |name| ==> name[k] == text[i + k];
    if i >= n {
      assert text[n..][i - n..i - n + |name|] == text[i..i + |name|];
    }
  }

  // ---------------------------------------------------------------- order

  /** The order of strings, character by character; a proper prefix comes first. */
  predicate Less(a: string, b: string) {
    if b == "" then false
    else if a == "" then true
    else a[0] < b[0] || (a[0] == b[0] && Less(a[1..], b[1..]))
  }

  lemma {:induction false} LessIsIrreflexive(a: string)
    ensures !Less(a, a)
  {
    if a != "" { LessIsIrreflexive(a[1..]); }
  }

  lemma {:induction false} LessIsTransitive(a: string, b: string, c: string)
    requires Less(a, b) && Less(b, c)
    ensures Less(a, c)
  {
    if a != "" && a[0] == b[0] == c[0] {
      LessIsTransitive(a[1..], b[1..], c[1..]);
    }
  }

  lemma {:induction false} LessIsTotal(a: string, b: string)
    ensures a == b || Less(a, b) || Less(b, a)
  {
    if a != "" && b != "" && a[0] == b[0] {
      LessIsTotal(a[1..], b[1..]);
      assert a == [a[0]] + a[1..] && b == [b[0]] + b[1..];
    }
  }

  predicate Ascending(s: seq<string>) {
    forall i, j :: 0 <= i < j < |s| ==> Less(s[i], s[j])
  }

  lemma NonemptyHasElement(s: seq<string>)
    requires s != []
    ensures exists x :: x in s
  {
    assert s[0] in s;
  }

  /** An ascending list is determined by its elements. */
  lemma {:induction false} AscendingIsCanonical(a: seq<string>, b: seq<string>)
    requires Ascending(a) && Ascending(b) && forall x :: x in a <==> x in b
    ensures a == b
  {
    if a == [] {
      if b != [] { NonemptyHasElement(b); }
    } else {
      assert a[0] in b;
      SameFirst(a, b);
      SameRest(a, b);
      AscendingIsCanonical(a[1..], b[1..]);
      assert a == [a[0]] + a[1..] && b == [b[0]] + b[1..];
    }
  }

  lemma SameFirst(a: seq<string>, b: seq<string>)
    requires Ascending(a) && Ascending(b) && forall x :: x in a <==> x in b
    requires a != []
    ensures b != [] && a[0] == b[0]
  {
    assert a[0] in b;
    assert b[0] in a;
    var i :| 0 <= i < |b| && b[i] == a[0];
    var j :| 0 <= j < |a| && a[j] == b[0];
    if i > 0 && j > 0 {
      LessIsTransitive(a[0], a[j], b[i]);
      LessIsIrreflexive(a[0]);
    }
  }

  lemma SameRest(a: seq<string>, b: seq<string>)
    requires Ascending(a) && Ascending(b) && forall x :: x in a <==> x in b
    requires a != [] && b != [] && a[0] == b[0]
    ensures forall x :: x in a[1..] <==> x in b[1..]
  {
    forall x ensures x in a[1..] <==> x in b[1..] {
      LessIsIrreflexive(a[0]);
      if x in a[1..] {
        assert Less(a[0], x) && x in b;
        var i :| 0 <= i < |b| && b[i] == x;
        assert b[1..][i - 1] == x;
      }
      if x in b[1..] {
        assert Less(b[0], x) && x in a;
        var i :| 0 <= i < |a| && a[i] == x;
        assert a[1..][i - 1] == x;
      }
    }
  }
}
