/** JSON texts: reading them as RFC 8259 describes, and the compact form the archive writes. */
module Json {
  import opened Common
  import opened Text

  /** A JSON value; of the numbers, the natural ones. */
  datatype Value =
    | Null
    | Bool(truth: bool)
    | Number(n: nat)
    | String(text: string)
    | Array(items: seq<Value>)
    | Object(members: seq<(string, Value)>)

  // ---------------------------------------------------------------- writing

  /** The archive escapes quotation marks and backslashes, and nothing else. */
  function Escape(s: string): string {
    if s == "" then ""
    else (if s[0] == '"' || s[0] == '\\' then ['\\', s[0]] else [s[0]]) + Escape(s[1..])
  }

  function Quote(s: string): string {
    ['"'] + Escape(s) + ['"']
  }

  function Decimal(n: nat): (r: string)
    ensures |r| > 0
  {
    if n < 10 then [Digit(n)] else Decimal(n / 10) + [Digit(n % 10)]
  }

  function Digit(n: nat): char
    requires n < 10
  {
    ('0' as int + n) as char
  }

  function Width(v: Value): nat {
    match v
    case Array(items) => |items| + 1
    case Object(members) => |members| + 1
    case _ => 0
  }

  function Encode(v: Value): string
    decreases v, Width(v)
  {
    match v
    case Null => "null"
    case Bool(truth) => if truth then "true" else "false"
    case Number(n) => Decimal(n)
    case String(text) => Quote(text)
    case Array(items) => ['['] + EncodeItems(v, 0) + [']']
    case Object(members) => ['{'] + EncodeMembers(v, 0) + ['}']
  }

  function EncodeItems(v: Value, i: nat): string
    requires v.Array? && i <= |v.items|
    decreases v, |v.items| - i
  {
    if i == |v.items| then ""
    else if i + 1 == |v.items| then Encode(v.items[i])
    else Encode(v.items[i]) + [','] + EncodeItems(v, i + 1)
  }

  function EncodeMembers(v: Value, i: nat): string
    requires v.Object? && i <= |v.members|
    decreases v, |v.members| - i
  {
    if i == |v.members| then ""
    else
      var (name, value) := v.members[i];
      var member := Quote(name) + [':'] + Encode(value);
      if i + 1 == |v.members| then member else member + [','] + EncodeMembers(v, i + 1)
  }

  // ---------------------------------------------------------------- reading

  predicate IsSpace(c: char) {
    c == ' ' || c == '\t' || c == '\n' || c == '\r'
  }

  function SkipSpace(t: string): (r: string)
    ensures |r| <= |t|
  {
    if t != "" && IsSpace(t[0]) then SkipSpace(t[1..]) else t
  }

  /** Four hexadecimal digits after `\u`. */
  function CodeUnit(t: string): (r: Option<nat>)
    ensures r.Some? ==> r.value < 0x10000 && |t| >= 4
  {
    if |t| >= 4 && IsHexDigit(t[0]) && IsHexDigit(t[1]) && IsHexDigit(t[2]) && IsHexDigit(t[3]) then
      Some(((HexValue(t[0]) * 16 + HexValue(t[1])) * 16 + HexValue(t[2])) * 16 + HexValue(t[3]))
    else None
  }

  /** The character an escape stands for, and how much text it takes after the backslash. */
  function Unescape(t: string): (r: Option<(char, nat)>)
    ensures r.Some? ==> 0 < r.value.1 <= |t|
  {
    if t == "" then None
    else
      match t[0]
      case '"' => Some(('"', 1))
      case '\\' => Some(('\\', 1))
      case '/' => Some(('/', 1))
      case 'b' => Some(('\U{8}', 1))
      case 'f' => Some(('\U{C}', 1))
      case 'n' => Some(('\n', 1))
      case 'r' => Some(('\r', 1))
      case 't' => Some(('\t', 1))
      case 'u' =>
        var unit := CodeUnit(t[1..]);
        if unit.None? then None
        else if unit.value < 0xD800 || 0xE000 <= unit.value then Some((unit.value as char, 5))
        else if 0xDC00 <= unit.value || |t| < 11 || t[5] != '\\' || t[6] != 'u' then None
        else
          var low := CodeUnit(t[7..]);
          if low.None? || low.value < 0xDC00 || 0xE000 <= low.value then None
          else Some((((unit.value - 0xD800) * 0x400 + (low.value - 0xDC00) + 0x10000) as char, 11))
      case _ => None
  }

  /** The rest of a string after its opening quotation mark. A control character must be escaped. */
  function ParseChars(t: string): (r: Option<(string, string)>)
    ensures r.Some? ==> |r.value.1| < |t|
    decreases |t|
  {
    if t == "" then None
    else if t[0] == '"' then Some(("", t[1..]))
    else if t[0] == '\\' then
      var escape := Unescape(t[1..]);
      if escape.None? then None
      else
        var rest := ParseChars(t[1 + escape.value.1..]);
        if rest.None? then None else Some(([escape.value.0] + rest.value.0, rest.value.1))
    else if t[0] < ' ' then None
    else
      var rest := ParseChars(t[1..]);
      if rest.None? then None else Some(([t[0]] + rest.value.0, rest.value.1))
  }

  function DigitsOf(t: string): (n: nat)
    ensures n <= |t| && forall i :: 0 <= i < n ==> IsDigit(t[i])
  {
    if t != "" && IsDigit(t[0]) then 1 + DigitsOf(t[1..]) else 0
  }

  function ValueOf(digits: string): nat
    requires forall i :: 0 <= i < |digits| ==> IsDigit(digits[i])
  {
    if digits == "" then 0
    else
      assert IsDigit(digits[|digits| - 1]);
      10 * ValueOf(digits[..|digits| - 1]) + (digits[|digits| - 1] as int - '0' as int)
  }

  /** A natural number: no leading zero, no fraction, no exponent. */
  function ParseNumber(t: string): (r: Option<(nat, string)>)
    ensures r.Some? ==> |r.value.1| < |t|
  {
    var n := DigitsOf(t);
    if n == 0 || (n > 1 && t[0] == '0') then None
    else if n < |t| && (t[n] == '.' || t[n] == 'e' || t[n] == 'E') then None
    else Some((ValueOf(t[..n]), t[n..]))
  }

  function ParseValue(text: string): (r: Option<(Value, string)>)
    ensures r.Some? ==> |r.value.1| < |text|
    decreases |text|, 2
  {
    var t := SkipSpace(text);
    if t == "" then None
    else if t[0] == '"' then
      var s := ParseChars(t[1..]);
      if s.None? then None else Some((String(s.value.0), s.value.1))
    else if t[0] == '[' then
      var items := ParseArray(t[1..]);
      if items.None? then None else Some((Array(items.value.0), items.value.1))
    else if t[0] == '{' then
      var members := ParseObject(t[1..]);
      if members.None? then None else Some((Object(members.value.0), members.value.1))
    else if IsDigit(t[0]) then
      var n := ParseNumber(t);
      if n.None? then None else Some((Number(n.value.0), n.value.1))
    else if HasPrefix(t, "null") then Some((Null, t[4..]))
    else if HasPrefix(t, "true") then Some((Bool(true), t[4..]))
    else if HasPrefix(t, "false") then Some((Bool(false), t[5..]))
    else None
  }

  function ParseArray(text: string): (r: Option<(seq<Value>, string)>)
    ensures r.Some? ==> |r.value.1| < |text|
    decreases |text|, 4
  {
    var t := SkipSpace(text);
    if t != "" && t[0] == ']' then Some(([], t[1..])) else ParseItems(text)
  }

  function ParseItems(text: string): (r: Option<(seq<Value>, string)>)
    ensures r.Some? ==> |r.value.1| < |text|
    decreases |text|, 3
  {
    var first := ParseValue(text);
    if first.None? then None
    else
      var t := SkipSpace(first.value.1);
      if t == "" then None
      else if t[0] == ']' then Some(([first.value.0], t[1..]))
      else if t[0] != ',' then None
      else
        var rest := ParseItems(t[1..]);
        if rest.None? then None else Some(([first.value.0] + rest.value.0, rest.value.1))
  }

  function ParseObject(text: string): (r: Option<(seq<(string, Value)>, string)>)
    ensures r.Some? ==> |r.value.1| < |text|
    decreases |text|, 4
  {
    var t := SkipSpace(text);
    if t != "" && t[0] == '}' then Some(([], t[1..])) else ParseMembers(text)
  }

  function ParseMember(text: string): (r: Option<((string, Value), string)>)
    ensures r.Some? ==> |r.value.1| < |text|
    decreases |text|, 2
  {
    var t := SkipSpace(text);
    if t == "" || t[0] != '"' then None
    else
      var name := ParseChars(t[1..]);
      if name.None? then None
      else
        var after := SkipSpace(name.value.1);
        if after == "" || after[0] != ':' then None
        else
          var value := ParseValue(after[1..]);
          if value.None? then None else Some(((name.value.0, value.value.0), value.value.1))
  }

  function ParseMembers(text: string): (r: Option<(seq<(string, Value)>, string)>)
    ensures r.Some? ==> |r.value.1| < |text|
    decreases |text|, 3
  {
    var first := ParseMember(text);
    if first.None? then None
    else
      var t := SkipSpace(first.value.1);
      if t == "" then None
      else if t[0] == '}' then Some(([first.value.0], t[1..]))
      else if t[0] != ',' then None
      else
        var rest := ParseMembers(t[1..]);
        if rest.None? then None else Some(([first.value.0] + rest.value.0, rest.value.1))
  }

  /** A whole JSON text: one value, and nothing but space after it. */
  function Parse(text: string): Option<Value> {
    var v := ParseValue(text);
    if v.Some? && SkipSpace(v.value.1) == "" then Some(v.value.0) else None
  }

  // ---------------------------------------------------------------- strings and numbers come back

  predicate IsPlain(s: string) {
    forall i :: 0 <= i < |s| ==> s[i] >= ' '
  }

  /** A written string reads back as itself exactly when it has no control character. */
  lemma {:induction false} StringRoundTrip(s: string, rest: string)
    ensures ParseChars(Escape(s) + ['"'] + rest) == if IsPlain(s) then Some((s, rest)) else None
  {
    var t := Escape(s) + ['"'] + rest;
    if s == "" {
      assert t[1..] == rest;
    } else {
      StringRoundTrip(s[1..], rest);
      var tail := Escape(s[1..]) + ['"'] + rest;
      assert s == [s[0]] + s[1..];
      assert IsPlain(s) <==> s[0] >= ' ' && IsPlain(s[1..]);
      if s[0] == '"' || s[0] == '\\' {
        assert t == ['\\', s[0]] + tail;
        assert t[1..][0] == s[0] && t[1..][1..] == tail && t[2..] == tail;
        assert Unescape(t[1..]) == Some((s[0], 1));
      } else {
        assert t == [s[0]] + tail && t[1..] == tail;
      }
    }
  }

  /** The text after a number does not continue it. */
  predicate EndsNumber(rest: string) {
    rest == "" || !(IsDigit(rest[0]) || rest[0] == '.' || rest[0] == 'e' || rest[0] == 'E')
  }

  lemma {:induction false} DecimalIsDigits(n: nat)
    ensures (forall i :: 0 <= i < |Decimal(n)| ==> IsDigit(Decimal(n)[i])) && ValueOf(Decimal(n)) == n
    ensures |Decimal(n)| > 1 ==> Decimal(n)[0] != '0'
    ensures n > 0 ==> Decimal(n)[0] != '0'
  {
    if n >= 10 {
      DecimalIsDigits(n / 10);
      var d := Decimal(n);
      assert d[..|d| - 1] == Decimal(n / 10) && d[|d| - 1] == Digit(n % 10) && d[0] == Decimal(n / 10)[0];
    } else {
      assert ValueOf([]) == 0 && [Digit(n)][..0] == [];
    }
  }

  lemma {:induction false} DigitsStop(digits: string, rest: string)
    requires (forall i :: 0 <= i < |digits| ==> IsDigit(digits[i])) && (rest == "" || !IsDigit(rest[0]))
    ensures DigitsOf(digits + rest) == |digits|
  {
    if digits == "" {
      assert digits + rest == rest;
    } else {
      DigitsStop(digits[1..], rest);
      assert (digits + rest)[1..] == digits[1..] + rest;
    }
  }

  lemma NumberRoundTrip(n: nat, rest: string)
    requires EndsNumber(rest)
    ensures ParseNumber(Decimal(n) + rest) == Some((n, rest)) && IsDigit(Decimal(n)[0])
  {
    DecimalIsDigits(n);
    DigitsStop(Decimal(n), rest);
    var t := Decimal(n) + rest;
    assert t[..|Decimal(n)|] == Decimal(n) && t[|Decimal(n)|..] == rest && t[0] == Decimal(n)[0];
  }

  // ---------------------------------------------------------------- values come back

  /** No string in the value has a control character. */
  predicate IsPlainValue(v: Value) {
    match v
    case String(text) => IsPlain(text)
    case Array(items) => forall i :: 0 <= i < |items| ==> IsPlainValue(items[i])
    case Object(members) => forall i :: 0 <= i < |members| ==> IsPlain(members[i].0) && IsPlainValue(members[i].1)
    case _ => true
  }

  /** A value's text begins with a character that tells what it is. */
  lemma StartOf(v: Value)
    ensures Encode(v) != "" && !IsSpace(Encode(v)[0]) && Encode(v)[0] != ']' && Encode(v)[0] != '}'
    ensures v.Number? <==> IsDigit(Encode(v)[0])
  {
    if v.Number? { DecimalIsDigits(v.n); }
  }

  lemma NoSpaceToSkip(t: string, rest: string)
    requires t != "" && !IsSpace(t[0])
    ensures SkipSpace(t + rest) == t + rest
  {
  }

  /** A written value reads back as itself exactly when no string in it has a control character. */
  lemma {:induction false} ValueRoundTrip(v: Value, rest: string)
    requires EndsNumber(rest)
    ensures ParseValue(Encode(v) + rest) == if IsPlainValue(v) then Some((v, rest)) else None
    decreases v, Width(v)
  {
    StartOf(v);
    NoSpaceToSkip(Encode(v), rest);
    match v
    case Number(n) => NumberRoundTrip(n, rest);
    case String(text) =>
      StringRoundTrip(text, rest);
      assert (Encode(v) + rest)[1..] == Escape(text) + ['"'] + rest;
    case Array(_) => ArrayRoundTrip(v, rest);
    case Object(_) => ObjectRoundTrip(v, rest);
    case Null => assert (Encode(v) + rest)[..4] == "null" && (Encode(v) + rest)[4..] == rest;
    case Bool(truth) =>
      if truth { assert (Encode(v) + rest)[..4] == "true" && (Encode(v) + rest)[4..] == rest; }
      else { assert (Encode(v) + rest)[..5] == "false" && (Encode(v) + rest)[5..] == rest; }
  }

  lemma {:induction false} ArrayRoundTrip(v: Value, rest: string)
    requires v.Array?
    ensures ParseValue(Encode(v) + rest) == if IsPlainValue(v) then Some((v, rest)) else None
    decreases v, |v.items| + 1, 0
  {
    hide ParseItems;
    var body := EncodeItems(v, 0) + [']'] + rest;
    assert Encode(v) + rest == ['['] + body && (['['] + body)[1..] == body;
    if v.items == [] {
      assert body == [']'] + rest && body[1..] == rest;
    } else {
      ItemsRoundTrip(v, 0, rest);
      ItemsStart(v, 0);
      NoSpaceToSkip(EncodeItems(v, 0), [']'] + rest);
      assert EncodeItems(v, 0) + ([']'] + rest) == body;
      assert v.items[0..] == v.items;
    }
  }

  lemma ItemsStart(v: Value, i: nat)
    requires v.Array? && i < |v.items|
    ensures EncodeItems(v, i) != "" && !IsSpace(EncodeItems(v, i)[0]) && EncodeItems(v, i)[0] != ']'
  {
    StartOf(v.items[i]);
  }

  lemma {:induction false} ItemsRoundTrip(v: Value, i: nat, rest: string)
    requires v.Array? && i < |v.items|
    ensures ParseItems(EncodeItems(v, i) + [']'] + rest)
         == if forall j :: i <= j < |v.items| ==> IsPlainValue(v.items[j]) then Some((v.items[i..], rest)) else None
    decreases v, |v.items| - i
  {
    hide IsPlainValue, ParseValue, Encode;
    var item := v.items[i];
    if i + 1 == |v.items| {
      ValueRoundTrip(item, [']'] + rest);
      assert Encode(item) + ([']'] + rest) == EncodeItems(v, i) + [']'] + rest;
      assert ([']'] + rest)[1..] == rest && v.items[i..] == [item];
    } else {
      var tail := EncodeItems(v, i + 1) + [']'] + rest;
      ValueRoundTrip(item, [','] + tail);
      assert Encode(item) + ([','] + tail) == EncodeItems(v, i) + [']'] + rest;
      assert ([','] + tail)[1..] == tail;
      ItemsRoundTrip(v, i + 1, rest);
      assert v.items[i..] == [item] + v.items[i + 1..];
    }
  }

  lemma {:induction false} ObjectRoundTrip(v: Value, rest: string)
    requires v.Object?
    ensures ParseValue(Encode(v) + rest) == if IsPlainValue(v) then Some((v, rest)) else None
    decreases v, |v.members| + 1, 0
  {
    hide ParseMembers;
    var body := EncodeMembers(v, 0) + ['}'] + rest;
    assert Encode(v) + rest == ['{'] + body && (['{'] + body)[1..] == body;
    if v.members == [] {
      assert body == ['}'] + rest && body[1..] == rest;
    } else {
      MembersRoundTrip(v, 0, rest);
      assert EncodeMembers(v, 0)[0] == '"';
      NoSpaceToSkip(EncodeMembers(v, 0), ['}'] + rest);
      assert EncodeMembers(v, 0) + (['}'] + rest) == body;
      assert v.members[0..] == v.members;
    }
  }

  predicate IsPlainMember(m: (string, Value)) {
    IsPlain(m.0) && IsPlainValue(m.1)
  }

  function EncodeMember(m: (string, Value)): string {
    Quote(m.0) + [':'] + Encode(m.1)
  }

  lemma {:induction false} MemberRoundTrip(v: Value, i: nat, rest: string)
    requires v.Object? && i < |v.members| && EndsNumber(rest)
    ensures ParseMember(EncodeMember(v.members[i]) + rest)
         == if IsPlainMember(v.members[i]) then Some((v.members[i], rest)) else None
    decreases v, |v.members| - i, 0
  {
    hide IsPlainValue, ParseValue, Encode;
    var (name, value) := v.members[i];
    var t := EncodeMember(v.members[i]) + rest;
    var after := [':'] + Encode(value) + rest;
    assert t == Quote(name) + after && t[0] == '"';
    assert t[1..] == Escape(name) + ['"'] + after;
    StringRoundTrip(name, after);
    assert after[1..] == Encode(value) + rest;
    ValueRoundTrip(value, rest);
  }

  lemma {:induction false} MembersRoundTrip(v: Value, i: nat, rest: string)
    requires v.Object? && i < |v.members|
    ensures ParseMembers(EncodeMembers(v, i) + ['}'] + rest)
         == if forall j :: i <= j < |v.members| ==> IsPlainMember(v.members[j]) then Some((v.members[i..], rest)) else None
    decreases v, |v.members| - i, 1
  {
    hide IsPlainMember, ParseMember, Encode, Quote;
    var m := v.members[i];
    if i + 1 == |v.members| {
      MemberRoundTrip(v, i, ['}'] + rest);
      assert EncodeMember(m) + (['}'] + rest) == EncodeMembers(v, i) + ['}'] + rest;
      assert (['}'] + rest)[1..] == rest && v.members[i..] == [m];
    } else {
      var tail := EncodeMembers(v, i + 1) + ['}'] + rest;
      MemberRoundTrip(v, i, [','] + tail);
      assert EncodeMember(m) + ([','] + tail) == EncodeMembers(v, i) + ['}'] + rest;
      assert ([','] + tail)[1..] == tail;
      MembersRoundTrip(v, i + 1, rest);
      assert v.members[i..] == [m] + v.members[i + 1..];
    }
  }
}
