/** The names of history index files: a job's creation second and id, embedded in string order. */
module HistoryKeys {
  import opened Common
  import opened Text

  predicate IsIdChar(c: char) {
    'a' <= c <= 'z' || 'A' <= c <= 'Z' || '0' <= c <= '9' || c == '-' || c == '_'
  }

  predicate ValidId(id: string) {
    1 <= |id| <= 128 && forall i :: 0 <= i < |id| ==> IsIdChar(id[i])
  }

  /** Text whose characters are single bytes. */
  predicate Bytes(text: string) {
    forall i :: 0 <= i < |text| ==> text[i] < '\U{100}'
  }

  // ---------------------------------------------------------------- hexadecimal

  function HexDigit(n: nat): char
    requires n < 16
  {
    if n < 10 then ('0' as int + n) as char else ('a' as int + n - 10) as char
  }

  predicate IsHex(text: string) {
    |text| % 2 == 0 && forall i :: 0 <= i < |text| ==> IsHexDigit(text[i])
  }

  function HexEncode(text: string): (r: string)
    requires Bytes(text)
    ensures IsHex(r) && |r| == 2 * |text|
  {
    if text == "" then ""
    else [HexDigit(text[0] as int / 16), HexDigit(text[0] as int % 16)] + HexEncode(text[1..])
  }

  function DecodePairs(text: string): (r: string)
    requires IsHex(text)
    ensures Bytes(r) && 2 * |r| == |text|
  {
    if text == "" then ""
    else [(16 * HexValue(text[0]) + HexValue(text[1])) as char] + DecodePairs(text[2..])
  }

  /** The bytes a hexadecimal text stands for. A result that is not UTF-8 is not told apart from one
      that is not ASCII: the id check that follows refuses both. */
  function HexDecode(text: string): (r: Option<string>)
    ensures r.Some? ==> Bytes(r.value) && 2 * |r.value| == |text|
  {
    if IsHex(text) then Some(DecodePairs(text)) else None
  }

  function Lower(c: char): char {
    if 'A' <= c <= 'Z' then (c as int + 32) as char else c
  }

  function LowerAll(text: string): string {
    if text == "" then "" else [Lower(text[0])] + LowerAll(text[1..])
  }

  lemma {:induction false} DecodeInvertsEncode(text: string)
    requires Bytes(text)
    ensures HexDecode(HexEncode(text)) == Some(text)
  {
    if text != "" {
      DecodeInvertsEncode(text[1..]);
      var encoded := HexEncode(text);
      assert encoded[2..] == HexEncode(text[1..]);
      assert [text[0]] + text[1..] == text;
    }
  }

  lemma PairInverts(a: char, b: char)
    requires IsHexDigit(a) && IsHexDigit(b)
    ensures var byte := 16 * HexValue(a) + HexValue(b);
            byte < 256 && HexDigit(byte / 16) == Lower(a) && HexDigit(byte % 16) == Lower(b)
  {
  }

  lemma {:induction false} EncodeInvertsDecode(text: string)
    requires HexDecode(text).Some?
    ensures HexEncode(HexDecode(text).value) == LowerAll(text)
  {
    if text != "" {
      assert HexDecode(text[2..]) == Some(DecodePairs(text[2..]));
      EncodeInvertsDecode(text[2..]);
      PairInverts(text[0], text[1]);
      var decoded := DecodePairs(text);
      assert decoded[1..] == DecodePairs(text[2..]);
      assert LowerAll(text) == [Lower(text[0])] + LowerAll(text[1..]);
      assert LowerAll(text[1..]) == [Lower(text[1])] + LowerAll(text[1..][1..]);
      assert text[1..][1..] == text[2..];
    }
  }

  lemma {:induction false} HexKeepsOrder(a: string, b: string)
    requires Bytes(a) && Bytes(b)
    ensures Less(HexEncode(a), HexEncode(b)) <==> Less(a, b)
  {
    if a != "" && b != "" {
      HexKeepsOrder(a[1..], b[1..]);
      var x, y := HexEncode(a), HexEncode(b);
      assert x[1..][1..] == HexEncode(a[1..]);
      assert y[1..][1..] == HexEncode(b[1..]);
      assert x[1..][0] == HexDigit(a[0] as int % 16) && y[1..][0] == HexDigit(b[0] as int % 16);
    }
  }

  // ---------------------------------------------------------------- timestamps

  function Ten(n: nat): (r: nat)
    ensures r > 0
  {
    if n == 0 then 1 else 10 * Ten(n - 1)
  }

  /** `t` in decimal, zero-padded to `n` digits. */
  function Padded(t: nat, n: nat): (r: string)
    ensures |r| == n && forall c :: c in r ==> IsDigit(c)
  {
    if n == 0 then "" else Padded(t / 10, n - 1) + [('0' as int + t % 10) as char]
  }

  lemma {:induction false} LessOfPrefixed(a: string, b: string, x: string, y: string)
    requires |a| == |b|
    ensures Less(a + x, b + y) <==> Less(a, b) || (a == b && Less(x, y))
  {
    if a == "" {
      assert a + x == x && b + y == y;
    } else {
      LessOfPrefixed(a[1..], b[1..], x, y);
      assert (a + x)[1..] == a[1..] + x && (b + y)[1..] == b[1..] + y;
      assert a == [a[0]] + a[1..] && b == [b[0]] + b[1..];
    }
  }

  /** Twenty digits hold every 64-bit number. */
  lemma WordsFit()
    ensures WORD < Ten(TIME_DIGITS)
  {
    assert Ten(4) == 10000;
    assert Ten(8) == 10000 * Ten(4);
    assert Ten(12) == 10000 * Ten(8);
    assert Ten(16) == 10000 * Ten(12);
    assert Ten(20) == 10000 * Ten(16);
  }

  /** Padded numbers compare as the numbers do. */
  lemma {:induction false} PaddingKeepsOrder(t: nat, u: nat, n: nat)
    requires t < Ten(n) && u < Ten(n)
    ensures Less(Padded(t, n), Padded(u, n)) <==> t < u
    ensures Padded(t, n) == Padded(u, n) <==> t == u
  {
    if n > 0 {
      PaddingKeepsOrder(t / 10, u / 10, n - 1);
      var x, y := [('0' as int + t % 10) as char], [('0' as int + u % 10) as char];
      LessOfPrefixed(Padded(t / 10, n - 1), Padded(u / 10, n - 1), x, y);
      assert x[1..] == "" && y[1..] == "";
      if Padded(t, n) == Padded(u, n) {
        assert Padded(t, n)[..n - 1] == Padded(t / 10, n - 1) && Padded(u, n)[..n - 1] == Padded(u / 10, n - 1);
        assert Padded(t, n)[n - 1] == x[0] && Padded(u, n)[n - 1] == y[0];
      }
    }
  }

  // ---------------------------------------------------------------- history keys

  const WORD := 0x1_0000_0000_0000_0000
  const TIME_DIGITS := 20

  function HistoryKey(time: nat, id: string): string
    requires Bytes(id)
  {
    Padded(time, TIME_DIGITS) + "-" + HexEncode(id)
  }

  /** The text before and after the first dash. */
  function SplitOnce(key: string): (r: Option<(string, string)>)
    ensures r.Some? ==> key == r.value.0 + "-" + r.value.1 && '-' !in r.value.0
    ensures r.None? ==> '-' !in key
  {
    if key == "" then None
    else if key[0] == '-' then Some(("", key[1..]))
    else
      match SplitOnce(key[1..])
      case None => None
      case Some(parts) => Some(([key[0]] + parts.0, parts.1))
  }

  function JobIdFromHistoryKey(key: string): Option<string> {
    match SplitOnce(key)
    case None => None
    case Some(parts) =>
      if |parts.0| != TIME_DIGITS || exists c :: c in parts.0 && !IsDigit(c) then None
      else
        match HexDecode(parts.1)
        case None => None
        case Some(id) => if ValidId(id) then Some(id) else None
  }

  lemma {:induction false} SplitOnceAtDash(before: string, after: string)
    requires '-' !in before
    ensures SplitOnce(before + "-" + after) == Some((before, after))
  {
    var key := before + "-" + after;
    if before == "" {
      assert key[1..] == after;
    } else {
      SplitOnceAtDash(before[1..], after);
      assert key[1..] == before[1..] + "-" + after;
      assert [before[0]] + before[1..] == before;
    }
  }

  lemma ValidIdIsBytes(id: string)
    requires ValidId(id)
    ensures Bytes(id)
  {
    forall i | 0 <= i < |id| ensures id[i] < '\U{100}' { assert IsIdChar(id[i]); }
  }

  /** History keys sort by creation second, then by id. */
  lemma KeyOrderIsHistoryOrder(time: nat, id: string, time': nat, id': string)
    requires time < WORD && time' < WORD && ValidId(id) && ValidId(id')
    ensures Bytes(id) && Bytes(id')
    ensures Less(HistoryKey(time, id), HistoryKey(time', id')) <==> time < time' || (time == time' && Less(id, id'))
  {
    ValidIdIsBytes(id);
    ValidIdIsBytes(id');
    WordsFit();
    var p, p' := Padded(time, TIME_DIGITS), Padded(time', TIME_DIGITS);
    PaddingKeepsOrder(time, time', TIME_DIGITS);
    HexKeepsOrder(id, id');
    KeyOrder(p, HexEncode(id), p', HexEncode(id'));
  }

  lemma KeyOrder(a: string, x: string, b: string, y: string)
    requires |a| == |b|
    ensures Less(a + "-" + x, b + "-" + y) <==> Less(a, b) || (a == b && Less(x, y))
  {
    assert a + "-" + x == a + ("-" + x) && b + "-" + y == b + ("-" + y);
    LessOfPrefixed(a, b, "-" + x, "-" + y);
    LessOfPrefixed("-", "-", x, y);
    LessIsIrreflexive("-");
  }

  /** The id is read back from the key. */
  lemma JobIdInvertsHistoryKey(time: nat, id: string)
    requires ValidId(id)
    ensures Bytes(id) && JobIdFromHistoryKey(HistoryKey(time, id)) == Some(id)
  {
    ValidIdIsBytes(id);
    var p := Padded(time, TIME_DIGITS);
    assert '-' !in p;
    SplitOnceAtDash(p, HexEncode(id));
    DecodeInvertsEncode(id);
  }

  /** Keys of different jobs never coincide. */
  lemma KeysAreDistinct(time: nat, id: string, time': nat, id': string)
    requires time < WORD && time' < WORD && ValidId(id) && ValidId(id')
    ensures Bytes(id) && Bytes(id') && (HistoryKey(time, id) == HistoryKey(time', id') ==> time == time' && id == id')
  {
    JobIdInvertsHistoryKey(time, id);
    JobIdInvertsHistoryKey(time', id');
    WordsFit();
    PaddingKeepsOrder(time, time', TIME_DIGITS);
    assert HistoryKey(time, id)[..TIME_DIGITS] == Padded(time, TIME_DIGITS);
    assert HistoryKey(time', id')[..TIME_DIGITS] == Padded(time', TIME_DIGITS);
  }

  /** A file name is taken for a history key only if, up to the case of its hexadecimal digits, it
      is twenty digits, a dash and the encoding of the id read from it. */
  lemma OnlyHistoryKeysHaveIds(key: string)
    requires JobIdFromHistoryKey(key).Some?
    ensures var id := JobIdFromHistoryKey(key).value;
            && ValidId(id) && Bytes(id) && |key| == TIME_DIGITS + 1 + 2 * |id|
            && (forall c :: c in key[..TIME_DIGITS] ==> IsDigit(c)) && key[TIME_DIGITS] == '-'
            && LowerAll(key[TIME_DIGITS + 1..]) == HexEncode(id)
  {
    var parts := SplitOnce(key).value;
    ValidIdIsBytes(JobIdFromHistoryKey(key).value);
    EncodeInvertsDecode(parts.1);
    assert key[..TIME_DIGITS] == parts.0;
    assert key[TIME_DIGITS + 1..] == parts.1;
    forall c | c in parts.0 ensures IsDigit(c) {}
  }
}
