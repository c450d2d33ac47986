/**
 * The string operations the app relies on from Swift and Foundation: decimal
 * rendering (`"\(n)"`, `%d`, `%02d`), `Int(String)`, `split(separator:)` and
 * `components(separatedBy:).first`.
 */
module Text {
  import opened Wrappers

  predicate IsDigit(c: char) {
    '0' <= c <= '9'
  }

  predicate AllDigits(s: string) {
    forall i :: 0 <= i < |s| ==> IsDigit(s[i])
  }

  /** No occurrence of `c` in `s`. */
  predicate Free(s: string, c: char) {
    forall i :: 0 <= i < |s| ==> s[i] != c
  }

  function DigitChar(d: nat): (c: char)
    requires d < 10
    ensures IsDigit(c)
  {
    ('0' as int + d) as char
  }

  function DigitValue(c: char): (d: nat)
    requires IsDigit(c)
    ensures d < 10
  {
    c as int - '0' as int
  }

  /** The value of a string of decimal digits, most significant first. */
  function DigitsValue(s: string): nat
    requires AllDigits(s)
  {
    if s == [] then 0 else DigitsValue(s[..|s| - 1]) * 10 + DigitValue(s[|s| - 1])
  }

  /** Decimal rendering of a natural number, without leading zeros. */
  function NatToString(n: nat): (r: string)
    ensures |r| > 0 && AllDigits(r) && DigitsValue(r) == n
    ensures |r| > 1 ==> r[0] != '0'
    ensures n < 10 ==> |r| == 1
    ensures 10 <= n < 100 ==> |r| == 2
  {
    if n < 10 then [DigitChar(n)]
    else
      var p := NatToString(n / 10);
      var r := p + [DigitChar(n % 10)];
      assert r[..|r| - 1] == p;
      r
  }

  /** Swift's `"\(n)"` and `%d` for an Int: a minus sign, then the digits of the magnitude. */
  function IntToString(n: int): (r: string)
    ensures |r| > 0 && forall i :: 0 <= i < |r| ==> IsDigit(r[i]) || r[i] == '-'
  {
    if n < 0 then "-" + NatToString(-n) else NatToString(n)
  }

  /** `%02d`: zero-padded to at least two characters. */
  function Pad2(n: int): (r: string)
    ensures |r| >= 2 && forall i :: 0 <= i < |r| ==> IsDigit(r[i]) || r[i] == '-'
    ensures 0 <= n < 100 ==> |r| == 2
  {
    if 0 <= n < 10 then "0" + IntToString(n) else IntToString(n)
  }

  /** One or more ASCII digits. */
  function ParseNat(s: string): Option<nat> {
    if |s| > 0 && AllDigits(s) then Some(DigitsValue(s)) else None
  }

  /**
   * The syntax Swift's `Int(String)` accepts: an optional `+` or `-`, then one
   * or more digits. The value is unbounded; `ParseInt64` adds Int's range check.
   */
  function ParseInt(s: string): Option<int> {
    if |s| > 0 && (s[0] == '-' || s[0] == '+') then
      match ParseNat(s[1..])
      case None => None
      case Some(v) =>
        var magnitude: int := v;
        Some(if s[0] == '-' then -magnitude else magnitude)
    else
      match ParseNat(s)
      case None => None
      case Some(v) => Some(v)
  }

  const Int64Min: int := -0x8000_0000_0000_0000
  const Int64Max: int := 0x7FFF_FFFF_FFFF_FFFF

  /** Swift's `Int(String)` on a 64-bit platform: nil also when the value does not fit in `Int`. */
  function ParseInt64(s: string): (r: Option<int>)
    ensures r.Some? ==> Int64Min <= r.value <= Int64Max
  {
    match ParseInt(s)
    case Some(v) => if Int64Min <= v <= Int64Max then Some(v) else None
    case None => None
  }

  /** `Int(String)` reads back every `Int` that `"\(n)"` printed. */
  lemma ParseInt64OfIntToString(n: int)
    requires Int64Min <= n <= Int64Max
    ensures ParseInt64(IntToString(n)) == Some(n)
  {
    ParseIntOfIntToString(n);
  }

  /** A well-formed number outside `Int`'s range is rejected. */
  lemma ParseInt64OutOfRange(n: int)
    requires n < Int64Min || Int64Max < n
    ensures ParseInt(IntToString(n)) == Some(n) && ParseInt64(IntToString(n)) == None
  {
    ParseIntOfIntToString(n);
  }

  lemma ParseIntOfIntToString(n: int)
    ensures ParseInt(IntToString(n)) == Some(n)
  {
    if n < 0 {
      assert IntToString(n)[1..] == NatToString(-n);
    }
  }

  lemma {:induction false} LeadingZero(s: string)
    requires AllDigits(s)
    ensures AllDigits("0" + s) && DigitsValue("0" + s) == DigitsValue(s)
  {
    if s != [] {
      var t := "0" + s;
      assert t[..|t| - 1] == "0" + s[..|s| - 1];
      LeadingZero(s[..|s| - 1]);
    }
  }

  /** `%02d` reads back with `Int(String)`. */
  lemma ParseIntOfPad2(n: int)
    ensures ParseInt(Pad2(n)) == Some(n)
  {
    if 0 <= n < 10 {
      LeadingZero(NatToString(n));
    } else {
      ParseIntOfIntToString(n);
    }
  }

  /** A "%d:%02d" label splits at its colon into two fields that read back as the numbers. */
  lemma TwoFieldLabel(a: int, b: int)
    ensures var parts := Split(IntToString(a) + ":" + Pad2(b), ':');
            |parts| == 2 && parts[1] == Pad2(b) &&
            ParseInt(parts[0]) == Some(a) && ParseInt(parts[1]) == Some(b)
  {
    var fields := [IntToString(a), Pad2(b)];
    SplitJoin(fields, ':');
    assert Join(fields, ':') == IntToString(a) + ":" + Pad2(b);
    ParseIntOfIntToString(a);
    ParseIntOfPad2(b);
  }

  /** A "%d:%02d:%02d" label splits at its colons into three fields that read back as the numbers. */
  lemma ThreeFieldLabel(a: int, b: int, c: int)
    ensures var parts := Split(IntToString(a) + ":" + Pad2(b) + ":" + Pad2(c), ':');
            |parts| == 3 && parts[1] == Pad2(b) && parts[2] == Pad2(c) &&
            ParseInt(parts[0]) == Some(a) && ParseInt(parts[1]) == Some(b) && ParseInt(parts[2]) == Some(c)
  {
    var fields := [IntToString(a), Pad2(b), Pad2(c)];
    SplitJoin(fields, ':');
    assert Join(fields[2..], ':') == Pad2(c);
    assert Join(fields, ':') == IntToString(a) + ":" + Pad2(b) + ":" + Pad2(c);
    ParseIntOfIntToString(a);
    ParseIntOfPad2(b);
    ParseIntOfPad2(c);
  }

  /**
   * Swift's `s.split(separator: sep)`: the maximal `sep`-free pieces, with the
   * empty ones left out.
   */
  function Split(s: string, sep: char): seq<string> {
    SplitFrom(s, sep, [])
  }

  /** Splits `s` when `cur` holds the piece read so far. */
  function SplitFrom(s: string, sep: char, cur: string): seq<string>
    decreases |s|
  {
    if s == [] then (if cur == [] then [] else [cur])
    else if s[0] == sep then (if cur == [] then [] else [cur]) + SplitFrom(s[1..], sep, [])
    else SplitFrom(s[1..], sep, cur + [s[0]])
  }

  /** `parts.joined(separator: String(sep))`. */
  function Join(parts: seq<string>, sep: char): string {
    if |parts| == 0 then []
    else if |parts| == 1 then parts[0]
    else parts[0] + [sep] + Join(parts[1..], sep)
  }

  lemma {:induction false} SplitFromFree(a: string, rest: string, sep: char, cur: string)
    requires Free(a, sep)
    ensures SplitFrom(a + rest, sep, cur) == SplitFrom(rest, sep, cur + a)
    decreases |a|
  {
    if a != [] {
      assert (a + rest)[1..] == a[1..] + rest;
      SplitFromFree(a[1..], rest, sep, cur + [a[0]]);
      assert cur + [a[0]] + a[1..] == cur + a;
    } else {
      assert a + rest == rest && cur + a == cur;
    }
  }

  /** Splitting undoes joining when every piece is non-empty and free of the separator. */
  lemma {:induction false} SplitJoin(parts: seq<string>, sep: char)
    requires forall i :: 0 <= i < |parts| ==> |parts[i]| > 0 && Free(parts[i], sep)
    ensures Split(Join(parts, sep), sep) == parts
  {
    if |parts| == 1 {
      SplitFromFree(parts[0], [], sep, []);
      assert parts[0] + [] == parts[0] && [] + parts[0] == parts[0];
    } else if |parts| > 1 {
      var tail := Join(parts[1..], sep);
      SplitFromFree(parts[0], [sep] + tail, sep, []);
      assert parts[0] + [sep] + tail == parts[0] + ([sep] + tail);
      assert ([sep] + tail)[1..] == tail;
      SplitJoin(parts[1..], sep);
      assert [] + parts[0] == parts[0];
      assert [parts[0]] + parts[1..] == parts;
    }
  }

  /** `s.components(separatedBy: String(c)).first`: the text before the first `c`, or all of `s`. */
  function PrefixBefore(s: string, c: char): (r: string)
    ensures r <= s && Free(r, c)
    ensures |r| < |s| ==> s[|r|] == c
  {
    if s == [] || s[0] == c then [] else [s[0]] + PrefixBefore(s[1..], c)
  }

  lemma {:induction false} PrefixBeforeAppend(a: string, b: string, c: char)
    requires Free(a, c)
    ensures PrefixBefore(a + [c] + b, c) == a
  {
    if a != [] {
      assert (a + [c] + b)[1..] == a[1..] + [c] + b;
      PrefixBeforeAppend(a[1..], b, c);
    }
  }
}
