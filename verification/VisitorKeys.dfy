/** The text keys of the traffic recorder: printing a 64-bit host id, splitting a key, and the
    inline digit parser that reads the id back. */
module VisitorKeys {
  import opened Options

  const MIN64 := -0x8000_0000_0000_0000
  const MAX64 := 0x7fff_ffff_ffff_ffff

  predicate Is64(v: int) {
    -0x8000_0000_0000_0000 <= v <= 0x7fff_ffff_ffff_ffff
  }

  /** Two's complement wrap-around of a signed 64-bit integer. */
  function Wrap64(v: int): (w: int)
    ensures Is64(w)
  {
    (v + 0x8000_0000_0000_0000) % 0x1_0000_0000_0000_0000 - 0x8000_0000_0000_0000
  }

  function DigitChar(d: nat): char
    requires d < 10
  {
    '0' + d as char
  }

  function DigitValue(c: char): int {
    c as int - '0' as int
  }

  predicate IsDigit(c: char) {
    '0' <= c <= '9'
  }

  /** The decimal digits of `v`, none for 0. */
  function Digits(v: nat): string {
    if v == 0 then "" else Digits(v / 10) + [DigitChar(v % 10)]
  }

  function Power10(k: nat): nat {
    if k == 0 then 1 else 10 * Power10(k - 1)
  }

  lemma {:induction false} DigitsAreFew(v: nat, k: nat)
    requires v < Power10(k)
    ensures |Digits(v)| <= k
    decreases k
  {
    if v > 0 {
      DigitsAreFew(v / 10, k - 1);
    }
  }

  lemma NineteenDigits()
    ensures MAX64 < Power10(19)
  {
    assert Power10(6) == 1_000_000 && Power10(12) == 1_000_000_000_000;
    assert Power10(18) == 1_000_000_000_000_000_000;
  }

  lemma DigitsFit(v: nat)
    requires v <= MAX64
    ensures |Digits(v)| <= 19
  {
    NineteenDigits();
    DigitsAreFew(v, 19);
  }

  /** What `Itoa` prints. The one 64-bit integer without a negation prints as a bare sign. */
  function Printed(v: int): string {
    if v == 0 then "0" else if v > 0 then Digits(v) else if v == MIN64 then "-" else "-" + Digits(-v)
  }

  method Itoa(v: int) returns (s: string)
    requires Is64(v)
    ensures s == Printed(v)
  {
    if v == 0 {
      return "0";
    }
    var neg := v < 0;
    var rest := if neg then Negated(v) else v;
    var b := new char[20];
    var i := FillDigits(b, rest);
    ghost var digits := b[i..];
    if neg {
      i := i - 1;
      b[i] := '-';
      assert b[i..] == ['-'] + digits;
    }
    s := b[i..];
  }

  /** Negation in 64 bits: the smallest integer has none and stays as it is. */
  function Negated(v: int): (n: int)
    requires Is64(v) && v < 0
    ensures n == if v == MIN64 then MIN64 else -v
  {
    Wrap64(-v)
  }

  /** Fills the buffer from the back; 19 places are enough, so one is left for a sign. */
  method FillDigits(b: array<char>, v: int) returns (i: nat)
    requires b.Length == 20 && v <= MAX64
    modifies b
    ensures 1 <= i <= 20 && b[i..] == if v > 0 then Digits(v) else ""
  {
    i := 20;
    if v <= 0 {
      return;
    }
    DigitsFit(v);
    ghost var all := Digits(v);
    var rest: nat := v;
    while rest > 0
      invariant 0 <= i <= 20 && all == Digits(rest) + b[i..]
    {
      assert |Digits(rest)| > 0;
      i := i - 1;
      b[i] := DigitChar(rest % 10);
      assert b[i..] == [DigitChar(rest % 10)] + b[i + 1..];
      rest := rest / 10;
    }
  }

  predicate AllDigits(s: string) {
    forall i :: 0 <= i < |s| ==> IsDigit(s[i])
  }

  function Value(s: string): int {
    if |s| == 0 then 0 else Value(s[..|s| - 1]) * 10 + DigitValue(s[|s| - 1])
  }

  lemma WrapAbsorbs(a: int, d: int)
    ensures Wrap64(Wrap64(a) * 10 + d) == Wrap64(a * 10 + d)
  {
    var m := 0x1_0000_0000_0000_0000;
    var k := (a + 0x8000_0000_0000_0000) / m;
    assert Wrap64(a) == a - k * m;
    WrapPeriod(a * 10 + d, -10 * k);
  }

  lemma WrapPeriod(a: int, k: int)
    ensures Wrap64(a + k * 0x1_0000_0000_0000_0000) == Wrap64(a)
  {
    var m := 0x1_0000_0000_0000_0000;
    var x := a + 0x8000_0000_0000_0000;
    var q, r := x / m, x % m;
    assert x + k * m == (q + k) * m + r;
    ModUnique(x + k * m, q + k, r);
  }

  lemma ModUnique(x: int, q: int, r: int)
    requires x == q * 0x1_0000_0000_0000_0000 + r && 0 <= r < 0x1_0000_0000_0000_0000
    ensures x % 0x1_0000_0000_0000_0000 == r
  {
  }

  /** The parser works in wrapping 64-bit arithmetic and gives up with 0 at the first character
      that is not a digit. */
  method ParseID(s: string) returns (id: int)
    ensures id == if AllDigits(s) then Wrap64(Value(s)) else 0
  {
    id := 0;
    for i := 0 to |s|
      invariant AllDigits(s[..i]) && id == Wrap64(Value(s[..i]))
    {
      if s[i] < '0' || s[i] > '9' {
        assert !IsDigit(s[i]);
        return 0;
      }
      WrapAbsorbs(Value(s[..i]), DigitValue(s[i]));
      assert s[..i + 1][..i] == s[..i];
      id := Wrap64(id * 10 + DigitValue(s[i]));
    }
    assert s[..|s|] == s;
  }

  function Parsed(s: string): int {
    if AllDigits(s) then Wrap64(Value(s)) else 0
  }

  lemma {:induction false} DigitsHaveValue(v: nat)
    ensures AllDigits(Digits(v)) && Value(Digits(v)) == v
  {
    if v > 0 {
      DigitsHaveValue(v / 10);
      assert Digits(v)[..|Digits(v)| - 1] == Digits(v / 10);
    }
  }

  /** The parser inverts the printer exactly on the non-negative integers; a negative id reads
      as 0. */
  lemma ParseInvertsItoa(v: int)
    requires Is64(v)
    ensures Parsed(Printed(v)) == if v >= 0 then v else 0
  {
    if v >= 0 {
      DigitsHaveValue(v);
      assert Value("0") == 0;
    } else {
      assert Printed(v)[0] == '-';
    }
  }

  // ---------- Keys ----------

  const BAR := '|'

  /** The position of the first bar, or the length. */
  function FirstBar(s: string): (i: nat)
    ensures i <= |s|
  {
    if |s| == 0 || s[0] == BAR then 0 else 1 + FirstBar(s[1..])
  }

  /** Splitting at the first two bars, if there are two. */
  function Split3(s: string): Option<(string, string, string)> {
    var i := FirstBar(s);
    if i == |s| then None else
      var rest := s[i + 1..];
      var j := FirstBar(rest);
      if j == |rest| then None else Some((s[..i], rest[..j], rest[j + 1..]))
  }

  lemma {:induction false} FirstBarAfter(a: string, b: string)
    requires BAR !in a
    ensures FirstBar(a + [BAR] + b) == |a|
    decreases |a|
  {
    if |a| > 0 {
      assert (a + [BAR] + b)[1..] == a[1..] + [BAR] + b;
      FirstBarAfter(a[1..], b);
    }
  }

  /** What can be counted on in a calendar day: digits and dashes. */
  predicate IsDay(day: string) {
    forall i :: 0 <= i < |day| ==> IsDigit(day[i]) || day[i] == '-'
  }

  function VisitorKey(host: int, day: string, hash: string): string {
    Printed(host) + [BAR] + day + [BAR] + hash
  }

  /** Splitting and parsing recover host, day and hash from a visitor key, whatever the hash. */
  lemma VisitorKeysRoundTrip(host: int, day: string, hash: string)
    requires Is64(host) && IsDay(day)
    ensures Split3(VisitorKey(host, day, hash)) == Some((Printed(host), day, hash))
    ensures Parsed(Printed(host)) == if host >= 0 then host else 0
  {
    PrintedHasNoBar(host);
    SplitUndoesJoining(Printed(host), day, hash);
    ParseInvertsItoa(host);
  }

  lemma SplitUndoesJoining(a: string, b: string, c: string)
    requires BAR !in a && BAR !in b
    ensures Split3(a + [BAR] + b + [BAR] + c) == Some((a, b, c))
  {
    var rest := b + [BAR] + c;
    var key := a + [BAR] + b + [BAR] + c;
    assert key == a + [BAR] + rest;
    FirstBarAfter(a, rest);
    FirstBarAfter(b, c);
    assert key[..|a|] == a && key[|a| + 1..] == rest;
    assert rest[..|b|] == b && rest[|b| + 1..] == c;
  }

  lemma PrintedHasNoBar(v: int)
    requires Is64(v)
    ensures BAR !in Printed(v)
  {
    if v >= 0 {
      DigitsHaveValue(v);
    } else if v > MIN64 {
      DigitsHaveValue(-v);
    }
  }

  /** Parts joined by bars. */
  function Join(parts: seq<string>): string {
    if |parts| == 0 then "" else if |parts| == 1 then parts[0] else parts[0] + [BAR] + Join(parts[1..])
  }

  /** Joined keys are as good as tuples: with parts free of bars, equal keys have equal parts. */
  lemma {:induction false} JoinedKeysDetermineParts(p: seq<string>, q: seq<string>)
    requires |p| == |q| && Join(p) == Join(q)
    requires forall i :: 0 <= i < |p| ==> BAR !in p[i] && BAR !in q[i]
    ensures p == q
    decreases |p|
  {
    if |p| > 1 {
      FirstBarAfter(p[0], Join(p[1..]));
      FirstBarAfter(q[0], Join(q[1..]));
      var key := Join(p);
      assert key[..|p[0]|] == p[0] && key[..|q[0]|] == q[0];
      assert key[|p[0]| + 1..] == Join(p[1..]) && key[|q[0]| + 1..] == Join(q[1..]);
      JoinedKeysDetermineParts(p[1..], q[1..]);
    }
  }
}
