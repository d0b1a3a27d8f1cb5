/** The text shapes of the type-directed defaults: String, Time (an ISO 8601
    duration), Guid (the version-4 template of section 4.4 of RFC 4122) and
    Binary (the 32 bits of a signed 32-bit mask). The draws they are built
    from are parameters here; the generator supplies them. */
module Formats {
  import opened Values

  // ---------------------------------------------------------------- String

  /** The String default `name + " " + index`. */
  function StringDefault(name: string, index: nat): (r: string)
    ensures |r| > |name| + 1
    ensures r[..|name|] == name && r[|name|] == ' '
    ensures DigitsOnly(r[|name| + 1..]) && DigitsValue(r[|name| + 1..]) == index
  {
    NatTextRoundTrip(index);
    var r := name + " " + NatText(index);
    assert r[|name| + 1..] == NatText(index);
    r
  }

  predicate DigitsOnly(s: string) {
    forall k :: 0 <= k < |s| ==> '0' <= s[k] <= '9'
  }

  // ------------------------------------------------------------------ Time

  /** The Time default `"PT" + h + "H" + m + "M" + s + "S"`. */
  function TimeText(h: nat, m: nat, s: nat): string {
    "PT" + NatText(h) + "H" + NatText(m) + "M" + NatText(s) + "S"
  }

  /** Length of the longest prefix of decimal digits. */
  function SpanDigits(s: string): (n: nat)
    ensures n <= |s|
    ensures DigitsOnly(s[..n])
    ensures n < |s| ==> !('0' <= s[n] <= '9')
  {
    if s != [] && '0' <= s[0] <= '9' then 1 + SpanDigits(s[1..]) else 0
  }

  /** Reads a non-empty run of digits followed by `designator`, and returns
      its value and what follows the designator. */
  function ReadField(s: string, designator: char): Option<(nat, string)> {
    var n := SpanDigits(s);
    if 0 < n < |s| && s[n] == designator then Some((DigitsValue(s[..n]), s[n + 1..])) else None
  }

  /** Reads a duration `PT<h>H<m>M<s>S` back into its three fields. */
  function ParseTime(t: string): Option<(nat, nat, nat)> {
    if |t| < 2 || t[..2] != "PT" then None
    else match ReadField(t[2..], 'H')
      case None => None
      case Some((h, r1)) =>
        match ReadField(r1, 'M')
        case None => None
        case Some((m, r2)) =>
          match ReadField(r2, 'S')
          case None => None
          case Some((s, r3)) => if r3 == "" then Some((h, m, s)) else None
  }

  /** The digits of a number stop at the first non-digit after them. */
  lemma {:induction false} SpanDigitsOfText(d: string, c: char, rest: string)
    requires DigitsOnly(d)
    requires !('0' <= c <= '9')
    ensures SpanDigits(d + [c] + rest) == |d|
    decreases |d|
  {
    if d != [] {
      assert (d + [c] + rest)[1..] == d[1..] + [c] + rest;
      SpanDigitsOfText(d[1..], c, rest);
    } else {
      assert (d + [c] + rest)[0] == c;
    }
  }

  lemma ReadFieldOfText(n: nat, c: char, rest: string)
    requires !('0' <= c <= '9')
    ensures ReadField(NatText(n) + [c] + rest, c) == Some((n, rest))
  {
    var d := NatText(n);
    var s := d + [c] + rest;
    SpanDigitsOfText(d, c, rest);
    assert s[..|d|] == d;
    assert s[|d|] == c;
    assert s[|d| + 1..] == rest;
    NatTextRoundTrip(n);
  }

  /** Every Time default reads back as the hours, minutes and seconds it was built from. */
  lemma TimeRoundTrip(h: nat, m: nat, s: nat)
    ensures ParseTime(TimeText(h, m, s)) == Some((h, m, s))
  {
    var t := TimeText(h, m, s);
    var rs := NatText(s) + "S";
    var rm := NatText(m) + "M" + rs;
    assert t[..2] == "PT";
    assert t[2..] == NatText(h) + "H" + rm;
    ReadFieldOfText(h, 'H', rm);
    assert rm == NatText(m) + "M" + rs;
    ReadFieldOfText(m, 'M', rs);
    ReadFieldOfText(s, 'S', "");
    assert rs == NatText(s) + "S" + "";
  }

  // ------------------------------------------------------------------ Guid

  /** The replacement template; each `x` and `y` takes one draw. */
  const GuidTemplate := "xxxxxxxx-xxxx-4xxx-yxxx-xxxxxxxxxxxx"

  function HexDigit(n: nat): (c: char)
    requires n < 16
  {
    "0123456789abcdef"[n]
  }

  /** The replacement of one placeholder by draw `r` in [0, 16): `x` takes
      `r`, `y` takes `r & 0x3 | 0x8`. */
  function Substitute(c: char, r: nat): (d: char)
    requires r < 16
  {
    if c == 'x' then HexDigit(r) else HexDigit(r % 4 + 8)
  }

  predicate Nibbles(ds: seq<nat>) {
    forall k :: 0 <= k < |ds| ==> ds[k] < 16
  }

  /** The template with each placeholder replaced by the draw made at its
      position; `ds[k]` is the draw for position `k` and is unused where the
      template has a fixed character. */
  function Fill(t: string, ds: seq<nat>): (r: string)
    requires |ds| == |t| && Nibbles(ds)
    ensures |r| == |t|
    ensures forall k :: 0 <= k < |t| && t[k] != 'x' && t[k] != 'y' ==> r[k] == t[k]
    ensures forall k :: 0 <= k < |t| && t[k] == 'x' ==> r[k] in "0123456789abcdef"
    ensures forall k :: 0 <= k < |t| && t[k] == 'y' ==> r[k] in "89ab"
  {
    if t == [] then []
    else
      var c := t[|t| - 1];
      Fill(t[..|t| - 1], ds[..|ds| - 1]) + [if c == 'x' || c == 'y' then Substitute(c, ds[|ds| - 1]) else c]
  }

  /** Filling one more template character appends its replacement. */
  lemma FillSnoc(t: string, ds: seq<nat>, c: char, d: nat)
    requires |ds| == |t| && Nibbles(ds) && d < 16
    ensures Nibbles(ds + [d])
    ensures Fill(t + [c], ds + [d]) == Fill(t, ds) + [if c == 'x' || c == 'y' then Substitute(c, d) else c]
  {
    assert (t + [c])[..|t|] == t;
    assert (ds + [d])[..|ds|] == ds;
  }

  /** A version-4 Guid: 36 characters, dashes at 8, 13, 18 and 23, the
      version digit 4 at 14, the variant digit one of 8, 9, a, b at 19, and
      lower-case hex digits everywhere else. */
  ghost predicate GuidShape(g: string) {
    && |g| == 36
    && g[8] == '-' && g[13] == '-' && g[18] == '-' && g[23] == '-'
    && g[14] == '4'
    && g[19] in "89ab"
    && forall k :: 0 <= k < 36 && k !in {8, 13, 14, 18, 19, 23} ==> g[k] in "0123456789abcdef"
  }

  lemma GuidTemplateShape()
    ensures |GuidTemplate| == 36
    ensures forall k :: 0 <= k < 36 && k !in {8, 13, 14, 18, 19, 23} ==> GuidTemplate[k] == 'x'
    ensures GuidTemplate[19] == 'y'
    ensures GuidTemplate[8] == '-' && GuidTemplate[13] == '-' && GuidTemplate[18] == '-' && GuidTemplate[23] == '-'
    ensures GuidTemplate[14] == '4'
  {
  }

  /** Whatever the draws, the filled template has the Guid shape. */
  lemma GuidFillShape(ds: seq<nat>)
    requires |ds| == 36 && Nibbles(ds)
    ensures GuidShape(Fill(GuidTemplate, ds))
  {
    GuidTemplateShape();
  }

  // ---------------------------------------------------------------- Binary

  const Two31: nat := 0x8000_0000
  const Two32: nat := 0x1_0000_0000

  function Pow2(n: nat): (p: nat)
    ensures p > 0
  {
    if n == 0 then 1 else 2 * Pow2(n - 1)
  }

  /** The characters the source's loop appends: the top bit of a 32-bit
      register, `n` times, shifting the register left by one after each. */
  function TopBits(u: nat, n: nat): (s: string)
    requires u < Two32
    ensures |s| == n
    decreases n
  {
    if n == 0 then [] else [if u / Two31 == 1 then '1' else '0'] + TopBits(u * 2 % Two32, n - 1)
  }

  /** A string of `0`/`1` read as an unsigned binary number, most significant
      bit first, on top of the accumulated value `acc`. */
  function BitsValue(acc: nat, s: string): nat
    decreases |s|
  {
    if s == [] then acc else BitsValue(2 * acc + (if s[0] == '1' then 1 else 0), s[1..])
  }

  /** The same string read as a 32-bit two's-complement number. */
  function SignedValue(s: string): int {
    var u := BitsValue(0, s);
    if u >= Two31 then u - Two32 else u
  }

  lemma MulAtLeast(a: int, d: int)
    requires a >= 1 && d > 0
    ensures a * d >= d
  {
    assert a * d == (a - 1) * d + d;
    assert (a - 1) * d >= 0;
  }

  /** Quotient and remainder are unique. */
  lemma DivModUnique(x: int, d: int, q: int, r: int)
    requires d > 0 && 0 <= r < d && x == q * d + r
    ensures x / d == q && x % d == r
  {
    var q0, r0 := x / d, x % d;
    assert x == q0 * d + r0;
    assert (q - q0) * d == r0 - r;
    if q > q0 {
      MulAtLeast(q - q0, d);
    } else if q < q0 {
      MulAtLeast(q0 - q, d);
    }
  }

  /** Below 2m, the top bit is 0 or 1, and doubling modulo 2m drops it. */
  lemma TopBitIsBit(u: nat, m: int)
    requires m > 0 && u < 2 * m
    ensures u / m == 0 || u / m == 1
    ensures u * 2 % (2 * m) == u * 2 - (u / m) * (2 * m)
  {
    var b := u / m;
    assert u == b * m + u % m;
    if b >= 2 {
      MulAtLeast(b - 1, m);
      assert false;
    }
    assert b >= 0;
    assert u * 2 == b * (2 * m) + 2 * (u % m);
    DivModUnique(u * 2, 2 * m, b, 2 * (u % m));
  }

  /** One left shift of a register of width h*p*2: what is left above the
      low p bits is the old high part minus its top bit. */
  lemma ShiftStep(u: nat, h: int, p: int)
    requires h > 0 && p > 0 && u < 2 * (h * p)
    ensures u / (h * p) == 0 || u / (h * p) == 1
    ensures (u * 2 % (2 * (h * p))) / (2 * p) == u / p - (u / (h * p)) * h
  {
    var m := h * p;
    TopBitIsBit(u, m);
    var b := u / m;
    var q, r := u / p, u % p;
    var u' := u * 2 % (2 * m);
    assert u' == (q - b * h) * (2 * p) + 2 * r by {
      assert u == q * p + r;
      assert u' == u * 2 - b * (2 * m);
      assert b * (2 * m) == (b * h) * (2 * p);
    }
    DivModUnique(u', 2 * p, q - b * h, 2 * r);
  }

  /** Reading the top `n` bits of a register gives the register divided by 2^(32-n). */
  lemma {:induction false} TopBitsValue(acc: nat, u: nat, n: nat)
    requires u < Two32 && n <= 32
    ensures BitsValue(acc, TopBits(u, n)) == acc * Pow2(n) + u / Pow2(32 - n)
    decreases n
  {
    if n == 0 {
      Pow2At32();
      DivModUnique(u, Two32, 0, u);
    } else {
      var b := u / Two31;
      var u' := u * 2 % Two32;
      var half := Pow2(n - 1);
      TopBitsShift(u, n);
      TopBitsUnfold(acc, u, n);
      TopBitsValue(2 * acc + b, u', n - 1);
      RegroupBits(acc, b, half, u / Pow2(32 - n));
    }
  }

  /** The first character read is the top bit; the rest is read from the shifted register. */
  lemma TopBitsUnfold(acc: nat, u: nat, n: nat)
    requires u < Two32 && 0 < n
    ensures u / Two31 == 0 || u / Two31 == 1
    ensures BitsValue(acc, TopBits(u, n)) == BitsValue(2 * acc + u / Two31, TopBits(u * 2 % Two32, n - 1))
  {
    TopBitIsBit(u, Two31);
    var s := TopBits(u, n);
    assert s[1..] == TopBits(u * 2 % Two32, n - 1);
  }

  /** What the shifted register holds above its low 32-n+1 bits. */
  lemma TopBitsShift(u: nat, n: nat)
    requires u < Two32 && 0 < n <= 32
    ensures (u * 2 % Two32) / Pow2(32 - (n - 1)) == u / Pow2(32 - n) - (u / Two31) * Pow2(n - 1)
  {
    var p := Pow2(32 - n);
    var half := Pow2(n - 1);
    Pow2Split(n);
    ShiftStep(u, half, p);
    assert Pow2(32 - (n - 1)) == 2 * p;
  }

  lemma RegroupBits(acc: nat, b: nat, half: nat, q: int)
    ensures (2 * acc + b) * half + (q - b * half) == acc * (2 * half) + q
  {
  }

  lemma Pow2At32()
    ensures Pow2(31) == Two31 && Pow2(32) == Two32
  {
    assert Pow2(4) == 16;
    Pow2Add(4, 4);
    Pow2Add(8, 8);
    Pow2Add(16, 16);
    Pow2Add(1, 31);
  }

  lemma {:induction false} Pow2Add(a: nat, b: nat)
    ensures Pow2(a + b) == Pow2(a) * Pow2(b)
    decreases a
  {
    if a > 0 {
      Pow2Add(a - 1, b);
    }
  }

  lemma Pow2Split(n: nat)
    requires 1 <= n <= 32
    ensures Two31 == Pow2(n - 1) * Pow2(32 - n)
    ensures Two32 == 2 * (Pow2(n - 1) * Pow2(32 - n))
  {
    Pow2At32();
    Pow2Add(n - 1, 32 - n);
  }

  /** The Binary default: the 32 bits of `mask` as JavaScript's `>>> 31` and
      `<<= 1` produce them. They read back as the mask modulo 2^32, and as
      the mask itself in two's complement when it fits in 32 signed bits. */
  method MaskText(mask: int) returns (s: string)
    ensures |s| == 32 && forall k :: 0 <= k < 32 ==> s[k] == '0' || s[k] == '1'
    ensures BitsValue(0, s) == mask % Two32
    ensures -(Two31 as int) <= mask < Two31 ==> SignedValue(s) == mask
  {
    var shifted: nat := mask % Two32;
    s := "";
    assert s + TopBits(shifted, 32) == TopBits(shifted, 32);
    var flag := 0;
    while flag < 32
      invariant 0 <= flag <= 32 && shifted < Two32 && |s| == flag
      invariant s + TopBits(shifted, 32 - flag) == TopBits(mask % Two32, 32)
    {
      var bit := if shifted / Two31 == 1 then '1' else '0';
      var next := shifted * 2 % Two32;
      AppendTopBit(s, shifted, 32 - flag);
      s := s + [bit];
      shifted := next;
      flag := flag + 1;
    }
    assert s == TopBits(mask % Two32, 32);
    MaskBits(mask);
  }

  /** One turn of the mask loop: the top bit moves from the register to
      the text. */
  lemma AppendTopBit(s: string, u: nat, n: nat)
    requires u < Two32 && n > 0
    ensures s + TopBits(u, n) == (s + [if u / Two31 == 1 then '1' else '0']) + TopBits(u * 2 % Two32, n - 1)
  {
  }

  /** What the 32 characters of a mask read back as. */
  lemma MaskBits(mask: int)
    ensures var s := TopBits(mask % Two32, 32);
            && (forall k :: 0 <= k < 32 ==> s[k] == '0' || s[k] == '1')
            && BitsValue(0, s) == mask % Two32
            && (-(Two31 as int) <= mask < Two31 ==> SignedValue(s) == mask)
  {
    var u := mask % Two32;
    TopBitsValue(0, u, 32);
    assert Pow2(0) == 1;
    TopBitsAreBits(u, 32);
    if -(Two31 as int) <= mask < 0 {
      DivModUnique(mask, Two32, -1, mask + Two32);
    } else if 0 <= mask < Two31 {
      DivModUnique(mask, Two32, 0, mask);
    }
  }

  lemma {:induction false} TopBitsAreBits(u: nat, n: nat)
    requires u < Two32
    ensures forall k :: 0 <= k < n ==> TopBits(u, n)[k] == '0' || TopBits(u, n)[k] == '1'
    decreases n
  {
    if n > 0 {
      TopBitsAreBits(u * 2 % Two32, n - 1);
    }
  }
}
