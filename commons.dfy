/**
 * `Commons.intToIp` (util/Commons.kt) and its textual duplicate in MainActivity:
 * a 32-bit `Int` as delivered by `dhcpInfo` (least-significant byte first)
 * rendered as a dotted quad, together with the parser of dotted quads that
 * `InetAddress.getByName` applies to such a literal.
 */
module Commons {
  import opened Wrappers

  /** Kotlin's `Int`: a 32-bit two's-complement integer. */
  newtype Int32 = x: int | -0x8000_0000 <= x < 0x8000_0000

  const TwoTo32: int := 0x1_0000_0000

  /**
   * `i shr (8 * k)`. An arithmetic right shift by n bits is floor division by
   * 2^n, and shifting by 8 bits k times is shifting by 8k bits; Dafny's `/` by
   * a positive divisor rounds towards negative infinity, as the shift does.
   */
  function Shr8(i: int, k: nat): int {
    if k == 0 then i else Shr8(i, k - 1) / 0x100
  }

  /**
   * `x and 0xFF`. In two's complement the low eight bits of x, read as an
   * unsigned number, are the non-negative remainder of x modulo 256.
   */
  function And0xFF(x: int): int {
    x % 0x100
  }

  /** Field k (0..3) of `intToIp(i)`: `(i shr 8k) and 0xFF`. */
  function Octet(i: Int32, k: nat): (b: nat)
    requires k < 4
    ensures b < 0x100
  {
    And0xFF(Shr8(i as int, k))
  }

  // ---------------------------------------------------------------------------
  // Decimal numerals: Kotlin's `Int.toString()` on a non-negative value.

  predicate IsDigit(c: char) {
    '0' <= c <= '9'
  }

  function DigitChar(d: nat): (c: char)
    requires d < 10
    ensures IsDigit(c)
  {
    (48 + d) as char
  }

  function DigitValue(c: char): (d: nat)
    requires IsDigit(c)
    ensures d < 10 && DigitChar(d) == c
  {
    c as int - 48
  }

  predicate AllDigits(s: string) {
    forall i :: 0 <= i < |s| ==> IsDigit(s[i])
  }

  /** A canonical decimal numeral: non-empty, digits only, no leading zero. */
  predicate IsNumeral(s: string) {
    |s| > 0 && AllDigits(s) && (|s| > 1 ==> s[0] != '0')
  }

  /** The decimal text of n, as `toString()` writes it. */
  function Decimal(n: nat): (s: string)
    ensures IsNumeral(s)
    ensures s[0] == '0' <==> n == 0
  {
    if n < 10 then [DigitChar(n)] else Decimal(n / 10) + [DigitChar(n % 10)]
  }

  /** The value of a string of digits read in base ten. */
  function NumeralValue(s: string): nat
    requires AllDigits(s)
  {
    if s == [] then 0 else NumeralValue(s[..|s| - 1]) * 10 + DigitValue(s[|s| - 1])
  }

  /** Reading back what `Decimal` wrote gives the number again. */
  lemma {:induction false} DecimalRoundTrip(n: nat)
    ensures NumeralValue(Decimal(n)) == n
  {
    if n >= 10 {
      var s := Decimal(n);
      assert s[..|s| - 1] == Decimal(n / 10);
      DecimalRoundTrip(n / 10);
    }
  }

  /** A canonical numeral is exactly what `Decimal` writes for its value. */
  lemma {:induction false} NumeralCanonical(s: string)
    requires IsNumeral(s)
    ensures Decimal(NumeralValue(s)) == s
  {
    if |s| > 1 {
      var p := s[..|s| - 1];
      assert IsNumeral(p) by {
        assert |p| > 1 ==> p[0] == s[0];
      }
      NumeralCanonical(p);
      if |p| == 1 {
        assert NumeralValue(p) == DigitValue(p[0]) by {
          assert p[..0] == [];
        }
        assert DigitValue(p[0]) != 0 by {
          assert p[0] == s[0];
        }
      } else {
        assert Decimal(NumeralValue(p))[0] == s[0];
      }
      var n := NumeralValue(s);
      assert n / 10 == NumeralValue(p) && n % 10 == DigitValue(s[|s| - 1]);
      assert s == p + [s[|s| - 1]];
    } else {
      assert s[..0] == [];
    }
  }

  /** Distinct numbers have distinct decimal texts. */
  lemma DecimalInjective(m: nat, n: nat)
    requires Decimal(m) == Decimal(n)
    ensures m == n
  {
    DecimalRoundTrip(m);
    DecimalRoundTrip(n);
  }

  // ---------------------------------------------------------------------------
  // Dotted quads.

  /** The pieces of s between '.' characters, as `s.split('.')` gives them. */
  function Split(s: string): (r: seq<string>)
    ensures |r| >= 1
  {
    if s == [] then [""]
    else
      var rest := Split(s[1..]);
      if s[0] == '.' then [""] + rest else [[s[0]] + rest[0]] + rest[1..]
  }

  predicate NoDot(s: string) {
    forall i :: 0 <= i < |s| ==> s[i] != '.'
  }

  /** The pieces joined with '.' between them. */
  function JoinDots(fs: seq<string>): string
    requires |fs| >= 1
  {
    if |fs| == 1 then fs[0] else fs[0] + "." + JoinDots(fs[1..])
  }

  /** Joining the pieces of a split gives the string back. */
  lemma {:induction false} JoinSplit(s: string)
    ensures JoinDots(Split(s)) == s
  {
    if s != [] {
      JoinSplit(s[1..]);
      var rest := Split(s[1..]);
      if s[0] == '.' {
        assert s == "." + s[1..];
      } else if |rest| == 1 {
        assert s == [s[0]] + rest[0];
      } else {
        var r := [[s[0]] + rest[0]] + rest[1..];
        assert r[1..] == rest[1..];
        assert JoinDots(rest) == rest[0] + "." + JoinDots(rest[1..]);
        assert s == [s[0]] + JoinDots(rest);
      }
    }
  }

  /** A piece without dots followed by '.' splits off as the first piece. */
  lemma {:induction false} SplitAfter(a: string, u: string)
    requires NoDot(a)
    ensures Split(a + "." + u) == [a] + Split(u)
  {
    if a == [] {
      assert a + "." + u == "." + u;
      assert ("." + u)[1..] == u;
    } else {
      assert (a + "." + u)[1..] == a[1..] + "." + u;
      SplitAfter(a[1..], u);
      assert [a[0]] + a[1..] == a;
    }
  }

  /** A string without dots is a single piece. */
  lemma {:induction false} SplitNoDot(a: string)
    requires NoDot(a)
    ensures Split(a) == [a]
  {
    if a != [] {
      SplitNoDot(a[1..]);
      assert [a[0]] + a[1..] == a;
    }
  }

  lemma NumeralNoDot(s: string)
    requires AllDigits(s)
    ensures NoDot(s)
  {
  }

  /** Four octet values, in the order they are written. */
  datatype Quad = Quad(a: nat, b: nat, c: nat, d: nat)

  predicate IsOctetField(s: string) {
    IsNumeral(s) && NumeralValue(s) < 0x100
  }

  /** Four numbers written in decimal, joined by three dots. */
  function FormatQuad(a: nat, b: nat, c: nat, d: nat): string {
    Decimal(a) + "." + (Decimal(b) + "." + (Decimal(c) + "." + Decimal(d)))
  }

  /**
   * The dotted-quad literal parser: exactly four canonical decimal fields, each
   * at most 255. Anything else is not a dotted-quad literal.
   */
  function ParseQuad(s: string): (r: Option<Quad>)
    ensures r.Some? ==> r.value.a < 0x100 && r.value.b < 0x100 && r.value.c < 0x100 && r.value.d < 0x100
  {
    var f := Split(s);
    if |f| == 4 && IsOctetField(f[0]) && IsOctetField(f[1]) && IsOctetField(f[2]) && IsOctetField(f[3]) then
      Some(Quad(NumeralValue(f[0]), NumeralValue(f[1]), NumeralValue(f[2]), NumeralValue(f[3])))
    else
      None
  }

  /** Four dot-free pieces joined by dots split back into those pieces. */
  lemma SplitFour(w: string, x: string, y: string, z: string)
    requires NoDot(w) && NoDot(x) && NoDot(y) && NoDot(z)
    ensures Split(w + "." + (x + "." + (y + "." + z))) == [w, x, y, z]
  {
    SplitNoDot(z);
    SplitAfter(y, z);
    SplitAfter(x, y + "." + z);
    SplitAfter(w, x + "." + (y + "." + z));
  }

  /** The pieces of a formatted quad are the four numerals. */
  lemma FormatQuadSplit(a: nat, b: nat, c: nat, d: nat)
    ensures Split(FormatQuad(a, b, c, d)) == [Decimal(a), Decimal(b), Decimal(c), Decimal(d)]
  {
    var da, db, dc, dd := Decimal(a), Decimal(b), Decimal(c), Decimal(d);
    NumeralNoDot(da); NumeralNoDot(db); NumeralNoDot(dc); NumeralNoDot(dd);
    SplitFour(da, db, dc, dd);
  }

  /** Parsing a formatted quad of octets gives the octets back. */
  lemma FormatParse(a: nat, b: nat, c: nat, d: nat)
    requires a < 0x100 && b < 0x100 && c < 0x100 && d < 0x100
    ensures ParseQuad(FormatQuad(a, b, c, d)) == Some(Quad(a, b, c, d))
  {
    FormatQuadSplit(a, b, c, d);
    DecimalRoundTrip(a); DecimalRoundTrip(b); DecimalRoundTrip(c); DecimalRoundTrip(d);
  }

  /** Four pieces joined with dots, written out. */
  lemma JoinFour(f: seq<string>)
    requires |f| == 4
    ensures JoinDots(f) == f[0] + "." + (f[1] + "." + (f[2] + "." + f[3]))
  {
    assert JoinDots(f[3..]) == f[3];
    assert JoinDots(f[2..]) == f[2] + "." + f[3] by {
      assert f[2..][1..] == f[3..];
    }
    assert JoinDots(f[1..]) == f[1] + "." + (f[2] + "." + f[3]) by {
      assert f[1..][1..] == f[2..];
    }
  }

  /** Whatever the parser accepts is exactly the formatted text of what it returns. */
  lemma ParseFormat(s: string)
    requires ParseQuad(s).Some?
    ensures var q := ParseQuad(s).value; FormatQuad(q.a, q.b, q.c, q.d) == s
  {
    var f := Split(s);
    var q := ParseQuad(s).value;
    assert q == Quad(NumeralValue(f[0]), NumeralValue(f[1]), NumeralValue(f[2]), NumeralValue(f[3]));
    NumeralCanonical(f[0]); NumeralCanonical(f[1]); NumeralCanonical(f[2]); NumeralCanonical(f[3]);
    assert Decimal(q.a) == f[0] && Decimal(q.b) == f[1] && Decimal(q.c) == f[2] && Decimal(q.d) == f[3];
    JoinSplit(s);
    JoinFour(f);
  }

  /** Two octet quads with the same text are the same quad. */
  lemma FormatQuadInjective(q: Quad, r: Quad)
    requires q.a < 0x100 && q.b < 0x100 && q.c < 0x100 && q.d < 0x100
    requires r.a < 0x100 && r.b < 0x100 && r.c < 0x100 && r.d < 0x100
    requires FormatQuad(q.a, q.b, q.c, q.d) == FormatQuad(r.a, r.b, r.c, r.d)
    ensures q == r
  {
    FormatParse(q.a, q.b, q.c, q.d);
    FormatParse(r.a, r.b, r.c, r.d);
  }

  // ---------------------------------------------------------------------------
  // intToIp

  /** `Commons.intToIp(i)`: the four masked shifts of i, low byte first. */
  function IntToIp(i: Int32): string {
    FormatQuad(Octet(i, 0), Octet(i, 1), Octet(i, 2), Octet(i, 3))
  }

  /** The little-endian unsigned value of four octets. */
  function QuadValue(q: Quad): int {
    q.a + 0x100 * q.b + 0x1_0000 * q.c + 0x100_0000 * q.d
  }

  /** The octets of i, in the order intToIp writes them. */
  function Octets(i: Int32): Quad {
    Quad(Octet(i, 0), Octet(i, 1), Octet(i, 2), Octet(i, 3))
  }

  /** A value is its low byte plus 256 times its shift by eight. */
  lemma ShiftSteps(x: int)
    ensures x == And0xFF(x) + 0x100 * (x / 0x100)
  {
  }

  /** Four base-256 digit steps, written out as one weighted sum. */
  lemma Recompose(x: int, s1: int, s2: int, s3: int, a: int, b: int, c: int, d: int, top: int)
    requires x == a + 0x100 * s1 && s1 == b + 0x100 * s2 && s2 == c + 0x100 * s3 && s3 == d + 0x100 * top
    ensures x == a + 0x100 * b + 0x1_0000 * c + 0x100_0000 * d + TwoTo32 * top
  {
  }

  /** A 32-bit value that differs from v by a multiple of 2^32, for v in [0, 2^32), has v as its residue. */
  lemma ResidueOf(x: int, v: int, top: int)
    requires -0x8000_0000 <= x < 0x8000_0000 && 0 <= v < TwoTo32
    requires x == v + TwoTo32 * top
    ensures v == x % TwoTo32
  {
    assert -1 <= top <= 0;
    if top == 0 {
      assert x == v;
    } else {
      assert x + TwoTo32 == v;
    }
  }

  /** Shifting right by 8, 16 and 24 bits is floor division by 2^8, 2^16 and 2^24. */
  lemma ShiftsAsDivisions(x: int)
    ensures Shr8(x, 1) == x / 0x100
    ensures Shr8(x, 2) == x / 0x1_0000
    ensures Shr8(x, 3) == x / 0x100_0000
  {
    assert Shr8(x, 0) == x;
    var s1 := x / 0x100;
    var s2 := s1 / 0x100;
    assert Shr8(x, 2) == s2;
    assert s2 == x / 0x1_0000;
    assert Shr8(x, 3) == s2 / 0x100;
  }

  /** The four octets, weighted little-endian, recompose i modulo 2^32. */
  lemma {:induction false} OctetsRecompose(i: Int32)
    ensures QuadValue(Octets(i)) == (i as int) % TwoTo32
    ensures 0 <= QuadValue(Octets(i)) < TwoTo32
  {
    var x := i as int;
    var s1, s2, s3 := Shr8(x, 1), Shr8(x, 2), Shr8(x, 3);
    assert Shr8(x, 0) == x;
    assert s1 == x / 0x100;
    assert s2 == s1 / 0x100;
    assert s3 == s2 / 0x100;
    ShiftSteps(x); ShiftSteps(s1); ShiftSteps(s2); ShiftSteps(s3);
    var a, b, c, d := And0xFF(x), And0xFF(s1), And0xFF(s2), And0xFF(s3);
    assert Octets(i) == Quad(a, b, c, d);
    var top := s3 / 0x100;
    Recompose(x, s1, s2, s3, a, b, c, d, top);
    ResidueOf(x, QuadValue(Octets(i)), top);
  }

  /**
   * intToIp's output is exactly four canonical decimal numerals, each at most
   * 255, joined by three dots; the first one is the least-significant byte.
   */
  lemma IntToIpFormat(i: Int32)
    ensures var f := Split(IntToIp(i));
      && |f| == 4
      && (forall k :: 0 <= k < 4 ==> IsOctetField(f[k]) && NumeralValue(f[k]) == Octet(i, k))
      && NumeralValue(f[0]) == (i as int) % 0x100
  {
    var q := Octets(i);
    FormatQuadSplit(q.a, q.b, q.c, q.d);
    DecimalRoundTrip(q.a); DecimalRoundTrip(q.b); DecimalRoundTrip(q.c); DecimalRoundTrip(q.d);
  }

  /**
   * Round trip: parsing intToIp(i) back gives four octets whose little-endian
   * value is i modulo 2^32.
   */
  lemma IntToIpRoundTrip(i: Int32)
    ensures ParseQuad(IntToIp(i)) == Some(Octets(i))
    ensures QuadValue(ParseQuad(IntToIp(i)).value) == (i as int) % TwoTo32
  {
    var q := Octets(i);
    FormatParse(q.a, q.b, q.c, q.d);
    OctetsRecompose(i);
  }

  /** An Int read as unsigned: negative values move up by 2^32. */
  lemma UnsignedValue(x: int)
    requires -0x8000_0000 <= x < 0x8000_0000
    ensures x % TwoTo32 == if x < 0 then x + TwoTo32 else x
  {
  }

  /** Distinct Ints give distinct strings, negative ones included. */
  lemma IntToIpInjective(i: Int32, j: Int32)
    requires IntToIp(i) == IntToIp(j)
    ensures i == j
  {
    IntToIpRoundTrip(i);
    IntToIpRoundTrip(j);
    UnsignedValue(i as int);
    UnsignedValue(j as int);
  }

  /** 192.168.1.1 arrives from dhcpInfo as 0x0101A8C0, low byte first. */
  lemma IntToIpExample()
    ensures IntToIp(0x0101_A8C0) == "192.168.1.1"
  {
    var i: Int32 := 0x0101_A8C0;
    assert Octets(i) == Quad(192, 168, 1, 1) by {
      assert Shr8(i as int, 1) == 0x0101_A8;
      assert Shr8(i as int, 2) == 0x0101;
      assert Shr8(i as int, 3) == 0x01;
    }
    assert Decimal(1) == "1";
    assert Decimal(19) == "19";
    assert Decimal(192) == "192";
    assert Decimal(16) == "16";
    assert Decimal(168) == "168";
  }

  /** Negative Ints are rendered through their unsigned bytes: -1 is all ones. */
  lemma IntToIpNegativeExample()
    ensures IntToIp(-1) == "255.255.255.255"
  {
    var i: Int32 := -1;
    assert Octets(i) == Quad(255, 255, 255, 255) by {
      assert Shr8(i as int, 1) == -1;
      assert Shr8(i as int, 2) == -1;
      assert Shr8(i as int, 3) == -1;
    }
    assert Decimal(2) == "2";
    assert Decimal(25) == "25";
    assert Decimal(255) == "255";
  }
}
