/** The Base64 encoder, against the encoding and a decoder of section 4 of RFC 4648. */
module Base64 {
  import opened Common

  type Sextet = x: int | 0 <= x < 64

  /** The index type of the source's loop: Dafny checks that it never wraps. */
  newtype u32 = x: int | 0 <= x < 0x1_0000_0000

  type Alphabet = t: string | |t| == 64 witness seq(64, _ => 'A')

  // ---------------------------------------------------------------- decoding, after the RFC

  /** The value of a character of the alphabet (table 1 of the RFC). */
  function Value(c: char): (r: Option<Sextet>) {
    if 'A' <= c <= 'Z' then Some(c as int - 'A' as int)
    else if 'a' <= c <= 'z' then Some(c as int - 'a' as int + 26)
    else if '0' <= c <= '9' then Some(c as int - '0' as int + 52)
    else if c == '+' then Some(62)
    else if c == '/' then Some(63)
    else None
  }

  // The octets that four 6-bit groups spell.
  function First(p: Sextet, q: Sextet): Byte { 4 * p + q / 16 }
  function Second(q: Sextet, r: Sextet): Byte { 16 * (q % 16) + r / 4 }
  function Third(r: Sextet, s: Sextet): Byte { 64 * (r % 4) + s }

  /** Four characters without padding give three octets. */
  function Quad(a: char, b: char, c: char, d: char): Option<seq<Byte>> {
    match (Value(a), Value(b), Value(c), Value(d))
    case (Some(p), Some(q), Some(r), Some(s)) => Some([First(p, q), Second(q, r), Third(r, s)])
    case _ => None
  }

  /** The final four characters; the bits under the padding must be zero. */
  function Final(a: char, b: char, c: char, d: char): Option<seq<Byte>> {
    if d != '=' then Quad(a, b, c, d)
    else if c != '=' then
      match (Value(a), Value(b), Value(c))
      case (Some(p), Some(q), Some(r)) => if r % 4 == 0 then Some([First(p, q), Second(q, r)]) else None
      case _ => None
    else
      match (Value(a), Value(b))
      case (Some(p), Some(q)) => if q % 16 == 0 then Some([First(p, q)]) else None
      case _ => None
  }

  function Decode(s: string): Option<seq<Byte>> {
    if s == [] then Some([])
    else if |s| < 4 then None
    else if |s| == 4 then Final(s[0], s[1], s[2], s[3])
    else match (Quad(s[0], s[1], s[2], s[3]), Decode(s[4..]))
      case (Some(x), Some(y)) => Some(x + y)
      case _ => None
  }

  // ---------------------------------------------------------------- encoding

  // The 6-bit groups of three octets.
  function Sextet3(a: Byte): Sextet { a / 4 }
  function Sextet2(a: Byte, b: Byte): Sextet { a % 4 * 16 + b / 16 }
  function Sextet1(b: Byte, c: Byte): Sextet { b % 16 * 4 + c / 64 }
  function Sextet0(c: Byte): Sextet { c % 64 }

  function Group(t: Alphabet, a: Byte, b: Byte, c: Byte): (r: string)
    ensures |r| == 4
  {
    [t[Sextet3(a)], t[Sextet2(a, b)], t[Sextet1(b, c)], t[Sextet0(c)]]
  }

  function Encode(t: Alphabet, d: seq<Byte>): (r: string)
    ensures |r| == Length(|d|)
    decreases |d|
  {
    if |d| == 0 then []
    else if |d| == 1 then [t[Sextet3(d[0])], t[Sextet2(d[0], 0)], '=', '=']
    else if |d| == 2 then [t[Sextet3(d[0])], t[Sextet2(d[0], d[1])], t[Sextet1(d[1], 0)], '=']
    else Group(t, d[0], d[1], d[2]) + Encode(t, d[3..])
  }

  function Length(n: nat): (r: nat) {
    if n == 0 then 0 else if n <= 3 then 4 else 4 + Length(n - 3)
  }

  lemma {:induction false} LengthIs(n: nat)
    ensures Length(n) == 4 * ((n + 2) / 3)
  {
    if n > 3 {
      LengthIs(n - 3);
    }
  }

  /** The shifts and masks of the source pick the 6-bit groups out of the triple. */
  lemma BitsOfTriple(a: bv32, b: bv32, c: bv32)
    requires a < 256 && b < 256 && c < 256
    ensures var t := (a << 16) + (b << 8) + c;
      && (t >> 18) & 0x3F == a >> 2
      && (t >> 12) & 0x3F == ((a & 3) << 4) | (b >> 4)
      && (t >> 6) & 0x3F == ((b & 15) << 2) | (c >> 6)
      && (t >> 0) & 0x3F == c & 0x3F
  {
  }

  lemma Triple(a: Byte, b: Byte, c: Byte) returns (p: Sextet, q: Sextet, r: Sextet, s: Sextet)
    ensures p == Sextet3(a) && q == Sextet2(a, b) && r == Sextet1(b, c) && s == Sextet0(c)
    ensures a * 0x10000 + b * 0x100 + c == p * 0x40000 + q * 0x1000 + r * 0x40 + s
  {
    p, q, r, s := Sextet3(a), Sextet2(a, b), Sextet1(b, c), Sextet0(c);
    assert a == 4 * (a / 4) + a % 4;
    assert b == 16 * (b / 16) + b % 16;
    assert c == 64 * (c / 64) + c % 64;
  }

  lemma Digits(a: Byte, b: Byte, c: Byte)
    ensures var t := a * 0x10000 + b * 0x100 + c;
      && t / 0x40000 % 64 == Sextet3(a)
      && t / 0x1000 % 64 == Sextet2(a, b)
      && t / 0x40 % 64 == Sextet1(b, c)
      && t % 64 == Sextet0(c)
  {
    var p, q, r, s := Triple(a, b, c);
    DigitsOf(p, q, r, s);
  }

  lemma DigitsOf(p: Sextet, q: Sextet, r: Sextet, s: Sextet)
    ensures var t := p * 0x40000 + q * 0x1000 + r * 0x40 + s;
      t / 0x40000 % 64 == p && t / 0x1000 % 64 == q && t / 0x40 % 64 == r && t % 64 == s
  {
    var t := p * 0x40000 + q * 0x1000 + r * 0x40 + s;
    assert t / 0x40000 == p;
    assert t / 0x1000 == p * 64 + q;
    assert t / 0x40 == p * 0x1000 + q * 64 + r;
  }

  // ---------------------------------------------------------------- the round trips

  /** The alphabet of the RFC. */
  ghost predicate Standard(t: Alphabet) {
    forall i | 0 <= i < 64 :: Value(t[i]) == Some(i) && t[i] != '='
  }

  lemma ValueSymbol(t: Alphabet, c: char)
    requires Standard(t) && Value(c).Some?
    ensures t[Value(c).value] == c
  {
    assert Value(t[Value(c).value]) == Value(c);
  }

  // The 6-bit groups and the octets are two ways to cut the same 24 bits.

  lemma RegroupFirst(a: Byte, b: Byte)
    ensures First(Sextet3(a), Sextet2(a, b)) == a
  {
  }

  lemma RegroupSecond(a: Byte, b: Byte, c: Byte)
    ensures Second(Sextet2(a, b), Sextet1(b, c)) == b
  {
    assert Sextet2(a, b) % 16 == b / 16;
    assert Sextet1(b, c) / 4 == b % 16;
  }

  lemma RegroupThird(b: Byte, c: Byte)
    ensures Third(Sextet1(b, c), Sextet0(c)) == c
  {
    var hi, lo := c / 64, c % 64;
    assert c == 64 * hi + lo && 0 <= hi < 4;
    LowBits(b % 16, hi);
  }

  lemma LowBits(high: nat, low: nat)
    requires low < 4
    ensures (high * 4 + low) % 4 == low
  {
  }

  lemma RegroupBack(p: Sextet, q: Sextet, r: Sextet, s: Sextet)
    ensures Sextet3(First(p, q)) == p
    ensures Sextet2(First(p, q), Second(q, r)) == q
    ensures Sextet1(Second(q, r), Third(r, s)) == r
    ensures Sextet0(Third(r, s)) == s
  {
  }

  lemma GroupQuad(t: Alphabet, a: Byte, b: Byte, c: Byte)
    requires Standard(t)
    ensures var g := Group(t, a, b, c); Quad(g[0], g[1], g[2], g[3]) == Some([a, b, c]) && g[3] != '=' && g[2] != '='
  {
    RegroupFirst(a, b);
    RegroupSecond(a, b, c);
    RegroupThird(b, c);
  }

  lemma QuadGroup(t: Alphabet, s: string)
    requires Standard(t)
    requires |s| >= 4 && Quad(s[0], s[1], s[2], s[3]).Some?
    ensures var x := Quad(s[0], s[1], s[2], s[3]).value; |x| == 3 && Group(t, x[0], x[1], x[2]) == s[..4]
  {
    ValueSymbol(t, s[0]);
    ValueSymbol(t, s[1]);
    ValueSymbol(t, s[2]);
    ValueSymbol(t, s[3]);
    RegroupBack(Value(s[0]).value, Value(s[1]).value, Value(s[2]).value, Value(s[3]).value);
  }

  lemma PaddingBits(a: Byte)
    ensures Sextet2(a, 0) % 16 == 0 && Sextet1(a, 0) % 4 == 0
  {
  }

  /** The last group when one or two octets are left. */
  lemma FinalOne(t: Alphabet, a: Byte)
    requires Standard(t)
    ensures Final(t[Sextet3(a)], t[Sextet2(a, 0)], '=', '=') == Some([a])
  {
    var p, q := Sextet3(a), Sextet2(a, 0);
    RegroupFirst(a, 0);
    PaddingBits(a);
  }

  lemma FinalTwo(t: Alphabet, a: Byte, b: Byte)
    requires Standard(t)
    ensures Final(t[Sextet3(a)], t[Sextet2(a, b)], t[Sextet1(b, 0)], '=') == Some([a, b])
  {
    var p, q, r := Sextet3(a), Sextet2(a, b), Sextet1(b, 0);
    RegroupFirst(a, b);
    RegroupSecond(a, b, 0);
    PaddingBits(b);
  }

  lemma DecodeLong(g: string, s: string, x: seq<Byte>)
    requires |g| == 4 && g[3] != '=' && Quad(g[0], g[1], g[2], g[3]) == Some(x) && Decode(s).Some?
    ensures Decode(g + s) == Some(x + Decode(s).value)
  {
    assert (g + s)[4..] == s;
    if s == [] {
      assert g + s == g;
      assert x + [] == x;
    }
  }

  lemma DecodeFour(s: string, a: char, b: char, c: char, d: char)
    requires s == [a, b, c, d]
    ensures Decode(s) == Final(a, b, c, d)
  {
  }

  lemma DecodeOne(t: Alphabet, a: Byte)
    requires Standard(t)
    ensures Decode(Encode(t, [a])) == Some([a])
  {
    FinalOne(t, a);
    DecodeFour(Encode(t, [a]), t[Sextet3(a)], t[Sextet2(a, 0)], '=', '=');
  }

  lemma DecodeTwo(t: Alphabet, a: Byte, b: Byte)
    requires Standard(t)
    ensures Decode(Encode(t, [a, b])) == Some([a, b])
  {
    FinalTwo(t, a, b);
    DecodeFour(Encode(t, [a, b]), t[Sextet3(a)], t[Sextet2(a, b)], t[Sextet1(b, 0)], '=');
  }

  lemma DecodeStep(d: seq<Byte>, g: string, tail: string)
    requires |d| >= 3 && Decode(tail) == Some(d[3..])
    requires |g| == 4 && g[3] != '=' && Quad(g[0], g[1], g[2], g[3]) == Some([d[0], d[1], d[2]])
    ensures Decode(g + tail) == Some(d)
  {
    DecodeLong(g, tail, [d[0], d[1], d[2]]);
    assert d == [d[0], d[1], d[2]] + d[3..];
  }

  /** Decoding undoes encoding. */
  lemma {:induction false} DecodeEncode(t: Alphabet, d: seq<Byte>)
    requires Standard(t)
    ensures Decode(Encode(t, d)) == Some(d)
    decreases |d|
  {
    if |d| == 1 {
      assert d == [d[0]];
      DecodeOne(t, d[0]);
    } else if |d| == 2 {
      assert d == [d[0], d[1]];
      DecodeTwo(t, d[0], d[1]);
    } else if |d| >= 3 {
      DecodeEncode(t, d[3..]);
      GroupQuad(t, d[0], d[1], d[2]);
      DecodeStep(d, Group(t, d[0], d[1], d[2]), Encode(t, d[3..]));
    }
  }

  lemma EncodeOne(t: Alphabet, s: string, p: Sextet, q: Sextet)
    requires Standard(t)
    requires |s| == 4 && s[2] == s[3] == '=' && Value(s[0]) == Some(p) && Value(s[1]) == Some(q) && q % 16 == 0
    ensures Encode(t, [First(p, q)]) == s
  {
    ValueSymbol(t, s[0]);
    ValueSymbol(t, s[1]);
    assert Sextet3(First(p, q)) == p && Sextet2(First(p, q), 0) == q;
  }

  lemma RegroupTwo(p: Sextet, q: Sextet, r: Sextet)
    requires r % 4 == 0
    ensures Sextet3(First(p, q)) == p && Sextet2(First(p, q), Second(q, r)) == q && Sextet1(Second(q, r), 0) == r
  {
    RegroupBack(p, q, r, r);
  }

  lemma EncodePair(t: Alphabet, a: Byte, b: Byte)
    ensures Encode(t, [a, b]) == [t[Sextet3(a)], t[Sextet2(a, b)], t[Sextet1(b, 0)], '=']
  {
  }

  lemma PairBack(t: Alphabet, p: Sextet, q: Sextet, r: Sextet)
    requires r % 4 == 0
    ensures Encode(t, [First(p, q), Second(q, r)]) == [t[p], t[q], t[r], '=']
  {
    RegroupTwo(p, q, r);
    EncodePair(t, First(p, q), Second(q, r));
  }

  lemma EncodeTwo(t: Alphabet, s: string, p: Sextet, q: Sextet, r: Sextet)
    requires s == [t[p], t[q], t[r], '='] && r % 4 == 0
    ensures Encode(t, [First(p, q), Second(q, r)]) == s
  {
    PairBack(t, p, q, r);
  }

  /** The characters of a final group are those of its values. */
  lemma FinalLetters(t: Alphabet, s: string)
    requires Standard(t) && |s| == 4 && Value(s[0]).Some? && Value(s[1]).Some? && Value(s[2]).Some? && s[3] == '='
    ensures s == [t[Value(s[0]).value], t[Value(s[1]).value], t[Value(s[2]).value], '=']
  {
    ValueSymbol(t, s[0]);
    ValueSymbol(t, s[1]);
    ValueSymbol(t, s[2]);
  }

  lemma EncodeLong(t: Alphabet, g: string, x: seq<Byte>, y: seq<Byte>)
    requires |x| == 3 && Group(t, x[0], x[1], x[2]) == g
    ensures Encode(t, x + y) == g + Encode(t, y)
  {
    assert (x + y)[3..] == y;
  }

  lemma EncodeStep(t: Alphabet, s: string, x: seq<Byte>, y: seq<Byte>)
    requires |s| >= 4 && |x| == 3 && Group(t, x[0], x[1], x[2]) == s[..4] && Encode(t, y) == s[4..]
    ensures Encode(t, x + y) == s
  {
    EncodeLong(t, s[..4], x, y);
    assert s[..4] + s[4..] == s;
  }

  lemma EncodeFinal(t: Alphabet, s: string)
    requires Standard(t)
    requires |s| == 4 && Final(s[0], s[1], s[2], s[3]).Some?
    ensures Encode(t, Final(s[0], s[1], s[2], s[3]).value) == s
  {
    if s[3] != '=' {
      var x := Quad(s[0], s[1], s[2], s[3]).value;
      QuadGroup(t, s);
      EncodeStep(t, s, x, []);
      assert x + [] == x;
    } else if s[2] != '=' {
      FinalLetters(t, s);
      EncodeTwo(t, s, Value(s[0]).value, Value(s[1]).value, Value(s[2]).value);
    } else {
      EncodeOne(t, s, Value(s[0]).value, Value(s[1]).value);
    }
  }

  /** Every string the decoder accepts is the encoding of what it decodes to. */
  lemma {:induction false} EncodeDecode(t: Alphabet, s: string)
    requires Standard(t)
    requires Decode(s).Some?
    ensures Encode(t, Decode(s).value) == s
    decreases |s|
  {
    if |s| == 4 {
      EncodeFinal(t, s);
    } else if |s| > 4 {
      EncodeDecode(t, s[4..]);
      QuadGroup(t, s);
      EncodeStep(t, s, Quad(s[0], s[1], s[2], s[3]).value, Decode(s[4..]).value);
    }
  }

  // ---------------------------------------------------------------- the encoder

  /** OCTET: past the end the source reads zero. */
  function Octet(d: seq<Byte>, i: nat): Byte {
    if i < |d| then d[i] else 0
  }

  function Rest(d: seq<Byte>): seq<Byte> {
    if |d| <= 3 then [] else d[3..]
  }

  /** What the main loop writes, before the padding overwrites its end. */
  function Body(t: Alphabet, d: seq<Byte>): (r: string)
    ensures |r| == Length(|d|)
    decreases |d|
  {
    if d == [] then [] else Group(t, Octet(d, 0), Octet(d, 1), Octet(d, 2)) + Body(t, Rest(d))
  }

  /** The padding table indexed with the remainder of the size. */
  function PaddingOf(n: nat): (p: nat)
    ensures p <= 2 && p <= Length(n)
  {
    [0, 2, 1][n % 3]
  }

  function Padding(p: nat): (r: string)
    ensures |r| == p && forall i | 0 <= i < p :: r[i] == '='
  {
    if p == 0 then "" else ['='] + Padding(p - 1)
  }

  /** A body with its last p characters replaced by padding. */
  function Padded(body: string, p: nat): string
    requires p <= |body|
  {
    body[..|body| - p] + Padding(p)
  }

  lemma PrependPadded(g: string, body: string, p: nat)
    requires p <= |body|
    ensures g + Padded(body, p) == Padded(g + body, p)
  {
  }

  lemma PaddingStep(n: nat)
    ensures PaddingOf(n + 3) == PaddingOf(n)
    ensures PaddingOf(1) == 2 && PaddingOf(2) == 1 && PaddingOf(3) == 0
  {
  }

  lemma BodyLong(t: Alphabet, d: seq<Byte>)
    requires |d| >= 3
    ensures Body(t, d) == Group(t, d[0], d[1], d[2]) + Body(t, d[3..])
  {
    assert Rest(d) == d[3..];
  }

  lemma PaddedShort(t: Alphabet, d: seq<Byte>)
    requires 0 < |d| <= 2
    ensures Encode(t, d) == Padded(Body(t, d), PaddingOf(|d|))
  {
    PaddingStep(0);
    assert Body(t, d) == Group(t, Octet(d, 0), Octet(d, 1), Octet(d, 2));
  }

  lemma PaddedStep(t: Alphabet, d: seq<Byte>, g: string, body: string)
    requires |d| >= 3 && g == Group(t, d[0], d[1], d[2])
    requires PaddingOf(|d|) <= |body| && Encode(t, d[3..]) == Padded(body, PaddingOf(|d|))
    ensures Encode(t, d) == Padded(g + body, PaddingOf(|d|))
  {
    PrependPadded(g, body, PaddingOf(|d|));
    EncodeLong(t, g, d[..3], d[3..]);
    assert d == d[..3] + d[3..];
  }

  /** The padding loop turns what the main loop wrote into the encoding. */
  lemma {:induction false} EncodeIsPaddedBody(t: Alphabet, d: seq<Byte>)
    ensures Encode(t, d) == Padded(Body(t, d), PaddingOf(|d|))
    decreases |d|
  {
    if 0 < |d| <= 2 {
      PaddedShort(t, d);
    } else if |d| >= 3 {
      EncodeIsPaddedBody(t, d[3..]);
      PaddingStep(|d| - 3);
      BodyLong(t, d);
      PaddedStep(t, d, Group(t, d[0], d[1], d[2]), Body(t, d[3..]));
    }
  }

  method WriteFour(out: array<char>, at: nat, w: char, x: char, y: char, z: char)
    requires at + 4 <= out.Length
    modifies out
    ensures out[..at + 4] == old(out[..at]) + [w, x, y, z]
    ensures out[at + 4..] == old(out[at + 4..])
  {
    out[at] := w;
    out[at + 1] := x;
    out[at + 2] := y;
    out[at + 3] := z;
  }

  method WriteGroup(t: Alphabet, out: array<char>, at: nat, a: Byte, b: Byte, c: Byte)
    requires at + 4 <= out.Length
    modifies out
    ensures out[..at + 4] == old(out[..at]) + Group(t, a, b, c)
    ensures out[at + 4..] == old(out[at + 4..])
  {
    var triple := a * 0x10000 + b * 0x100 + c;
    Digits(a, b, c);
    WriteFour(out, at, t[triple / 0x40000 % 64], t[triple / 0x1000 % 64], t[triple / 0x40 % 64], t[triple % 64]);
  }

  lemma BodyStep(t: Alphabet, d: seq<Byte>, k: nat, done: string)
    requires k < |d| && Body(t, d) == done + Body(t, d[k..])
    ensures var next := if k + 3 <= |d| then k + 3 else |d|;
      Body(t, d) == (done + Group(t, d[k], Octet(d, k + 1), Octet(d, k + 2))) + Body(t, d[next..])
  {
    var rest := d[k..];
    assert Rest(rest) == d[if k + 3 <= |d| then k + 3 else |d|..];
    assert Octet(rest, 0) == d[k] && Octet(rest, 1) == Octet(d, k + 1) && Octet(rest, 2) == Octet(d, k + 2);
  }

  /** The 32-bit index after OCTET; it stays where it is at the end. */
  function Advance(data: seq<Byte>, index: u32): u32
    requires |data| < 0x1_0000_0000
  {
    if index as int < |data| then index + 1 else index
  }

  /** The three octets of a group, and where the index stands behind them. */
  lemma ThreeOctets(data: seq<Byte>, i: u32)
    requires i as int < |data| < 0x1_0000_0000
    ensures var k, i1 := i as int, Advance(data, i);
      var i2 := Advance(data, i1);
      var i3 := Advance(data, i2);
      && Octet(data, k) == data[k] && Octet(data, i1 as int) == Octet(data, k + 1) && Octet(data, i2 as int) == Octet(data, k + 2)
      && i3 as int == (if k + 3 <= |data| then k + 3 else |data|)
      && Length(|data| - k) == 4 + Length(|data| - i3 as int)
  {
  }

  lemma LaterTail(s: string, at: nat)
    requires at + 4 <= |s|
    ensures s[at..][4..] == s[at + 4..]
  {
  }

  /** What the main loop has done when its indices are i and e. */
  ghost predicate Written(t: Alphabet, data: seq<Byte>, i: u32, e: u32, text: string) {
    && i as int <= |data| && e as int == |text|
    && e as int + Length(|data| - i as int) == Length(|data|)
    && Body(t, data) == text + Body(t, data[i..])
  }

  lemma WriteNext(t: Alphabet, data: seq<Byte>, i: u32, e: u32, text: string)
    requires Written(t, data, i, e, text) && i as int < |data| && Length(|data|) < 0x1_0000_0000
    requires |data| < 0x1_0000_0000
    ensures var i1 := Advance(data, i);
      var i2 := Advance(data, i1);
      var g := Group(t, Octet(data, i as int), Octet(data, i1 as int), Octet(data, i2 as int));
      e as int + 4 <= Length(|data|) && Written(t, data, Advance(data, i2), e + 4, text + g)
  {
    ThreeOctets(data, i);
    BodyStep(t, data, i as int, text);
  }

  /** One round of the main loop. */
  method NextGroup(t: Alphabet, data: seq<Byte>, out: array<char>, dataIndex: u32, encodedIndex: u32) returns (i: u32, e: u32)
    requires Length(|data|) < 0x1_0000_0000 && Length(|data|) < out.Length && |data| < 0x1_0000_0000
    requires dataIndex as int < |data| && encodedIndex as int <= Length(|data|)
    requires Written(t, data, dataIndex, encodedIndex, out[..encodedIndex])
    modifies out
    ensures i as int > dataIndex as int && e as int == encodedIndex as int + 4 <= Length(|data|)
    ensures Written(t, data, i, e, out[..e])
    ensures out[e..] == old(out[..])[e..]
  {
    WriteNext(t, data, dataIndex, encodedIndex, out[..encodedIndex]);
    ThreeOctets(data, dataIndex);
    var a := Octet(data, dataIndex as int);
    i := Advance(data, dataIndex);
    var b := Octet(data, i as int);
    i := Advance(data, i);
    var c := Octet(data, i as int);
    i := Advance(data, i);
    WriteGroup(t, out, encodedIndex as int, a, b, c);
    e := encodedIndex + 4;
  }

  /** The main loop; the invariant that its indices stay below 2^32 is part of their type. */
  method WriteBody(t: Alphabet, data: seq<Byte>, out: array<char>)
    requires Length(|data|) < 0x1_0000_0000 && Length(|data|) < out.Length
    modifies out
    ensures out[..Length(|data|)] == Body(t, data)
    ensures out[Length(|data|)..] == old(out[Length(|data|)..])
  {
    LengthIs(|data|);
    var dataIndex: u32, encodedIndex: u32 := 0, 0;
    assert data[0..] == data;
    while dataIndex as int < |data|
      invariant encodedIndex as int <= Length(|data|) && Written(t, data, dataIndex, encodedIndex, out[..encodedIndex])
      invariant out[encodedIndex..] == old(out[..])[encodedIndex..]
      decreases |data| - dataIndex as int
    {
      LaterTail(old(out[..]), encodedIndex as int);
      LaterTail(out[..], encodedIndex as int);
      dataIndex, encodedIndex := NextGroup(t, data, out, dataIndex, encodedIndex);
    }
  }

  /** The encoding table, in rows of eight as the source lays it out. */
  function Symbol(i: Sextet): char {
    if i < 8 then "ABCDEFGH"[i]
    else if i < 16 then "IJKLMNOP"[i - 8]
    else if i < 24 then "QRSTUVWX"[i - 16]
    else if i < 32 then "YZabcdef"[i - 24]
    else if i < 40 then "ghijklmn"[i - 32]
    else if i < 48 then "opqrstuv"[i - 40]
    else if i < 56 then "wxyz0123"[i - 48]
    else "456789+/"[i - 56]
  }

  const Table: Alphabet := seq(64, i requires 0 <= i < 64 => Symbol(i))

  lemma SymbolLow(i: Sextet)
    requires i < 32
    ensures Value(Symbol(i)) == Some(i) && Symbol(i) != '='
  {
  }

  lemma SymbolHigh(i: Sextet)
    requires 32 <= i
    ensures Value(Symbol(i)) == Some(i) && Symbol(i) != '='
  {
  }

  lemma SymbolValue(i: Sextet)
    ensures Value(Symbol(i)) == Some(i) && Symbol(i) != '='
  {
    if i < 32 { SymbolLow(i); } else { SymbolHigh(i); }
  }

  lemma TableIsStandard()
    ensures Standard(Table)
  {
    forall i | 0 <= i < 64 ensures Value(Table[i]) == Some(i) && Table[i] != '=' {
      SymbolValue(i);
    }
  }

  /** The padding loop, from the end backwards, and the terminating NUL. */
  method Pad(out: array<char>, size: nat, p: nat)
    requires p <= size < out.Length
    modifies out
    ensures out[..size] == Padded(old(out[..size]), p) && out[size] == '\0'
    ensures out[size + 1..] == old(out[size + 1..])
  {
    for index := 0 to p
      invariant out[..size - index] == old(out[..size - index])
      invariant forall k | size - index <= k < size :: out[k] == '='
      invariant out[size..] == old(out[size..])
    {
      out[size - 1 - index] := '=';
    }
    out[size] := '\0';
    assert old(out[size..])[1..] == old(out[size + 1..]);
  }

  /** The loops of us_base64_encode on a buffer that is large enough. */
  method Fill(data: seq<Byte>, out: array<char>)
    requires Length(|data|) < 0x1_0000_0000 && Length(|data|) < out.Length
    modifies out
    ensures out[..Length(|data|)] == Encode(Table, data) && out[Length(|data|)] == '\0'
    ensures out[Length(|data|) + 1..] == old(out[Length(|data|) + 1..])
  {
    ghost var n := Length(|data|);
    var size := 4 * ((|data| + 2) / 3);
    LengthIs(|data|);
    ghost var tail := out[n..];
    WriteBody(Table, data, out);
    assert out[n + 1..] == tail[1..];
    Pad(out, size, PaddingOf(|data|));
    EncodeIsPaddedBody(Table, data);
  }

  /** The decoder gives the data back. */
  lemma Readable(data: seq<Byte>, text: string)
    requires text == Encode(Table, data)
    ensures Decode(text) == Some(data)
  {
    TableIsStandard();
    DecodeEncode(Table, data);
  }

  /**
   us_base64_encode. The caller's buffer is reused when it is known to be large enough, or
   when the caller does not say how large it is and so vouches for it; otherwise a new one of
   exactly the encoded size replaces it. Whatever decodes the result gets the data back.
   */
  method EncodeInto(data: seq<Byte>, buffer: array?<char>, known: Option<nat>)
    returns (out: array<char>, capacity: Option<nat>)
    requires Length(|data|) < 0x1_0000_0000
    requires buffer != null ==> (if known.Some? then known.value else Length(|data|) + 1) <= buffer.Length
    modifies if buffer == null then {} else {buffer}
    ensures Length(|data|) < out.Length
    ensures out[..Length(|data|)] == Encode(Table, data) && out[Length(|data|)] == '\0'
    ensures Decode(out[..Length(|data|)]) == Some(data)
    ensures if buffer == null || (known.Some? && known.value <= Length(|data|))
      then fresh(out) && out.Length == Length(|data|) + 1
      else out == buffer && out[Length(|data|) + 1..] == old(buffer[Length(|data|) + 1..])
    ensures capacity == if known.Some? && fresh(out) then Some(out.Length) else known
  {
    LengthIs(|data|);
    var encodedSize := 4 * ((|data| + 2) / 3) + 1;
    capacity := known;
    if buffer == null || (known.Some? && known.value < encodedSize) {
      out := new char[encodedSize];
      if known.Some? {
        capacity := Some(encodedSize);
      }
    } else {
      out := buffer;
    }
    Fill(data, out);
    Readable(data, out[..Length(|data|)]);
  }
}
