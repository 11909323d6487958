/** Strict standard base64, section 4 of RFC 4648, as Go's StdEncoding.Strict reads it. */
module Base64 {
  import opened Text
  import opened Wrappers

  function Letter(n: nat): (c: char)
    requires n < 64
    ensures c as int < 128 && c != '=' && c != '\n' && c != '\r' && c != '"' && c != '\\'
  {
    if n < 26 then 'A' + n as char
    else if n < 52 then 'a' + (n - 26) as char
    else if n < 62 then '0' + (n - 52) as char
    else if n == 62 then '+'
    else '/'
  }

  function Sextet(c: char): (r: Option<nat>)
    ensures r.Some? ==> r.value < 64 && Letter(r.value) == c
  {
    if 'A' <= c <= 'Z' then Some(c as int - 'A' as int)
    else if 'a' <= c <= 'z' then Some(c as int - 'a' as int + 26)
    else if '0' <= c <= '9' then Some(c as int - '0' as int + 52)
    else if c == '+' then Some(62)
    else if c == '/' then Some(63)
    else None
  }

  lemma SextetOfLetter(n: nat)
    requires n < 64
    ensures Sextet(Letter(n)) == Some(n)
  {
  }

  function Byte(n: nat): (c: char)
    requires n < 256
    ensures c as int == n
  {
    n as char
  }

  /** Four letters for three bytes. */
  function Quad(x: nat, y: nat, z: nat): (s: string)
    requires x < 256 && y < 256 && z < 256
    ensures |s| == 4
  {
    [Letter(x / 4), Letter(x % 4 * 16 + y / 16), Letter(y % 16 * 4 + z / 64), Letter(z % 64)]
  }

  function Encode(b: string): string
    requires IsBytes(b)
  {
    if b == "" then ""
    else if |b| == 1 then Quad(b[0] as int, 0, 0)[..2] + "=="
    else if |b| == 2 then Quad(b[0] as int, b[1] as int, 0)[..3] + "="
    else Quad(b[0] as int, b[1] as int, b[2] as int) + Encode(b[3..])
  }

  /** The three bytes of four sextets. */
  function Triple(a: nat, b: nat, c: nat, d: nat): (s: string)
    requires a < 64 && b < 64 && c < 64 && d < 64
    ensures |s| == 3 && IsBytes(s)
  {
    [Byte(a * 4 + b / 16), Byte(b % 16 * 16 + c / 4), Byte(c % 4 * 64 + d)]
  }

  /** The last four characters: unused bits must be zero. */
  function DecodeLast(s: string): (r: Option<string>)
    requires |s| == 4
    ensures r.Some? ==> IsBytes(r.value)
  {
    var a, b, c, d := Sextet(s[0]), Sextet(s[1]), Sextet(s[2]), Sextet(s[3]);
    if a.None? || b.None? then None
    else if s[2] == '=' && s[3] == '=' then
      if b.value % 16 != 0 then None else Some(Triple(a.value, b.value, 0, 0)[..1])
    else if c.None? then None
    else if s[3] == '=' then
      if c.value % 4 != 0 then None else Some(Triple(a.value, b.value, c.value, 0)[..2])
    else if d.None? then None
    else Some(Triple(a.value, b.value, c.value, d.value))
  }

  /** Padding ends the text. */
  function DecodeQuads(s: string): (r: Option<string>)
    ensures r.Some? ==> IsBytes(r.value)
  {
    if s == "" then Some("")
    else if |s| < 4 then None
    else if |s| == 4 then DecodeLast(s)
    else
      var a, b, c, d := Sextet(s[0]), Sextet(s[1]), Sextet(s[2]), Sextet(s[3]);
      var rest := DecodeQuads(s[4..]);
      if a.None? || b.None? || c.None? || d.None? || rest.None? then None
      else Some(Triple(a.value, b.value, c.value, d.value) + rest.value)
  }

  /** The test vectors of section 10 of RFC 4648. */
  lemma TestVectors()
    ensures Encode("") == "" && Encode("f") == "Zg==" && Encode("fo") == "Zm8=" && Encode("foo") == "Zm9v"
    ensures Encode("foob") == "Zm9vYg==" && Encode("fooba") == "Zm9vYmE=" && Encode("foobar") == "Zm9vYmFy"
  {
    assert Encode("foo") == Quad('f' as int, 'o' as int, 'o' as int) + Encode("foo"[3..]);
    assert "foob"[3..] == "b" && "fooba"[3..] == "ba" && "foobar"[3..] == "bar" && "bar"[3..] == "" && "foo"[3..] == "";
  }

  /** Line ends inside the text are ignored. */
  function WithoutNewlines(s: string): string {
    if s == "" then ""
    else if s[0] == '\r' || s[0] == '\n' then WithoutNewlines(s[1..])
    else [s[0]] + WithoutNewlines(s[1..])
  }

  function Decode(s: string): (r: Option<string>)
    ensures r.Some? ==> IsBytes(r.value)
  {
    DecodeQuads(WithoutNewlines(s))
  }

  /** Letters of the alphabet and padding only. */
  predicate IsBase64(s: string) {
    forall i | 0 <= i < |s| :: s[i] == '=' || Sextet(s[i]).Some?
  }

  lemma {:induction false} NoNewlines(s: string)
    requires IsBase64(s)
    ensures WithoutNewlines(s) == s
  {
    if s != "" {
      NoNewlines(s[1..]);
      assert s == [s[0]] + s[1..];
    }
  }

  lemma ByteParts(x: nat, y: nat, z: nat)
    requires x < 256 && y < 256 && z < 256
    ensures (x % 4 * 16 + y / 16) / 16 == x % 4 && (x % 4 * 16 + y / 16) % 16 == y / 16
    ensures (y % 16 * 4 + z / 64) / 4 == y % 16 && (y % 16 * 4 + z / 64) % 4 == z / 64
  {
  }

  lemma QuadDecodes(x: nat, y: nat, z: nat)
    requires x < 256 && y < 256 && z < 256
    ensures var s := Quad(x, y, z);
      && Sextet(s[0]) == Some(x / 4) && Sextet(s[1]) == Some(x % 4 * 16 + y / 16)
      && Sextet(s[2]) == Some(y % 16 * 4 + z / 64) && Sextet(s[3]) == Some(z % 64)
    ensures Triple(x / 4, x % 4 * 16 + y / 16, y % 16 * 4 + z / 64, z % 64) == [Byte(x), Byte(y), Byte(z)]
  {
    ByteParts(x, y, z);
    SextetOfLetter(x / 4);
    SextetOfLetter(x % 4 * 16 + y / 16);
    SextetOfLetter(y % 16 * 4 + z / 64);
    SextetOfLetter(z % 64);
    hide Sextet, Letter;
  }

  /** The length of the encoding, in letters. */
  function EncodedLength(n: nat): nat {
    (n + 2) / 3 * 4
  }

  lemma {:induction false} EncodeDecodes(b: string)
    requires IsBytes(b)
    ensures Decode(Encode(b)) == Some(b)
    ensures IsBase64(Encode(b)) && |Encode(b)| == EncodedLength(|b|)
  {
    QuadsOfEncode(b);
    EncodeShape(b);
    NoNewlines(Encode(b));
  }

  lemma Shifts(r: nat, q: nat)
    requires r < 4 && q < 16
    ensures r * 16 / 16 == r && r * 16 % 16 == 0 && q * 4 / 4 == q && q * 4 % 4 == 0
  {
  }

  lemma OneBytePadded(x: nat)
    requires x < 256
    ensures Sextet(Letter(x / 4)) == Some(x / 4) && Sextet(Letter(x % 4 * 16)) == Some(x % 4 * 16)
    ensures Triple(x / 4, x % 4 * 16, 0, 0)[..1] == [Byte(x)]
  {
    SextetOfLetter(x / 4);
    SextetOfLetter(x % 4 * 16);
    hide Letter, Sextet;
    Shifts(x % 4, 0);
    assert Byte(x / 4 * 4 + x % 4 * 16 / 16) == Byte(x);
  }

  lemma OneByteDecodes(b: string)
    requires IsBytes(b) && |b| == 1
    ensures DecodeQuads(Encode(b)) == Some(b) && IsBase64(Encode(b)) && |Encode(b)| == 4
  {
    var x := b[0] as int;
    OneBytePadded(x);
    hide Letter, Sextet, Triple, IsBytes, DecodeQuads, IsBase64;
    var e := Encode(b);
    assert e == [Letter(x / 4), Letter(x % 4 * 16), '=', '='];
    Shifts(x % 4, 0);
    hide Encode, Quad;
    LastOfText(e);
    assert DecodeLast(e) == Some([Byte(x)]);
    assert Byte(x) == b[0] && b == [b[0]];
  }

  /** A text of four characters is its own last quad. */
  lemma LastOfText(e: string)
    requires |e| == 4
    ensures DecodeQuads(e) == DecodeLast(e)
    ensures (forall i | 0 <= i < 4 :: e[i] == '=' || Sextet(e[i]).Some?) ==> IsBase64(e)
  {
    hide Sextet, DecodeLast;
  }

  lemma TwoBytesPadded(x: nat, y: nat)
    requires x < 256 && y < 256
    ensures Sextet(Letter(x / 4)) == Some(x / 4) && Sextet(Letter(x % 4 * 16 + y / 16)) == Some(x % 4 * 16 + y / 16)
    ensures Sextet(Letter(y % 16 * 4)) == Some(y % 16 * 4) && Letter(y % 16 * 4) != '='
    ensures Triple(x / 4, x % 4 * 16 + y / 16, y % 16 * 4, 0)[..2] == [Byte(x), Byte(y)]
  {
    SextetOfLetter(x / 4);
    SextetOfLetter(x % 4 * 16 + y / 16);
    SextetOfLetter(y % 16 * 4);
    hide Letter, Sextet;
    ByteParts(x, y, 0);
    Shifts(0, y % 16);
    assert Byte(x / 4 * 4 + (x % 4 * 16 + y / 16) / 16) == Byte(x);
    assert Byte((x % 4 * 16 + y / 16) % 16 * 16 + y % 16 * 4 / 4) == Byte(y);
  }

  lemma TwoBytesDecode(b: string)
    requires IsBytes(b) && |b| == 2
    ensures DecodeQuads(Encode(b)) == Some(b) && IsBase64(Encode(b)) && |Encode(b)| == 4
  {
    var x, y := b[0] as int, b[1] as int;
    TwoBytesPadded(x, y);
    hide Letter, Sextet, Triple, IsBytes, DecodeQuads, IsBase64;
    var e := Encode(b);
    assert e == [Letter(x / 4), Letter(x % 4 * 16 + y / 16), Letter(y % 16 * 4), '='];
    Shifts(0, y % 16);
    hide Encode, Quad;
    LastOfText(e);
    assert DecodeLast(e) == Some([Byte(x), Byte(y)]);
    assert Byte(x) == b[0] && Byte(y) == b[1] && b == [b[0], b[1]];
  }

  lemma FullQuad(x: nat, y: nat, z: nat)
    requires x < 256 && y < 256 && z < 256
    ensures var q := Quad(x, y, z);
      && (forall i | 0 <= i < 4 :: Sextet(q[i]).Some? && q[i] != '=')
      && Triple(Sextet(q[0]).value, Sextet(q[1]).value, Sextet(q[2]).value, Sextet(q[3]).value) ==
            [Byte(x), Byte(y), Byte(z)]
  {
    QuadDecodes(x, y, z);
    hide Triple, Sextet;
  }

  /** A full quad in front of the rest. */
  lemma QuadInFront(b: string, rest: string)
    requires IsBytes(b) && |b| == 3 && DecodeQuads(rest).Some?
    ensures var q := Quad(b[0] as int, b[1] as int, b[2] as int);
      DecodeQuads(q + rest) == Some(b + DecodeQuads(rest).value) && forall i | 0 <= i < 4 :: Sextet(q[i]).Some?
  {
    FullQuad(b[0] as int, b[1] as int, b[2] as int);
    var q := Quad(b[0] as int, b[1] as int, b[2] as int);
    hide Sextet, Letter, Quad, Triple, IsBytes;
    assert b == [Byte(b[0] as int), Byte(b[1] as int), Byte(b[2] as int)];
    if rest == "" {
      assert q + rest == q && b + "" == b;
      assert DecodeLast(q) == Some(b);
    } else {
      assert (q + rest)[4..] == rest;
    }
  }

  lemma EncodeStep(b: string)
    requires IsBytes(b) && |b| >= 3
    ensures Encode(b) == Quad(b[0] as int, b[1] as int, b[2] as int) + Encode(b[3..])
  {
    hide Quad;
  }

  lemma {:induction false} QuadsOfEncode(b: string)
    requires IsBytes(b)
    ensures DecodeQuads(Encode(b)) == Some(b)
  {
    if |b| == 1 {
      OneByteDecodes(b);
    } else if |b| == 2 {
      TwoBytesDecode(b);
    } else if b != "" {
      hide Encode, DecodeQuads, Quad, Sextet;
      QuadsOfEncode(b[3..]);
      QuadInFront(b[..3], Encode(b[3..]));
      EncodeStep(b);
      assert b == b[..3] + b[3..];
    }
  }

  lemma LongerLength(n: nat)
    requires n >= 3
    ensures EncodedLength(n) == 4 + EncodedLength(n - 3)
  {
  }

  lemma Base64Append(s: string, t: string)
    requires IsBase64(s) && IsBase64(t)
    ensures IsBase64(s + t)
  {
    hide Sextet;
  }

  lemma ShortShape(b: string)
    requires IsBytes(b) && |b| < 3
    ensures IsBase64(Encode(b)) && |Encode(b)| == EncodedLength(|b|)
  {
    if b == "" {
      EmptyShape();
    } else {
      hide Encode, DecodeQuads, IsBase64, Quad, Sextet, IsBytes;
      if |b| == 1 {
        OneByteDecodes(b);
      } else {
        TwoBytesDecode(b);
      }
    }
  }

  lemma EmptyShape()
    ensures IsBase64(Encode("")) && |Encode("")| == 0
  {
  }

  lemma {:induction false} EncodeShape(b: string)
    requires IsBytes(b)
    ensures IsBase64(Encode(b)) && |Encode(b)| == EncodedLength(|b|)
    decreases |b|
  {
    hide Encode, DecodeQuads, Quad, Sextet, EncodedLength, IsBase64, IsBytes;
    if |b| < 3 {
      ShortShape(b);
    } else {
      RestIsBytes(b);
      EncodeStep(b);
      EncodeShape(b[3..]);
      LongerLength(|b|);
      Base64Append(Quad(b[0] as int, b[1] as int, b[2] as int), Encode(b[3..]));
    }
  }

  lemma RestIsBytes(b: string)
    requires IsBytes(b) && |b| >= 3
    ensures b[0] as int < 256 && b[1] as int < 256 && b[2] as int < 256
    ensures IsBytes(b[3..]) && IsBase64(Quad(b[0] as int, b[1] as int, b[2] as int))
  {
    QuadDecodes(b[0] as int, b[1] as int, b[2] as int);
    var q := Quad(b[0] as int, b[1] as int, b[2] as int);
    hide Quad, Sextet;
    assert q == [q[0], q[1], q[2], q[3]];
  }

  lemma SextetParts(a: nat, b: nat, c: nat, d: nat)
    requires a < 64 && b < 64 && c < 64 && d < 64
    ensures (a * 4 + b / 16) / 4 == a && (a * 4 + b / 16) % 4 == b / 16
    ensures (b % 16 * 16 + c / 4) / 16 == b % 16 && (b % 16 * 16 + c / 4) % 16 == c / 4
    ensures (c % 4 * 64 + d) / 64 == c % 4 && (c % 4 * 64 + d) % 64 == d
  {
  }

  lemma LettersOfTriple(a: nat, b: nat, c: nat, d: nat)
    requires a < 64 && b < 64 && c < 64 && d < 64
    ensures var t := Triple(a, b, c, d);
      Quad(t[0] as int, t[1] as int, t[2] as int) == [Letter(a), Letter(b), Letter(c), Letter(d)]
  {
    SextetParts(a, b, c, d);
    hide Letter;
  }

  /** A quad that is not the last. */
  lemma QuadIsCanonical(s: string)
    requires |s| > 4 && DecodeQuads(s).Some?
    ensures DecodeQuads(s[4..]).Some? && |DecodeQuads(s).value| >= 3
    ensures var b := DecodeQuads(s).value;
      b[3..] == DecodeQuads(s[4..]).value && Quad(b[0] as int, b[1] as int, b[2] as int) == s[..4]
  {
    hide Triple, Quad, Letter;
    var a, b, c, d := Sextet(s[0]).value, Sextet(s[1]).value, Sextet(s[2]).value, Sextet(s[3]).value;
    assert DecodeQuads(s).value == Triple(a, b, c, d) + DecodeQuads(s[4..]).value;
    assert Letter(a) == s[0] && Letter(b) == s[1] && Letter(c) == s[2] && Letter(d) == s[3];
    hide Sextet, DecodeQuads, DecodeLast;
    LettersOfTriple(a, b, c, d);
    assert s[..4] == [s[0], s[1], s[2], s[3]];
  }

  /** Strict decoding accepts one text for every byte string, up to line ends. */
  lemma {:induction false} DecodeIsCanonical(s: string)
    requires DecodeQuads(s).Some?
    ensures Encode(DecodeQuads(s).value) == s
    decreases |s|
  {
    if |s| <= 4 {
      if s != "" {
        LastIsCanonical(s);
      }
    } else {
      hide Triple, Quad, Letter, Sextet, DecodeQuads, Encode;
      QuadIsCanonical(s);
      DecodeIsCanonical(s[4..]);
      EncodeStep(DecodeQuads(s).value);
      assert s == s[..4] + s[4..];
    }
  }

  lemma LastIsCanonical(s: string)
    requires |s| == 4 && DecodeLast(s).Some?
    ensures Encode(DecodeLast(s).value) == s
  {
    var a, b, c, d := Sextet(s[0]), Sextet(s[1]), Sextet(s[2]), Sextet(s[3]);
    LettersOfTriple(a.value, b.value, if c.Some? then c.value else 0, if d.Some? then d.value else 0);
  }
}
