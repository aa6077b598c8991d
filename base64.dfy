/** Base 64 encoding as section 4 of RFC 4648 defines it (the alphabet
    `A-Z a-z 0-9 + /` with `=` padding), which `base64.b64encode` produces.
    The decoder is the partner that shows the encoding loses nothing. */
module Base64 {
  import opened Common

  type byte = b: int | 0 <= b < 256
  type sextet = s: int | 0 <= s < 64

  /** The character section 4's table assigns to a 6-bit value. */
  function SextetChar(s: sextet): char {
    if s < 26 then ('A' as int + s) as char
    else if s < 52 then ('a' as int + (s - 26)) as char
    else if s < 62 then ('0' as int + (s - 52)) as char
    else if s == 62 then '+'
    else '/'
  }

  predicate IsAlphabetChar(c: char) {
    'A' <= c <= 'Z' || 'a' <= c <= 'z' || '0' <= c <= '9' || c == '+' || c == '/'
  }

  /** The inverse table. */
  function CharSextet(c: char): sextet
    requires IsAlphabetChar(c)
  {
    if 'A' <= c <= 'Z' then c as int - 'A' as int
    else if 'a' <= c <= 'z' then c as int - 'a' as int + 26
    else if '0' <= c <= '9' then c as int - '0' as int + 52
    else if c == '+' then 62
    else 63
  }

  lemma SextetCharInAlphabet(s: sextet)
    ensures IsAlphabetChar(SextetChar(s)) && CharSextet(SextetChar(s)) == s
  {
  }

  /** Three bytes become four characters (24 bits, most significant first). */
  function EncodeTriple(b0: byte, b1: byte, b2: byte): string {
    [SextetChar(b0 / 4), SextetChar((b0 % 4) * 16 + b1 / 16),
     SextetChar((b1 % 16) * 4 + b2 / 64), SextetChar(b2 % 64)]
  }

  /** A final single byte: two characters and `==`. */
  function EncodeOne(b0: byte): string {
    [SextetChar(b0 / 4), SextetChar((b0 % 4) * 16), '=', '=']
  }

  /** A final pair of bytes: three characters and `=`. */
  function EncodeTwo(b0: byte, b1: byte): string {
    [SextetChar(b0 / 4), SextetChar((b0 % 4) * 16 + b1 / 16), SextetChar((b1 % 16) * 4), '=']
  }

  function Encode(bs: seq<byte>): string
    decreases |bs|
  {
    if |bs| == 0 then ""
    else if |bs| == 1 then EncodeOne(bs[0])
    else if |bs| == 2 then EncodeTwo(bs[0], bs[1])
    else EncodeTriple(bs[0], bs[1], bs[2]) + Encode(bs[3..])
  }

  /** Well-formed output: only alphabet characters, and `=` only in the last two places. */
  predicate IsCanonicalShape(s: string) {
    |s| % 4 == 0 &&
    forall i :: 0 <= i < |s| ==> IsAlphabetChar(s[i]) || (s[i] == '=' && |s| - 2 <= i)
  }

  /** Output length is 4 * ceil(n / 3), and the output has the canonical shape. */
  lemma {:induction false} EncodeShape(bs: seq<byte>)
    ensures |Encode(bs)| == 4 * ((|bs| + 2) / 3)
    ensures IsCanonicalShape(Encode(bs))
    decreases |bs|
  {
    if |bs| == 1 {
      SextetCharInAlphabet(bs[0] / 4);
      SextetCharInAlphabet((bs[0] % 4) * 16);
    } else if |bs| == 2 {
      SextetCharInAlphabet(bs[0] / 4);
      SextetCharInAlphabet((bs[0] % 4) * 16 + bs[1] / 16);
      SextetCharInAlphabet((bs[1] % 16) * 4);
    } else if |bs| >= 3 {
      EncodeShape(bs[3..]);
      TripleInAlphabet(bs[0], bs[1], bs[2]);
      CanonicalCons(EncodeTriple(bs[0], bs[1], bs[2]), Encode(bs[3..]));
    }
  }

  lemma TripleInAlphabet(b0: byte, b1: byte, b2: byte)
    ensures forall i :: 0 <= i < 4 ==> IsAlphabetChar(EncodeTriple(b0, b1, b2)[i])
  {
    SextetCharInAlphabet(b0 / 4);
    SextetCharInAlphabet((b0 % 4) * 16 + b1 / 16);
    SextetCharInAlphabet((b1 % 16) * 4 + b2 / 64);
    SextetCharInAlphabet(b2 % 64);
  }

  /** Four alphabet characters in front of a canonical text keep it canonical. */
  lemma CanonicalCons(head: string, tail: string)
    requires |head| == 4 && forall i :: 0 <= i < 4 ==> IsAlphabetChar(head[i])
    requires IsCanonicalShape(tail)
    ensures IsCanonicalShape(head + tail)
  {
    forall i | 0 <= i < |head + tail|
      ensures IsAlphabetChar((head + tail)[i]) || ((head + tail)[i] == '=' && |head + tail| - 2 <= i)
    {
      if i >= 4 { assert (head + tail)[i] == tail[i - 4]; }
    }
  }

  // ------------------------------------------------------------- decoding

  function DecodeTriple(c0: sextet, c1: sextet, c2: sextet, c3: sextet): seq<byte> {
    [c0 * 4 + c1 / 16, (c1 % 16) * 16 + c2 / 4, (c2 % 4) * 64 + c3]
  }

  /** One group of four characters; `=` padding is allowed only when `last`. */
  function DecodeGroup(g: string, last: bool): Option<seq<byte>>
    requires |g| == 4
  {
    if !(IsAlphabetChar(g[0]) && IsAlphabetChar(g[1])) then None
    else
      var c0, c1 := CharSextet(g[0]), CharSextet(g[1]);
      if last && g[2] == '=' && g[3] == '=' then Some([c0 * 4 + c1 / 16])
      else if !IsAlphabetChar(g[2]) then None
      else
        var c2 := CharSextet(g[2]);
        if last && g[3] == '=' then Some([c0 * 4 + c1 / 16, (c1 % 16) * 16 + c2 / 4])
        else if !IsAlphabetChar(g[3]) then None
        else Some(DecodeTriple(c0, c1, c2, CharSextet(g[3])))
  }

  function Decode(s: string): Option<seq<byte>>
    decreases |s|
  {
    if s == [] then Some([])
    else if |s| < 4 then None
    else
      match DecodeGroup(s[..4], |s| == 4)
      case None => None
      case Some(head) =>
        match Decode(s[4..])
        case None => None
        case Some(rest) => Some(head + rest)
  }

  lemma Split16(x: nat, y: nat)
    requires y < 16
    ensures (x * 16 + y) / 16 == x && (x * 16 + y) % 16 == y
  {
  }

  lemma Split4(x: nat, y: nat)
    requires y < 4
    ensures (x * 4 + y) / 4 == x && (x * 4 + y) % 4 == y
  {
  }

  /** The bit arithmetic of one group: the four sextets give back the three bytes. */
  lemma TripleArith(b0: byte, b1: byte, b2: byte)
    ensures (b0 / 4) * 4 + ((b0 % 4) * 16 + b1 / 16) / 16 == b0
    ensures (((b0 % 4) * 16 + b1 / 16) % 16) * 16 + ((b1 % 16) * 4 + b2 / 64) / 4 == b1
    ensures (((b1 % 16) * 4 + b2 / 64) % 4) * 64 + b2 % 64 == b2
  {
    Split16(b0 % 4, b1 / 16);
    Split4(b1 % 16, b2 / 64);
  }

  /** A group of four alphabet characters decodes to the three bytes they carry. */
  lemma FullGroup(c0: sextet, c1: sextet, c2: sextet, c3: sextet, last: bool)
    ensures DecodeGroup([SextetChar(c0), SextetChar(c1), SextetChar(c2), SextetChar(c3)], last)
            == Some(DecodeTriple(c0, c1, c2, c3))
  {
    SextetCharInAlphabet(c0);
    SextetCharInAlphabet(c1);
    SextetCharInAlphabet(c2);
    SextetCharInAlphabet(c3);
  }

  lemma TripleRoundTrip(b0: byte, b1: byte, b2: byte, last: bool)
    ensures DecodeGroup(EncodeTriple(b0, b1, b2), last) == Some([b0, b1, b2])
  {
    FullGroup(b0 / 4, (b0 % 4) * 16 + b1 / 16, (b1 % 16) * 4 + b2 / 64, b2 % 64, last);
    TripleArith(b0, b1, b2);
  }

  lemma OneRoundTrip(b0: byte)
    ensures DecodeGroup(EncodeOne(b0), true) == Some([b0])
  {
    SextetCharInAlphabet(b0 / 4);
    SextetCharInAlphabet((b0 % 4) * 16);
    Split16(b0 % 4, 0);
  }

  lemma TwoRoundTrip(b0: byte, b1: byte)
    ensures DecodeGroup(EncodeTwo(b0, b1), true) == Some([b0, b1])
  {
    var c1, c2 := (b0 % 4) * 16 + b1 / 16, (b1 % 16) * 4;
    SextetCharInAlphabet(b0 / 4);
    SextetCharInAlphabet(c1);
    SextetCharInAlphabet(c2);
    Split16(b0 % 4, b1 / 16);
    Split4(b1 % 16, 0);
  }

  /** Decoding one leading group followed by the rest. */
  lemma DecodeCons(g: string, rest: string, h: seq<byte>, r: seq<byte>)
    requires |g| == 4
    requires DecodeGroup(g, rest == []) == Some(h)
    requires Decode(rest) == Some(r)
    ensures Decode(g + rest) == Some(h + r)
  {
    assert (g + rest)[..4] == g;
    assert (g + rest)[4..] == rest;
  }

  lemma DecodeEncodeOne(bs: seq<byte>)
    requires |bs| == 1
    ensures Decode(Encode(bs)) == Some(bs)
  {
    OneRoundTrip(bs[0]);
    DecodeCons(EncodeOne(bs[0]), "", [bs[0]], []);
    assert EncodeOne(bs[0]) + "" == Encode(bs);
    assert [bs[0]] + [] == bs;
  }

  lemma DecodeEncodeTwo(bs: seq<byte>)
    requires |bs| == 2
    ensures Decode(Encode(bs)) == Some(bs)
  {
    TwoRoundTrip(bs[0], bs[1]);
    DecodeCons(EncodeTwo(bs[0], bs[1]), "", [bs[0], bs[1]], []);
    assert EncodeTwo(bs[0], bs[1]) + "" == Encode(bs);
    assert [bs[0], bs[1]] + [] == bs;
  }

  /** Decoding the encoding gives back exactly the input bytes. */
  lemma {:induction false} DecodeEncode(bs: seq<byte>)
    ensures Decode(Encode(bs)) == Some(bs)
    decreases |bs|
  {
    if |bs| == 1 {
      DecodeEncodeOne(bs);
    } else if |bs| == 2 {
      DecodeEncodeTwo(bs);
    } else if |bs| >= 3 {
      DecodeEncode(bs[3..]);
      DecodeEncodeStep(bs);
    }
  }

  /** The inductive step: a round trip on all but the first three bytes extends to all. */
  lemma DecodeEncodeStep(bs: seq<byte>)
    requires |bs| >= 3 && Decode(Encode(bs[3..])) == Some(bs[3..])
    ensures Decode(Encode(bs)) == Some(bs)
  {
    var rest := bs[3..];
    DecodeEncodeGroup(bs[0], bs[1], bs[2], rest);
    assert Encode(bs) == EncodeTriple(bs[0], bs[1], bs[2]) + Encode(rest);
    FirstThree(bs);
  }

  lemma FirstThree(bs: seq<byte>)
    requires |bs| >= 3
    ensures [bs[0], bs[1], bs[2]] + bs[3..] == bs
  {
  }

  /** A leading full group decodes to its three bytes in front of the rest. */
  lemma DecodeEncodeGroup(b0: byte, b1: byte, b2: byte, rest: seq<byte>)
    requires Decode(Encode(rest)) == Some(rest)
    ensures Decode(EncodeTriple(b0, b1, b2) + Encode(rest)) == Some([b0, b1, b2] + rest)
  {
    EncodeEmpty(rest);
    TripleRoundTrip(b0, b1, b2, Encode(rest) == []);
    DecodeCons(EncodeTriple(b0, b1, b2), Encode(rest), [b0, b1, b2], rest);
  }

  lemma EncodeEmpty(bs: seq<byte>)
    ensures Encode(bs) == [] <==> bs == []
  {
    if |bs| >= 3 {
      assert |Encode(bs)| >= |EncodeTriple(bs[0], bs[1], bs[2])| == 4;
    }
  }

  /** Different inputs never share an encoding. */
  lemma EncodeInjective(a: seq<byte>, b: seq<byte>)
    requires Encode(a) == Encode(b)
    ensures a == b
  {
    DecodeEncode(a);
    DecodeEncode(b);
  }
}
