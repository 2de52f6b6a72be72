/** Base64 as section 4 of RFC 4648 defines it: the encoder that emailw calls and a decoder. */
module Base64 {
  import opened Text

  type Byte = n: int | 0 <= n < 256

  predicate IsAlphabet(c: char) {
    'A' <= c <= 'Z' || 'a' <= c <= 'z' || '0' <= c <= '9' || c == '+' || c == '/'
  }

  function SextetChar(s: Sextet): (c: char)
    ensures IsAlphabet(c) && CharSextet(c) == s
  {
    if s < 26 then ('A' as int + s) as char
    else if s < 52 then ('a' as int + (s - 26)) as char
    else if s < 62 then ('0' as int + (s - 52)) as char
    else if s == 62 then '+'
    else '/'
  }

  function CharSextet(c: char): Sextet
    requires IsAlphabet(c)
  {
    if 'A' <= c <= 'Z' then c as int - 'A' as int
    else if 'a' <= c <= 'z' then c as int - 'a' as int + 26
    else if '0' <= c <= '9' then c as int - '0' as int + 52
    else if c == '+' then 62
    else 63
  }

  type Sextet = n: int | 0 <= n < 64

  // Four sextets out of three bytes ...
  function Cut0(a: Byte): Sextet { a / 4 }
  function Cut1(a: Byte, b: Byte): Sextet { a % 4 * 16 + b / 16 }
  function Cut2(b: Byte, c: Byte): Sextet { b % 16 * 4 + c / 64 }
  function Cut3(c: Byte): Sextet { c % 64 }

  // ... and three bytes out of four sextets.
  function Byte0(s0: Sextet, s1: Sextet): Byte { s0 * 4 + s1 / 16 }
  function Byte1(s1: Sextet, s2: Sextet): Byte { s1 % 16 * 16 + s2 / 4 }
  function Byte2(s2: Sextet, s3: Sextet): Byte { s2 % 4 * 64 + s3 }

  lemma CutAndJoin(a: Byte, b: Byte, c: Byte)
    ensures Byte0(Cut0(a), Cut1(a, b)) == a
    ensures Byte1(Cut1(a, b), Cut2(b, c)) == b
    ensures Byte2(Cut2(b, c), Cut3(c)) == c
  {}

  function Encode3(a: Byte, b: Byte, c: Byte): string {
    [SextetChar(Cut0(a)), SextetChar(Cut1(a, b)), SextetChar(Cut2(b, c)), SextetChar(Cut3(c))]
  }

  function Encode2(a: Byte, b: Byte): string {
    [SextetChar(Cut0(a)), SextetChar(Cut1(a, b)), SextetChar(Cut2(b, 0)), '=']
  }

  function Encode1(a: Byte): string {
    [SextetChar(Cut0(a)), SextetChar(Cut1(a, 0)), '=', '=']
  }

  function Encode(bs: seq<Byte>): string {
    if bs == [] then ""
    else if |bs| == 1 then Encode1(bs[0])
    else if |bs| == 2 then Encode2(bs[0], bs[1])
    else Encode3(bs[0], bs[1], bs[2]) + Encode(bs[3..])
  }

  /** One quantum: three bytes, or fewer when padded; padding only in the last quantum. */
  function DecodeQuad(q: string, last: bool): Option<seq<Byte>>
    requires |q| == 4
  {
    if !IsAlphabet(q[0]) || !IsAlphabet(q[1]) then None
    else
      var s0, s1 := CharSextet(q[0]), CharSextet(q[1]);
      if q[2] == '=' then
        if last && q[3] == '=' then Some([Byte0(s0, s1)]) else None
      else if !IsAlphabet(q[2]) then None
      else
        var s2 := CharSextet(q[2]);
        if q[3] == '=' then
          if last then Some([Byte0(s0, s1), Byte1(s1, s2)]) else None
        else if !IsAlphabet(q[3]) then None
        else Some([Byte0(s0, s1), Byte1(s1, s2), Byte2(s2, CharSextet(q[3]))])
  }

  function Decode(s: string): Option<seq<Byte>> {
    if s == "" then Some([])
    else if |s| < 4 then None
    else
      match DecodeQuad(s[..4], |s| == 4)
      case None => None
      case Some(front) =>
        match Decode(s[4..])
        case None => None
        case Some(rest) => Some(front + rest)
  }

  lemma QuadRoundTrip(a: Byte, b: Byte, c: Byte, last: bool)
    ensures DecodeQuad(Encode3(a, b, c), last) == Some([a, b, c])
  {
    CutAndJoin(a, b, c);
    hide SextetChar, CharSextet, Cut0, Cut1, Cut2, Cut3, Byte0, Byte1, Byte2;
  }

  lemma PairRoundTrip(a: Byte, b: Byte)
    ensures DecodeQuad(Encode2(a, b), true) == Some([a, b])
  {
    hide SextetChar, CharSextet, Cut0, Cut1, Cut2, Cut3, Byte0, Byte1, Byte2;
    CutAndJoin(a, b, 0);
    var q := Encode2(a, b);
    assert IsAlphabet(q[0]) && IsAlphabet(q[1]) && IsAlphabet(q[2]);
    hide IsAlphabet;
    assert q[3] == '=';
  }

  lemma SingleRoundTrip(a: Byte)
    ensures DecodeQuad(Encode1(a), true) == Some([a])
  {
    hide SextetChar, CharSextet, Cut0, Cut1, Cut2, Cut3, Byte0, Byte1, Byte2;
    CutAndJoin(a, 0, 0);
    var q := Encode1(a);
    assert IsAlphabet(q[0]) && IsAlphabet(q[1]);
    hide IsAlphabet;
    assert q[2] == q[3] == '=';
  }

  lemma DecodeFront(q: string, rest: string, bytes: seq<Byte>)
    requires |q| == 4 && DecodeQuad(q, rest == "") == Some(bytes)
    ensures Decode(q + rest) == match Decode(rest) case None => None case Some(more) => Some(bytes + more)
  {
    hide DecodeQuad;
    assert (q + rest)[..4] == q && (q + rest)[4..] == rest;
  }

  /** The first quantum of an encoding, and what it encodes. */
  lemma FirstQuantum(bs: seq<Byte>) returns (n: nat, q: string)
    requires bs != []
    ensures 1 <= n <= |bs| && |q| == 4 && Encode(bs) == q + Encode(bs[n..])
    ensures DecodeQuad(q, Encode(bs[n..]) == "") == Some(bs[..n])
  {
    hide DecodeQuad, Encode1, Encode2, Encode3;
    NothingEncoded();
    if |bs| == 1 {
      n, q := 1, Encode1(bs[0]);
      SingleRoundTrip(bs[0]);
      assert bs[..1] == [bs[0]] && bs[1..] == [];
    } else if |bs| == 2 {
      n, q := 2, Encode2(bs[0], bs[1]);
      PairRoundTrip(bs[0], bs[1]);
      assert bs[..2] == [bs[0], bs[1]] && bs[2..] == [];
    } else {
      n, q := 3, Encode3(bs[0], bs[1], bs[2]);
      QuadRoundTrip(bs[0], bs[1], bs[2], Encode(bs[3..]) == "");
      assert bs[..3] == [bs[0], bs[1], bs[2]];
    }
    assert |q| == 4 by { QuantumLength(bs[0], if |bs| > 1 then bs[1] else 0, if |bs| > 2 then bs[2] else 0); }
    assert q + "" == q;
  }

  lemma QuantumLength(a: Byte, b: Byte, c: Byte)
    ensures |Encode1(a)| == |Encode2(a, b)| == |Encode3(a, b, c)| == 4
  {}

  lemma {:induction false} DecodeEncode(bs: seq<Byte>)
    ensures Decode(Encode(bs)) == Some(bs)
  {
    hide Encode, Decode, DecodeQuad;
    if bs == [] {
      NothingEncoded();
    } else {
      var n, q := FirstQuantum(bs);
      DecodeEncode(bs[n..]);
      DecodeFront(q, Encode(bs[n..]), bs[..n]);
      assert bs == bs[..n] + bs[n..];
    }
  }

  lemma NothingEncoded()
    ensures Encode([]) == "" && Decode("") == Some([])
  {}

  lemma {:induction false} EncodedLength(bs: seq<Byte>)
    ensures |Encode(bs)| == (|bs| + 2) / 3 * 4
  {
    hide SextetChar;
    if |bs| > 2 {
      EncodedLength(bs[3..]);
    }
  }

  /** Encoded text holds neither '-' nor a line break, so no line of it can pass for a boundary. */
  lemma {:induction false} EncodedAlphabet(bs: seq<Byte>)
    ensures forall i :: 0 <= i < |Encode(bs)| ==> IsAlphabet(Encode(bs)[i]) || Encode(bs)[i] == '='
  {
    if |bs| > 2 {
      EncodedAlphabet(bs[3..]);
      var q, rest := Encode3(bs[0], bs[1], bs[2]), Encode(bs[3..]);
      forall i | 0 <= i < |q + rest| ensures IsAlphabet((q + rest)[i]) || (q + rest)[i] == '=' {
        assert i >= 4 ==> (q + rest)[i] == rest[i - 4];
      }
    }
  }
}
