/**
  The browser built-ins `btoa` and `atob` that the audio helpers wrap.
  `btoa` encodes a binary string (every char code below 256) with the alphabet
  and the `=` padding of section 4 of RFC 4648; `atob` is the HTML standard's
  "forgiving-base64 decode": ASCII whitespace is dropped, the padding may be
  absent, and leftover bits of a final partial group are discarded.
*/
module Base64 {
  import opened Common

  type byte = x: int | 0 <= x < 256
  type sextet = x: int | 0 <= x < 64

  predicate IsAlphabet(c: char) {
    ('A' <= c <= 'Z') || ('a' <= c <= 'z') || ('0' <= c <= '9') || c == '+' || c == '/'
  }

  /** The character of the alphabet that stands for a 6-bit value. */
  function CharOf(v: sextet): (c: char)
    ensures IsAlphabet(c)
  {
    if v < 26 then (65 + v) as char        // 'A' .. 'Z'
    else if v < 52 then (71 + v) as char   // 'a' .. 'z'
    else if v < 62 then (v - 4) as char    // '0' .. '9'
    else if v == 62 then '+'
    else '/'
  }

  /** The 6-bit value an alphabet character stands for. */
  function ValueOf(c: char): (v: sextet)
    requires IsAlphabet(c)
    ensures CharOf(v) == c
  {
    if 'A' <= c <= 'Z' then c as int - 65
    else if 'a' <= c <= 'z' then c as int - 71
    else if '0' <= c <= '9' then c as int + 4
    else if c == '+' then 62
    else 63
  }

  lemma ValueOfCharOf(v: sextet)
    ensures ValueOf(CharOf(v)) == v
  {
  }

  /** The four characters of a full three-byte group. */
  function Quad(b0: byte, b1: byte, b2: byte): string {
    [CharOf(b0 / 4), CharOf((b0 % 4) * 16 + b1 / 16), CharOf((b1 % 16) * 4 + b2 / 64), CharOf(b2 % 64)]
  }

  /** Characters of unpadded text for `n` bytes: four per full group, two or three for a tail. */
  function UnpaddedSize(n: nat): nat {
    if n == 0 then 0 else if n == 1 then 2 else if n == 2 then 3 else 4 + UnpaddedSize(n - 3)
  }

  /** The alphabet characters of the encoding, before padding. */
  function EncodeUnpadded(bs: seq<byte>): (s: string)
    ensures |s| == UnpaddedSize(|bs|) && |s| % 4 != 1
    ensures forall i :: 0 <= i < |s| ==> IsAlphabet(s[i])
    decreases |bs|
  {
    if |bs| == 0 then []
    else if |bs| == 1 then [CharOf(bs[0] / 4), CharOf((bs[0] % 4) * 16)]
    else if |bs| == 2 then [CharOf(bs[0] / 4), CharOf((bs[0] % 4) * 16 + bs[1] / 16), CharOf((bs[1] % 16) * 4)]
    else Quad(bs[0], bs[1], bs[2]) + EncodeUnpadded(bs[3..])
  }

  function Padding(n: nat): string {
    if n % 3 == 1 then "==" else if n % 3 == 2 then "=" else ""
  }

  /** The base64 text of a byte string, padded to a multiple of four characters. */
  function Encode(bs: seq<byte>): (s: string)
    ensures |s| == 4 * ((|bs| + 2) / 3)
    ensures forall i :: 0 <= i < |s| ==> IsAlphabet(s[i]) || s[i] == '='
  {
    UnpaddedLength(|bs|);
    EncodeUnpadded(bs) + Padding(|bs|)
  }

  /** ASCII whitespace as the HTML standard defines it. */
  predicate IsAsciiWhitespace(c: char) {
    c == '\t' || c == '\n' || c == '\U{000C}' || c == '\r' || c == ' '
  }

  function StripWhitespace(s: string): (r: string)
    ensures |r| <= |s|
    ensures forall i :: 0 <= i < |r| ==> !IsAsciiWhitespace(r[i])
    ensures forall c :: c in r <==> c in s && !IsAsciiWhitespace(c)
  {
    if s == [] then []
    else if IsAsciiWhitespace(s[0]) then StripWhitespace(s[1..])
    else [s[0]] + StripWhitespace(s[1..])
  }

  /** Whitespace is dropped wherever it stands: the other characters keep their order. */
  lemma {:induction false} StripWhitespaceAppend(a: string, b: string)
    ensures StripWhitespace(a + b) == StripWhitespace(a) + StripWhitespace(b)
  {
    if a == [] {
      assert a + b == b;
    } else {
      assert (a + b)[0] == a[0] && (a + b)[1..] == a[1..] + b;
      StripWhitespaceAppend(a[1..], b);
    }
  }

  /** Drops one or two trailing `=` from text whose length is a multiple of four. */
  function StripPadding(s: string): string {
    if |s| % 4 == 0 && |s| >= 2 && s[|s| - 2] == '=' && s[|s| - 1] == '=' then s[..|s| - 2]
    else if |s| % 4 == 0 && |s| >= 1 && s[|s| - 1] == '=' then s[..|s| - 1]
    else s
  }

  /** Decodes unpadded alphabet text; a final group of two or three characters yields one or two bytes. */
  function DecodeUnpadded(t: string): (bs: seq<byte>)
    requires |t| % 4 != 1
    requires forall i :: 0 <= i < |t| ==> IsAlphabet(t[i])
  {
    if |t| == 0 then []
    else if |t| == 2 then
      [ValueOf(t[0]) * 4 + ValueOf(t[1]) / 16]
    else if |t| == 3 then
      [ValueOf(t[0]) * 4 + ValueOf(t[1]) / 16, (ValueOf(t[1]) % 16) * 16 + ValueOf(t[2]) / 4]
    else
      [ValueOf(t[0]) * 4 + ValueOf(t[1]) / 16,
       (ValueOf(t[1]) % 16) * 16 + ValueOf(t[2]) / 4,
       (ValueOf(t[2]) % 4) * 64 + ValueOf(t[3])]
      + DecodeUnpadded(t[4..])
  }

  /** Every four characters give three bytes, a final two or three give one or two. */
  lemma {:induction false} DecodedLength(t: string)
    requires |t| % 4 != 1
    requires forall i :: 0 <= i < |t| ==> IsAlphabet(t[i])
    ensures |DecodeUnpadded(t)| == 3 * |t| / 4
  {
    if |t| >= 4 {
      DecodedLength(t[4..]);
    }
  }

  /** Forgiving-base64 decode; `None` where `atob` throws InvalidCharacterError. */
  function Decode(s: string): (r: Option<seq<byte>>)
    ensures r.Some? ==> |r.value| == 3 * |StripPadding(StripWhitespace(s))| / 4
  {
    var t := StripPadding(StripWhitespace(s));
    if |t| % 4 == 1 || exists i :: 0 <= i < |t| && !IsAlphabet(t[i]) then None
    else DecodedLength(t); Some(DecodeUnpadded(t))
  }

  /** Padding only ever removes `=`: any other character of the text is kept. */
  lemma StripPaddingKeeps(t: string, c: char)
    requires c in t && c != '='
    ensures c in StripPadding(t)
  {
    var i :| 0 <= i < |t| && t[i] == c;
    assert StripPadding(t)[i] == c;
  }

  /** `atob` throws on a character that is neither in the alphabet, nor whitespace, nor `=`. */
  lemma DecodeRejectsForeign(s: string, i: nat)
    requires i < |s| && !IsAlphabet(s[i]) && !IsAsciiWhitespace(s[i]) && s[i] != '='
    ensures Decode(s).None?
  {
    var t := StripPadding(StripWhitespace(s));
    StripPaddingKeeps(StripWhitespace(s), s[i]);
    var j :| 0 <= j < |t| && t[j] == s[i];
  }

  /** The string whose char codes are the given bytes. */
  function BinaryString(bs: seq<byte>): (s: string)
    ensures |s| == |bs|
    ensures forall i :: 0 <= i < |bs| ==> s[i] as int == bs[i]
  {
    seq(|bs|, i requires 0 <= i < |bs| => bs[i] as char)
  }

  /** Every char code is below 256, as `btoa` demands. */
  predicate IsBinary(s: string) {
    forall i :: 0 <= i < |s| ==> s[i] as int < 256
  }

  function CharCodes(s: string): (bs: seq<byte>)
    requires IsBinary(s)
    ensures |bs| == |s|
    ensures forall i :: 0 <= i < |s| ==> bs[i] == s[i] as int
  {
    seq(|s|, i requires 0 <= i < |s| => s[i] as int)
  }

  /** `btoa`; `None` where it throws InvalidCharacterError (a char code above 255). */
  function Btoa(s: string): (r: Option<string>)
    ensures r.None? <==> exists i :: 0 <= i < |s| && s[i] as int > 255
    ensures r.Some? ==> |r.value| == 4 * ((|s| + 2) / 3)
    ensures r.Some? ==> forall i :: 0 <= i < |r.value| ==> IsAlphabet(r.value[i]) || r.value[i] == '='
  {
    if IsBinary(s) then Some(Encode(CharCodes(s))) else None
  }

  /** `atob`: the decoded bytes as a binary string. */
  function Atob(s: string): (r: Option<string>)
    ensures r.None? <==> Decode(s).None?
    ensures r.Some? ==> IsBinary(r.value) && |r.value| == 3 * |StripPadding(StripWhitespace(s))| / 4
  {
    match Decode(s)
    case None => None
    case Some(bs) => Some(BinaryString(bs))
  }

  // ---------------------------------------------------------------------------
  // Round trip

  /** The three bytes of a group come back from its four sextets. */
  lemma GroupInverse(b0: byte, b1: byte, b2: byte)
    ensures (b0 / 4) * 4 + ((b0 % 4) * 16 + b1 / 16) / 16 == b0
    ensures (((b0 % 4) * 16 + b1 / 16) % 16) * 16 + ((b1 % 16) * 4 + b2 / 64) / 4 == b1
    ensures (((b1 % 16) * 4 + b2 / 64) % 4) * 64 + b2 % 64 == b2
  {
  }

  /** The bytes a single full group of four alphabet characters decodes to. */
  function DecodeQuad(c0: char, c1: char, c2: char, c3: char): seq<byte>
    requires IsAlphabet(c0) && IsAlphabet(c1) && IsAlphabet(c2) && IsAlphabet(c3)
  {
    [ValueOf(c0) * 4 + ValueOf(c1) / 16,
     (ValueOf(c1) % 16) * 16 + ValueOf(c2) / 4,
     (ValueOf(c2) % 4) * 64 + ValueOf(c3)]
  }

  lemma DecodeUnpaddedStep(t: string)
    requires |t| >= 4 && |t| % 4 != 1
    requires forall i :: 0 <= i < |t| ==> IsAlphabet(t[i])
    ensures DecodeUnpadded(t) == DecodeQuad(t[0], t[1], t[2], t[3]) + DecodeUnpadded(t[4..])
  {
  }

  lemma QuadRoundTrip(b0: byte, b1: byte, b2: byte)
    ensures var q := Quad(b0, b1, b2); DecodeQuad(q[0], q[1], q[2], q[3]) == [b0, b1, b2]
  {
    ValueOfCharOf(b0 / 4);
    ValueOfCharOf((b0 % 4) * 16 + b1 / 16);
    ValueOfCharOf((b1 % 16) * 4 + b2 / 64);
    ValueOfCharOf(b2 % 64);
    GroupInverse(b0, b1, b2);
  }

  lemma TailOneRoundTrip(b0: byte)
    ensures DecodeUnpadded(EncodeUnpadded([b0])) == [b0]
  {
    ValueOfCharOf(b0 / 4);
    ValueOfCharOf((b0 % 4) * 16);
  }

  lemma TailTwoRoundTrip(b0: byte, b1: byte)
    ensures DecodeUnpadded(EncodeUnpadded([b0, b1])) == [b0, b1]
  {
    ValueOfCharOf(b0 / 4);
    ValueOfCharOf((b0 % 4) * 16 + b1 / 16);
    ValueOfCharOf((b1 % 16) * 4);
    GroupInverse(b0, b1, 0);
  }

  lemma EncodeUnpaddedStep(bs: seq<byte>)
    requires |bs| >= 3
    ensures EncodeUnpadded(bs) == Quad(bs[0], bs[1], bs[2]) + EncodeUnpadded(bs[3..])
  {
  }

  /** A full group in front decodes on its own. */
  lemma DecodeQuadFront(q: string, rest: string)
    requires |q| == 4 && IsAlphabet(q[0]) && IsAlphabet(q[1]) && IsAlphabet(q[2]) && IsAlphabet(q[3])
    requires |rest| % 4 != 1 && forall i :: 0 <= i < |rest| ==> IsAlphabet(rest[i])
    ensures forall i :: 0 <= i < |q + rest| ==> IsAlphabet((q + rest)[i])
    ensures DecodeUnpadded(q + rest) == DecodeQuad(q[0], q[1], q[2], q[3]) + DecodeUnpadded(rest)
  {
    var u := q + rest;
    assert forall i :: 0 <= i < |u| ==> IsAlphabet(u[i]) by {
      forall i | 0 <= i < |u| ensures IsAlphabet(u[i]) {
        if i >= 4 { assert u[i] == rest[i - 4]; }
      }
    }
    assert u[4..] == rest;
    DecodeUnpaddedStep(u);
  }

  lemma SplitThree(bs: seq<byte>)
    requires |bs| >= 3
    ensures [bs[0], bs[1], bs[2]] + bs[3..] == bs
  {
    assert bs[..3] == [bs[0], bs[1], bs[2]];
    assert bs[..3] + bs[3..] == bs;
  }

  lemma {:induction false} DecodeEncodeUnpadded(bs: seq<byte>)
    ensures DecodeUnpadded(EncodeUnpadded(bs)) == bs
    decreases |bs|
  {
    if |bs| == 1 {
      assert bs == [bs[0]];
      TailOneRoundTrip(bs[0]);
    } else if |bs| == 2 {
      assert bs == [bs[0], bs[1]];
      TailTwoRoundTrip(bs[0], bs[1]);
    } else if |bs| >= 3 {
      var q := Quad(bs[0], bs[1], bs[2]);
      var rest := EncodeUnpadded(bs[3..]);
      EncodeUnpaddedStep(bs);
      DecodeQuadFront(q, rest);
      QuadRoundTrip(bs[0], bs[1], bs[2]);
      DecodeEncodeUnpadded(bs[3..]);
      SplitThree(bs);
      calc {
        DecodeUnpadded(EncodeUnpadded(bs));
        DecodeUnpadded(q + rest);
        DecodeQuad(q[0], q[1], q[2], q[3]) + DecodeUnpadded(rest);
        [bs[0], bs[1], bs[2]] + bs[3..];
        bs;
      }
    }
  }

  lemma {:induction false} StripWhitespaceNone(s: string)
    requires forall i :: 0 <= i < |s| ==> !IsAsciiWhitespace(s[i])
    ensures StripWhitespace(s) == s
  {
    if s != [] {
      StripWhitespaceNone(s[1..]);
      assert s == [s[0]] + s[1..];
    }
  }

  lemma {:induction false} UnpaddedGroups(k: nat, r: nat)
    requires r < 3
    ensures UnpaddedSize(3 * k + r) == 4 * k + (if r == 0 then 0 else r + 1)
  {
    if k > 0 {
      UnpaddedGroups(k - 1, r);
    }
  }

  /** The unpadded length is `ceil(4n / 3)`, and its remainder modulo four is 0, 2 or 3;
      padding completes it to four characters per started group. */
  lemma UnpaddedLength(n: nat)
    ensures UnpaddedSize(n) == (4 * n + 2) / 3
    ensures UnpaddedSize(n) % 4 == (if n % 3 == 0 then 0 else n % 3 + 1)
    ensures UnpaddedSize(n) + |Padding(n)| == 4 * ((n + 2) / 3)
  {
    var k, r := n / 3, n % 3;
    UnpaddedGroups(k, r);
    assert n == 3 * k + r;
    assert (4 * n + 2) / 3 == 4 * k + (4 * r + 2) / 3;
    assert (n + 2) / 3 == k + (r + 2) / 3;
  }

  lemma CompletesGroup(n: nat, p: nat)
    requires n % 4 + p == 4
    ensures (n + p) % 4 == 0
  {
  }

  lemma StripTwo(e: string)
    requires |e| % 4 == 0 && |e| >= 2 && e[|e| - 2] == '=' && e[|e| - 1] == '='
    ensures StripPadding(e) == e[..|e| - 2]
  {
  }

  lemma StripPaddingTwo(u: string)
    requires |u| % 4 == 2
    ensures StripPadding(u + "==") == u
  {
    var e := u + "==";
    CompletesGroup(|u|, 2);
    assert e[|u|] == '=' && e[|u| + 1] == '=';
    StripTwo(e);
    assert e[..|u|] == u;
  }

  lemma StripPaddingOne(u: string)
    requires |u| % 4 == 3 && IsAlphabet(u[|u| - 1])
    ensures StripPadding(u + "=") == u
  {
    var e := u + "=";
    CompletesGroup(|u|, 1);
    assert e[|u| - 1] == u[|u| - 1] && e[|u|] == '=';
    assert e[..|u|] == u;
  }

  lemma StripPaddingNone(u: string)
    requires |u| % 4 == 0 && (|u| >= 1 ==> IsAlphabet(u[|u| - 1]))
    ensures StripPadding(u) == u
  {
  }

  lemma StripPaddingOfEncode(bs: seq<byte>)
    ensures StripPadding(Encode(bs)) == EncodeUnpadded(bs)
  {
    var u := EncodeUnpadded(bs);
    UnpaddedLength(|bs|);
    assert Encode(bs) == u + Padding(|bs|);
    if |bs| % 3 == 1 {
      StripPaddingTwo(u);
    } else if |bs| % 3 == 2 {
      StripPaddingOne(u);
    } else {
      assert u + Padding(|bs|) == u;
      StripPaddingNone(u);
    }
  }

  /** Decoding what `btoa` produced gives the original bytes back. */
  lemma DecodeEncode(bs: seq<byte>)
    ensures Decode(Encode(bs)) == Some(bs)
  {
    var e := Encode(bs);
    var u := EncodeUnpadded(bs);
    StripWhitespaceNone(e);
    StripPaddingOfEncode(bs);
    assert StripPadding(StripWhitespace(e)) == u;
    assert !exists i :: 0 <= i < |u| && !IsAlphabet(u[i]);
    DecodeEncodeUnpadded(bs);
  }

  lemma BinaryStringIsBinary(bs: seq<byte>)
    ensures IsBinary(BinaryString(bs))
    ensures CharCodes(BinaryString(bs)) == bs
  {
  }

  /** `btoa` never throws on a string built from bytes, and answers their encoding. */
  lemma BtoaOfBinaryString(bs: seq<byte>)
    ensures Btoa(BinaryString(bs)) == Some(Encode(bs))
  {
    BinaryStringIsBinary(bs);
  }

  /** `atob` inverts `btoa` on every string `btoa` accepts. */
  lemma AtobBtoa(s: string)
    requires IsBinary(s)
    ensures Btoa(s).Some? && Atob(Btoa(s).value) == Some(s)
  {
    var bs := CharCodes(s);
    DecodeEncode(bs);
    assert BinaryString(bs) == s;
  }
}
