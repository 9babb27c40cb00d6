/** Base64 of section 4 of RFC 4648: every three bytes become four
    characters of the 64-character alphabet, and a final group of one or
    two bytes is padded with `=`. Decoding is strict: only alphabet
    characters, a length that is a multiple of four, and padding only at
    the very end. */
module Base64 {
  import opened Wrappers

  type Byte = b: int | 0 <= b < 256
  type Index = i: int | 0 <= i < 64

  const Pad: char := '='

  /** The character of each 6-bit value (Table 1 of RFC 4648). */
  function Char(i: Index): char
  {
    if i < 26 then ('A' as int + i) as char
    else if i < 52 then ('a' as int + (i - 26)) as char
    else if i < 62 then ('0' as int + (i - 52)) as char
    else if i == 62 then '+'
    else '/'
  }

  predicate InAlphabet(c: char)
  {
    ('A' <= c <= 'Z') || ('a' <= c <= 'z') || ('0' <= c <= '9') || c == '+' || c == '/'
  }

  /** The 6-bit value of an alphabet character. */
  function IndexOf(c: char): (i: Index)
    requires InAlphabet(c)
    ensures Char(i) == c
  {
    if 'A' <= c <= 'Z' then c as int - 'A' as int
    else if 'a' <= c <= 'z' then c as int - 'a' as int + 26
    else if '0' <= c <= '9' then c as int - '0' as int + 52
    else if c == '+' then 62
    else 63
  }

  /** Each 6-bit value has its own character, and the character gives the
      value back. */
  lemma CharIndex(i: Index)
    ensures InAlphabet(Char(i)) && IndexOf(Char(i)) == i
  {
  }

  /** Three bytes as four characters. */
  function EncodeGroup(a: Byte, b: Byte, c: Byte): (s: string)
    ensures |s| == 4 && forall k :: 0 <= k < 4 ==> InAlphabet(s[k])
  {
    CharIndex(a / 4); CharIndex((a % 4) * 16 + b / 16); CharIndex((b % 16) * 4 + c / 64); CharIndex(c % 64);
    [Char(a / 4), Char((a % 4) * 16 + b / 16), Char((b % 16) * 4 + c / 64), Char(c % 64)]
  }

  /** `b64encode`. */
  function Encode(bs: seq<Byte>): (s: string)
    ensures |s| == (|bs| + 2) / 3 * 4
    ensures forall k :: 0 <= k < |s| ==> InAlphabet(s[k]) || s[k] == Pad
    decreases |bs|
  {
    if |bs| == 0 then ""
    else if |bs| == 1 then
      CharIndex(bs[0] / 4); CharIndex((bs[0] % 4) * 16);
      [Char(bs[0] / 4), Char((bs[0] % 4) * 16), Pad, Pad]
    else if |bs| == 2 then
      CharIndex(bs[0] / 4); CharIndex((bs[0] % 4) * 16 + bs[1] / 16); CharIndex((bs[1] % 16) * 4);
      [Char(bs[0] / 4), Char((bs[0] % 4) * 16 + bs[1] / 16), Char((bs[1] % 16) * 4), Pad]
    else EncodeGroup(bs[0], bs[1], bs[2]) + Encode(bs[3..])
  }

  /** Four alphabet characters as three bytes. */
  function DecodeGroup(q: string): (r: Option<seq<Byte>>)
    requires |q| == 4
    ensures r.Some? <==> forall k :: 0 <= k < 4 ==> InAlphabet(q[k])
    ensures r.Some? ==> |r.value| == 3
  {
    if InAlphabet(q[0]) && InAlphabet(q[1]) && InAlphabet(q[2]) && InAlphabet(q[3]) then
      var i0, i1, i2, i3 := IndexOf(q[0]), IndexOf(q[1]), IndexOf(q[2]), IndexOf(q[3]);
      Some([i0 * 4 + i1 / 16, (i1 % 16) * 16 + i2 / 4, (i2 % 4) * 64 + i3])
    else None
  }

  /** The last four characters: a full group, or one or two bytes followed
      by padding. The bits the padding leaves over are ignored. */
  function DecodeLast(q: string): (r: Option<seq<Byte>>)
    requires |q| == 4
    ensures r.Some? ==> 1 <= |r.value| <= 3
  {
    if q[3] != Pad then DecodeGroup(q)
    else if q[2] != Pad then
      if InAlphabet(q[0]) && InAlphabet(q[1]) && InAlphabet(q[2]) then
        var i0, i1, i2 := IndexOf(q[0]), IndexOf(q[1]), IndexOf(q[2]);
        Some([i0 * 4 + i1 / 16, (i1 % 16) * 16 + i2 / 4])
      else None
    else if InAlphabet(q[0]) && InAlphabet(q[1]) then
      Some([IndexOf(q[0]) * 4 + IndexOf(q[1]) / 16])
    else None
  }

  /** `b64decode(s, validate=True)`: `None` where it raises. */
  function Decode(s: string): (r: Option<seq<Byte>>)
    ensures r.Some? ==> |s| % 4 == 0
    decreases |s|
  {
    if |s| == 0 then Some([])
    else if |s| < 4 then None
    else if |s| == 4 then DecodeLast(s)
    else match DecodeGroup(s[..4])
      case None => None
      case Some(g) =>
        match Decode(s[4..])
        case None => None
        case Some(t) => Some(g + t)
  }

  /** Only alphabet characters and the padding are accepted, and the
      padding only in the last two places. */
  lemma {:induction false} DecodeIsStrict(s: string)
    requires Decode(s).Some?
    ensures forall k :: 0 <= k < |s| ==> InAlphabet(s[k]) || (s[k] == Pad && k >= |s| - 2)
    decreases |s|
  {
    if |s| > 4 {
      DecodeIsStrict(s[4..]);
      forall k | 0 <= k < |s|
        ensures InAlphabet(s[k]) || (s[k] == Pad && k >= |s| - 2)
      {
        if k < 4 {
          assert s[k] == s[..4][k];
        } else {
          assert s[k] == s[4..][k - 4];
        }
      }
    }
  }

  /** The arithmetic of one group: the bits spread over four characters
      are put back together. */
  lemma GroupBits(a: Byte, b: Byte, c: Byte)
    ensures (a / 4) * 4 + ((a % 4) * 16 + b / 16) / 16 == a
    ensures (((a % 4) * 16 + b / 16) % 16) * 16 + ((b % 16) * 4 + c / 64) / 4 == b
    ensures (((b % 16) * 4 + c / 64) % 4) * 64 + c % 64 == c
  {
  }

  lemma DecodeEncodeGroup(a: Byte, b: Byte, c: Byte)
    ensures DecodeGroup(EncodeGroup(a, b, c)) == Some([a, b, c])
  {
    var q := EncodeGroup(a, b, c);
    CharIndex(a / 4); CharIndex((a % 4) * 16 + b / 16); CharIndex((b % 16) * 4 + c / 64); CharIndex(c % 64);
    GroupBits(a, b, c);
  }

  lemma DecodeEncodeOne(a: Byte)
    ensures Decode(Encode([a])) == Some([a])
  {
    var q := Encode([a]);
    CharIndex(a / 4); CharIndex((a % 4) * 16);
    assert q[2] == Pad && q[3] == Pad;
    assert Decode(q) == DecodeLast(q);
    assert DecodeLast(q) == Some([(a / 4) * 4 + ((a % 4) * 16) / 16]);
  }

  lemma DecodeEncodeTwo(a: Byte, b: Byte)
    ensures Decode(Encode([a, b])) == Some([a, b])
  {
    var q := Encode([a, b]);
    CharIndex(a / 4); CharIndex((a % 4) * 16 + b / 16); CharIndex((b % 16) * 4);
    GroupBits(a, b, 0);
    assert q[3] == Pad && q[2] != Pad;
    assert Decode(q) == DecodeLast(q);
  }

  /** Decoding a full group followed by more quartets. */
  lemma DecodeFront(head: string, tail: string)
    requires |head| == 4 && DecodeGroup(head).Some? && |tail| > 0
    ensures Decode(head + tail) == if Decode(tail).Some? then Some(DecodeGroup(head).value + Decode(tail).value) else None
  {
    var s := head + tail;
    assert s[..4] == head && s[4..] == tail;
  }

  lemma EncodeFront(bs: seq<Byte>)
    requires |bs| >= 3
    ensures Encode(bs) == EncodeGroup(bs[0], bs[1], bs[2]) + Encode(bs[3..])
  {
  }

  lemma DecodeEncodeThree(a: Byte, b: Byte, c: Byte)
    ensures Decode(Encode([a, b, c])) == Some([a, b, c])
  {
    EncodeThree(a, b, c);
    DecodeEncodeGroup(a, b, c);
  }

  lemma DecodeEncodeStep(bs: seq<Byte>)
    requires |bs| > 3 && Decode(Encode(bs[3..])) == Some(bs[3..])
    ensures Decode(Encode(bs)) == Some(bs)
  {
    var rest := bs[3..];
    var head := EncodeGroup(bs[0], bs[1], bs[2]);
    var tail := Encode(rest);
    EncodeFront(bs);
    assert Encode(bs) == head + tail;
    DecodeEncodeGroup(bs[0], bs[1], bs[2]);
    assert DecodeGroup(head) == Some([bs[0], bs[1], bs[2]]);
    assert Decode(tail) == Some(rest);
    assert |tail| > 0;
    DecodeFront(head, tail);
    assert Decode(head + tail) == Some([bs[0], bs[1], bs[2]] + rest);
    FirstThree(bs);
  }

  lemma FirstThree(bs: seq<Byte>)
    requires |bs| >= 3
    ensures bs == [bs[0], bs[1], bs[2]] + bs[3..]
  {
  }

  /** Decoding an encoding gives the bytes back. */
  lemma {:induction false} DecodeEncode(bs: seq<Byte>)
    ensures Decode(Encode(bs)) == Some(bs)
    decreases |bs|
  {
    if |bs| == 0 {
    } else if |bs| == 1 {
      DecodeEncodeOne(bs[0]);
      assert bs == [bs[0]];
    } else if |bs| == 2 {
      DecodeEncodeTwo(bs[0], bs[1]);
      assert bs == [bs[0], bs[1]];
    } else if |bs| == 3 {
      DecodeEncodeThree(bs[0], bs[1], bs[2]);
      assert bs == [bs[0], bs[1], bs[2]];
    } else {
      DecodeEncode(bs[3..]);
      DecodeEncodeStep(bs);
    }
  }

  /** A character outside the alphabet is refused, wherever it is. */
  lemma DecodeRejectsForeign(s: string, k: nat)
    requires k < |s| && !InAlphabet(s[k]) && s[k] != Pad
    ensures Decode(s).None?
  {
    if Decode(s).Some? {
      DecodeIsStrict(s);
    }
  }

  lemma EncodeVectorsShort()
    ensures Encode([102]) == "Zg=="
    ensures Encode([102, 111]) == "Zm8="
    ensures Encode([102, 111, 111]) == "Zm9v"
  {
    assert Char(25) == 'Z' && Char(32) == 'g' && Char(38) == 'm' && Char(60) == '8';
    assert Char(61) == '9' && Char(47) == 'v';
  }

  /** Test vectors of section 10 of RFC 4648: one, two and three bytes,
      both ways. */
  lemma RfcVectorsShort()
    ensures Encode([102]) == "Zg==" && Decode("Zg==") == Some([102])
    ensures Encode([102, 111]) == "Zm8=" && Decode("Zm8=") == Some([102, 111])
    ensures Encode([102, 111, 111]) == "Zm9v" && Decode("Zm9v") == Some([102, 111, 111])
  {
    EncodeVectorsShort();
    DecodeEncode([102]);
    DecodeEncode([102, 111]);
    DecodeEncode([102, 111, 111]);
  }

  /** Test vector of section 10 of RFC 4648: six bytes, two groups. */
  lemma RfcVectorsLong()
    ensures Encode([102, 111, 111, 98, 97, 114]) == "Zm9vYmFy"
  {
    var bs: seq<Byte> := [102, 111, 111, 98, 97, 114];
    EncodeFront(bs);
    assert bs[3..] == [98, 97, 114];
    FooBarGroups();
    EncodeThree(98, 97, 114);
  }

  lemma FooBarGroups()
    ensures EncodeGroup(102, 111, 111) == "Zm9v"
    ensures EncodeGroup(98, 97, 114) == "YmFy"
  {
    assert Char(25) == 'Z' && Char(38) == 'm' && Char(61) == '9' && Char(47) == 'v';
    assert Char(24) == 'Y' && Char(5) == 'F' && Char(50) == 'y';
  }

  /** Three bytes encode as their one group. */
  lemma EncodeThree(a: Byte, b: Byte, c: Byte)
    ensures Encode([a, b, c]) == EncodeGroup(a, b, c)
  {
    var bs: seq<Byte> := [a, b, c];
    EncodeFront(bs);
    assert bs[3..] == [];
  }
}
