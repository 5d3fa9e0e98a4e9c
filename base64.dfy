/**
 * `btoa`, which `setBasicAuth` (packages/core/src/client.ts) uses: every
 * character must be at most U+00FF and stands for one byte, and the bytes are
 * written in the base64 alphabet of section 4 of RFC 4648, with `=` padding.
 * `Decode` is `atob` on well-formed input; it exists to state the round trip.
 */
module Base64 {
  import opened Outcomes
  import Utf8
  import Seqs

  type Byte = Utf8.Byte

  type Sextet = v: int | 0 <= v < 64

  /** The character of a 6-bit value: A-Z, a-z, 0-9, `+`, `/`. */
  function SextetChar(v: Sextet): char
  {
    if v < 26 then ('A' as int + v) as char
    else if v < 52 then ('a' as int + v - 26) as char
    else if v < 62 then ('0' as int + v - 52) as char
    else if v == 62 then '+'
    else '/'
  }

  /** The value of an alphabet character, or `None` for any other character (`=` included). */
  function SextetValue(c: char): (r: Option<Sextet>)
    ensures r.Some? ==> SextetChar(r.value) == c
  {
    if 'A' <= c <= 'Z' then Some(c as int - 'A' as int)
    else if 'a' <= c <= 'z' then Some(c as int - 'a' as int + 26)
    else if '0' <= c <= '9' then Some(c as int - '0' as int + 52)
    else if c == '+' then Some(62)
    else if c == '/' then Some(63)
    else None
  }

  /** Each character is one byte, provided none is above U+00FF (`btoa` throws otherwise). */
  function Latin1(s: string): (r: Option<seq<Byte>>)
    ensures r.Some? <==> forall i :: 0 <= i < |s| ==> s[i] as int < 256
    ensures r.Some? ==> |r.value| == |s| && forall i :: 0 <= i < |r.value| ==> r.value[i] == s[i] as int
  {
    if forall i :: 0 <= i < |s| ==> s[i] as int < 256 then Some(seq(|s|, i requires 0 <= i < |s| => s[i] as int))
    else None
  }

  /** The four 6-bit slices of three bytes `b0 b1 b2`, most significant first; a missing
      byte is 0. */
  function First(b0: Byte): Sextet { b0 / 4 }

  function Second(b0: Byte, b1: Byte): Sextet { (b0 % 4) * 16 + b1 / 16 }

  function Third(b1: Byte, b2: Byte): Sextet { (b1 % 16) * 4 + b2 / 64 }

  function Fourth(b2: Byte): Sextet { b2 % 64 }

  /** Three bytes as four characters. */
  function EncodeGroup(b0: Byte, b1: Byte, b2: Byte): string
  {
    [SextetChar(First(b0)), SextetChar(Second(b0, b1)), SextetChar(Third(b1, b2)), SextetChar(Fourth(b2))]
  }

  function Encode(bs: seq<Byte>): (s: string)
    ensures |s| % 4 == 0 && (s == [] <==> bs == [])
    decreases |bs|
  {
    if |bs| == 0 then ""
    else if |bs| == 1 then [SextetChar(First(bs[0])), SextetChar(Second(bs[0], 0))] + "=="
    else if |bs| == 2 then [SextetChar(First(bs[0])), SextetChar(Second(bs[0], bs[1])), SextetChar(Third(bs[1], 0))] + "="
    else EncodeGroup(bs[0], bs[1], bs[2]) + Encode(bs[3..])
  }

  /** Four alphabet characters back to three bytes. */
  function DecodeGroup(c0: Sextet, c1: Sextet, c2: Sextet, c3: Sextet): seq<Byte>
  {
    [c0 * 4 + c1 / 16, (c1 % 16) * 16 + c2 / 4, (c2 % 4) * 64 + c3]
  }

  /** Padded base64 text back to bytes; `None` for text that is not of that form. */
  function Decode(s: string): Option<seq<Byte>>
    decreases |s|
  {
    if |s| == 0 then Some([])
    else if |s| < 4 then None
    else
      var v0, v1, v2, v3 := SextetValue(s[0]), SextetValue(s[1]), SextetValue(s[2]), SextetValue(s[3]);
      if v0.None? || v1.None? then None
      else if |s| == 4 && s[2] == '=' && s[3] == '=' then
        Some(DecodeGroup(v0.value, v1.value, 0, 0)[..1])
      else if |s| == 4 && v2.Some? && s[3] == '=' then
        Some(DecodeGroup(v0.value, v1.value, v2.value, 0)[..2])
      else if v2.None? || v3.None? then None
      else
        match Decode(s[4..])
        case None => None
        case Some(rest) => Some(DecodeGroup(v0.value, v1.value, v2.value, v3.value) + rest)
  }

  /** `btoa(s)`, or `None` where it throws. */
  function Btoa(s: string): Option<string>
  {
    match Latin1(s)
    case None => None
    case Some(bs) => Some(Encode(bs))
  }

  // ---------------------------------------------------------------- properties

  lemma SextetRoundTrip(v: Sextet)
    ensures SextetValue(SextetChar(v)) == Some(v)
  {
  }

  lemma GroupRoundTrip(b0: Byte, b1: Byte, b2: Byte)
    ensures DecodeGroup(First(b0), Second(b0, b1), Third(b1, b2), Fourth(b2)) == [b0, b1, b2]
  {
  }

  lemma DecodeOne(b0: Byte)
    ensures Decode([SextetChar(First(b0)), SextetChar(Second(b0, 0))] + "==") == Some([b0])
  {
    var hi, lo := First(b0), Second(b0, 0);
    var s := [SextetChar(hi), SextetChar(lo)] + "==";
    SextetRoundTrip(hi);
    SextetRoundTrip(lo);
    assert SextetValue(s[0]) == Some(hi) && SextetValue(s[1]) == Some(lo);
    assert |s| == 4 && s[2] == '=' && s[3] == '=';
    assert lo / 16 == b0 % 4;
    assert DecodeGroup(hi, lo, 0, 0)[..1] == [b0];
  }

  lemma DecodeTwo(b0: Byte, b1: Byte)
    ensures Decode([SextetChar(First(b0)), SextetChar(Second(b0, b1)), SextetChar(Third(b1, 0))] + "=") == Some([b0, b1])
  {
    var c0, c1, c2 := First(b0), Second(b0, b1), Third(b1, 0);
    var s := [SextetChar(c0), SextetChar(c1), SextetChar(c2)] + "=";
    SextetRoundTrip(c0);
    SextetRoundTrip(c1);
    SextetRoundTrip(c2);
    assert SextetValue(s[0]) == Some(c0) && SextetValue(s[1]) == Some(c1) && SextetValue(s[2]) == Some(c2);
    assert |s| == 4 && s[2] != '=' && s[3] == '=';
    assert c1 / 16 == b0 % 4 && c1 % 16 == b1 / 16;
    assert c2 / 4 == b1 % 16;
    assert DecodeGroup(c0, c1, c2, 0)[..2] == [b0, b1];
  }

  /** A full group in front of more text decodes to its three bytes in front of what the text
      decodes to. */
  lemma DecodeFullGroup(b0: Byte, b1: Byte, b2: Byte, rest: string)
    requires rest == [] || |rest| >= 4
    ensures Decode(EncodeGroup(b0, b1, b2) + rest) ==
      match Decode(rest) case None => None case Some(r) => Some([b0, b1, b2] + r)
  {
    var c0, c1, c2, c3 := First(b0), Second(b0, b1), Third(b1, b2), Fourth(b2);
    DecodeSextets(c0, c1, c2, c3, rest);
    GroupRoundTrip(b0, b1, b2);
  }

  /** Four alphabet characters in front of more text: their group, then what the rest decodes to. */
  lemma DecodeSextets(c0: Sextet, c1: Sextet, c2: Sextet, c3: Sextet, rest: string)
    requires rest == [] || |rest| >= 4
    ensures Decode([SextetChar(c0), SextetChar(c1), SextetChar(c2), SextetChar(c3)] + rest) ==
      match Decode(rest) case None => None case Some(r) => Some(DecodeGroup(c0, c1, c2, c3) + r)
  {
    var s := [SextetChar(c0), SextetChar(c1), SextetChar(c2), SextetChar(c3)] + rest;
    assert s[0] == SextetChar(c0) && s[1] == SextetChar(c1) && s[2] == SextetChar(c2) && s[3] == SextetChar(c3);
    assert s[4..] == rest;
    SextetRoundTrip(c0);
    SextetRoundTrip(c1);
    SextetRoundTrip(c2);
    SextetRoundTrip(c3);
    DecodeFour(s);
  }

  /** The unfolding of `Decode` at four alphabet characters. */
  lemma DecodeFour(s: string)
    requires |s| >= 4
    requires SextetValue(s[0]).Some? && SextetValue(s[1]).Some? && SextetValue(s[2]).Some? && SextetValue(s[3]).Some?
    ensures Decode(s) == match Decode(s[4..]) case None => None case Some(r) =>
      Some(DecodeGroup(SextetValue(s[0]).value, SextetValue(s[1]).value, SextetValue(s[2]).value, SextetValue(s[3]).value) + r)
  {
    assert s[2] != '=' && s[3] != '=';
  }

  /** Decoding the encoding gives back the bytes. */
  lemma {:induction false} DecodeEncode(bs: seq<Byte>)
    ensures Decode(Encode(bs)) == Some(bs)
    decreases |bs|
  {
    if |bs| == 1 {
      DecodeOne(bs[0]);
      assert [bs[0]] == bs;
    } else if |bs| == 2 {
      DecodeTwo(bs[0], bs[1]);
      assert [bs[0], bs[1]] == bs;
    } else if |bs| > 2 {
      var rest := Encode(bs[3..]);
      assert Encode(bs) == EncodeGroup(bs[0], bs[1], bs[2]) + rest;
      DecodeEncode(bs[3..]);
      DecodeFullGroup(bs[0], bs[1], bs[2], rest);
      Seqs.TakeThree(bs);
    }
  }

  /** `btoa` fails exactly on a character above U+00FF; its output is always a multiple of four
      characters long and decodes back to the characters' codes. */
  lemma BtoaFacts(s: string)
    ensures Btoa(s).Some? <==> forall i :: 0 <= i < |s| ==> s[i] as int < 256
    ensures Btoa(s).Some? ==>
      |Btoa(s).value| % 4 == 0 &&
      Decode(Btoa(s).value) == Latin1(s) &&
      |Latin1(s).value| == |s| && forall i :: 0 <= i < |s| ==> Latin1(s).value[i] == s[i] as int
  {
    if Latin1(s).Some? {
      DecodeEncode(Latin1(s).value);
    }
  }

  lemma BtoaExample()
    ensures Btoa("user:pass") == Some("dXNlcjpwYXNz")
  {
    var bs: seq<Byte> := [117, 115, 101, 114, 58, 112, 97, 115, 115];
    Latin1Example(bs);
    EncodeExample(bs);
  }

  lemma Latin1Example(bs: seq<Byte>)
    requires bs == [117, 115, 101, 114, 58, 112, 97, 115, 115]
    ensures Latin1("user:pass") == Some(bs)
  {
    assert Latin1("user:pass").value == bs;
  }

  lemma EncodeExample(bs: seq<Byte>)
    requires bs == [117, 115, 101, 114, 58, 112, 97, 115, 115]
    ensures Encode(bs) == "dXNlcjpwYXNz"
  {
    GroupExample(117, 115, 101, "dXNl");
    GroupExample(114, 58, 112, "cjpw");
    GroupExample(97, 115, 115, "YXNz");
    assert Encode(bs[6..]) == "YXNz" by {
      assert bs[6..][3..] == [];
    }
    assert Encode(bs[3..]) == "cjpw" + "YXNz" by {
      assert bs[3..][3..] == bs[6..];
    }
  }

  lemma GroupExample(b0: Byte, b1: Byte, b2: Byte, s: string)
    requires (b0, b1, b2, s) in {(117, 115, 101, "dXNl"), (114, 58, 112, "cjpw"), (97, 115, 115, "YXNz")}
    ensures EncodeGroup(b0, b1, b2) == s
  {
  }
}
