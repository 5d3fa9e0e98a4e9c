/**
 * The application/x-www-form-urlencoded format of the WHATWG URL Standard:
 * the serializer of section 5.2 (what `URLSearchParams.toString()` returns) and,
 * as its partner, the parser of section 5.1 (what `new URLSearchParams(s)` reads).
 */
module FormUrlEncoded {
  import opened Outcomes
  import Utf8

  type Byte = Utf8.Byte

  const Ampersand: Byte := 0x26
  const EqualsSign: Byte := 0x3D
  const Plus: Byte := 0x2B
  const Space: Byte := 0x20
  const Percent: Byte := 0x25

  /** Bytes the application/x-www-form-urlencoded percent-encode set leaves alone:
      ASCII alphanumerics and `*`, `-`, `.`, `_`. */
  predicate IsUnreserved(b: int)
  {
    || (0x30 <= b <= 0x39) || (0x41 <= b <= 0x5A) || (0x61 <= b <= 0x7A)
    || b == 0x2A || b == 0x2D || b == 0x2E || b == 0x5F
  }

  /** The bytes that can occur in serializer output inside one name or value. */
  predicate IsComponentByte(b: int)
  {
    IsUnreserved(b) || b == Plus || b == Percent
  }

  /** Upper-case hexadecimal digit, as percent-encoding writes it. */
  function HexCode(n: int): (b: Byte)
    requires 0 <= n < 16
    ensures IsUnreserved(b)
  {
    if n < 10 then 0x30 + n else 0x41 + (n - 10)
  }

  predicate IsHexByte(b: Byte)
  {
    (0x30 <= b <= 0x39) || (0x41 <= b <= 0x46) || (0x61 <= b <= 0x66)
  }

  function HexValue(b: Byte): (n: int)
    requires IsHexByte(b)
    ensures 0 <= n < 16
  {
    if b <= 0x39 then b - 0x30 else if b <= 0x46 then b - 0x41 + 10 else b - 0x61 + 10
  }

  /** How the serializer writes one byte of the UTF-8 encoding of a name or value. */
  function EncodeByte(b: Byte): string
  {
    if b == Space then "+"
    else if IsUnreserved(b) then [b as char]
    else ['%', HexCode(b / 16) as char, HexCode(b % 16) as char]
  }

  function PercentEncode(bs: seq<Byte>): string
  {
    if bs == [] then "" else EncodeByte(bs[0]) + PercentEncode(bs[1..])
  }

  /** A name or value as the serializer writes it: UTF-8, then percent-encoded with space as `+`. */
  function EncodeComponent(s: string): string
  {
    PercentEncode(Utf8.Encode(s))
  }

  function EncodePair(p: (string, string)): string
  {
    EncodeComponent(p.0) + "=" + EncodeComponent(p.1)
  }

  /** The serializer: each pair as `name=value`, the pairs separated by `&`. */
  function Serialize(pairs: seq<(string, string)>): string
  {
    if pairs == [] then ""
    else if |pairs| == 1 then EncodePair(pairs[0])
    else EncodePair(pairs[0]) + "&" + Serialize(pairs[1..])
  }

  // ---------------------------------------------------------------- parser

  function ReplacePlus(bs: seq<Byte>): seq<Byte>
  {
    if bs == [] then [] else [if bs[0] == Plus then Space else bs[0]] + ReplacePlus(bs[1..])
  }

  /** Percent-decoding: `%` and two hexadecimal digits become one byte; any other byte,
      including a `%` not followed by two digits, is kept. */
  function PercentDecode(bs: seq<Byte>): seq<Byte>
  {
    if bs == [] then []
    else if bs[0] == Percent && |bs| >= 3 && IsHexByte(bs[1]) && IsHexByte(bs[2]) then
      [HexValue(bs[1]) * 16 + HexValue(bs[2])] + PercentDecode(bs[3..])
    else [bs[0]] + PercentDecode(bs[1..])
  }

  /** A name or value as the parser reads it; None when its bytes are not UTF-8
      (where the URL Standard substitutes U+FFFD). */
  function DecodeComponent(bs: seq<Byte>): Option<string>
  {
    Utf8.Decode(PercentDecode(ReplacePlus(bs)))
  }

  /** Splits at every `sep`, keeping empty pieces. */
  function SplitOn(bs: seq<Byte>, sep: Byte): (parts: seq<seq<Byte>>)
    ensures |parts| >= 1
  {
    if bs == [] then [[]]
    else
      var tail := SplitOn(bs[1..], sep);
      if bs[0] == sep then [[]] + tail else [[bs[0]] + tail[0]] + tail[1..]
  }

  /** Splits at the first `sep`; without one, the value is empty. */
  function SplitAtFirst(bs: seq<Byte>, sep: Byte): (seq<Byte>, seq<Byte>)
  {
    if bs == [] then ([], [])
    else if bs[0] == sep then ([], bs[1..])
    else
      var (n, v) := SplitAtFirst(bs[1..], sep);
      ([bs[0]] + n, v)
  }

  function ParseSegments(segments: seq<seq<Byte>>): Option<seq<(string, string)>>
  {
    if segments == [] then Some([])
    else if segments[0] == [] then ParseSegments(segments[1..])
    else
      var (n, v) := SplitAtFirst(segments[0], EqualsSign);
      match (DecodeComponent(n), DecodeComponent(v), ParseSegments(segments[1..]))
      case (Some(name), Some(value), Some(rest)) => Some([(name, value)] + rest)
      case _ => None
  }

  /** The parser, on the UTF-8 encoding of its input. */
  function Parse(s: string): Option<seq<(string, string)>>
  {
    ParseSegments(SplitOn(Utf8.Encode(s), Ampersand))
  }

  // ---------------------------------------------------------------- round trip

  /** The bytes of what `EncodeByte` writes. */
  function EncodedByteBytes(b: Byte): seq<Byte>
  {
    if b == Space then [Plus]
    else if IsUnreserved(b) then [b]
    else [Percent, HexCode(b / 16), HexCode(b % 16)]
  }

  lemma EncodeByteBytes(b: Byte)
    ensures Utf8.Encode(EncodeByte(b)) == EncodedByteBytes(b)
  {
    var s := EncodeByte(b);
    Utf8.EncodeAscii(s);
  }

  lemma {:induction false} ReplacePlusConcat(a: seq<Byte>, b: seq<Byte>)
    ensures ReplacePlus(a + b) == ReplacePlus(a) + ReplacePlus(b)
  {
    if a == [] {
      assert a + b == b;
    } else {
      assert (a + b)[1..] == a[1..] + b;
      ReplacePlusConcat(a[1..], b);
    }
  }

  lemma {:induction false} ReplacePlusWithoutPlus(bs: seq<Byte>)
    requires Plus !in bs
    ensures ReplacePlus(bs) == bs
  {
    if bs != [] {
      ReplacePlusWithoutPlus(bs[1..]);
      assert [bs[0]] + bs[1..] == bs;
    }
  }

  lemma HexRoundTrip(n: int)
    requires 0 <= n < 16
    ensures IsHexByte(HexCode(n)) && HexValue(HexCode(n)) == n
  {
  }

  /** One encoded byte, with `+` turned back into a space, percent-decodes to that byte. */
  lemma DecodeEncodedByte(b: Byte, rest: seq<Byte>)
    ensures PercentDecode(ReplacePlus(EncodedByteBytes(b)) + rest) == [b] + PercentDecode(rest)
  {
    var e := EncodedByteBytes(b);
    if b == Space {
      assert ReplacePlus(e) == [Space];
      assert ([Space] + rest)[1..] == rest;
    } else if IsUnreserved(b) {
      assert ReplacePlus(e) == [b];
      assert ([b] + rest)[1..] == rest;
    } else {
      var hi, lo := HexCode(b / 16), HexCode(b % 16);
      HexRoundTrip(b / 16);
      HexRoundTrip(b % 16);
      assert e == [Percent, hi, lo];
      ReplacePlusWithoutPlus(e);
      var t := [Percent, hi, lo] + rest;
      assert t[0] == Percent && t[1] == hi && t[2] == lo && t[3..] == rest;
    }
  }

  /** The bytes an encoded byte is written with are all component bytes. */
  lemma EncodedByteComponents(b: Byte)
    ensures forall i :: 0 <= i < |EncodedByteBytes(b)| ==> IsComponentByte(EncodedByteBytes(b)[i])
  {
    if !IsUnreserved(b) && b != Space {
      assert IsUnreserved(HexCode(b / 16)) && IsUnreserved(HexCode(b % 16));
    }
  }

  lemma PercentEncodeSplit(bs: seq<Byte>)
    requires bs != []
    ensures Utf8.Encode(PercentEncode(bs)) == EncodedByteBytes(bs[0]) + Utf8.Encode(PercentEncode(bs[1..]))
  {
    Utf8.EncodeConcat(EncodeByte(bs[0]), PercentEncode(bs[1..]));
    EncodeByteBytes(bs[0]);
  }

  lemma {:induction false} PercentEncodeBytes(bs: seq<Byte>)
    ensures PercentDecode(ReplacePlus(Utf8.Encode(PercentEncode(bs)))) == bs
    ensures forall i :: 0 <= i < |Utf8.Encode(PercentEncode(bs))| ==> IsComponentByte(Utf8.Encode(PercentEncode(bs))[i])
  {
    if bs != [] {
      var hb, tb := EncodedByteBytes(bs[0]), Utf8.Encode(PercentEncode(bs[1..]));
      PercentEncodeSplit(bs);
      PercentEncodeBytes(bs[1..]);
      assert PercentDecode(ReplacePlus(hb + tb)) == bs by {
        ReplacePlusConcat(hb, tb);
        DecodeEncodedByte(bs[0], ReplacePlus(tb));
        assert [bs[0]] + bs[1..] == bs;
      }
      EncodedByteComponents(bs[0]);
      ComponentsConcat(hb, tb);
    }
  }

  lemma ComponentsConcat(a: seq<Byte>, b: seq<Byte>)
    requires forall i :: 0 <= i < |a| ==> IsComponentByte(a[i])
    requires forall i :: 0 <= i < |b| ==> IsComponentByte(b[i])
    ensures forall i :: 0 <= i < |a + b| ==> IsComponentByte((a + b)[i])
  {
  }

  /** The parser reads back every name or value the serializer writes, and what the
      serializer writes contains neither `&` nor `=`. */
  lemma ComponentRoundTrip(s: string)
    ensures DecodeComponent(Utf8.Encode(EncodeComponent(s))) == Some(s)
    ensures forall i :: 0 <= i < |Utf8.Encode(EncodeComponent(s))| ==> IsComponentByte(Utf8.Encode(EncodeComponent(s))[i])
  {
    PercentEncodeBytes(Utf8.Encode(s));
    Utf8.DecodeEncode(s);
  }

  lemma {:induction false} SplitWithoutSep(x: seq<Byte>, sep: Byte, rest: seq<Byte>)
    requires sep !in x
    ensures SplitOn(x + rest, sep) == [x + SplitOn(rest, sep)[0]] + SplitOn(rest, sep)[1..]
  {
    if x == [] {
      assert x + rest == rest;
      assert x + SplitOn(rest, sep)[0] == SplitOn(rest, sep)[0];
      assert [SplitOn(rest, sep)[0]] + SplitOn(rest, sep)[1..] == SplitOn(rest, sep);
    } else {
      assert (x + rest)[1..] == x[1..] + rest;
      SplitWithoutSep(x[1..], sep, rest);
      assert [x[0]] + (x[1..] + SplitOn(rest, sep)[0]) == x + SplitOn(rest, sep)[0];
    }
  }

  lemma {:induction false} SplitAtFirstWithoutSep(x: seq<Byte>, sep: Byte, rest: seq<Byte>)
    requires sep !in x
    ensures SplitAtFirst(x + [sep] + rest, sep) == (x, rest)
  {
    if x == [] {
      assert x + [sep] + rest == [sep] + rest;
      assert ([sep] + rest)[1..] == rest;
    } else {
      assert (x + [sep] + rest)[1..] == x[1..] + [sep] + rest;
      SplitAtFirstWithoutSep(x[1..], sep, rest);
      assert [x[0]] + x[1..] == x;
    }
  }

  function PairBytes(p: (string, string)): seq<Byte>
  {
    Utf8.Encode(EncodeComponent(p.0)) + [EqualsSign] + Utf8.Encode(EncodeComponent(p.1))
  }

  lemma EncodePairBytes(p: (string, string))
    ensures Utf8.Encode(EncodePair(p)) == PairBytes(p)
  {
    var n, v := EncodeComponent(p.0), EncodeComponent(p.1);
    Utf8.EncodeConcat(n, "=");
    Utf8.EncodeConcat(n + "=", v);
    assert Utf8.Encode("=") == [EqualsSign];
  }

  lemma NoSeparatorIn(bs: seq<Byte>, sep: Byte)
    requires forall i :: 0 <= i < |bs| ==> IsComponentByte(bs[i])
    requires !IsComponentByte(sep)
    ensures sep !in bs
  {
    assert forall i :: 0 <= i < |bs| ==> bs[i] != sep;
  }

  lemma PairBytesFacts(p: (string, string))
    ensures Utf8.Encode(EncodePair(p)) == PairBytes(p)
    ensures Ampersand !in PairBytes(p) && PairBytes(p) != []
    ensures ParseSegments([PairBytes(p)]) == Some([p])
  {
    EncodePairBytes(p);
    ComponentRoundTrip(p.0);
    ComponentRoundTrip(p.1);
    var nb, vb := Utf8.Encode(EncodeComponent(p.0)), Utf8.Encode(EncodeComponent(p.1));
    NoSeparatorIn(nb, EqualsSign);
    NoSeparatorIn(nb, Ampersand);
    NoSeparatorIn(vb, Ampersand);
    var x := PairBytes(p);
    assert x == nb + [EqualsSign] + vb;
    assert Ampersand !in x;
    SplitAtFirstWithoutSep(nb, EqualsSign, vb);
    var segs := [x];
    assert segs[0] == x && x != [] && segs[1..] == [];
    assert ParseSegments(segs[1..]) == Some([]);
    assert ParseSegments(segs) == Some([(p.0, p.1)] + []);
    assert [(p.0, p.1)] + [] == [p];
  }

  function PairsBytes(pairs: seq<(string, string)>): seq<seq<Byte>>
  {
    if pairs == [] then [] else [PairBytes(pairs[0])] + PairsBytes(pairs[1..])
  }

  lemma SerializeBytes(pairs: seq<(string, string)>)
    requires |pairs| > 1
    ensures Utf8.Encode(Serialize(pairs)) == PairBytes(pairs[0]) + ([Ampersand] + Utf8.Encode(Serialize(pairs[1..])))
  {
    assert Serialize(pairs) == EncodePair(pairs[0]) + "&" + Serialize(pairs[1..]);
    EncodeJoined(EncodePair(pairs[0]), Serialize(pairs[1..]));
    EncodePairBytes(pairs[0]);
  }

  lemma EncodeJoined(e: string, rest: string)
    ensures Utf8.Encode(e + "&" + rest) == Utf8.Encode(e) + ([Ampersand] + Utf8.Encode(rest))
  {
    var amp: string := "&";
    Utf8.EncodeConcat(e, amp);
    Utf8.EncodeConcat(e + amp, rest);
    assert Utf8.Encode(amp) == [Ampersand] by {
      assert amp[1..] == [];
    }
  }

  lemma {:induction false} SplitSerialized(pairs: seq<(string, string)>)
    requires pairs != []
    ensures SplitOn(Utf8.Encode(Serialize(pairs)), Ampersand) == PairsBytes(pairs)
  {
    PairBytesFacts(pairs[0]);
    var x := PairBytes(pairs[0]);
    if |pairs| == 1 {
      SplitWithoutSep(x, Ampersand, []);
      assert x + [] == x;
      assert PairsBytes(pairs[1..]) == [];
    } else {
      var y := Utf8.Encode(Serialize(pairs[1..]));
      SerializeBytes(pairs);
      SplitWithoutSep(x, Ampersand, [Ampersand] + y);
      assert ([Ampersand] + y)[1..] == y;
      SplitSerialized(pairs[1..]);
    }
  }

  lemma {:induction false} ParsePairsBytes(pairs: seq<(string, string)>)
    ensures ParseSegments(PairsBytes(pairs)) == Some(pairs)
  {
    if pairs != [] {
      PairBytesFacts(pairs[0]);
      ParsePairsBytes(pairs[1..]);
      assert PairsBytes(pairs)[1..] == PairsBytes(pairs[1..]);
      assert [pairs[0]] + pairs[1..] == pairs;
    }
  }

  /** Parsing the serializer's output gives back exactly the pairs it was given, in
      order: the name/value list survives the round trip for every input. */
  lemma ParseSerialize(pairs: seq<(string, string)>)
    ensures Parse(Serialize(pairs)) == Some(pairs)
  {
    if pairs == [] {
      assert Utf8.Encode("") == [];
      assert SplitOn([], Ampersand) == [[]];
      var none: seq<seq<Byte>> := [[]];
      assert none[1..] == [];
    } else {
      SplitSerialized(pairs);
      ParsePairsBytes(pairs);
    }
  }

  /** Hence serialization is injective: two pair lists with the same text are equal. */
  lemma SerializeInjective(p: seq<(string, string)>, q: seq<(string, string)>)
    requires Serialize(p) == Serialize(q)
    ensures p == q
  {
    ParseSerialize(p);
    ParseSerialize(q);
  }
}
