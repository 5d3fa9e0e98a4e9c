/**
 * The query-string serializer of packages/core/src/params.ts: a parameter
 * mapping and an array-format policy become an ordered list of name/value
 * pairs, which `URLSearchParams.toString()` then writes out.
 */
module Params {
  import opened Outcomes
  import opened Values
  import FormUrlEncoded
  import Utf8
  import Seqs

  datatype ArrayFormat = Brackets | Repeat | Comma

  datatype ParamsSerializerConfig = ParamsSerializerConfig(arrayFormat: Option<ArrayFormat>)

  /** The entries of the parameter object, in `Object.entries` order. */
  type Entries = seq<(string, Data)>

  type Pairs = seq<(string, string)>

  /** `config?.arrayFormat || 'brackets'`. */
  function EffectiveFormat(config: Option<ParamsSerializerConfig>): ArrayFormat
  {
    match config
    case Some(ParamsSerializerConfig(Some(f))) => f
    case _ => Brackets
  }

  /** One pair per array element, all with the same name, in element order. */
  function ItemPairs(name: string, items: seq<Data>): (r: Pairs)
  {
    seq(|items|, i requires 0 <= i < |items| => (name, ToString(items[i])))
  }

  /** The pairs one entry contributes. */
  function EntryPairs(key: string, value: Data, format: ArrayFormat): Pairs
  {
    if IsNullish(value) then []
    else if value.Arr? then
      match format
      case Comma => [(key, Join(value.items))]
      case Brackets => ItemPairs(key + "[]", value.items)
      case Repeat => ItemPairs(key, value.items)
    else [(key, ToString(value))]
  }

  /** The pairs of all entries, entry after entry. */
  function PairsOf(entries: Entries, format: ArrayFormat): Pairs
  {
    if entries == [] then []
    else PairsOf(entries[..|entries| - 1], format) + EntryPairs(entries[|entries| - 1].0, entries[|entries| - 1].1, format)
  }

  /** The query string `serializeParams` returns. */
  function QueryString(params: Entries, config: Option<ParamsSerializerConfig>): string
  {
    FormUrlEncoded.Serialize(PairsOf(params, EffectiveFormat(config)))
  }

  /** The loop of `serializeParams`, appending to the pair list as `searchParams.append` does. */
  method SerializePairs(params: Entries, config: Option<ParamsSerializerConfig>) returns (pairs: Pairs)
    ensures pairs == PairsOf(params, EffectiveFormat(config))
  {
    var arrayFormat := EffectiveFormat(config);
    pairs := [];
    for i := 0 to |params|
      invariant pairs == PairsOf(params[..i], arrayFormat)
    {
      var (key, value) := params[i];
      assert params[..i + 1][..i] == params[..i];
      pairs := AppendEntry(pairs, key, value, arrayFormat);
    }
    assert params[..|params|] == params;
  }

  /** The body of the `Object.entries(params).forEach` callback for one entry. */
  method AppendEntry(before: Pairs, key: string, value: Data, arrayFormat: ArrayFormat) returns (pairs: Pairs)
    ensures pairs == before + EntryPairs(key, value, arrayFormat)
  {
    pairs := before;
    if IsNullish(value) {
      assert EntryPairs(key, value, arrayFormat) == [];
      return;
    }
    if value.Arr? {
      if arrayFormat == Comma {
        pairs := pairs + [(key, Join(value.items))];
      } else {
        var items := value.items;
        for j := 0 to |items|
          invariant arrayFormat == Brackets ==> pairs == before + ItemPairs(key + "[]", items[..j])
          invariant arrayFormat == Repeat ==> pairs == before + ItemPairs(key, items[..j])
        {
          if arrayFormat == Brackets {
            pairs := pairs + [(key + "[]", ToString(items[j]))];
          } else if arrayFormat == Repeat {
            pairs := pairs + [(key, ToString(items[j]))];
          }
        }
        assert items[..|items|] == items;
      }
    } else {
      pairs := pairs + [(key, ToString(value))];
    }
  }

  /** `serializeParams`: the pairs, form-urlencoded. */
  method SerializeParams(params: Entries, config: Option<ParamsSerializerConfig>) returns (query: string)
    ensures query == QueryString(params, config)
  {
    var pairs := SerializePairs(params, config);
    query := FormUrlEncoded.Serialize(pairs);
  }

  // ---------------------------------------------------------------- properties

  /** Without a configured array format, arrays are written in brackets style. */
  lemma DefaultIsBrackets()
    ensures EffectiveFormat(None) == Brackets
    ensures EffectiveFormat(Some(ParamsSerializerConfig(None))) == Brackets
  {
  }

  /** Pairs come out in entry order: the pairs of a concatenation are the concatenated pairs. */
  lemma PairsOfConcat(a: Entries, b: Entries, format: ArrayFormat)
    ensures PairsOf(a + b, format) == PairsOf(a, format) + PairsOf(b, format)
  {
    var f := EntryFn(format);
    PairsOfFlatMap(a + b, format);
    PairsOfFlatMap(a, format);
    PairsOfFlatMap(b, format);
    Seqs.FlatMapConcat(a, b, f);
  }

  /** `EntryPairs` as a function of the entry. */
  function EntryFn(format: ArrayFormat): ((string, Data)) -> Pairs
  {
    (e: (string, Data)) => EntryPairs(e.0, e.1, format)
  }

  lemma {:induction false} PairsOfFlatMap(s: Entries, format: ArrayFormat)
    ensures PairsOf(s, format) == Seqs.FlatMap(s, EntryFn(format))
    decreases |s|
  {
    if s != [] {
      PairsOfFlatMap(s[..|s| - 1], format);
    }
  }

  /** A key whose value is `undefined` or `null` contributes nothing, wherever it stands. */
  lemma NullishEntrySkipped(a: Entries, key: string, value: Data, b: Entries, format: ArrayFormat)
    requires IsNullish(value)
    ensures PairsOf(a + [(key, value)] + b, format) == PairsOf(a + b, format)
  {
    calc {
      PairsOf(a + [(key, value)] + b, format);
      { PairsOfConcat(a + [(key, value)], b, format); }
      PairsOf(a + [(key, value)], format) + PairsOf(b, format);
      { PairsOfConcat(a, [(key, value)], format); PairsOfSingle(key, value, format); }
      PairsOf(a, format) + PairsOf(b, format);
      { PairsOfConcat(a, b, format); }
      PairsOf(a + b, format);
    }
  }

  lemma PairsOfSingle(key: string, value: Data, format: ArrayFormat)
    ensures PairsOf([(key, value)], format) == EntryPairs(key, value, format)
  {
    assert [(key, value)][..0] == [];
  }

  /** `entry` is written, and a pair written for it may carry `name`. */
  predicate NamedBy(entry: (string, Data), format: ArrayFormat, name: string)
  {
    !IsNullish(entry.1) &&
    (name == entry.0 || (format == Brackets && entry.1.Arr? && name == entry.0 + "[]"))
  }

  /** Every pair comes from an entry whose value is neither `undefined` nor `null`, and is
      named by its key, or, for an array in brackets format, by the key and `[]`. */
  lemma {:induction false} PairsProvenance(entries: Entries, format: ArrayFormat, p: (string, string))
    requires p in PairsOf(entries, format)
    ensures exists i :: 0 <= i < |entries| && NamedBy(entries[i], format, p.0)
  {
    var n := |entries| - 1;
    var init := entries[..n];
    if p in PairsOf(init, format) {
      PairsProvenance(init, format, p);
      var i :| 0 <= i < |init| && NamedBy(init[i], format, p.0);
      assert entries[i] == init[i];
    } else {
      var (key, value) := entries[n];
      assert p in EntryPairs(key, value, format);
      assert !IsNullish(entries[n].1);
    }
  }

  /** `comma` writes one pair per array, its elements joined by `,`; an empty array still
      writes `key=`. */
  lemma CommaEmptyArray(key: string)
    ensures PairsOf([(key, Arr([]))], Comma) == [(key, "")]
    ensures QueryString([(key, Arr([]))], Some(ParamsSerializerConfig(Some(Comma)))) == FormUrlEncoded.EncodeComponent(key) + "="
  {
    assert PairsOf([(key, Arr([]))], Comma) == PairsOf([], Comma) + [(key, "")];
    assert FormUrlEncoded.EncodeComponent("") == "" by {
      assert Utf8.Encode("") == [];
    }
  }

  /** `brackets` and `repeat` write one pair per element, in element order, and nothing for
      an empty array; `comma` writes exactly one pair. */
  lemma ArrayFormats(key: string, items: seq<Data>)
    ensures |EntryPairs(key, Arr(items), Brackets)| == |items| == |EntryPairs(key, Arr(items), Repeat)|
    ensures forall i :: 0 <= i < |items| ==>
      EntryPairs(key, Arr(items), Brackets)[i] == (key + "[]", ToString(items[i])) &&
      EntryPairs(key, Arr(items), Repeat)[i] == (key, ToString(items[i]))
    ensures EntryPairs(key, Arr(items), Comma) == [(key, ToString(Arr(items)))]
  {
  }

  /** A non-array value writes exactly one pair `key=String(value)`, in every format. */
  lemma ScalarOnePair(key: string, value: Data, f: ArrayFormat, g: ArrayFormat)
    requires !IsNullish(value) && !value.Arr?
    ensures EntryPairs(key, value, f) == EntryPairs(key, value, g) == [(key, ToString(value))]
  {
  }

  lemma SerializeEmptyIff(pairs: Pairs)
    ensures FormUrlEncoded.Serialize(pairs) == "" <==> pairs == []
  {
    if pairs != [] {
      var e := FormUrlEncoded.EncodePair(pairs[0]);
      assert e[|FormUrlEncoded.EncodeComponent(pairs[0].0)|] == '=';
      if |pairs| > 1 {
        assert FormUrlEncoded.Serialize(pairs) == e + "&" + FormUrlEncoded.Serialize(pairs[1..]);
      }
    }
  }

  /** The query string is empty exactly when no pair is written; an empty mapping writes "". */
  lemma QueryStringEmptyIff(params: Entries, config: Option<ParamsSerializerConfig>)
    ensures QueryString(params, config) == "" <==> PairsOf(params, EffectiveFormat(config)) == []
    ensures params == [] ==> QueryString(params, config) == ""
  {
    SerializeEmptyIff(PairsOf(params, EffectiveFormat(config)));
  }

  /** Reading the query string back as `URLSearchParams` gives exactly the pair list. */
  lemma QueryStringRoundTrip(params: Entries, config: Option<ParamsSerializerConfig>)
    ensures FormUrlEncoded.Parse(QueryString(params, config)) == Some(PairsOf(params, EffectiveFormat(config)))
  {
    FormUrlEncoded.ParseSerialize(PairsOf(params, EffectiveFormat(config)));
  }
}
