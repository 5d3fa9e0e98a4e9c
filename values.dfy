/**
 * JavaScript values as the client sees them: request bodies, response data,
 * query parameter values. Numbers are integers below 2^53 in magnitude: each of
 * them is exactly a double, and `String(n)` writes its exact decimal digits.
 */
module Values {
  import opened Outcomes
  import FormUrlEncoded

  const NumberBound: int := 0x20_0000_0000_0000

  type Integral = n: int | -NumberBound < n < NumberBound

  datatype Data =
    | Undefined
    | Null
    | Bool(b: bool)
    | Num(n: Integral)
    | Str(s: string)
    | Arr(items: seq<Data>)
    | Obj(entries: seq<(string, Data)>)
      // Platform objects that bodies may be; only their identity matters, except
      // that a URLSearchParams instance carries its name/value list.
    | FormData(formId: nat)
    | SearchParams(pairs: seq<(string, string)>)
    | Blob(blobId: nat)
    | ArrayBuffer(bufferId: nat)

  /** JavaScript truthiness (ToBoolean): every object is truthy, even an empty array. */
  predicate Truthy(d: Data)
  {
    match d
    case Undefined => false
    case Null => false
    case Bool(b) => b
    case Num(n) => n != 0
    case Str(s) => s != ""
    case _ => true
  }

  predicate IsNullish(d: Data) { d.Undefined? || d.Null? }

  /** `FormData`, `URLSearchParams`, `Blob` and `ArrayBuffer` bodies go to the transport unchanged. */
  predicate IsBinary(d: Data)
  {
    d.FormData? || d.SearchParams? || d.Blob? || d.ArrayBuffer?
  }

  function DigitChar(d: int): char
    requires 0 <= d < 10
  {
    (0x30 + d) as char
  }

  predicate AllDigits(s: string)
  {
    forall i :: 0 <= i < |s| ==> '0' <= s[i] <= '9'
  }

  /** The decimal digits of a natural number, most significant first, without leading zeros. */
  function Digits(n: nat): (s: string)
    ensures |s| >= 1 && AllDigits(s)
    ensures n >= 10 ==> s[0] != '0'
    decreases n
  {
    if n < 10 then [DigitChar(n)] else Digits(n / 10) + [DigitChar(n % 10)]
  }

  /** `String(n)` for an integral number. */
  function NumberToString(n: Integral): string
  {
    if n < 0 then "-" + Digits(-n) else Digits(n)
  }

  /** `String(d)`; arrays are written by `Array.prototype.join(",")`. */
  function ToString(d: Data): string
    decreases d, 1
  {
    match d
    case Undefined => "undefined"
    case Null => "null"
    case Bool(b) => if b then "true" else "false"
    case Num(n) => NumberToString(n)
    case Str(s) => s
    case Arr(items) => Join(items)
    case Obj(_) => "[object Object]"
    case FormData(_) => "[object FormData]"
    case SearchParams(pairs) => FormUrlEncoded.Serialize(pairs)
    case Blob(_) => "[object Blob]"
    case ArrayBuffer(_) => "[object ArrayBuffer]"
  }

  /** `items.join(",")`: `null` and `undefined` elements are written as empty strings. */
  function Join(items: seq<Data>): string
    decreases items, 0
  {
    if items == [] then ""
    else
      var first := if IsNullish(items[0]) then "" else ToString(items[0]);
      if |items| == 1 then first else first + "," + Join(items[1..])
  }

  // ------------------------------------------------ reading numbers back

  function DigitsValue(s: string): int
    requires AllDigits(s)
  {
    if s == [] then 0 else DigitsValue(s[..|s| - 1]) * 10 + (s[|s| - 1] as int - 0x30)
  }

  /** Reads a decimal integer, an optional `-` followed by at least one digit. */
  function ParseInteger(s: string): Option<int>
  {
    if |s| >= 2 && s[0] == '-' && AllDigits(s[1..]) then Some(-DigitsValue(s[1..]))
    else if |s| >= 1 && AllDigits(s) then Some(DigitsValue(s))
    else None
  }

  lemma {:induction false} DigitsRoundTrip(n: nat)
    ensures DigitsValue(Digits(n)) == n
    decreases n
  {
    if n >= 10 {
      var s := Digits(n);
      DigitsRoundTrip(n / 10);
      assert s[..|s| - 1] == Digits(n / 10);
    }
  }

  /** `String(n)` is lossless on integral numbers: reading it back gives `n`. */
  lemma NumberToStringRoundTrip(n: Integral)
    ensures ParseInteger(NumberToString(n)) == Some(n)
  {
    var s := NumberToString(n);
    if n < 0 {
      assert s[1..] == Digits(-n);
      DigitsRoundTrip(-n);
    } else {
      assert s == Digits(n);
      DigitsRoundTrip(n);
    }
  }
}
