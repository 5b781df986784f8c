/** The text form of RLP items: hex, the JSON-like printer, the JSON reader, `from_rlp` and `to_rlp`. */
module RlpText {
  import opened Common
  import opened JsonValue
  import opened Radix
  import opened Rlp

  // ----- Hex -----

  function HexEncode(b: Bytes): string {
    if b == [] then [] else [DigitChar(b[0] / 16), DigitChar(b[0] % 16)] + HexEncode(b[1..])
  }

  function HexPairs(s: string): Result<Bytes> {
    if s == [] then Ok([])
    else if |s| == 1 || !IsDigit(s[0], 16) || !IsDigit(s[1], 16) then Err
    else
      var rest :- HexPairs(s[2..]);
      var b: Byte := DigitOf(s[0]).value * 16 + DigitOf(s[1]).value;
      Ok([b] + rest)
  }

  /** The `0x` prefix is optional. */
  function HexDecode(s: string): Result<Bytes> {
    if |s| >= 2 && s[0] == '0' && s[1] == 'x' then HexPairs(s[2..]) else HexPairs(s)
  }

  lemma {:induction false} HexRoundTrip(b: Bytes)
    ensures HexPairs(HexEncode(b)) == Ok(b)
  {
    if b != [] {
      HexRoundTrip(b[1..]);
      assert HexEncode(b)[2..] == HexEncode(b[1..]);
      assert b == [b[0]] + b[1..];
    }
  }

  lemma PrefixedHex(b: Bytes)
    ensures HexDecode("0x" + HexEncode(b)) == Ok(b)
  {
    HexRoundTrip(b);
    assert ("0x" + HexEncode(b))[2..] == HexEncode(b);
  }

  // ----- Printing -----

  function Print(item: Item): string
    decreases item, 1
  {
    match item
    case Data(d) => "\"0x" + HexEncode(d) + "\""
    case Array(items) => "[" + PrintAll(items) + "]"
  }

  function PrintAll(items: seq<Item>): string
    decreases items, 0
  {
    if items == [] then ""
    else if |items| == 1 then Print(items[0])
    else Print(items[0]) + "," + PrintAll(items[1..])
  }

  /** What is printed after `k` items have been written. */
  function PrintTail(items: seq<Item>): string {
    if items == [] then "" else "," + PrintAll(items)
  }

  lemma PrintAllTail(items: seq<Item>)
    requires items != []
    ensures PrintAll(items) == Print(items[0]) + PrintTail(items[1..])
  {
  }

  /** What has been written after the first `n` items. */
  function PrintFirst(items: seq<Item>, n: nat): string
    requires n <= |items|
  {
    if n == 0 then "" else PrintFirst(items, n - 1) + (if n > 1 then "," else "") + Print(items[n - 1])
  }

  lemma {:induction false} PrintFirstRest(items: seq<Item>, n: nat)
    requires n <= |items|
    ensures PrintFirst(items, n) + (if n == 0 then PrintAll(items) else PrintTail(items[n..])) == PrintAll(items)
  {
    if n > 0 {
      PrintFirstRest(items, n - 1);
      var sep := if n > 1 then "," else "";
      var left := PrintTail(items[n..]);
      assert n == 1 ==> items[n - 1..] == items;
      assert items[n - 1..][1..] == items[n..];
      PrintAllTail(items[n - 1..]);
      assert PrintFirst(items, n) + left == PrintFirst(items, n - 1) + (sep + (Print(items[n - 1]) + left));
    }
  }

  /** `Display`: writes to a growing string, with a comma before every element but the first. */
  method Display(item: Item) returns (f: string)
    ensures f == Print(item)
    decreases item
  {
    match item
    case Data(d) => f := "\"0x" + HexEncode(d) + "\"";
    case Array(items) =>
      f := "[";
      for i := 0 to |items|
        invariant f == "[" + PrintFirst(items, i)
      {
        if i > 0 {
          f := f + ",";
        }
        var s := Display(items[i]);
        f := f + s;
      }
      PrintFirstRest(items, |items|);
      assert PrintFirst(items, |items|) == PrintAll(items);
      f := f + "]";
  }

  // ----- Reading JSON -----

  /** `Unmodelled`: objects, escape sequences, and numbers that are not plain unsigned integers. */
  datatype Read<+T> = Value(value: T, rest: string) | Malformed | Unmodelled

  /** Nesting at which the reader gives up. */
  const RECURSION_LIMIT := 128

  function SkipSpace(s: string): (r: string)
    ensures |r| <= |s|
  {
    if s != [] && s[0] in {' ', '\n', '\t', '\r'} then SkipSpace(s[1..]) else s
  }

  /** The rest of a string literal after its opening quote. */
  function ReadString(s: string): (r: Read<string>)
    ensures r.Value? ==> |r.rest| < |s|
  {
    if s == [] || s[0] < ' ' then Malformed
    else if s[0] == '"' then Value("", s[1..])
    else if s[0] == '\\' then Unmodelled
    else
      match ReadString(s[1..])
      case Value(v, rest) => Value([s[0]] + v, rest)
      case Malformed => Malformed
      case Unmodelled => Unmodelled
  }

  function CountDigits(s: string): (n: nat)
    ensures n <= |s|
  {
    if s != [] && IsDigit(s[0], 10) then 1 + CountDigits(s[1..]) else 0
  }

  function ReadNumber(s: string): (r: Read<Json>)
    requires s != [] && IsDigit(s[0], 10)
    ensures r.Value? ==> |r.rest| < |s|
  {
    var n := CountDigits(s);
    if s[0] == '0' && n > 1 then Malformed
    else if n < |s| && s[n] in {'.', 'e', 'E'} then Unmodelled
    else Value(Number(s[..n]), s[n..])
  }

  function ReadWord(s: string, word: string, v: Json): (r: Read<Json>)
    requires word != []
    ensures r.Value? ==> |r.rest| < |s|
  {
    if word <= s then Value(v, s[|word|..]) else Malformed
  }

  function ReadValue(text: string, depth: nat): (r: Read<Json>)
    ensures r.Value? ==> |r.rest| < |text|
    decreases |text|, 0
  {
    var s := SkipSpace(text);
    if s == [] then Malformed
    else if s[0] == '"' then
      match ReadString(s[1..])
      case Value(v, rest) => Value(String(v), rest)
      case Malformed => Malformed
      case Unmodelled => Unmodelled
    else if s[0] == '[' then
      if depth <= 1 then Malformed
      else
        match ReadElements(s[1..], depth - 1, true)
        case Value(v, rest) => Value(List(v), rest)
        case Malformed => Malformed
        case Unmodelled => Unmodelled
    else if s[0] == 'n' then ReadWord(s, "null", Null)
    else if s[0] == 't' then ReadWord(s, "true", Bool(true))
    else if s[0] == 'f' then ReadWord(s, "false", Bool(false))
    else if IsDigit(s[0], 10) then ReadNumber(s)
    else if s[0] in {'-', '{'} then Unmodelled
    else Malformed
  }

  /** The rest of an array after its opening bracket, or after an element. */
  function ReadElements(text: string, depth: nat, first: bool): (r: Read<seq<Json>>)
    ensures r.Value? ==> |r.rest| < |text|
    decreases |text|, 1
  {
    var s := SkipSpace(text);
    if s == [] then Malformed
    else if s[0] == ']' then Value([], s[1..])
    else if !first && s[0] != ',' then Malformed
    else
      var e := if first then s else SkipSpace(s[1..]);
      if e == [] || e[0] == ']' then Malformed
      else
        match ReadValue(e, depth)
        case Malformed => Malformed
        case Unmodelled => Unmodelled
        case Value(v, rest) =>
          match ReadElements(rest, depth, false)
          case Malformed => Malformed
          case Unmodelled => Unmodelled
          case Value(vs, rest') => Value([v] + vs, rest')
  }

  /** `serde_json::from_str`: one value with nothing but white space after it. */
  function FromStr(text: string): Read<Json> {
    match ReadValue(text, RECURSION_LIMIT)
    case Value(v, rest) => if SkipSpace(rest) == [] then Value(v, "") else Malformed
    case Malformed => Malformed
    case Unmodelled => Unmodelled
  }

  // ----- `value_to_item`, `from_rlp`, `to_rlp` -----

  function ValueToItem(v: Json): Result<Item>
    decreases v, 1
  {
    match v
    case Null => Ok(Data([]))
    case Bool(_) => Err
    case Number(text) => var n :- FromStrRadix(text, 10); Ok(Data(ToBE(n)))
    case String(s) => var b :- HexDecode(s); Ok(Data(b))
    case List(vs) => var items :- ValuesToItems(vs); Ok(Array(items))
    case Object(_) => Err
  }

  function ValuesToItems(vs: seq<Json>): Result<seq<Item>>
    decreases vs, 0
  {
    if vs == [] then Ok([])
    else
      var i :- ValueToItem(vs[0]);
      var rest :- ValuesToItems(vs[1..]);
      Ok([i] + rest)
  }

  function FromRlp(value: string): Result<string> {
    var bytes :- HexDecode(value);
    var d :- Decode(bytes);
    Ok(Print(d.item))
  }

  datatype TextOutcome = Text(text: string) | Error | NotModelled

  /** Text that is not JSON is taken as one hex string. */
  function ToRlp(value: string): TextOutcome {
    var v := FromStr(value);
    if v.Unmodelled? then NotModelled
    else
      match ValueToItem(if v.Value? then v.value else String(value))
      case Ok(item) => Text("0x" + HexEncode(Encode(item)))
      case Err => Error
  }

  // ----- The reader undoes the printer, down to its nesting limit -----

  function Nesting(item: Item): nat
    decreases item, 1
  {
    match item
    case Data(_) => 0
    case Array(items) => 1 + NestingAll(items)
  }

  function NestingAll(items: seq<Item>): nat
    decreases items, 0
  {
    if items == [] then 0
    else if Nesting(items[0]) >= NestingAll(items[1..]) then Nesting(items[0]) else NestingAll(items[1..])
  }

  function ToJson(item: Item): Json
    decreases item, 1
  {
    match item
    case Data(d) => String("0x" + HexEncode(d))
    case Array(items) => List(ToJsons(items))
  }

  function ToJsons(items: seq<Item>): seq<Json>
    decreases items, 0
  {
    if items == [] then [] else [ToJson(items[0])] + ToJsons(items[1..])
  }

  lemma {:induction false} ReadPlain(s: string, rest: string)
    requires forall i :: 0 <= i < |s| ==> s[i] >= ' ' && s[i] != '"' && s[i] != '\\'
    ensures ReadString(s + "\"" + rest) == Value(s, rest)
  {
    var t := s + "\"" + rest;
    if s == [] {
      assert t[1..] == rest;
    } else {
      ReadPlain(s[1..], rest);
      assert t[1..] == s[1..] + "\"" + rest;
      assert s == [s[0]] + s[1..];
    }
  }

  lemma {:induction false} HexIsPlain(b: Bytes)
    ensures forall i :: 0 <= i < |HexEncode(b)| ==>
              var c := HexEncode(b)[i]; c >= ' ' && c != '"' && c != '\\'
  {
    if b != [] {
      HexIsPlain(b[1..]);
    }
  }

  lemma ReadData(d: Bytes, rest: string, depth: nat)
    ensures ReadValue(Print(Data(d)) + rest, depth) == Value(ToJson(Data(d)), rest)
  {
    var body := "0x" + HexEncode(d);
    HexIsPlain(d);
    ReadPlain(body, rest);
    var t := Print(Data(d)) + rest;
    assert t == ['"'] + (body + "\"" + rest);
    assert SkipSpace(t) == t && t[1..] == body + "\"" + rest;
  }

  lemma PrintStart(item: Item)
    ensures Print(item) != [] && Print(item)[0] in {'"', '['}
  {
  }

  /** A printed item is read back if its nesting is below the depth left, and is an error otherwise. */
  lemma {:induction false} ReadPrinted(item: Item, rest: string, depth: nat)
    requires depth > 0
    ensures ReadValue(Print(item) + rest, depth)
         == if Nesting(item) < depth then Value(ToJson(item), rest) else Malformed
    decreases item, 1
  {
    match item
    case Data(d) => ReadData(d, rest, depth);
    case Array(items) =>
      var t := Print(item) + rest;
      assert t == ['['] + (PrintAll(items) + "]" + rest);
      assert SkipSpace(t) == t && t[1..] == PrintAll(items) + "]" + rest;
      if depth > 1 {
        ReadFirst(items, rest, depth - 1);
      }
  }

  lemma {:induction false} ReadFirst(items: seq<Item>, rest: string, depth: nat)
    requires depth > 0
    ensures ReadElements(PrintAll(items) + "]" + rest, depth, true)
         == if NestingAll(items) < depth then Value(ToJsons(items), rest) else Malformed
    decreases items, 0
  {
    var t := PrintAll(items) + "]" + rest;
    if items == [] {
      assert t == [']'] + rest;
      assert SkipSpace(t) == t && t[1..] == rest;
    } else {
      PrintAllTail(items);
      PrintStart(items[0]);
      assert SkipSpace(t) == t;
      assert t == Print(items[0]) + (PrintTail(items[1..]) + "]" + rest);
      ReadPrinted(items[0], PrintTail(items[1..]) + "]" + rest, depth);
      ReadTail(items[1..], rest, depth);
    }
  }

  lemma {:induction false} ReadTail(items: seq<Item>, rest: string, depth: nat)
    requires depth > 0
    ensures ReadElements(PrintTail(items) + "]" + rest, depth, false)
         == if NestingAll(items) < depth then Value(ToJsons(items), rest) else Malformed
    decreases items, 0
  {
    var t := PrintTail(items) + "]" + rest;
    if items == [] {
      assert t == [']'] + rest;
      assert SkipSpace(t) == t && t[1..] == rest;
    } else {
      PrintAllTail(items);
      PrintStart(items[0]);
      var e := Print(items[0]) + (PrintTail(items[1..]) + "]" + rest);
      assert t == [','] + e;
      assert SkipSpace(t) == t && t[1..] == e && SkipSpace(e) == e;
      ReadPrinted(items[0], PrintTail(items[1..]) + "]" + rest, depth);
      ReadTail(items[1..], rest, depth);
    }
  }

  lemma {:induction false} ItemOfJson(item: Item)
    ensures ValueToItem(ToJson(item)) == Ok(item)
    decreases item, 1
  {
    match item
    case Data(d) => PrefixedHex(d);
    case Array(items) => ItemsOfJsons(items);
  }

  lemma {:induction false} ItemsOfJsons(items: seq<Item>)
    ensures ValuesToItems(ToJsons(items)) == Ok(items)
    decreases items, 0
  {
    if items != [] {
      ItemOfJson(items[0]);
      ItemsOfJsons(items[1..]);
      assert ToJsons(items)[1..] == ToJsons(items[1..]);
      assert items == [items[0]] + items[1..];
    }
  }

  /** Printing and reading an item gives its encoding if and only if the nesting stays below the limit. */
  lemma {:induction false} PrintedItemEncodes(item: Item)
    ensures ToRlp(Print(item))
         == if Nesting(item) < RECURSION_LIMIT then Text("0x" + HexEncode(Encode(item))) else Error
  {
    var t := Print(item);
    assert t + "" == t;
    ReadPrinted(item, "", RECURSION_LIMIT);
    if Nesting(item) < RECURSION_LIMIT {
      ItemOfJson(item);
    } else {
      assert t[0] == '[';
      assert HexDecode(t) == Err;
    }
  }

  /**
   For every hex text `from_rlp` accepts, `to_rlp` of what it prints is the hex of exactly the
   bytes it consumed, if and only if arrays nest less than 128 deep; otherwise it is an error.
   */
  lemma {:induction false} TextRoundTrip(value: string)
    requires FromRlp(value).Ok?
    ensures var bytes := HexDecode(value).value;
            var d := Decode(bytes).value;
            ToRlp(FromRlp(value).value)
            == if Nesting(d.item) < RECURSION_LIMIT
               then Text("0x" + HexEncode(bytes[..|bytes| - |d.rest|]))
               else Error
  {
    var bytes := HexDecode(value).value;
    var d := Decode(bytes).value;
    Canonical(bytes);
    assert bytes[..|bytes| - |d.rest|] == Encode(d.item);
    PrintedItemEncodes(d.item);
  }

  function Nested(n: nat): Item {
    if n == 0 then Array([]) else Array([Nested(n - 1)])
  }

  lemma {:induction false} NestedNesting(n: nat)
    ensures Nesting(Nested(n)) == n + 1
  {
    if n > 0 {
      NestedNesting(n - 1);
      var one := [Nested(n - 1)];
      assert NestingAll(one[1..]) == 0;
      assert NestingAll(one) == Nesting(one[0]);
    }
  }

  /** 128 nested empty arrays print to text that does not read back. */
  lemma {:induction false} DeepNestingFails()
    ensures ToRlp(Print(Nested(127))) == Error
  {
    NestedNesting(127);
    PrintedItemEncodes(Nested(127));
  }
}
