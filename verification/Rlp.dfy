/** RLP items, their encoding and the buffer-advancing decoder (Appendix B of the Ethereum Yellow Paper). */
module Rlp {
  import opened Common

  type Bytes = seq<Byte>

  datatype Item = Data(data: Bytes) | Array(items: seq<Item>)

  // ----- Big-endian lengths, without leading zeros -----

  function ToBE(n: nat): Bytes {
    if n == 0 then [] else ToBE(n / 256) + [n % 256]
  }

  function FromBE(b: Bytes): nat {
    if b == [] then 0 else FromBE(b[..|b| - 1]) * 256 + b[|b| - 1]
  }

  lemma {:induction false} FromToBE(n: nat)
    ensures FromBE(ToBE(n)) == n
    ensures n > 0 ==> ToBE(n) != [] && ToBE(n)[0] != 0
  {
    if n > 0 {
      FromToBE(n / 256);
      assert ToBE(n)[..|ToBE(n)| - 1] == ToBE(n / 256);
    }
  }

  lemma {:induction false} ToFromBE(b: Bytes)
    requires b != [] ==> b[0] != 0
    ensures ToBE(FromBE(b)) == b
    ensures b != [] ==> FromBE(b) > 0
  {
    if b != [] {
      var n := |b| - 1;
      ToFromBE(b[..n]);
      assert FromBE(b) / 256 == FromBE(b[..n]) && FromBE(b) % 256 == b[n];
      assert b == b[..n] + [b[n]];
    }
  }

  function Pow256(k: nat): (r: nat)
    ensures r > 0
  {
    if k == 0 then 1 else 256 * Pow256(k - 1)
  }

  lemma {:induction false} BEBound(b: Bytes)
    ensures FromBE(b) < Pow256(|b|)
  {
    if b != [] {
      BEBound(b[..|b| - 1]);
    }
  }

  lemma {:induction false} BELength(n: nat, k: nat)
    requires n < Pow256(k)
    ensures |ToBE(n)| <= k
  {
    if n > 0 {
      BELength(n / 256, k - 1);
    }
  }

  lemma {:induction false} Pow256Monotone(j: nat, k: nat)
    requires j <= k
    ensures Pow256(j) <= Pow256(k)
  {
    if j < k {
      Pow256Monotone(j, k - 1);
    }
  }

  lemma EightBytes()
    ensures Pow256(8) == U64_LIMIT
  {
    assert Pow256(2) == 0x1_0000;
    assert Pow256(4) == 256 * (256 * Pow256(2));
    assert Pow256(6) == 256 * (256 * Pow256(4));
    assert Pow256(8) == 256 * (256 * Pow256(6));
  }

  // ----- Encoding -----

  function Header(list: bool, len: nat): (r: Bytes)
    ensures r != []
  {
    var code := if list then 0xC0 else 0x80;
    if len < 56 then [code + len]
    else [(code + 55 + |ToBE(len)|) % 256] + ToBE(len)
  }

  function Encode(item: Item): Bytes
    decreases item, 1
  {
    match item
    case Data(d) => if |d| == 1 && d[0] < 0x80 then d else Header(false, |d|) + d
    case Array(items) => Header(true, |EncodeAll(items)|) + EncodeAll(items)
  }

  function EncodeAll(items: seq<Item>): Bytes
    decreases items, 0
  {
    if items == [] then [] else Encode(items[0]) + EncodeAll(items[1..])
  }

  /** Every payload length fits its 64-bit length field. */
  predicate Fits(item: Item)
    decreases item, 1
  {
    match item
    case Data(d) => |d| < U64_LIMIT
    case Array(items) => |EncodeAll(items)| < U64_LIMIT && FitsAll(items)
  }

  predicate FitsAll(items: seq<Item>)
    decreases items, 0
  {
    items == [] || (Fits(items[0]) && FitsAll(items[1..]))
  }

  // ----- Decoding -----

  datatype HeaderInfo = HeaderInfo(list: bool, len: nat, rest: Bytes)
  datatype Decoded = Decoded(item: Item, rest: Bytes)

  /** Non-canonical headers are errors. */
  function DecodeHeader(buf: Bytes): (r: Result<HeaderInfo>)
    ensures r.Ok? ==>
              && |r.value.rest| <= |buf|
              && (r.value.list || r.value.len == 0 ==> |r.value.rest| < |buf|)
  {
    if buf == [] then Err
    else
      var b, rest := buf[0], buf[1..];
      if b < 0x80 then Ok(HeaderInfo(false, 1, buf))
      else if b < 0xB8 then
        var len := b - 0x80;
        if len == 1 && (rest == [] || rest[0] < 0x80) then Err else Ok(HeaderInfo(false, len, rest))
      else if b < 0xC0 || b >= 0xF8 then
        var list := b >= 0xF8;
        var n := b - (if list then 0xF7 else 0xB7);
        if |rest| < n || rest[0] == 0 then Err
        else
          var len := FromBE(rest[..n]);
          if len < 56 then Err else Ok(HeaderInfo(list, len, rest[n..]))
      else Ok(HeaderInfo(true, b - 0xC0, rest))
  }

  /** Every item consumes at least one byte. */
  function Decode(buf: Bytes): (r: Result<Decoded>)
    ensures r.Ok? ==> |r.value.rest| < |buf|
    decreases |buf|, 0
  {
    var h :- DecodeHeader(buf);
    if |h.rest| < h.len then Err
    else if h.list then
      var items :- DecodeAll(h.rest[..h.len]);
      Ok(Decoded(Array(items), h.rest[h.len..]))
    else Ok(Decoded(Data(h.rest[..h.len]), h.rest[h.len..]))
  }

  function DecodeAll(view: Bytes): Result<seq<Item>>
    decreases |view|, 1
  {
    if view == [] then Ok([])
    else
      var d :- Decode(view);
      var items :- DecodeAll(d.rest);
      Ok([d.item] + items)
  }

  /** The decoder as it runs: a buffer that is advanced and a list filled in a loop. */
  method DecodeItem(buf: Bytes) returns (r: Result<Item>, rest: Bytes)
    ensures r.Ok? == Decode(buf).Ok?
    ensures r.Ok? ==> Decoded(r.value, rest) == Decode(buf).value
    decreases |buf|
  {
    rest := buf;
    var h := DecodeHeader(buf);
    if h.Err? {
      return Err, rest;
    }
    rest := h.value.rest;
    if |rest| < h.value.len {
      return Err, rest;
    }
    var view := rest[..h.value.len];
    if h.value.list {
      ghost var payload := view;
      var v: seq<Item> := [];
      while view != []
        invariant |view| <= |payload|
        invariant DecodeAll(payload).Ok? <==> DecodeAll(view).Ok?
        invariant DecodeAll(view).Ok? ==> DecodeAll(payload).value == v + DecodeAll(view).value
        decreases |view|
      {
        var item, after := DecodeItem(view);
        if item.Err? {
          return Err, rest;
        }
        v := v + [item.value];
        view := after;
      }
      rest := rest[h.value.len..];
      assert v + [] == v;
      return Ok(Array(v)), rest;
    } else {
      rest := rest[h.value.len..];
      return Ok(Data(view)), rest;
    }
  }

  // ----- Headers -----

  lemma LengthBound(be: Bytes)
    requires |be| <= 8
    ensures FromBE(be) < U64_LIMIT
  {
    BEBound(be);
    Pow256Monotone(|be|, 8);
    EightBytes();
  }

  lemma LongHeader(list: bool, len: nat, be: Bytes)
    requires len >= 56 && ToBE(len) == be && |be| <= 8
    ensures Header(list, len) == [(if list then 0xF7 else 0xB7) + |be|] + be
  {
  }

  lemma ReadLongHeader(buf: Bytes, list: bool, len: nat, n: nat)
    requires 0 < n <= 8 && n < |buf| && buf[0] == (if list then 0xF7 else 0xB7) + n && buf[1] != 0
    requires FromBE(buf[1..][..n]) == len && len >= 56
    ensures DecodeHeader(buf) == Ok(HeaderInfo(list, len, buf[1..][n..]))
  {
  }

  lemma LengthBytes(len: nat)
    requires 0 < len < U64_LIMIT
    ensures 0 < |ToBE(len)| <= 8 && ToBE(len)[0] != 0 && FromBE(ToBE(len)) == len
  {
    EightBytes();
    BELength(len, 8);
    FromToBE(len);
  }

  lemma LongHeaderReads(head: Bytes, list: bool, len: nat, be: Bytes, rest: Bytes)
    requires 0 < |be| <= 8 && be[0] != 0 && FromBE(be) == len && len >= 56
    requires head == [(if list then 0xF7 else 0xB7) + |be|] + be
    ensures DecodeHeader(head + rest) == Ok(HeaderInfo(list, len, rest))
  {
    var buf := head + rest;
    assert buf[1..][..|be|] == be && buf[1..][|be|..] == rest;
    ReadLongHeader(buf, list, len, |be|);
  }

  lemma HeaderRoundTrip(list: bool, len: nat, rest: Bytes)
    requires len < U64_LIMIT
    requires !list && len == 1 ==> rest != [] && rest[0] >= 0x80
    ensures DecodeHeader(Header(list, len) + rest) == Ok(HeaderInfo(list, len, rest))
  {
    if len < 56 {
      assert (Header(list, len) + rest)[1..] == rest;
    } else {
      LengthBytes(len);
      LongHeader(list, len, ToBE(len));
      LongHeaderReads(Header(list, len), list, len, ToBE(len), rest);
    }
  }

  /** What the encoder must have written for the decoder to read `h`. */
  predicate WrittenAs(buf: Bytes, h: HeaderInfo) {
    && buf == Header(h.list, h.len) + h.rest
    && h.len < U64_LIMIT
    && (!h.list && h.len == 1 ==> h.rest != [] && h.rest[0] >= 0x80)
  }

  /** What the decoder has checked when it accepts a long header. */
  lemma LongHeaderRead(buf: Bytes) returns (n: nat)
    requires DecodeHeader(buf).Ok? && 0xB8 <= buf[0] && (buf[0] < 0xC0 || buf[0] >= 0xF8)
    ensures var h := DecodeHeader(buf).value;
            && 0 < n <= 8 && n < |buf|
            && buf[0] == (if h.list then 0xF7 else 0xB7) + n
            && buf[1] != 0
            && h.len == FromBE(buf[1..][..n]) >= 56
            && h.rest == buf[1..][n..]
  {
    n := buf[0] - (if DecodeHeader(buf).value.list then 0xF7 else 0xB7);
  }

  lemma LongHeaderCanonical(buf: Bytes)
    requires DecodeHeader(buf).Ok? && 0xB8 <= buf[0] && (buf[0] < 0xC0 || buf[0] >= 0xF8)
    ensures WrittenAs(buf, DecodeHeader(buf).value)
  {
    var h := DecodeHeader(buf).value;
    var n := LongHeaderRead(buf);
    var be := buf[1..][..n];
    ToFromBE(be);
    LengthBound(be);
    LongHeader(h.list, h.len, be);
    assert buf == [buf[0]] + (be + h.rest);
    Assoc([buf[0]], be, h.rest);
  }

  /** The single-byte form, or exactly the header the encoder writes. */
  lemma HeaderCanonical(buf: Bytes)
    requires DecodeHeader(buf).Ok?
    ensures var h := DecodeHeader(buf).value;
            (buf[0] < 0x80 && h == HeaderInfo(false, 1, buf)) || WrittenAs(buf, h)
  {
    if 0xB8 <= buf[0] && (buf[0] < 0xC0 || buf[0] >= 0xF8) {
      LongHeaderCanonical(buf);
    } else {
      assert buf == [buf[0]] + buf[1..];
    }
  }

  // ----- Round trip -----

  /** Decoding an encoding, whatever follows it, returns the item and leaves exactly what follows. */
  lemma {:induction false} RoundTrip(item: Item, rest: Bytes)
    requires Fits(item)
    ensures Decode(Encode(item) + rest) == Ok(Decoded(item, rest))
    decreases item, 1
  {
    match item
    case Data(d) =>
      var buf := Encode(item) + rest;
      if |d| == 1 && d[0] < 0x80 {
        assert buf[..1] == d && buf[1..] == rest;
      } else {
        assert buf == Header(false, |d|) + (d + rest);
        HeaderRoundTrip(false, |d|, d + rest);
        assert (d + rest)[..|d|] == d && (d + rest)[|d|..] == rest;
      }
    case Array(items) =>
      var p := EncodeAll(items);
      assert Encode(item) + rest == Header(true, |p|) + (p + rest);
      HeaderRoundTrip(true, |p|, p + rest);
      assert (p + rest)[..|p|] == p && (p + rest)[|p|..] == rest;
      RoundTripAll(items);
  }

  lemma {:induction false} RoundTripAll(items: seq<Item>)
    requires FitsAll(items)
    ensures DecodeAll(EncodeAll(items)) == Ok(items)
    decreases items, 0
  {
    if items != [] {
      RoundTrip(items[0], EncodeAll(items[1..]));
      RoundTripAll(items[1..]);
      assert items == [items[0]] + items[1..];
    }
  }

  // ----- Canonicity -----

  lemma DataCanonical(h: HeaderInfo)
    requires !h.list && |h.rest| >= h.len && WrittenAs(Header(h.list, h.len) + h.rest, h)
    ensures Header(h.list, h.len) + h.rest == Encode(Data(h.rest[..h.len])) + h.rest[h.len..]
  {
    var d := h.rest[..h.len];
    assert h.rest == d + h.rest[h.len..];
    assert h.len == 1 ==> d[0] == h.rest[0];
    assert Header(h.list, h.len) + h.rest == (Header(h.list, h.len) + d) + h.rest[h.len..];
  }

  lemma ArrayCanonical(h: HeaderInfo, items: seq<Item>)
    requires h.list && |h.rest| >= h.len && EncodeAll(items) == h.rest[..h.len]
    ensures Header(h.list, h.len) + h.rest == Encode(Array(items)) + h.rest[h.len..]
  {
    assert h.rest == h.rest[..h.len] + h.rest[h.len..];
    assert Header(h.list, h.len) + h.rest == (Header(h.list, h.len) + h.rest[..h.len]) + h.rest[h.len..];
  }

  /** Whatever the decoder accepts is the encoding of what it returns. */
  lemma {:induction false} Canonical(buf: Bytes)
    requires Decode(buf).Ok?
    ensures buf == Encode(Decode(buf).value.item) + Decode(buf).value.rest
    ensures Fits(Decode(buf).value.item)
    decreases |buf|, 0
  {
    HeaderCanonical(buf);
    var h := DecodeHeader(buf).value;
    var d := h.rest[..h.len];
    if h.list {
      CanonicalAll(d);
      ArrayCanonical(h, DecodeAll(d).value);
    } else if WrittenAs(buf, h) {
      DataCanonical(h);
    } else {
      assert d == [buf[0]];
      assert buf == d + buf[1..];
    }
  }

  lemma {:induction false} CanonicalAll(view: Bytes)
    requires DecodeAll(view).Ok?
    ensures view == EncodeAll(DecodeAll(view).value)
    ensures FitsAll(DecodeAll(view).value)
    decreases |view|, 1
  {
    if view != [] {
      Canonical(view);
      var d := Decode(view).value;
      CanonicalAll(d.rest);
      assert DecodeAll(view).value[1..] == DecodeAll(d.rest).value;
    }
  }

  /** The decoder accepts exactly the byte strings that start with an encoding. */
  lemma AcceptsExactlyEncodings(buf: Bytes)
    ensures Decode(buf).Ok? <==> exists item, rest :: Fits(item) && buf == Encode(item) + rest
  {
    if Decode(buf).Ok? {
      Canonical(buf);
      assert Fits(Decode(buf).value.item);
    }
    forall item, rest | Fits(item) && buf == Encode(item) + rest ensures Decode(buf).Ok? {
      RoundTrip(item, rest);
    }
  }

  /** Encodings are unique and none is a proper prefix of another. */
  lemma PrefixFree(a: Item, x: Bytes, b: Item, y: Bytes)
    requires Fits(a) && Fits(b) && Encode(a) + x == Encode(b) + y
    ensures a == b && x == y
  {
    RoundTrip(a, x);
    RoundTrip(b, y);
  }
}
