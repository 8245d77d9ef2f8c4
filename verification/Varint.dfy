/** decodeVarint (internal/observer/hubble_grpc.go), against the section "Base 128 Varints" of the
    Protocol Buffers Encoding specification. */
module Varint {
  import opened Base

  type Byte = n: nat | n < 256
  type Bytes = seq<Byte>

  // ----- Specification -----

  /** The little-endian base-128 number that the low seven bits of the bytes spell. */
  function Groups(data: Bytes): nat {
    if data == [] then 0 else data[0] % 128 + 128 * Groups(data[1..])
  }

  /** How many bytes the varint at the front of `data` takes, within `budget`; 0 if it has no end. */
  function Span(data: Bytes, budget: nat): (n: nat)
    ensures n <= |data| && n <= budget
  {
    if budget == 0 || data == [] then 0
    else if data[0] < 128 then 1
    else var rest := Span(data[1..], budget - 1); if rest == 0 then 0 else rest + 1
  }

  const MAX_VARINT_BYTES: nat := 10

  datatype Read = Read(value: U64, size: nat)

  function Decoded(data: Bytes): (r: Read)
    ensures r.size <= |data|
  {
    var n := Span(data, MAX_VARINT_BYTES);
    Read(WrapU64(Groups(data[..n])), n)
  }

  /** The standard encoder: seven bits a byte, least significant first. */
  function Encode(v: nat): (r: Bytes)
    ensures r != []
  {
    if v < 128 then [v] else [v % 128 + 128] + Encode(v / 128)
  }

  // ----- Go's shifts and ors -----

  function Pow2(n: nat): (r: nat)
    ensures r > 0
  {
    if n == 0 then 1 else 2 * Pow2(n - 1)
  }

  function Or(x: nat, y: nat): nat {
    if x == 0 && y == 0 then 0
    else (if x % 2 == 1 || y % 2 == 1 then 1 else 0) + 2 * Or(x / 2, y / 2)
  }

  function ShiftLeft64(x: nat, s: nat): U64 {
    x * Pow2(s) % TWO_64
  }

  lemma {:induction false} OrZero(y: nat)
    ensures Or(0, y) == y
  {
    if y != 0 { OrZero(y / 2); }
  }

  /** Or-ing in bits above all those set is adding them. */
  lemma {:induction false} OrDisjoint(x: nat, k: nat, s: nat)
    requires x < Pow2(s)
    ensures Or(x, k * Pow2(s)) == x + k * Pow2(s)
  {
    if s == 0 {
      OrZero(k);
    } else {
      var h := k * Pow2(s - 1);
      assert k * Pow2(s) == 2 * h;
      assert (2 * h) / 2 == h && (2 * h) % 2 == 0;
      OrDisjoint(x / 2, k, s - 1);
      if x == 0 && h == 0 { OrZero(0); }
    }
  }

  lemma PowerValues()
    ensures Pow2(7) == 128 && Pow2(63) == TWO_63
  {
    SevenMore(0); SevenMore(7); SevenMore(14); SevenMore(21); SevenMore(28);
    SevenMore(35); SevenMore(42); SevenMore(49); SevenMore(56);
  }

  lemma SevenMore(s: nat)
    ensures Pow2(s + 7) == 128 * Pow2(s)
  {
    assert Pow2(s + 7) == 2 * Pow2(s + 6);
    assert Pow2(s + 6) == 2 * Pow2(s + 5);
    assert Pow2(s + 5) == 2 * Pow2(s + 4);
    assert Pow2(s + 4) == 2 * Pow2(s + 3);
    assert Pow2(s + 3) == 2 * Pow2(s + 2);
    assert Pow2(s + 2) == 2 * Pow2(s + 1);
  }

  lemma Regroup(c: nat, p: nat)
    ensures c * (128 * p) == 128 * (c * p)
  {
  }

  lemma {:induction false} GroupsAppend(data: Bytes, b: Byte)
    ensures Groups(data + [b]) == Groups(data) + b % 128 * Pow2(7 * |data|)
    ensures Groups(data) < Pow2(7 * |data|)
  {
    if data == [] {
      assert Groups([b]) == b % 128 + 128 * Groups([b][1..]);
    } else {
      assert (data + [b])[1..] == data[1..] + [b];
      GroupsAppend(data[1..], b);
      SevenMore(7 * (|data| - 1));
      Regroup(b % 128, Pow2(7 * (|data| - 1)));
    }
  }

  lemma {:induction false} Pow2Monotone(a: nat, b: nat)
    requires a <= b
    ensures Pow2(a) <= Pow2(b)
  {
    if a < b { Pow2Monotone(a, b - 1); }
  }

  lemma SmallModulo(n: nat)
    requires n < TWO_64
    ensures n % TWO_64 == n
  {
  }

  lemma ModuloOfSum(h: nat, r: nat)
    requires r < TWO_64
    ensures (h * TWO_64 + r) % TWO_64 == r
  {
  }

  lemma AtMost127(c: nat, p: nat)
    requires c < 128
    ensures c * p <= 127 * p
  {
  }

  /** A group below the tenth byte loses nothing to the shift. */
  lemma PlaceLow(x: nat, c: nat, i: nat)
    requires i < 9 && x < Pow2(7 * i) && c < 128
    ensures Or(x, ShiftLeft64(c, 7 * i)) == x + c * Pow2(7 * i) < TWO_63
  {
    var p := Pow2(7 * i);
    assert 128 * p <= TWO_63 by {
      SevenMore(7 * i);
      Pow2Monotone(7 * i + 7, 63);
      PowerValues();
    }
    AtMost127(c, p);
    SmallModulo(c * p);
    OrDisjoint(x, c, 7 * i);
  }

  /** Of the tenth byte's group one bit is left. */
  lemma PlaceLast(x: nat, c: nat)
    requires x < TWO_63 && c < 128
    ensures Or(x, ShiftLeft64(c, 63)) == (x + c * TWO_63) % TWO_64
  {
    var h, r := c / 2, c % 2;
    var low := r * TWO_63;
    assert c * TWO_63 == h * TWO_64 + low;
    ShiftLast(c, h, r);
    OrLast(x, r);
    hide Or, ShiftLeft64;
    ModuloOfSum(h, x + low);
  }

  lemma ShiftLast(c: nat, h: nat, r: nat)
    requires r < 2 && c == 2 * h + r
    ensures ShiftLeft64(c, 63) == r * TWO_63
  {
    assert Pow2(63) == TWO_63 by { PowerValues(); }
    hide Pow2;
    ModuloOfSum(h, r * TWO_63);
  }

  lemma OrLast(x: nat, r: nat)
    requires x < TWO_63 && r < 2
    ensures Or(x, r * TWO_63) == x + r * TWO_63
  {
    assert Pow2(63) == TWO_63 by { PowerValues(); }
    hide Pow2, Or;
    OrDisjoint(x, r, 63);
  }

  /** One turn of the loop: `x | group << s` is the number spelt so far, modulo 2^64. */
  lemma PlaceGroup(data: Bytes, i: nat)
    requires i < |data| && i < MAX_VARINT_BYTES
    ensures Or(Groups(data[..i]), ShiftLeft64(data[i] % 128, 7 * i)) == WrapU64(Groups(data[..i + 1]))
    ensures i < 9 ==> Groups(data[..i + 1]) < TWO_63
  {
    var x, c := Groups(data[..i]), data[i] % 128;
    assert data[..i + 1] == data[..i] + [data[i]];
    GroupsAppend(data[..i], data[i]);
    if i < 9 {
      PlaceLow(x, c, i);
      SmallModulo(Groups(data[..i + 1]));
    } else {
      assert Pow2(7 * i) == TWO_63 by { PowerValues(); }
      PlaceLast(x, c);
    }
  }

  lemma LastByte(data: Bytes, i: nat)
    requires i < |data| && i < MAX_VARINT_BYTES && data[i] < 128
    requires forall j :: 0 <= j < i ==> data[j] >= 128
    ensures var v := Or(Groups(data[..i]), ShiftLeft64(data[i], 7 * i));
            v < TWO_64 && Read(v, i + 1) == Decoded(data)
  {
    PlaceGroup(data, i);
    EndsAt(data, i, MAX_VARINT_BYTES);
  }

  lemma MiddleByte(data: Bytes, i: nat)
    requires i < |data| && i < MAX_VARINT_BYTES
    ensures var v := Or(Groups(data[..i]), ShiftLeft64(data[i] % 128, 7 * i));
            v < TWO_64 && (i < 9 ==> v == Groups(data[..i + 1]))
  {
    PlaceGroup(data, i);
    if i < 9 { SmallModulo(Groups(data[..i + 1])); }
  }

  // ----- The program -----

  method DecodeVarint(data: Bytes) returns (value: U64, n: nat)
    ensures Read(value, n) == Decoded(data)
  {
    var x: U64 := 0;
    var s: nat := 0;
    for i := 0 to |data|
      invariant i <= MAX_VARINT_BYTES
      invariant s == 7 * i
      invariant i < MAX_VARINT_BYTES ==> x == Groups(data[..i])
      invariant forall j :: 0 <= j < i ==> data[j] >= 128
    {
      if i == 10 {
        NoEnd(data, i, MAX_VARINT_BYTES);
        return 0, 0;
      }
      var b := data[i];
      if b < 0x80 {
        LastByte(data, i);
        return Or(x, ShiftLeft64(b, s)), i + 1;
      }
      MiddleByte(data, i);
      x := Or(x, ShiftLeft64(b % 128, s));
      s := s + 7;
    }
    NoEnd(data, |data|, MAX_VARINT_BYTES);
    return 0, 0;
  }

  lemma {:induction false} EndsAt(data: Bytes, i: nat, budget: nat)
    requires i < |data| && i < budget && data[i] < 128
    requires forall j :: 0 <= j < i ==> data[j] >= 128
    ensures Span(data, budget) == i + 1
  {
    if i > 0 { EndsAt(data[1..], i - 1, budget - 1); }
  }

  lemma {:induction false} NoEnd(data: Bytes, i: nat, budget: nat)
    requires i <= |data| && (i == |data| || i == budget) && i <= budget
    requires forall j :: 0 <= j < i ==> data[j] >= 128
    ensures Span(data, budget) == 0
  {
    if i > 0 { NoEnd(data[1..], i - 1, budget - 1); }
  }

  /** A varint is read exactly when one of the first ten bytes ends it, and then up to that byte. */
  lemma {:induction false} SpanExact(data: Bytes, budget: nat)
    ensures Span(data, budget) > 0 <==> exists i :: 0 <= i < |data| && i < budget && data[i] < 128
    ensures var n := Span(data, budget);
            n > 0 ==> data[n - 1] < 128 && forall j :: 0 <= j < n - 1 ==> data[j] >= 128
  {
    if budget > 0 && data != [] && data[0] >= 128 {
      SpanExact(data[1..], budget - 1);
      if i :| 0 <= i < |data| && i < budget && data[i] < 128 {
        assert data[1..][i - 1] < 128;
      }
    }
  }

  /** What was read stays read when more bytes follow. */
  lemma {:induction false} SpanExtends(data: Bytes, rest: Bytes, budget: nat)
    requires Span(data, budget) > 0
    ensures Span(data + rest, budget) == Span(data, budget)
  {
    if data[0] >= 128 {
      assert (data + rest)[1..] == data[1..] + rest;
      SpanExtends(data[1..], rest, budget - 1);
    }
  }

  lemma DecodedExtends(data: Bytes, rest: Bytes)
    requires Decoded(data).size > 0
    ensures Decoded(data + rest) == Decoded(data)
  {
    SpanExtends(data, rest, MAX_VARINT_BYTES);
    var n := Decoded(data).size;
    assert (data + rest)[..n] == data[..n];
  }

  lemma {:induction false} EncodeGroups(v: nat, budget: nat)
    requires budget > 0 && v < Pow2(7 * budget)
    ensures Groups(Encode(v)) == v
    ensures Span(Encode(v), budget) == |Encode(v)|
  {
    if v >= 128 {
      SevenMore(7 * (budget - 1));
      EncodeGroups(v / 128, budget - 1);
      assert Encode(v)[1..] == Encode(v / 128);
    }
  }

  /** The round trip: decoding undoes the standard encoding of every uint64, whatever follows it. */
  lemma DecodeEncode(v: U64, rest: Bytes)
    ensures Decoded(Encode(v) + rest) == Read(v, |Encode(v)|)
  {
    PowerValues();
    SevenMore(63);
    EncodeGroups(v, MAX_VARINT_BYTES);
    var e := Encode(v);
    assert e[..|e|] == e;
    DecodedExtends(e, rest);
  }
}
