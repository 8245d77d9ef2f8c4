/** The hand-rolled message scanner (internal/observer/hubble_grpc.go), against an encoder for the
    sections "Message Structure" and "Length-Delimited Records" of the Protocol Buffers Encoding
    specification. */
module Wire {
  import opened Base
  import opened Varint
  import opened Loop

  // ----- One record -----

  /** What the scanners see at a position: nothing they can read, a varint record and where the next
      one starts, or a length-delimited record's payload position and announced length. */
  datatype Header = Unreadable | VarintAt(num: nat, value: U64, next: nat) | BytesAt(num: nat, start: nat, length: U64)

  function HeaderAt(data: Bytes, i: nat): (h: Header)
    requires i <= |data|
    ensures h.VarintAt? ==> i < h.next <= |data|
    ensures h.BytesAt? ==> i < h.start <= |data|
  {
    var tag := Decoded(data[i..]);
    var j := i + tag.size;
    var arg := Decoded(data[j..]);
    if tag.size == 0 || arg.size == 0 then Unreadable
    else if tag.value % 8 == 0 then VarintAt(tag.value / 8, arg.value, j + arg.size)
    else if tag.value % 8 == 2 then BytesAt(tag.value / 8, j + arg.size, arg.value)
    else Unreadable
  }

  /** The reads that both scan loops start a turn with. */
  method ReadHeader(data: Bytes, i: nat) returns (h: Header)
    requires i <= |data|
    ensures h == HeaderAt(data, i)
  {
    var tag, n := DecodeVarint(data[i..]);
    if n == 0 {
      return Unreadable;
    }
    var j := i + n;
    var wireType, fn := tag % 8, tag / 8;
    if wireType == 0 {
      var v, n2 := DecodeVarint(data[j..]);
      if n2 == 0 {
        return Unreadable;
      }
      return VarintAt(fn, v, j + n2);
    } else if wireType == 2 {
      var length, n2 := DecodeVarint(data[j..]);
      if n2 == 0 {
        return Unreadable;
      }
      return BytesAt(fn, j + n2, length);
    } else {
      return Unreadable;
    }
  }

  // ----- The loops, turn by turn -----

  /** `i + int(length)` in Go's 64-bit int. */
  function GoEnd(i: nat, length: U64): int {
    WrapI64(i + WrapI64(length))
  }

  /** One turn of extractField's loop with the index at `i`, which nothing keeps inside the data. */
  function FieldTurn(data: Bytes, k: nat, i: int): State<Option<Bytes>> {
    if i >= |data| then Done(None)
    else if i < 0 then Crashed
    else
      match HeaderAt(data, i)
      case Unreadable => Done(None)
      case VarintAt(num, _, next) => if num == k then Done(None) else At(next)
      case BytesAt(num, start, length) =>
        var end := GoEnd(start, length);
        if end > |data| then Done(None)
        else if num != k then At(end)
        else if end < start then Crashed
        else Done(Some(data[start..end]))
  }

  function VarintTurn(data: Bytes, k: nat, i: int): State<Option<U64>> {
    if i >= |data| then Done(None)
    else if i < 0 then Crashed
    else
      match HeaderAt(data, i)
      case Unreadable => Done(None)
      case VarintAt(num, value, next) => if num == k then Done(Some(value)) else At(next)
      case BytesAt(_, start, length) => At(GoEnd(start, length))
  }

  function FieldLoop(data: Bytes, k: nat): int -> State<Option<Bytes>> {
    i => FieldTurn(data, k, i)
  }

  function VarintLoop(data: Bytes, k: nat): int -> State<Option<U64>> {
    i => VarintTurn(data, k, i)
  }

  /** What a call of extractField amounts to: its two results as an option, a panic, or no end. */
  function Field(data: Bytes, k: nat): Outcome<Option<Bytes>> {
    Result(FieldLoop(data, k), |data|)
  }

  function VarintOf(data: Bytes, k: nat): Outcome<Option<U64>> {
    Result(VarintLoop(data, k), |data|)
  }

  /** These outcomes are exact: the loops end as they say or, when they say Endless, never. */
  lemma OutcomesExact(data: Bytes, k: nat)
    ensures forall r :: Field(data, k) == Returned(r) <==> Ends(FieldLoop(data, k), Done(r))
    ensures Field(data, k) == Panicked <==> Ends(FieldLoop(data, k), Crashed)
    ensures Field(data, k) == Endless <==> forall n: nat :: Run(FieldLoop(data, k), At(0), n).At?
    ensures forall r :: VarintOf(data, k) == Returned(r) <==> Ends(VarintLoop(data, k), Done(r))
    ensures VarintOf(data, k) == Panicked <==> Ends(VarintLoop(data, k), Crashed)
    ensures VarintOf(data, k) == Endless <==> forall n: nat :: Run(VarintLoop(data, k), At(0), n).At?
  {
    hide HeaderAt, Result, Ends, Run;
    ResultExact(FieldLoop(data, k), |data|);
    ResultExact(VarintLoop(data, k), |data|);
  }

  // ----- The programs -----

  /** The turns are counted only so that an endless loop can be reported; see OutcomesExact. */
  method ExtractField(data: Bytes, k: nat) returns (r: Outcome<Option<Bytes>>)
    ensures r == Field(data, k)
  {
    hide HeaderAt;
    ghost var loop := FieldLoop(data, k);
    var i: int := 0;
    for turns := 0 to |data| + 1
      invariant Run(loop, At(i), |data| + 1 - turns) == Run(loop, At(0), |data| + 1)
    {
      if i >= |data| {
        return Returned(None);
      }
      if i < 0 {
        return Panicked;
      }
      var h := ReadHeader(data, i);
      match h
      case Unreadable =>
        return Returned(None);
      case VarintAt(num, _, next) =>
        if num == k {
          return Returned(None);
        }
        i := next;
      case BytesAt(num, start, length) =>
        var end := GoEnd(start, length);
        if end > |data| {
          return Returned(None);
        }
        if num == k {
          if end < start {
            return Panicked;
          }
          return Returned(Some(data[start..end]));
        }
        i := end;
    }
    return Endless;
  }

  method ExtractVarint(data: Bytes, k: nat) returns (r: Outcome<Option<U64>>)
    ensures r == VarintOf(data, k)
  {
    hide HeaderAt;
    ghost var loop := VarintLoop(data, k);
    var i: int := 0;
    for turns := 0 to |data| + 1
      invariant Run(loop, At(i), |data| + 1 - turns) == Run(loop, At(0), |data| + 1)
    {
      if i >= |data| {
        return Returned(None);
      }
      if i < 0 {
        return Panicked;
      }
      var h := ReadHeader(data, i);
      match h
      case Unreadable =>
        return Returned(None);
      case VarintAt(num, value, next) =>
        if num == k {
          return Returned(Some(value));
        }
        i := next;
      case BytesAt(_, start, length) =>
        i := GoEnd(start, length);
    }
    return Endless;
  }

  // ----- The scans, in unbounded arithmetic -----

  /** The outcome of a scan whose index only moves forward. It gives up where the true end of a record
      is out of the range of int. */
  datatype Scan<+T> = Ended(value: Option<T>) | OutOfRange

  function FieldScan(data: Bytes, i: nat, k: nat): Scan<Bytes>
    requires i <= |data|
    decreases |data| - i
  {
    if i == |data| then Ended(None)
    else
      match HeaderAt(data, i)
      case Unreadable => Ended(None)
      case VarintAt(num, _, next) => if num == k then Ended(None) else FieldScan(data, next, k)
      case BytesAt(num, start, length) =>
        var end := start + length;
        if end >= TWO_63 then OutOfRange
        else if end > |data| then Ended(None)
        else if num == k then Ended(Some(data[start..end]))
        else FieldScan(data, end, k)
  }

  function VarintScan(data: Bytes, i: nat, k: nat): Scan<U64>
    decreases |data| - i
  {
    if i >= |data| then Ended(None)
    else
      match HeaderAt(data, i)
      case Unreadable => Ended(None)
      case VarintAt(num, value, next) => if num == k then Ended(Some(value)) else VarintScan(data, next, k)
      case BytesAt(_, start, length) =>
        if start + length >= TWO_63 then OutOfRange else VarintScan(data, start + length, k)
  }

  /** The index advances, and to the right place, exactly when the true end fits in an int. */
  lemma AdvancesIffInRange(i: nat, length: U64)
    ensures GoEnd(i, length) >= i <==> i + length < TWO_63
    ensures i + length < TWO_63 ==> GoEnd(i, length) == i + length
  {
  }

  /** Where the scan ends, so does the loop, and with the same result. */
  lemma {:induction false} FieldFollows(data: Bytes, i: nat, k: nat, n: nat)
    requires i <= |data| && n > |data| - i && FieldScan(data, i, k).Ended?
    ensures Run(FieldLoop(data, k), At(i), n) == Done(FieldScan(data, i, k).value)
    decreases |data| - i
  {
    hide HeaderAt, GoEnd;
    if i < |data| {
      match HeaderAt(data, i)
      case Unreadable =>
      case VarintAt(num, _, next) => if num != k { FieldFollows(data, next, k, n - 1); }
      case BytesAt(num, start, length) =>
        AdvancesIffInRange(start, length);
        if num != k && start + length <= |data| { FieldFollows(data, start + length, k, n - 1); }
    }
  }

  lemma {:induction false} VarintFollows(data: Bytes, i: nat, k: nat, n: nat)
    requires n > 0 && n > |data| - i && VarintScan(data, i, k).Ended?
    ensures Run(VarintLoop(data, k), At(i), n) == Done(VarintScan(data, i, k).value)
    decreases |data| - i
  {
    hide HeaderAt, GoEnd;
    if i < |data| {
      match HeaderAt(data, i)
      case Unreadable =>
      case VarintAt(num, _, next) => if num != k { VarintFollows(data, next, k, n - 1); }
      case BytesAt(_, start, length) =>
        AdvancesIffInRange(start, length);
        VarintFollows(data, start + length, k, n - 1);
    }
  }

  /** In range, extractField and extractVarint return what the scans find. */
  lemma ScansAreReturned(data: Bytes, k: nat)
    ensures FieldScan(data, 0, k).Ended? ==> Field(data, k) == Returned(FieldScan(data, 0, k).value)
    ensures VarintScan(data, 0, k).Ended? ==> VarintOf(data, k) == Returned(VarintScan(data, 0, k).value)
  {
    hide FieldScan, VarintScan, FieldLoop, VarintLoop;
    if FieldScan(data, 0, k).Ended? { FieldFollows(data, 0, k, |data| + 1); }
    if VarintScan(data, 0, k).Ended? { VarintFollows(data, 0, k, |data| + 1); }
  }

  // ----- int(length) -----

  /** At `i` stands a length-delimited record whose computed end lies before its payload. */
  predicate TurnsBack(data: Bytes, i: int) {
    && 0 <= i < |data|
    && var h := HeaderAt(data, i); h.BytesAt? && GoEnd(h.start, h.length) < h.start
  }

  /** From the index `i` on, the loop comes to such a record. */
  ghost predicate ComesBack<T(!new)>(data: Bytes, turn: int -> State<T>, i: int) {
    exists n: nat :: Run(turn, At(i), n).At? && TurnsBack(data, Run(turn, At(i), n).i)
  }

  lemma ComesBackStep<T(!new)>(data: Bytes, turn: int -> State<T>, i: int)
    ensures ComesBack(data, turn, i) <==> TurnsBack(data, i) || (turn(i).At? && ComesBack(data, turn, turn(i).i))
  {
    hide TurnsBack;
    var s := State<T>.At(i);
    if n: nat :| Run(turn, At(i), n).At? && TurnsBack(data, Run(turn, At(i), n).i) {
      if n == 0 {
        assert TurnsBack(data, i);
      } else {
        StillAt(turn, s, 1, n);
        assert Run(turn, s, 1) == turn(i);
        assert Run(turn, s, n) == Run(turn, turn(i), n - 1);
      }
    }
    assert Run(turn, s, 0) == s;
    if turn(i).At? && ComesBack(data, turn, turn(i).i) {
      var n: nat :| Run(turn, At(turn(i).i), n).At? && TurnsBack(data, Run(turn, At(turn(i).i), n).i);
      assert Run(turn, s, n + 1) == Run(turn, turn(i), n);
    }
  }

  lemma {:induction false} FieldComesBack(data: Bytes, i: nat, k: nat)
    requires i <= |data|
    ensures ComesBack(data, FieldLoop(data, k), i) <==> FieldScan(data, i, k) == OutOfRange
    decreases |data| - i
  {
    hide HeaderAt, GoEnd, ComesBack;
    ComesBackStep(data, FieldLoop(data, k), i);
    if i < |data| {
      match HeaderAt(data, i)
      case Unreadable =>
      case VarintAt(num, _, next) => FieldComesBack(data, next, k);
      case BytesAt(_, start, length) =>
        AdvancesIffInRange(start, length);
        if start + length <= |data| && start + length < TWO_63 { FieldComesBack(data, start + length, k); }
    }
  }

  lemma {:induction false} VarintComesBack(data: Bytes, i: nat, k: nat)
    ensures ComesBack(data, VarintLoop(data, k), i) <==> VarintScan(data, i, k) == OutOfRange
    decreases |data| - i
  {
    hide HeaderAt, GoEnd, ComesBack;
    ComesBackStep(data, VarintLoop(data, k), i);
    if i < |data| {
      match HeaderAt(data, i)
      case Unreadable =>
      case VarintAt(num, _, next) => VarintComesBack(data, next, k);
      case BytesAt(_, start, length) =>
        AdvancesIffInRange(start, length);
        if start + length < TWO_63 { VarintComesBack(data, start + length, k); }
    }
  }

  /** The loops only move forward exactly on the data whose scans stay in range; on all other data they
      come to a record that throws the index back. */
  lemma MovesForwardIff(data: Bytes, k: nat)
    ensures FieldScan(data, 0, k).Ended? <==> !ComesBack(data, FieldLoop(data, k), 0)
    ensures VarintScan(data, 0, k).Ended? <==> !ComesBack(data, VarintLoop(data, k), 0)
  {
    hide FieldScan, VarintScan, FieldLoop, VarintLoop, ComesBack;
    FieldComesBack(data, 0, k);
    VarintComesBack(data, 0, k);
  }

  lemma {:induction false} EncodedLength(v: nat, n: nat)
    requires n > 0 && Pow2(7 * (n - 1)) <= v < Pow2(7 * n)
    ensures |Encode(v)| == n
  {
    if n == 1 {
      assert Pow2(7) == 128 by { PowerValues(); }
    } else {
      var p := Pow2(7 * (n - 2));
      SevenMore(7 * (n - 1));
      SevenMore(7 * (n - 2));
      assert 128 * p <= v < 128 * Pow2(7 * (n - 1)) && p > 0;
      EncodedLength(v / 128, n - 1);
    }
  }

  const STANDSTILL: Bytes := [0x12] + Encode(TWO_64 - 11)

  lemma StandstillHeader()
    ensures |STANDSTILL| == 11
    ensures HeaderAt(STANDSTILL, 0) == BytesAt(2, 11, TWO_64 - 11) && GoEnd(11, TWO_64 - 11) == 0
  {
    var v: U64 := TWO_64 - 11;
    var data := STANDSTILL;
    PowerValues();
    SevenMore(63);
    EncodedLength(v, 10);
    assert Encode(0x12) == [0x12];
    assert data[0..] == Encode(0x12) + Encode(v);
    DecodeEncode(0x12, Encode(v));
    assert data[1..] == Encode(v) + [];
    DecodeEncode(v, []);
  }

  /** So termination on all inputs fails. On these eleven bytes, which announce field 2 with a length
      of 2^64 - 11, the index is back at 0 after every turn; a search for field 2 itself panics. */
  lemma {:induction false} ScanStandsStill(k: nat, n: nat)
    ensures k != 2 ==> Run(FieldLoop(STANDSTILL, k), At(0), n) == At(0) && Field(STANDSTILL, k) == Endless
    ensures k == 2 ==> Field(STANDSTILL, k) == Panicked
    ensures Run(VarintLoop(STANDSTILL, k), At(0), n) == At(0) && VarintOf(STANDSTILL, k) == Endless
  {
    StandstillHeader();
    hide HeaderAt, GoEnd, STANDSTILL, Run;
    StaysPut(FieldLoop(STANDSTILL, k), n);
    StaysPut(FieldLoop(STANDSTILL, k), |STANDSTILL| + 1);
    StaysPut(VarintLoop(STANDSTILL, k), n);
    StaysPut(VarintLoop(STANDSTILL, k), |STANDSTILL| + 1);
  }

  lemma {:induction false} StaysPut<T>(turn: int -> State<T>, n: nat)
    ensures turn(0) == At(0) ==> Run(turn, At(0), n) == At(0)
    ensures n > 0 && !turn(0).At? ==> Run(turn, At(0), n) == turn(0)
  {
    if n > 0 && turn(0) == At(0) { StaysPut(turn, n - 1); }
  }

  // ----- Arbitrary bytes -----

  /** A header read within `data` is read the same when more bytes follow. */
  lemma HeaderExtends(data: Bytes, rest: Bytes, i: nat)
    requires i <= |data| && !HeaderAt(data, i).Unreadable?
    ensures HeaderAt(data + rest, i) == HeaderAt(data, i)
  {
    var tag := Decoded(data[i..]);
    var j := i + tag.size;
    assert (data + rest)[i..] == data[i..] + rest;
    assert (data + rest)[j..] == data[j..] + rest;
    DecodedExtends(data[i..], rest);
    DecodedExtends(data[j..], rest);
  }

  /** A payload found is a slice of the data, and stays found when any bytes are appended. */
  lemma {:induction false} FieldStable(data: Bytes, rest: Bytes, i: nat, k: nat)
    requires i <= |data| && FieldScan(data, i, k).Ended? && FieldScan(data, i, k).value.Some?
    ensures FieldScan(data + rest, i, k) == FieldScan(data, i, k)
    ensures exists a, b :: i < a <= b <= |data| && FieldScan(data, i, k).value.value == data[a..b]
    decreases |data| - i
  {
    hide HeaderAt;
    HeaderExtends(data, rest, i);
    match HeaderAt(data, i)
    case VarintAt(_, _, next) => FieldStable(data, rest, next, k);
    case BytesAt(num, start, length) =>
      var end := start + length;
      if num == k {
        assert (data + rest)[start..end] == data[start..end];
      } else {
        FieldStable(data, rest, end, k);
      }
  }

  lemma {:induction false} VarintStable(data: Bytes, rest: Bytes, i: nat, k: nat)
    requires VarintScan(data, i, k).Ended? && VarintScan(data, i, k).value.Some?
    ensures VarintScan(data + rest, i, k) == VarintScan(data, i, k)
    decreases |data| - i
  {
    hide HeaderAt;
    HeaderExtends(data, rest, i);
    match HeaderAt(data, i)
    case VarintAt(num, _, next) => if num != k { VarintStable(data, rest, next, k); }
    case BytesAt(_, start, length) => VarintStable(data, rest, start + length, k);
  }

  /** No length prefix in `data`, wherever it is read, reaches `bound`. */
  ghost predicate PrefixesBelow(data: Bytes, bound: nat) {
    forall i :: 0 <= i <= |data| && HeaderAt(data, i).BytesAt? ==> HeaderAt(data, i).length < bound
  }

  /** With data and length prefixes below 2^62 no scan leaves the range of int. */
  lemma {:induction false} ScansInRange(data: Bytes, i: nat, k: nat)
    requires |data| < TWO_63 / 2 && PrefixesBelow(data, TWO_63 / 2)
    ensures i <= |data| ==> FieldScan(data, i, k) != OutOfRange
    ensures VarintScan(data, i, k) != OutOfRange
    decreases |data| - i
  {
    hide HeaderAt;
    if i < |data| {
      match HeaderAt(data, i)
      case Unreadable =>
      case VarintAt(_, _, next) => ScansInRange(data, next, k);
      case BytesAt(_, start, length) => ScansInRange(data, start + length, k);
    }
  }

  /** So on such data both loops return what the scans find. */
  lemma BoundedReadsReturn(data: Bytes, k: nat)
    requires |data| < TWO_63 / 2 && PrefixesBelow(data, TWO_63 / 2)
    ensures FieldScan(data, 0, k).Ended? && Field(data, k) == Returned(FieldScan(data, 0, k).value)
    ensures VarintScan(data, 0, k).Ended? && VarintOf(data, k) == Returned(VarintScan(data, 0, k).value)
    ensures Field(data, k).value.Some? ==>
              exists a, b :: 0 < a <= b <= |data| && Field(data, k).value.value == data[a..b]
  {
    hide FieldScan, VarintScan, Field, VarintOf, PrefixesBelow;
    ScansInRange(data, 0, k);
    ScansAreReturned(data, k);
    if FieldScan(data, 0, k).value.Some? { FieldStable(data, [], 0, k); }
  }

  /** And what they find there survives any bytes appended. */
  lemma FoundStaysFound(data: Bytes, rest: Bytes, k: nat)
    requires |data| < TWO_63 / 2 && PrefixesBelow(data, TWO_63 / 2)
    ensures Field(data, k).Returned? && (Field(data, k).value.Some? ==> Field(data + rest, k) == Field(data, k))
    ensures VarintOf(data, k).Returned?
    ensures VarintOf(data, k).value.Some? ==> VarintOf(data + rest, k) == VarintOf(data, k)
  {
    hide FieldScan, VarintScan, Field, VarintOf, PrefixesBelow;
    BoundedReadsReturn(data, k);
    ScansInRange(data, 0, k);
    if Field(data, k).value.Some? { FieldStable(data, rest, 0, k); }
    if VarintOf(data, k).value.Some? { VarintStable(data, rest, 0, k); }
    ScansAreReturned(data + rest, k);
  }

  /** A slice has no length prefix that the data does not have. */
  lemma PrefixesOfSlice(data: Bytes, a: nat, b: nat, bound: nat)
    requires a <= b <= |data| && PrefixesBelow(data, bound)
    ensures PrefixesBelow(data[a..b], bound)
  {
    hide HeaderAt;
    var slice := data[a..b];
    forall i | 0 <= i <= |slice| && HeaderAt(slice, i).BytesAt? ensures HeaderAt(slice, i).length < bound {
      HeaderExtends(slice, data[b..], i);
      assert slice + data[b..] == data[a..];
      HeaderOfSuffix(data, a, i);
      assert HeaderAt(data, a + i).length < bound;
    }
  }

  lemma HeaderOfSuffix(data: Bytes, a: nat, i: nat)
    requires a + i <= |data| && HeaderAt(data[a..], i).BytesAt?
    ensures HeaderAt(data, a + i).BytesAt? && HeaderAt(data, a + i).length == HeaderAt(data[a..], i).length
  {
    var tag := Decoded(data[a..][i..]);
    assert data[a..][i..] == data[a + i..];
    assert data[a..][i + tag.size..] == data[a + i + tag.size..];
  }

  // ----- Encoded messages -----

  datatype Record = VarintRecord(num: nat, value: U64) | BytesRecord(num: nat, payload: Bytes)

  /** A field number whose tag fits in 64 bits, and a payload whose length does. */
  predicate Encodable(r: Record) {
    r.num < 0x2000_0000_0000_0000 && (r.BytesRecord? ==> |r.payload| < TWO_63)
  }

  type Message = m: seq<Record> | forall r :: r in m ==> Encodable(r)

  function EncodeRecord(r: Record): Bytes {
    match r
    case VarintRecord(num, value) => Varint.Encode(num * 8) + Varint.Encode(value)
    case BytesRecord(num, payload) => Varint.Encode(num * 8 + 2) + Varint.Encode(|payload|) + payload
  }

  function EncodeMessage(m: Message): Bytes {
    if m == [] then [] else EncodeRecord(m[0]) + EncodeMessage(m[1..])
  }

  /** The field's value: the payload of the first record so numbered, if it is length-delimited. */
  function BytesField(m: Message, k: nat): Option<Bytes> {
    if m == [] then None
    else if m[0].num != k then BytesField(m[1..], k)
    else if m[0].BytesRecord? then Some(m[0].payload)
    else None
  }

  /** The value of the first varint record so numbered. */
  function VarintField(m: Message, k: nat): Option<U64> {
    if m == [] then None
    else if m[0].VarintRecord? && m[0].num == k then Some(m[0].value)
    else VarintField(m[1..], k)
  }

  lemma Suffix(data: Bytes, i: nat, a: Bytes, b: Bytes)
    requires i <= |data| && data[i..] == a + b
    ensures |data| == i + |a| + |b|
    ensures data[i + |a|..] == b && data[i..i + |a|] == a
  {
    assert data[i..][|a|..] == b;
    assert data[i..][..|a|] == a;
  }

  lemma HeaderOfPair(data: Bytes, i: nat, tag: U64, arg: U64, tail: Bytes)
    requires i <= |data| && data[i..] == Varint.Encode(tag) + (Varint.Encode(arg) + tail)
    ensures |tail| <= |data|
    ensures tag % 8 == 0 ==> HeaderAt(data, i) == VarintAt(tag / 8, arg, |data| - |tail|)
    ensures tag % 8 == 2 ==> HeaderAt(data, i) == BytesAt(tag / 8, |data| - |tail|, arg)
  {
    Suffix(data, i, Varint.Encode(tag), Varint.Encode(arg) + tail);
    DecodeEncode(tag, Varint.Encode(arg) + tail);
    Suffix(data, i + |Varint.Encode(tag)|, Varint.Encode(arg), tail);
    DecodeEncode(arg, tail);
  }

  /** Reading an encoded record's header gives back its number and value or payload position. */
  lemma HeaderOfRecord(data: Bytes, i: nat, r: Record, rest: Bytes)
    requires i <= |data| && data[i..] == EncodeRecord(r) + rest && Encodable(r)
    ensures |data| == i + |EncodeRecord(r)| + |rest| && |EncodeRecord(r)| > 0
    ensures data[|data| - |rest|..] == rest
    ensures r.VarintRecord? ==> HeaderAt(data, i) == VarintAt(r.num, r.value, |data| - |rest|)
    ensures r.BytesRecord? ==>
              && i + |r.payload| <= |data| - |rest|
              && HeaderAt(data, i) == BytesAt(r.num, |data| - |rest| - |r.payload|, |r.payload|)
              && data[|data| - |rest| - |r.payload|..|data| - |rest|] == r.payload
  {
    hide HeaderAt, Varint.Encode;
    Suffix(data, i, EncodeRecord(r), rest);
    match r
    case VarintRecord(num, value) =>
      assert data[i..] == Varint.Encode(num * 8) + (Varint.Encode(value) + rest);
      HeaderOfPair(data, i, num * 8, value, rest);
    case BytesRecord(num, payload) =>
      var front := Varint.Encode(num * 8 + 2) + Varint.Encode(|payload|);
      assert data[i..] == Varint.Encode(num * 8 + 2) + (Varint.Encode(|payload|) + (payload + rest));
      HeaderOfPair(data, i, num * 8 + 2, |payload|, payload + rest);
      assert data[i..] == front + (payload + rest);
      Suffix(data, i, front, payload + rest);
      Suffix(data, i + |front|, payload, rest);
  }

  /** extractField on an encoded message: the first record numbered k decides. */
  lemma {:induction false} FieldOfMessage(data: Bytes, i: nat, m: Message, k: nat)
    requires i <= |data| < TWO_63 && data[i..] == EncodeMessage(m)
    ensures FieldScan(data, i, k) == Ended(BytesField(m, k))
    decreases |m|
  {
    hide HeaderAt, EncodeRecord;
    if m != [] {
      var r, rest := m[0], EncodeMessage(m[1..]);
      assert r in m;
      HeaderOfRecord(data, i, r, rest);
      FieldOfMessage(data, |data| - |rest|, m[1..], k);
    }
  }

  /** extractVarint on an encoded message: length-delimited records are skipped, even with number k. */
  lemma {:induction false} VarintOfMessage(data: Bytes, i: nat, m: Message, k: nat)
    requires i <= |data| < TWO_63 && data[i..] == EncodeMessage(m)
    ensures VarintScan(data, i, k) == Ended(VarintField(m, k))
    decreases |m|
  {
    hide HeaderAt, EncodeRecord;
    if m != [] {
      var r, rest := m[0], EncodeMessage(m[1..]);
      assert r in m;
      HeaderOfRecord(data, i, r, rest);
      VarintOfMessage(data, |data| - |rest|, m[1..], k);
    }
  }

  /** Both readers against the encoder, for every message that fits in memory. */
  lemma ReadersMatchEncoder(m: Message, k: nat)
    requires |EncodeMessage(m)| < TWO_63
    ensures Field(EncodeMessage(m), k) == Returned(BytesField(m, k))
    ensures VarintOf(EncodeMessage(m), k) == Returned(VarintField(m, k))
  {
    var data := EncodeMessage(m);
    assert data[0..] == data;
    hide FieldScan, VarintScan, Field, VarintOf;
    FieldOfMessage(data, 0, m, k);
    VarintOfMessage(data, 0, m, k);
    ScansAreReturned(data, k);
  }
}
