/** Requests and flow messages (internal/observer/hubble_grpc.go). Field numbers are those of the
    code's own comments; nothing is claimed about Hubble's published schema. */
module Hubble {
  import opened Base
  import opened Varint
  import opened Loop
  import opened Wire

  /** A Go string made of these bytes: one character per byte. */
  function TextOf(b: Bytes): string {
    seq(|b|, i requires 0 <= i < |b| => b[i] as char)
  }

  /** The payload, whose "found" flag the code ignores: nil when there is none. */
  function Payload(found: Option<Bytes>): Bytes {
    if found.Some? then found.value else []
  }

  function Value(found: Option<U64>): U64 {
    if found.Some? then found.value else 0
  }

  function VerdictName(v: U64): string {
    if v == 3 then "FORWARDED" else if v == 4 then "DROPPED" else if v == 5 then "AUDIT" else "UNKNOWN"
  }

  datatype Transport = NoTransport | Tcp(port: U64) | Udp(port: U64)

  /** What a flow message tells; what it does not mention is empty or zero. */
  datatype Observation = Observation(
    namespace: Bytes, pod: Bytes, ip: Bytes, name: Bytes, transport: Transport, verdict: U64, query: Bytes)

  /** The flow an observation stands for: the DNS query's name wins over the endpoint's, and the port
      is cut to 32 bits. */
  function FlowAbout(o: Observation, now: Time): Flow {
    Flow(TextOf(o.namespace), TextOf(o.pod), "Pod/" + TextOf(o.pod),
         TextOf(if o.query != [] then o.query else o.name), TextOf(o.ip),
         if o.transport.NoTransport? then 0 else o.transport.port % TWO_32,
         match o.transport case NoTransport => "" case Tcp(_) => "TCP" case Udp(_) => "UDP",
         VerdictName(o.verdict), 0, now)
  }

  // ----- Reading a flow message -----

  function TransportIn(l4: Bytes): Outcome<Transport> {
    var tcp :- Field(l4, 1);
    var udp :- Field(l4, 2);
    if tcp.Some? then
      var port :- VarintOf(tcp.value, 2);
      Returned(Tcp(Value(port)))
    else if udp.Some? then
      var port :- VarintOf(udp.value, 2);
      Returned(Udp(Value(port)))
    else Returned(NoTransport)
  }

  /** The observation that the reads of decodeFlow make out in any bytes, or the first panic or endless
      loop on the way. */
  function ObservationIn(data: Bytes): Outcome<Observation> {
    var src :- Field(data, 3);
    var dst :- Field(data, 4);
    var l4 :- Field(data, 5);
    var verdict :- VarintOf(data, 9);
    var dns :- Field(data, 12);
    var namespace :- Field(Payload(src), 1);
    var pod :- Field(Payload(src), 3);
    var ip :- Field(Payload(dst), 1);
    var name :- Field(Payload(dst), 6);
    var transport :- TransportIn(Payload(l4));
    var query :- Field(Payload(dns), 3);
    Returned(Observation(Payload(namespace), Payload(pod), Payload(ip), Payload(name), transport, Value(verdict),
                         Payload(query)))
  }

  /** The decoder's result as a value: no flow without a source namespace. */
  function FlowIn(flow: Bytes, now: Time): Outcome<Option<Flow>> {
    var o :- ObservationIn(flow);
    Returned(if o.namespace == [] then None else Some(FlowAbout(o, now)))
  }

  function Response(data: Bytes, now: Time): Outcome<Option<Flow>> {
    var flow :- Field(data, 1);
    if flow.None? then Returned(None) else FlowIn(flow.value, now)
  }

  method ExtractString(data: Bytes, k: nat) returns (r: Outcome<string>)
    ensures Field(data, k).Panicked? ==> r == Panicked
    ensures Field(data, k).Endless? ==> r == Endless
    ensures Field(data, k).Returned? ==> r == Returned(TextOf(Payload(Field(data, k).value)))
  {
    var b :- ExtractField(data, k);
    if b.None? {
      assert TextOf([]) == "";
      return Returned("");
    }
    return Returned(TextOf(b.value));
  }

  lemma NothingInNothing()
    ensures Field([], 3) == Returned(None)
  {
  }

  lemma TextEmpty(b: Bytes)
    ensures TextOf(b) == "" <==> b == []
  {
  }

  method DecodeFlow(data: Bytes, now: Time) returns (r: Outcome<Option<Flow>>)
    ensures r == FlowIn(data, now)
  {
    hide Field, VarintOf, TextOf;
    NothingInNothing();
    forall b ensures TextOf(b) == "" <==> b == [] { TextEmpty(b); }
    var srcBytes :- ExtractField(data, 3);
    var dstBytes :- ExtractField(data, 4);
    var l4Bytes :- ExtractField(data, 5);
    var verdict :- ExtractVarint(data, 9);
    var dnsBytes :- ExtractField(data, 12);
    var namespace :- ExtractString(Payload(srcBytes), 1);
    var pod :- ExtractString(Payload(srcBytes), 3);
    var ip :- ExtractString(Payload(dstBytes), 1);
    var name :- ExtractString(Payload(dstBytes), 6);
    var destFqdn := "";
    if name != "" {
      destFqdn := name;
    }
    var tcpBytes :- ExtractField(Payload(l4Bytes), 1);
    var udpBytes :- ExtractField(Payload(l4Bytes), 2);
    var destPort: U32, protocol := 0, "";
    if tcpBytes.Some? {
      var port :- ExtractVarint(tcpBytes.value, 2);
      destPort := Value(port) % TWO_32;
      protocol := "TCP";
    } else if udpBytes.Some? {
      var port :- ExtractVarint(udpBytes.value, 2);
      destPort := Value(port) % TWO_32;
      protocol := "UDP";
    }
    if |Payload(dnsBytes)| > 0 {
      var query :- ExtractString(Payload(dnsBytes), 3);
      if query != "" {
        destFqdn := query;
      }
    }
    if namespace == "" {
      return Returned(None);
    }
    return Returned(Some(Flow(namespace, pod, "Pod/" + pod, destFqdn, ip, destPort, protocol,
                              VerdictName(Value(verdict)), 0, now)));
  }

  method DecodeGetFlowsResponse(data: Bytes, now: Time) returns (r: Outcome<Option<Flow>>)
    ensures r == Response(data, now)
  {
    var flowBytes :- ExtractField(data, 1);
    if flowBytes.None? {
      return Returned(None);
    }
    r := DecodeFlow(flowBytes.value, now);
  }

  // ----- The request -----

  /** The request bytes are the encoding of follow = true and one filter for egress traffic. */
  lemma RequestIsEncoded()
    ensures EncodeMessage([VarintRecord(6, 2)]) == [0x30, 0x02]
    ensures EncodeMessage([VarintRecord(7, 1), BytesRecord(5, EncodeMessage([VarintRecord(6, 2)]))])
         == BuildGetFlowsRequest()
  {
    var filter: Message := [VarintRecord(6, 2)];
    assert filter[1..] == [];
    assert EncodeMessage(filter) == EncodeRecord(filter[0]) + [];
    var m: Message := [VarintRecord(7, 1), BytesRecord(5, [0x30, 0x02])];
    assert m[1..] == [BytesRecord(5, [0x30, 0x02])] && m[1..][1..] == [];
    assert EncodeMessage(m[1..]) == EncodeRecord(m[1]) + [];
    assert EncodeMessage(m) == EncodeRecord(m[0]) + EncodeMessage(m[1..]);
  }

  function BuildGetFlowsRequest(): Bytes {
    var filterBytes: Bytes := [0x30, 0x02];
    [0x38, 0x01, 0x2A, |filterBytes| as nat] + filterBytes
  }

  // ----- Nested messages -----

  /** The messages that make up a response, outermost first. */
  datatype Parts = Parts(
    response: Message, flow: Message, src: Message, dst: Message, l4: Message, transport: Message, dns: Message)

  /** Field k of `m` is the message `inner`; when the field is missing, `inner` has no records. */
  predicate Carries(m: Message, k: nat, inner: Message) {
    match BytesField(m, k)
    case Some(payload) => payload == EncodeMessage(inner)
    case None => inner == []
  }

  /** The parts nest. Any of them may be missing, and any other records may stand between, before or
      after the ones that are read. */
  predicate Nests(p: Parts) {
    && Carries(p.response, 1, p.flow)
    && Carries(p.flow, 3, p.src) && Carries(p.flow, 4, p.dst) && Carries(p.flow, 5, p.l4) && Carries(p.flow, 12, p.dns)
    && Carries(p.l4, if BytesField(p.l4, 1).Some? then 1 else 2, p.transport)
  }

  /** The response fits in memory, and so does every part of it (see PartsFit). */
  predicate Fits(p: Parts) {
    |EncodeMessage(p.response)| < TWO_63
  }

  lemma {:induction false} PayloadFits(m: Message, k: nat)
    ensures |Payload(BytesField(m, k))| <= |EncodeMessage(m)|
  {
    if m != [] && m[0].num != k { PayloadFits(m[1..], k); }
  }

  lemma InnerFits(m: Message, k: nat, inner: Message)
    requires Carries(m, k, inner)
    ensures |EncodeMessage(inner)| <= |EncodeMessage(m)|
  {
    PayloadFits(m, k);
  }

  lemma PartsFit(p: Parts)
    requires Nests(p) && Fits(p)
    ensures |EncodeMessage(p.flow)| < TWO_63 && |EncodeMessage(p.src)| < TWO_63 && |EncodeMessage(p.dst)| < TWO_63
    ensures |EncodeMessage(p.l4)| < TWO_63 && |EncodeMessage(p.transport)| < TWO_63 && |EncodeMessage(p.dns)| < TWO_63
  {
    hide EncodeMessage, Carries;
    InnerFits(p.response, 1, p.flow);
    InnerFits(p.flow, 3, p.src);
    InnerFits(p.flow, 4, p.dst);
    InnerFits(p.flow, 5, p.l4);
    InnerFits(p.flow, 12, p.dns);
    InnerFits(p.l4, if BytesField(p.l4, 1).Some? then 1 else 2, p.transport);
  }

  function TransportMeant(p: Parts): Transport {
    var port := Value(VarintField(p.transport, 2));
    if BytesField(p.l4, 1).Some? then Tcp(port)
    else if BytesField(p.l4, 2).Some? then Udp(port)
    else NoTransport
  }

  /** What the parts tell, record by record. */
  function Meaning(p: Parts): Observation {
    Observation(Payload(BytesField(p.src, 1)), Payload(BytesField(p.src, 3)),
                Payload(BytesField(p.dst, 1)), Payload(BytesField(p.dst, 6)),
                TransportMeant(p), Value(VarintField(p.flow, 9)), Payload(BytesField(p.dns, 3)))
  }

  lemma PartRead(m: Message, k: nat, inner: Message)
    requires Carries(m, k, inner) && |EncodeMessage(m)| < TWO_63
    ensures Field(EncodeMessage(m), k) == Returned(BytesField(m, k))
    ensures Payload(BytesField(m, k)) == EncodeMessage(inner)
  {
    ReadersMatchEncoder(m, k);
  }

  lemma TransportIsRead(p: Parts)
    requires Nests(p) && Fits(p)
    ensures TransportIn(EncodeMessage(p.l4)) == Returned(TransportMeant(p))
  {
    hide Field, VarintOf, EncodeMessage, BytesField, VarintField;
    PartsFit(p);
    ReadersMatchEncoder(p.l4, 1);
    ReadersMatchEncoder(p.l4, 2);
    ReadersMatchEncoder(p.transport, 2);
  }

  lemma FlowIsRead(p: Parts)
    requires Nests(p) && Fits(p)
    ensures ObservationIn(EncodeMessage(p.flow)) == Returned(Meaning(p))
  {
    hide Field, VarintOf, EncodeMessage, BytesField, VarintField, Carries, TransportIn, TransportMeant;
    PartsFit(p);
    PartRead(p.flow, 3, p.src);
    PartRead(p.flow, 4, p.dst);
    PartRead(p.flow, 5, p.l4);
    PartRead(p.flow, 12, p.dns);
    ReadersMatchEncoder(p.flow, 9);
    ReadersMatchEncoder(p.src, 1);
    ReadersMatchEncoder(p.src, 3);
    ReadersMatchEncoder(p.dst, 1);
    ReadersMatchEncoder(p.dst, 6);
    ReadersMatchEncoder(p.dns, 3);
    TransportIsRead(p);
  }

  /** Without a flow there is no namespace. */
  lemma NoFlow(p: Parts)
    requires Nests(p) && p.flow == []
    ensures Meaning(p).namespace == []
  {
  }

  /** Decoding inverts the encoding of every response, through three levels of nesting, with whatever
      other records the messages hold and whichever they lack: it yields the flow they tell of, and
      fails exactly when they name no source namespace. */
  lemma ResponseRecovers(p: Parts, now: Time)
    requires Nests(p) && Fits(p)
    ensures Response(EncodeMessage(p.response), now) ==
            Returned(if Meaning(p).namespace == [] then None else Some(FlowAbout(Meaning(p), now)))
  {
    hide Field, EncodeMessage, BytesField, ObservationIn, Meaning, FlowAbout;
    FlowIsRead(p);
    PartRead(p.response, 1, p.flow);
    if p.flow == [] { NoFlow(p); }
  }

  /** The text has the field's bytes, one character each; without the field it is empty. */
  predicate Spells(text: string, field: Option<Bytes>) {
    match field
    case Some(b) => |text| == |b| && forall i :: 0 <= i < |b| ==> text[i] as int == b[i]
    case None => text == ""
  }

  /** The field's bytes, if there are any. */
  predicate Filled(field: Option<Bytes>) {
    field.Some? && field.value != []
  }

  /** What the flow's fields are, record by record: which records the protocol, port, name, address,
      namespace, pod and verdict come from. */
  predicate ReadsRecords(f: Flow, p: Parts, now: Time) {
    && ReadsTransport(f, BytesField(p.l4, 1), BytesField(p.l4, 2), VarintField(p.transport, 2))
    && Spells(f.destFqdn, if Filled(BytesField(p.dns, 3)) then BytesField(p.dns, 3) else BytesField(p.dst, 6))
    && Spells(f.destIp, BytesField(p.dst, 1))
    && Spells(f.sourceNamespace, BytesField(p.src, 1)) && Spells(f.sourcePod, BytesField(p.src, 3))
    && f.sourceWorkload == ['P', 'o', 'd', '/'] + f.sourcePod
    && ReadsVerdict(f, VarintField(p.flow, 9))
    && f.bytes == 0 && f.timestamp == now
  }

  predicate ReadsTransport(f: Flow, tcp: Option<Bytes>, udp: Option<Bytes>, port: Option<U64>) {
    && (f.protocol == "TCP" <==> tcp.Some?)
    && (f.protocol == "UDP" <==> tcp.None? && udp.Some?)
    && (f.protocol == "" <==> tcp.None? && udp.None?)
    && f.destPort == (if port.Some? then port.value % 0x1_0000_0000 else 0)
  }

  predicate ReadsVerdict(f: Flow, verdict: Option<U64>) {
    && (f.verdict == "FORWARDED" <==> verdict == Some(3)) && (f.verdict == "DROPPED" <==> verdict == Some(4))
    && (f.verdict == "AUDIT" <==> verdict == Some(5))
    && (f.verdict == "UNKNOWN" <==> verdict != Some(3) && verdict != Some(4) && verdict != Some(5))
  }

  /** Every response that names a source namespace is decoded to a flow whose fields are those of its
      records, whatever else it holds or lacks. */
  lemma FlowFieldByField(p: Parts, now: Time)
    requires Nests(p) && Fits(p) && Filled(BytesField(p.src, 1))
    ensures var r := Response(EncodeMessage(p.response), now);
            r.Returned? && r.value.Some? && ReadsRecords(r.value.value, p, now)
  {
    ResponseRecovers(p, now);
    RecordsRead(p, now);
    hide Response, EncodeMessage, Nests, Fits, BytesField, FlowAbout, ReadsRecords;
  }

  lemma RecordsRead(p: Parts, now: Time)
    requires Nests(p)
    ensures ReadsRecords(FlowAbout(Meaning(p), now), p, now)
  {
    TransportRead(p, now);
    VerdictRead(Meaning(p), now, VarintField(p.flow, 9));
    NamesRead(Meaning(p), now);
    hide Nests, BytesField, VarintField, Spells, FlowAbout, TextOf, ReadsTransport, ReadsVerdict;
    TextSpells(BytesField(p.src, 1));
    TextSpells(BytesField(p.src, 3));
    TextSpells(BytesField(p.dst, 1));
    TextSpells(BytesField(p.dst, 6));
    TextSpells(BytesField(p.dns, 3));
  }

  lemma TransportRead(p: Parts, now: Time)
    requires Nests(p)
    ensures ReadsTransport(FlowAbout(Meaning(p), now), BytesField(p.l4, 1), BytesField(p.l4, 2),
                           VarintField(p.transport, 2))
  {
    if BytesField(p.l4, 1).None? && BytesField(p.l4, 2).None? { NoTransportNoPort(p); }
    hide Nests, BytesField, VarintField, TextOf, VerdictName;
  }

  lemma VerdictRead(o: Observation, now: Time, verdict: Option<U64>)
    requires o.verdict == Value(verdict)
    ensures ReadsVerdict(FlowAbout(o, now), verdict)
  {
    hide TextOf;
  }

  lemma NamesRead(o: Observation, now: Time)
    ensures var f := FlowAbout(o, now);
            && f.destFqdn == TextOf(if o.query != [] then o.query else o.name) && f.destIp == TextOf(o.ip)
            && f.sourceNamespace == TextOf(o.namespace) && f.sourcePod == TextOf(o.pod)
            && f.sourceWorkload == ['P', 'o', 'd', '/'] + f.sourcePod && f.bytes == 0 && f.timestamp == now
  {
    hide TextOf, VerdictName;
  }

  lemma TextSpells(field: Option<Bytes>)
    ensures Spells(TextOf(Payload(field)), field)
  {
  }

  lemma NoTransportNoPort(p: Parts)
    requires Nests(p) && BytesField(p.l4, 1).None? && BytesField(p.l4, 2).None?
    ensures VarintField(p.transport, 2) == None
  {
  }

  // ----- A response for every observation -----

  /** A record for the field, unless it is empty. */
  function BytesPart(k: nat, x: Bytes): Message
    requires k < 100 && |x| < TWO_63
  {
    if x == [] then [] else [BytesRecord(k, x)]
  }

  function VarintPart(k: nat, v: U64): Message
    requires k < 100
  {
    if v == 0 then [] else [VarintRecord(k, v)]
  }

  predicate Short(b: Bytes) {
    |b| < 0x100_0000_0000_0000
  }

  predicate Ordinary(o: Observation) {
    Short(o.namespace) && Short(o.pod) && Short(o.ip) && Short(o.name) && Short(o.query)
  }

  lemma RecordSize(r: Record)
    requires Encodable(r)
    ensures |EncodeRecord(r)| <= 20 + if r.BytesRecord? then |r.payload| else 0
  {
    VarintSize(r.num * 8);
    VarintSize(r.num * 8 + 2);
    if r.BytesRecord? { VarintSize(|r.payload|); } else { VarintSize(r.value); }
  }

  lemma VarintSize(v: U64)
    ensures |Encode(v)| <= 10
  {
    PowerValues();
    SevenMore(63);
    EncodeGroups(v, MAX_VARINT_BYTES);
  }

  /** What one record in front of a message adds. */
  lemma More(a: Record, m: Message)
    requires Encodable(a)
    ensures |EncodeMessage([a] + m)| <= 20 + (if a.BytesRecord? then |a.payload| else 0) + |EncodeMessage(m)|
    ensures forall k :: BytesField([a] + m, k) ==
              if a.num != k then BytesField(m, k) else if a.BytesRecord? then Some(a.payload) else None
    ensures forall k :: VarintField([a] + m, k) ==
              if a.VarintRecord? && a.num == k then Some(a.value) else VarintField(m, k)
  {
    RecordSize(a);
    assert ([a] + m)[1..] == m;
  }

  lemma BytesPartIn(k: nat, x: Bytes, m: Message)
    requires k < 100 && |x| < TWO_63 && BytesField(m, k) == None
    ensures var r := BytesPart(k, x) + m;
            && Payload(BytesField(r, k)) == x && (BytesField(r, k) == None <==> x == [])
            && (forall j :: j != k ==> BytesField(r, j) == BytesField(m, j))
            && (forall j :: VarintField(r, j) == VarintField(m, j))
            && |EncodeMessage(r)| <= 20 + |x| + |EncodeMessage(m)|
  {
    if x == [] { assert BytesPart(k, x) + m == m; } else { More(BytesRecord(k, x), m); }
  }

  lemma OnlyBytes(k: nat, x: Bytes)
    requires k < 100 && |x| < TWO_63
    ensures var m := BytesPart(k, x) + [];
            && Payload(BytesField(m, k)) == x && (BytesField(m, k) == None <==> x == [])
            && |EncodeMessage(m)| <= 20 + |x|
  {
    BytesPartIn(k, x, []);
  }

  lemma VarintPartIn(k: nat, v: U64, m: Message)
    requires k < 100 && VarintField(m, k) == None && BytesField(m, k) == None
    ensures var r := VarintPart(k, v) + m;
            && Value(VarintField(r, k)) == v
            && (forall j :: BytesField(r, j) == BytesField(m, j))
            && |EncodeMessage(r)| <= 20 + |EncodeMessage(m)|
  {
    if v == 0 { assert VarintPart(k, v) + m == m; } else { More(VarintRecord(k, v), m); }
  }

  /** The messages of an observation as an encoder writes them that leaves out what is empty or zero. */
  function EndpointOf(a: nat, x: Bytes, b: nat, y: Bytes): Message
    requires a < 100 && b < 100 && Short(x) && Short(y)
  {
    BytesPart(a, x) + (BytesPart(b, y) + [])
  }

  lemma EndpointTells(a: nat, x: Bytes, b: nat, y: Bytes)
    requires a < 100 && b < 100 && a != b && Short(x) && Short(y)
    ensures var m := EndpointOf(a, x, b, y);
            && Payload(BytesField(m, a)) == x && Payload(BytesField(m, b)) == y
            && |EncodeMessage(m)| <= 40 + |x| + |y|
  {
    BytesPartIn(b, y, []);
    BytesPartIn(a, x, BytesPart(b, y) + []);
  }

  function FlowMessage(src: Bytes, dst: Bytes, l4: Bytes, verdict: U64, dns: Bytes): Message
    requires |src| < TWO_63 && |dst| < TWO_63 && |l4| < TWO_63 && |dns| < TWO_63
  {
    BytesPart(3, src) + (BytesPart(4, dst) + (BytesPart(5, l4) + (VarintPart(9, verdict) + (BytesPart(12, dns) + []))))
  }

  lemma FlowMessageTells(src: Bytes, dst: Bytes, l4: Bytes, verdict: U64, dns: Bytes)
    requires |src| < TWO_63 && |dst| < TWO_63 && |l4| < TWO_63 && |dns| < TWO_63
    ensures var m := FlowMessage(src, dst, l4, verdict, dns);
            && Payload(BytesField(m, 3)) == src && Payload(BytesField(m, 4)) == dst && Payload(BytesField(m, 5)) == l4
            && Payload(BytesField(m, 12)) == dns && Value(VarintField(m, 9)) == verdict
            && (BytesField(m, 3) == None <==> src == []) && (BytesField(m, 4) == None <==> dst == [])
            && (BytesField(m, 5) == None <==> l4 == []) && (BytesField(m, 12) == None <==> dns == [])
            && |EncodeMessage(m)| <= 100 + |src| + |dst| + |l4| + |dns|
  {
    hide EncodeMessage, BytesPart, VarintPart;
    assert |EncodeMessage([])| == 0 by { NothingEncoded([]); }
    var m0: Message := BytesPart(12, dns) + [];
    BytesPartIn(12, dns, []);
    var m1: Message := VarintPart(9, verdict) + m0;
    VarintPartIn(9, verdict, m0);
    var m2: Message := BytesPart(5, l4) + m1;
    BytesPartIn(5, l4, m1);
    var m3: Message := BytesPart(4, dst) + m2;
    BytesPartIn(4, dst, m2);
    BytesPartIn(3, src, m3);
  }

  lemma NothingEncoded(m: Message)
    ensures EncodeMessage(m) == [] <==> m == []
    ensures |EncodeMessage(m)| == 0 <==> m == []
  {
    if m != [] {
      assert m[0] in m;
      assert |EncodeRecord(m[0])| > 0;
    }
  }

  lemma CarriesIff(m: Message, k: nat, inner: Message)
    requires Payload(BytesField(m, k)) == EncodeMessage(inner)
    requires BytesField(m, k) == None <==> EncodeMessage(inner) == []
    ensures Carries(m, k, inner)
  {
    NothingEncoded(inner);
  }

  function TransportMessage(t: Transport): Message {
    if t.NoTransport? then [] else VarintPart(2, t.port) + []
  }

  /** TCP and UDP messages are there even when their port is 0. */
  function L4Message(t: Transport, transport: Bytes): Message
    requires |transport| < TWO_63
  {
    match t
    case NoTransport => []
    case Tcp(_) => [BytesRecord(1, transport)] + []
    case Udp(_) => [BytesRecord(2, transport)] + []
  }

  lemma TransportTells(t: Transport)
    ensures var m := TransportMessage(t);
            && |EncodeMessage(m)| <= 20
            && var l4 := L4Message(t, EncodeMessage(m));
            && Carries(l4, if BytesField(l4, 1).Some? then 1 else 2, m) && |EncodeMessage(l4)| <= 40
            && (if BytesField(l4, 1).Some? then Tcp(Value(VarintField(m, 2)))
                else if BytesField(l4, 2).Some? then Udp(Value(VarintField(m, 2))) else NoTransport) == t
  {
    var m := TransportMessage(t);
    if !t.NoTransport? {
      VarintPartIn(2, t.port, []);
      More(BytesRecord(if t.Tcp? then 1 else 2, EncodeMessage(m)), []);
    }
  }

  function ResponseParts(o: Observation): (p: Parts)
    requires Ordinary(o)
    ensures Nests(p) && Fits(p) && Meaning(p) == o
  {
    hide EncodeMessage, BytesField, VarintField, BytesPart, FlowMessage, EndpointOf, L4Message, TransportMessage,
        Carries;
    var src, dst := EndpointOf(1, o.namespace, 3, o.pod), EndpointOf(1, o.ip, 6, o.name);
    EndpointTells(1, o.namespace, 3, o.pod);
    EndpointTells(1, o.ip, 6, o.name);
    var transport := TransportMessage(o.transport);
    TransportTells(o.transport);
    var l4 := L4Message(o.transport, EncodeMessage(transport));
    var dns := BytesPart(3, o.query) + [];
    OnlyBytes(3, o.query);
    var flow := FlowMessage(EncodeMessage(src), EncodeMessage(dst), EncodeMessage(l4), o.verdict, EncodeMessage(dns));
    FlowMessageTells(EncodeMessage(src), EncodeMessage(dst), EncodeMessage(l4), o.verdict, EncodeMessage(dns));
    var response := BytesPart(1, EncodeMessage(flow)) + [];
    OnlyBytes(1, EncodeMessage(flow));
    CarriesIff(flow, 3, src);
    CarriesIff(flow, 4, dst);
    CarriesIff(flow, 5, l4);
    CarriesIff(flow, 12, dns);
    CarriesIff(response, 1, flow);
    Parts(response, flow, src, dst, l4, transport, dns)
  }

  /** The round trip: every ordinary observation, encoded without its empty and zero fields, is decoded
      to its own flow, or refused if it names no source namespace. */
  lemma RoundTrip(o: Observation, now: Time)
    requires Ordinary(o)
    ensures Response(EncodeMessage(ResponseParts(o).response), now) ==
            Returned(if o.namespace == [] then None else Some(FlowAbout(o, now)))
  {
    hide Response, ResponseParts, FlowAbout, EncodeMessage;
    ResponseRecovers(ResponseParts(o), now);
  }

  // ----- Arbitrary bytes -----

  predicate Moderate(data: Bytes) {
    |data| < TWO_63 / 2
  }

  /** Within the bounds, a read returns, and what it finds keeps them. */
  lemma ReadKeepsBounds(data: Bytes, k: nat)
    requires Moderate(data) && PrefixesBelow(data, TWO_63 / 2)
    ensures Field(data, k).Returned? && VarintOf(data, k).Returned?
    ensures var inner := Payload(Field(data, k).value); Moderate(inner) && PrefixesBelow(inner, TWO_63 / 2)
  {
    hide Field, VarintOf, PrefixesBelow;
    BoundedReadsReturn(data, k);
    if Field(data, k).value.Some? {
      var a, b :| 0 < a <= b <= |data| && Field(data, k).value.value == data[a..b];
      PrefixesOfSlice(data, a, b, TWO_63 / 2);
    } else {
      PrefixesOfSlice(data, 0, 0, TWO_63 / 2);
    }
  }

  lemma FlowReturns(data: Bytes)
    requires Moderate(data) && PrefixesBelow(data, TWO_63 / 2)
    ensures ObservationIn(data).Returned?
  {
    hide Field, VarintOf, PrefixesBelow, Moderate;
    forall k: nat ensures Field(data, k).Returned? && VarintOf(data, k).Returned? { ReadKeepsBounds(data, k); }
    var src, dst, l4, dns := Payload(Field(data, 3).value), Payload(Field(data, 4).value),
                             Payload(Field(data, 5).value), Payload(Field(data, 12).value);
    ReadKeepsBounds(data, 3);
    ReadKeepsBounds(data, 4);
    ReadKeepsBounds(data, 5);
    ReadKeepsBounds(data, 12);
    ReadKeepsBounds(src, 1);
    ReadKeepsBounds(src, 3);
    ReadKeepsBounds(dst, 1);
    ReadKeepsBounds(dst, 6);
    ReadKeepsBounds(l4, 1);
    ReadKeepsBounds(l4, 2);
    ReadKeepsBounds(dns, 3);
    ReadKeepsBounds(Payload(Field(l4, 1).value), 2);
    ReadKeepsBounds(Payload(Field(l4, 2).value), 2);
  }

  /** On arbitrary bytes below 2^62 in number and in their length prefixes, the whole decoder returns:
      no read at any level panics or runs forever. */
  lemma ResponseReturns(data: Bytes, now: Time)
    requires Moderate(data) && PrefixesBelow(data, TWO_63 / 2)
    ensures Response(data, now).Returned?
  {
    hide Field, PrefixesBelow, Moderate, ObservationIn;
    ReadKeepsBounds(data, 1);
    if Field(data, 1).value.Some? { FlowReturns(Field(data, 1).value.value); }
  }
}
