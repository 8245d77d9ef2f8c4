/** Entities shared by every component: flows, aggregated destinations and snapshots
    (internal/observer/flow.go, internal/observer/accumulator.go), and Go's machine integers. */
module Base {

  const TWO_32: nat := 0x1_0000_0000
  const TWO_63: nat := 0x8000_0000_0000_0000
  const TWO_64: nat := 0x1_0000_0000_0000_0000

  type U32 = n: nat | n < 0x1_0000_0000
  type U64 = n: nat | n < 0x1_0000_0000_0000_0000
  type I64 = n: int | -0x8000_0000_0000_0000 <= n < 0x8000_0000_0000_0000

  /** Go's uint64 arithmetic wraps modulo 2^64. */
  function WrapU64(n: nat): U64 {
    n % TWO_64
  }

  /** Go's int (64 bits here) wraps into the two's complement range. */
  function WrapI64(n: int): I64 {
    (n + TWO_63) % TWO_64 - TWO_63
  }

  datatype Option<+T> = None | Some(value: T)

  /** An instant, in nanoseconds since some fixed epoch. */
  type Time = int

  datatype Flow = Flow(
    sourceNamespace: string, sourcePod: string, sourceWorkload: string,
    destFqdn: string, destIp: string, destPort: U32, protocol: string,
    verdict: string, bytes: U64, timestamp: Time)

  datatype DestKey = DestKey(workload: string, fqdn: string, ip: string, port: U32, proto: string)

  datatype DestEntry = DestEntry(
    workload: string, destFqdn: string, destIp: string, destPort: U32, protocol: string,
    firstSeen: Time, lastSeen: Time, flowCount: U64, bytes: U64, snapshots: I64)

  datatype Snapshot = Snapshot(workloadKey: string, destinations: seq<DestEntry>, truncated: bool)

  /** The value GetSnapshot returns when no baseline was ever stored. */
  const EMPTY_SNAPSHOT := Snapshot("", [], false)

  datatype Risk = Low | Medium | High

  function Rank(r: Risk): nat {
    match r case Low => 0 case Medium => 1 case High => 2
  }

  predicate NoDuplicates<T(==)>(s: seq<T>) {
    forall i, j :: 0 <= i < j < |s| ==> s[i] != s[j]
  }
}
