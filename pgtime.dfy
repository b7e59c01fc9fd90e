/** PostgreSQL protocol timestamps (microseconds since 2000-01-01 00:00:00
    UTC) and their conversion to Go wall-clock time. */
module PgTime {
  import opened GoInt

  const MicroInSecond: int := 1_000_000
  /** Nanoseconds per microsecond (the source calls this constant `nsInSecond`). */
  const NsInMicro: int := 1_000
  const NsInSecond: int := 1_000_000_000
  /** Microseconds from 1970-01-01 to 2000-01-01. */
  const MicrosecFromUnixEpochToY2K: int := 946684800 * 1000000

  /** A Go `time.Time` as the pair Unix seconds, nanoseconds within the second. */
  datatype Time = Time(sec: int, nsec: int)

  /** Go's zero `time.Time{}`: 0001-01-01 00:00:00 UTC. */
  const ZeroTime: Time := Time(-62135596800, 0)

  /** Go's `time.Unix(sec, nsec)`: a nanosecond count outside [0, 1e9) is
      carried into the seconds. */
  function Unix(sec: int, nsec: int): (t: Time)
    ensures 0 <= t.nsec < NsInSecond
    ensures t.sec * NsInSecond + t.nsec == sec * NsInSecond + nsec
    ensures 0 <= nsec < NsInSecond ==> t == Time(sec, nsec)
  {
    if nsec < 0 || nsec >= NsInSecond then
      var n := Quo(nsec, NsInSecond);
      var s := sec + n;
      var ns := nsec - n * NsInSecond;
      if ns < 0 then Time(s - 1, ns + NsInSecond) else Time(s, ns)
    else
      Time(sec, nsec)
  }

  /** `micro` in PGTime2Time: the microseconds since the Unix epoch, computed
      in `int64` after converting the `uint64` timestamp with `int64(ts)`. */
  function Micro(ts: U64): I64 {
    WrapI64(MicrosecFromUnixEpochToY2K + I64OfU64(ts))
  }

  /** PGTime2Time: the instant `ts` microseconds after 2000-01-01 UTC. */
  function PGTime2Time(ts: U64): (t: Time)
    ensures 0 <= t.nsec < NsInSecond
    ensures t.sec * NsInSecond + t.nsec == Micro(ts) * NsInMicro
  {
    var micro := Micro(ts);
    Unix(Quo(micro, MicroInSecond), Rem(micro, MicroInSecond) * NsInMicro)
  }

  /** Timestamp 0 is the PostgreSQL epoch itself. */
  lemma PGTimeOfZero()
    ensures PGTime2Time(0) == Time(946684800, 0)
  {
  }

  /** One million microseconds is exactly one second later. */
  lemma PGTimeOfOneSecond()
    ensures PGTime2Time(1000000) == Time(946684801, 0)
  {
  }

  /** While `micro` stays within `int64`, the conversion keeps microsecond
      precision: the nanoseconds are a whole number of microseconds and the
      microseconds since the Unix epoch are recovered exactly. */
  lemma PGTimeExact(ts: U64)
    requires ts < TwoTo63 - MicrosecFromUnixEpochToY2K
    ensures var t := PGTime2Time(ts);
      && 0 <= t.nsec < NsInSecond
      && t.nsec % NsInMicro == 0
      && t.sec * MicroInSecond + t.nsec / NsInMicro == MicrosecFromUnixEpochToY2K + ts
  {
    var micro := Micro(ts);
    assert micro == MicrosecFromUnixEpochToY2K + ts;
    assert PGTime2Time(ts) == Time(micro / MicroInSecond, (micro % MicroInSecond) * NsInMicro);
  }

  /** The conversion is monotone over the timestamps that do not overflow. */
  lemma PGTimeMonotone(a: U64, b: U64)
    requires a <= b < TwoTo63 - MicrosecFromUnixEpochToY2K
    ensures var ta, tb := PGTime2Time(a), PGTime2Time(b);
      ta.sec < tb.sec || (ta.sec == tb.sec && ta.nsec <= tb.nsec)
  {
    PGTimeExact(a);
    PGTimeExact(b);
  }

  /** A timestamp at or above 2^63 turns negative in `int64(ts)`: the largest
      `uint64` timestamp converts to one microsecond before 2000-01-01. */
  lemma PGTimeOfMaxUint64()
    ensures PGTime2Time(TwoTo64 - 1) == Time(946684799, 999999000)
  {
  }
}
