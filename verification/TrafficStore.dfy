/** The persisted traffic log: byte-encoded keys and values in an ordered map, queried in time buckets. */
module TrafficStore {
  import opened Bytes
  import opened Sums

  const SECOND: int := 1_000_000_000

  /** Nanoseconds from the zero time (1 January of year 1) to the Unix epoch. */
  const ZERO_OFFSET: int := 62_135_596_800 * 1_000_000_000
  const ZERO_UNIX: int64 := -62_135_596_800

  const COLON: byte := 58

  type Id = seq<byte>
  type Key = seq<byte>
  type Bucket = map<Key, seq<byte>>

  // ---------------------------------------------------------------- keys and values

  function KeyOf(id: Id, sec: int64): Key {
    id + [COLON] + EncodeInt64(sec)
  }

  /** The second a key carries; keys too short to carry one count as the zero time. */
  function ExtractSec(key: Key): int64 {
    if |key| < 9 then ZERO_UNIX else DecodeInt64(key[|key| - 8..])
  }

  lemma ExtractAfterMake(id: Id, sec: int64)
    ensures ExtractSec(KeyOf(id, sec)) == sec
  {
    assert KeyOf(id, sec)[|id| + 1..] == EncodeInt64(sec);
    Int64RoundTrip(sec);
  }

  /** Ids of any length and content: the last nine bytes cannot be confused with them. */
  lemma KeysAreInjective(id1: Id, sec1: int64, id2: Id, sec2: int64)
    ensures KeyOf(id1, sec1) == KeyOf(id2, sec2) <==> id1 == id2 && sec1 == sec2
  {
    if KeyOf(id1, sec1) == KeyOf(id2, sec2) {
      ExtractAfterMake(id1, sec1);
      ExtractAfterMake(id2, sec2);
      assert |id1| == |id2|;
      assert KeyOf(id1, sec1)[..|id1|] == id1 && KeyOf(id2, sec2)[..|id2|] == id2;
    }
  }

  function EncodeTotals(bytesIn: int64, bytesOut: int64, conns: int64): (s: seq<byte>)
    ensures |s| == 24
  {
    EncodeInt64(bytesIn) + EncodeInt64(bytesOut) + EncodeInt64(conns)
  }

  function DecodeTotals(val: seq<byte>): Totals {
    if |val| < 24 then NOTHING
    else Totals(DecodeInt64(val[0..8]), DecodeInt64(val[8..16]), DecodeInt64(val[16..24]))
  }

  lemma TotalsRoundTrip(bytesIn: int64, bytesOut: int64, conns: int64)
    ensures DecodeTotals(EncodeTotals(bytesIn, bytesOut, conns)) == Totals(bytesIn, bytesOut, conns)
  {
    var s := EncodeTotals(bytesIn, bytesOut, conns);
    assert s[0..8] == EncodeInt64(bytesIn) && s[8..16] == EncodeInt64(bytesOut) && s[16..24] == EncodeInt64(conns);
    Int64RoundTrip(bytesIn);
    Int64RoundTrip(bytesOut);
    Int64RoundTrip(conns);
  }

  lemma JoinAt(s: seq<byte>, i: nat, j: nat)
    requires i <= j <= |s|
    ensures s[..j] == s[..i] + s[i..j]
  {
  }

  method MakeKey(id: Id, sec: int64) returns (key: Key)
    ensures key == KeyOf(id, sec)
  {
    var buf := new byte[|id| + 9];
    var i := 0;
    while i < |id|
      invariant 0 <= i <= |id| && buf[..i] == id[..i]
    {
      buf[i] := id[i];
      i := i + 1;
    }
    buf[|id|] := COLON;
    assert buf[..|id| + 1] == id + [COLON];
    PutInt64(buf, |id| + 1, sec);
    key := buf[..];
    assert key == buf[..|id| + 1] + buf[|id| + 1..|id| + 9];
  }

  method EncodeValue(bytesIn: int64, bytesOut: int64, conns: int64) returns (val: seq<byte>)
    ensures val == EncodeTotals(bytesIn, bytesOut, conns)
  {
    var buf := new byte[24];
    PutInt64(buf, 0, bytesIn);
    assert buf[..8] == buf[0..8];
    PutInt64(buf, 8, bytesOut);
    JoinAt(buf[..], 8, 16);
    PutInt64(buf, 16, conns);
    JoinAt(buf[..], 16, 24);
    val := buf[..];
  }
}
