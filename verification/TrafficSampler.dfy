/** From counters that may reset to deltas, once a second for display and once a minute for the log. */
module TrafficSampler {
  import opened Prelude
  import opened Bytes
  import opened TrafficStore
  import opened TrafficQuery

  const REALTIME_CAP: nat := 600

  /** A counter value as the forwarders report it: a non-negative int64. */
  type Count = x: int | 0 <= x < 0x8000_0000_0000_0000

  datatype Status = Status(id: Id, bytesIn: Count, bytesOut: Count, mappings: Count)

  type Snapshot = seq<Status>

  datatype Pair = Pair(bytesIn: Count, bytesOut: Count)

  datatype TunnelDelta = TunnelDelta(id: Id, bytesIn: Count, bytesOut: Count)

  datatype TrafficSample = TrafficSample(ts: int, bytesIn: int, bytesOut: int, perTunnel: seq<TunnelDelta>)

  /** A counter that went down was reset: then its whole value is new. */
  function Delta(prev: Count, cur: Count): Count {
    if cur - prev < 0 then cur else cur - prev
  }

  function Before(prev: map<Id, Pair>, id: Id): Pair {
    if id in prev then prev[id] else Pair(0, 0)
  }

  function DeltaOf(prev: map<Id, Pair>, st: Status): TunnelDelta {
    var p := Before(prev, st.id);
    TunnelDelta(st.id, Delta(p.bytesIn, st.bytesIn), Delta(p.bytesOut, st.bytesOut))
  }

  predicate IsIdle(d: TunnelDelta) {
    d.bytesIn == 0 && d.bytesOut == 0
  }

  // ---------------------------------------------------------------- sample

  /** The snapshot as a map; a repeated id keeps its last value. */
  function Current(snap: Snapshot): map<Id, Pair>
    decreases |snap|
  {
    if snap == [] then map[]
    else
      var st := snap[|snap| - 1];
      Current(snap[..|snap| - 1])[st.id := Pair(st.bytesIn, st.bytesOut)]
  }

  /** The deltas of a snapshot against the previous one, tunnels without traffic left out. */
  function Active(prev: map<Id, Pair>, snap: Snapshot): seq<TunnelDelta>
    decreases |snap|
  {
    if snap == [] then []
    else
      var d := DeltaOf(prev, snap[|snap| - 1]);
      Active(prev, snap[..|snap| - 1]) + (if IsIdle(d) then [] else [d])
  }

  function SumIn(ds: seq<TunnelDelta>): int
    decreases |ds|
  {
    if ds == [] then 0 else SumIn(ds[..|ds| - 1]) + ds[|ds| - 1].bytesIn
  }

  function SumOut(ds: seq<TunnelDelta>): int
    decreases |ds|
  {
    if ds == [] then 0 else SumOut(ds[..|ds| - 1]) + ds[|ds| - 1].bytesOut
  }

  lemma SumsSnoc(ds: seq<TunnelDelta>, d: TunnelDelta)
    ensures SumIn(ds + [d]) == SumIn(ds) + d.bytesIn
    ensures SumOut(ds + [d]) == SumOut(ds) + d.bytesOut
  {
    assert (ds + [d])[..|ds|] == ds;
  }

  lemma OneMoreTunnel(prev: map<Id, Pair>, snap: Snapshot, st: Status)
    ensures var d, ds := DeltaOf(prev, st), Active(prev, snap);
            && Current(snap + [st]) == Current(snap)[st.id := Pair(st.bytesIn, st.bytesOut)]
            && Active(prev, snap + [st]) == (if IsIdle(d) then ds else ds + [d])
            && SumIn(Active(prev, snap + [st])) == SumIn(ds) + d.bytesIn
            && SumOut(Active(prev, snap + [st])) == SumOut(ds) + d.bytesOut
  {
    assert (snap + [st])[..|snap|] == snap;
    SumsSnoc(Active(prev, snap), DeltaOf(prev, st));
  }

  // ---------------------------------------------------------------- flush

  /** One attempted Record call: when, for whom, how much, and whether the store accepted it. */
  datatype Write = Write(id: Id, sec: int64, bytesIn: Count, bytesOut: Count, conns: Count, ok: bool)

  /** The moment and outcome of the i-th Record call of a flush. */
  type Calls = nat -> (int64, bool)

  /** The Record calls a flush makes for a snapshot, in order. */
  function Writes(last: map<Id, Pair>, snap: Snapshot, calls: Calls): seq<Write>
    decreases |snap|
  {
    if snap == [] then []
    else
      var i := |snap| - 1;
      var init := snap[..i];
      var d := DeltaOf(Flushed(last, init), snap[i]);
      Writes(last, init, calls) +
      (if IsIdle(d) then [] else [Write(d.id, calls(i).0, d.bytesIn, d.bytesOut, snap[i].mappings, calls(i).1)])
  }

  /** lastFlushed after a flush: updated tunnel by tunnel, never forgetting one. */
  function Flushed(last: map<Id, Pair>, snap: Snapshot): map<Id, Pair>
    decreases |snap|
  {
    if snap == [] then last
    else
      var st := snap[|snap| - 1];
      Flushed(last, snap[..|snap| - 1])[st.id := Pair(st.bytesIn, st.bytesOut)]
  }

  /** The log after the accepted writes, in order. */
  function Logged(db: Bucket, ws: seq<Write>): Bucket
    decreases |ws|
  {
    if ws == [] then db
    else
      var w := ws[|ws| - 1];
      var before := Logged(db, ws[..|ws| - 1]);
      if w.ok then before[KeyOf(w.id, w.sec) := EncodeTotals(w.bytesIn, w.bytesOut, w.conns)] else before
  }

  /** What the i-th tunnel of a flush adds. */
  lemma WritesOneMore(last: map<Id, Pair>, snap: Snapshot, i: nat, calls: Calls, db: Bucket)
    requires i < |snap|
    ensures var before := Flushed(last, snap[..i]);
            var d := DeltaOf(before, snap[i]);
            var log := Logged(db, Writes(last, snap[..i], calls));
            && Flushed(last, snap[..i + 1]) == before[snap[i].id := Pair(snap[i].bytesIn, snap[i].bytesOut)]
            && Logged(db, Writes(last, snap[..i + 1], calls)) ==
               if IsIdle(d) || !calls(i).1 then log
               else log[KeyOf(d.id, calls(i).0) := EncodeTotals(d.bytesIn, d.bytesOut, snap[i].mappings)]
  {
    assert snap[..i + 1][..i] == snap[..i];
    var d := DeltaOf(Flushed(last, snap[..i]), snap[i]);
    var ws := Writes(last, snap[..i], calls);
    var w := Write(d.id, calls(i).0, d.bytesIn, d.bytesOut, snap[i].mappings, calls(i).1);
    assert (ws + [w])[..|ws|] == ws;
    if IsIdle(d) {
      assert Writes(last, snap[..i + 1], calls) == ws;
    } else {
      assert Writes(last, snap[..i + 1], calls) == ws + [w];
    }
  }

  class Sampler {
    var samples: seq<TrafficSample>
    var prev: map<Id, Pair>
    var lastFlushed: map<Id, Pair>
    /** Every sample ever taken. */
    ghost var taken: seq<TrafficSample>

    ghost predicate Valid()
      reads this
    {
      samples == LastN(taken, REALTIME_CAP)
    }

    constructor ()
      ensures Valid() && taken == [] && prev == map[] && lastFlushed == map[]
    {
      samples, prev, lastFlushed, taken := [], map[], map[], [];
    }

    /** The delta of one tunnel against an earlier value, with the reset rule. */
    static method Subtract(prev: map<Id, Pair>, st: Status) returns (dIn: Count, dOut: Count)
      ensures TunnelDelta(st.id, dIn, dOut) == DeltaOf(prev, st)
    {
      var p := Before(prev, st.id);
      var i, o := st.bytesIn - p.bytesIn, st.bytesOut - p.bytesOut;
      if i < 0 {
        i := st.bytesIn;
      }
      if o < 0 {
        o := st.bytesOut;
      }
      dIn, dOut := i, o;
    }

    /** The loop of sample has come so far. */
    static ghost predicate Summed(
        prev: map<Id, Pair>, seen: Snapshot, curr: map<Id, Pair>, perTunnel: seq<TunnelDelta>, deltaIn: int, deltaOut: int) {
      && curr == Current(seen) && perTunnel == Active(prev, seen)
      && deltaIn == SumIn(Active(prev, seen)) && deltaOut == SumOut(Active(prev, seen))
    }

    static lemma OneMoreSummed(
        prev: map<Id, Pair>, seen: Snapshot, st: Status, curr: map<Id, Pair>, perTunnel: seq<TunnelDelta>, deltaIn: int, deltaOut: int)
      requires Summed(prev, seen, curr, perTunnel, deltaIn, deltaOut)
      ensures var d := DeltaOf(prev, st);
              Summed(prev, seen + [st], curr[st.id := Pair(st.bytesIn, st.bytesOut)],
                     if IsIdle(d) then perTunnel else perTunnel + [d], deltaIn + d.bytesIn, deltaOut + d.bytesOut)
    {
      OneMoreTunnel(prev, seen, st);
    }

    /** The loop of sample: the new snapshot map, the active tunnels and the two totals. */
    method Diff(statuses: Snapshot)
      returns (curr: map<Id, Pair>, perTunnel: seq<TunnelDelta>, deltaIn: int, deltaOut: int)
      ensures Summed(prev, statuses, curr, perTunnel, deltaIn, deltaOut)
    {
      curr, perTunnel, deltaIn, deltaOut := map[], [], 0, 0;
      ghost var seen: Snapshot := [];
      var i := 0;
      while i < |statuses|
        invariant |seen| == i && seen <= statuses
        invariant Summed(prev, seen, curr, perTunnel, deltaIn, deltaOut)
      {
        var st := statuses[i];
        var dIn, dOut := Subtract(prev, st);
        OneMoreSummed(prev, seen, st, curr, perTunnel, deltaIn, deltaOut);
        curr := curr[st.id := Pair(st.bytesIn, st.bytesOut)];
        deltaIn, deltaOut := deltaIn + dIn, deltaOut + dOut;
        if dIn > 0 || dOut > 0 {
          perTunnel := perTunnel + [TunnelDelta(st.id, dIn, dOut)];
        }
        i, seen := i + 1, seen + [st];
      }
      assert seen == statuses;
    }

    method Sample(statuses: Snapshot, now: int)
      requires Valid()
      modifies this
      ensures Valid() && prev == Current(statuses) && lastFlushed == old(lastFlushed)
      ensures var ds := Active(old(prev), statuses);
              taken == old(taken) + [TrafficSample(now, SumIn(ds), SumOut(ds), ds)]
    {
      var curr, perTunnel, deltaIn, deltaOut := Diff(statuses);
      prev := curr;
      Keep(TrafficSample(now, deltaIn, deltaOut, perTunnel));
    }

    /** One more sample; of those there are, the last are kept. */
    method Keep(s: TrafficSample)
      requires Valid()
      modifies this`samples, this`taken
      ensures Valid() && taken == old(taken) + [s]
    {
      LastNAbsorbs(taken, [s], REALTIME_CAP);
      samples := samples + [s];
      if |samples| > REALTIME_CAP {
        samples := samples[|samples| - REALTIME_CAP..];
      }
      taken := taken + [s];
    }

    /** Without a recorder nothing happens; a refused Record is not retried. */
    method Flush(statuses: Snapshot, recorder: Store?, calls: Calls)
      modifies this`lastFlushed, recorder
      ensures recorder == null ==> lastFlushed == old(lastFlushed)
      ensures recorder != null ==> lastFlushed == Flushed(old(lastFlushed), statuses)
      ensures recorder != null ==> recorder.db == Logged(old(recorder.db), Writes(old(lastFlushed), statuses, calls))
    {
      if recorder == null {
        return;
      }
      ghost var last, db := lastFlushed, recorder.db;
      var i := 0;
      while i < |statuses|
        invariant 0 <= i <= |statuses|
        invariant lastFlushed == Flushed(last, statuses[..i])
        invariant recorder.db == Logged(db, Writes(last, statuses[..i], calls))
      {
        WritesOneMore(last, statuses, i, calls, db);
        FlushOne(statuses[i], recorder, calls(i).0, calls(i).1);
        i := i + 1;
      }
      assert statuses[..i] == statuses;
    }

    method FlushOne(st: Status, recorder: Store, sec: int64, ok: bool)
      modifies this`lastFlushed, recorder
      ensures lastFlushed == old(lastFlushed)[st.id := Pair(st.bytesIn, st.bytesOut)]
      ensures var d := DeltaOf(old(lastFlushed), st);
              recorder.db == if IsIdle(d) || !ok then old(recorder.db)
                             else old(recorder.db)[KeyOf(d.id, sec) := EncodeTotals(d.bytesIn, d.bytesOut, st.mappings)]
    {
      var dIn, dOut := Subtract(lastFlushed, st);
      if (dIn > 0 || dOut > 0) && ok {
        recorder.Record(st.id, dIn, dOut, st.mappings, sec);
      }
      lastFlushed := lastFlushed[st.id := Pair(st.bytesIn, st.bytesOut)];
    }

    method GetRealtime() returns (out: seq<TrafficSample>)
      requires Valid()
      ensures out == LastN(taken, REALTIME_CAP)
    {
      out := samples;
    }
  }
}
