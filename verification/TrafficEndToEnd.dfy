/** What the counters said, what the samples and the log hold, and what a query reports. */
module TrafficEndToEnd {
  import opened Prelude
  import opened Sums
  import opened TrafficStore
  import opened TrafficQuery
  import opened TrafficSampler

  // ---------------------------------------------------------------- one counter over time

  /** A counter as successive snapshots show it; None where the tunnel is missing. */
  type Series = seq<Option<Count>>

  /** The deltas the sampler takes, starting from a remembered value; a missing tunnel is forgotten. */
  function DeltaSum(prev: Option<Count>, s: Series): nat
    decreases |s|
  {
    if s == [] then 0
    else (if s[0].Some? then Delta(if prev.Some? then prev.value else 0, s[0].value) else 0) + DeltaSum(s[0], s[1..])
  }

  /** Whether the first value starts or continues a run that the second one continues. */
  predicate Continues(a: Option<Count>, b: Option<Count>) {
    a.Some? && b.Some? && b.value >= a.value
  }

  /** The sum of the last values of the maximal non-decreasing runs. */
  function RunEnds(s: Series): nat {
    if s == [] then 0
    else (if s[0].Some? && !(|s| > 1 && Continues(s[0], s[1])) then s[0].value else 0) + RunEnds(s[1..])
  }

  lemma {:induction false} DeltasFromAPrevious(prev: Option<Count>, s: Series)
    ensures DeltaSum(prev, s) + (if prev.Some? then prev.value else 0) == RunEnds([prev] + s)
    decreases |s|
  {
    assert ([prev] + s)[1..] == s;
    if s == [] {
      assert RunEnds([prev]) == (if prev.Some? then prev.value else 0) + RunEnds([prev][1..]);
    } else {
      DeltasFromAPrevious(s[0], s[1..]);
      assert [s[0]] + s[1..] == s;
    }
  }

  /** For every counter history: the deltas telescope to the ends of its non-decreasing runs. */
  lemma {:induction false} DeltasTelescope(s: Series)
    ensures DeltaSum(None, s) == RunEnds(s)
  {
    DeltasFromAPrevious(None, s);
    assert ([None] + s)[1..] == s;
  }

  // ---------------------------------------------------------------- coarse and fine snapshots

  /** `coarse` arises from `fine` by skipping snapshots. */
  ghost predicate Thins<T>(fine: seq<T>, coarse: seq<T>)
    decreases |fine|
  {
    coarse == [] ||
    (fine != [] && ((fine[0] == coarse[0] && Thins(fine[1..], coarse[1..])) || Thins(fine[1..], coarse)))
  }

  function Deltas(prev: Count, s: seq<Count>): nat
    decreases |s|
  {
    if s == [] then 0 else Delta(prev, s[0]) + Deltas(s[0], s[1..])
  }

  lemma DetourCostsNoLess(prev: Count, via: Count, s: seq<Count>)
    ensures Deltas(prev, s) <= Delta(prev, via) + Deltas(via, s)
  {
  }

  /** Looking less often never reports more, whatever resets happened in between. */
  lemma {:induction false} CoarseNeverOverReports(prev: Count, fine: seq<Count>, coarse: seq<Count>)
    requires Thins(fine, coarse)
    ensures Deltas(prev, coarse) <= Deltas(prev, fine)
    decreases |fine|
  {
    if coarse != [] {
      if fine[0] == coarse[0] && Thins(fine[1..], coarse[1..]) {
        CoarseNeverOverReports(fine[0], fine[1..], coarse[1..]);
      } else {
        CoarseNeverOverReports(fine[0], fine[1..], coarse);
        DetourCostsNoLess(prev, fine[0], coarse);
      }
    }
  }

  ghost predicate Ascending(prev: Count, s: seq<Count>)
    decreases |s|
  {
    s == [] || (prev <= s[0] && Ascending(s[0], s[1..]))
  }

  lemma {:induction false} AscendingDeltas(prev: Count, s: seq<Count>)
    requires Ascending(prev, s)
    ensures Deltas(prev, s) == (if s == [] then 0 else s[|s| - 1] - prev)
    ensures s != [] ==> prev <= s[|s| - 1]
    decreases |s|
  {
    if s != [] {
      AscendingDeltas(s[0], s[1..]);
    }
  }

  lemma {:induction false} ThinnedIsAscending(prev: Count, fine: seq<Count>, coarse: seq<Count>)
    requires Ascending(prev, fine) && Thins(fine, coarse)
    ensures Ascending(prev, coarse)
    decreases |fine|
  {
    if coarse != [] {
      if fine[0] == coarse[0] && Thins(fine[1..], coarse[1..]) {
        ThinnedIsAscending(fine[0], fine[1..], coarse[1..]);
      } else {
        ThinnedIsAscending(fine[0], fine[1..], coarse);
      }
    }
  }

  /** Without resets, and looking last at the same moment, it reports exactly the same. */
  lemma CoarseIsExactWithoutResets(prev: Count, fine: seq<Count>, coarse: seq<Count>)
    requires Thins(fine, coarse) && Ascending(prev, fine)
    requires coarse != [] && coarse[|coarse| - 1] == fine[|fine| - 1]
    ensures Deltas(prev, coarse) == Deltas(prev, fine)
  {
    ThinnedIsAscending(prev, fine, coarse);
    AscendingDeltas(prev, fine);
    AscendingDeltas(prev, coarse);
  }

  /** The sampler's deltas over a tunnel that is always there are the plain ones. */
  lemma {:induction false} AlwaysPresent(prev: Option<Count>, s: seq<Count>)
    ensures DeltaSum(prev, Shown(s)) == Deltas(if prev.Some? then prev.value else 0, s)
    decreases |s|
  {
    if s != [] {
      AlwaysPresent(Some(s[0]), s[1..]);
      assert Shown(s)[1..] == Shown(s[1..]);
    }
  }

  function Shown(s: seq<Count>): (r: Series)
    ensures |r| == |s| && forall i :: 0 <= i < |s| ==> r[i] == Some(s[i])
  {
    seq(|s|, i requires 0 <= i < |s| => Some(s[i]))
  }

  // ---------------------------------------------------------------- whole sampler runs

  datatype Dir = In | Out

  function OfPair(p: Pair, d: Dir): Count {
    match d case In => p.bytesIn case Out => p.bytesOut
  }

  function OfDelta(t: TunnelDelta, d: Dir): Count {
    match d case In => t.bytesIn case Out => t.bytesOut
  }

  ghost predicate UniqueIds(snap: Snapshot) {
    forall i, j :: 0 <= i < j < |snap| ==> snap[i].id != snap[j].id
  }

  function CounterIn(m: map<Id, Pair>, id: Id, d: Dir): Option<Count> {
    if id in m then Some(OfPair(m[id], d)) else None
  }

  /** A tunnel's counter in each snapshot. */
  function SeriesOf(snaps: seq<Snapshot>, id: Id, d: Dir): (r: Series)
    ensures |r| == |snaps|
  {
    seq(|snaps|, i requires 0 <= i < |snaps| => CounterIn(Current(snaps[i]), id, d))
  }

  /** The entry of one tunnel in a sample, 0 when it was idle or missing. */
  function ShareOf(ds: seq<TunnelDelta>, id: Id, d: Dir): nat
    decreases |ds|
  {
    if ds == [] then 0
    else ShareOf(ds[..|ds| - 1], id, d) + (if ds[|ds| - 1].id == id then OfDelta(ds[|ds| - 1], d) else 0)
  }

  ghost predicate Absent(snap: Snapshot, id: Id) {
    forall i :: 0 <= i < |snap| ==> snap[i].id != id
  }

  lemma ShareSnoc(ds: seq<TunnelDelta>, e: TunnelDelta, id: Id, d: Dir)
    ensures ShareOf(ds + [e], id, d) == ShareOf(ds, id, d) + if e.id == id then OfDelta(e, d) else 0
    ensures ds + [] == ds
  {
    assert (ds + [e])[..|ds|] == ds;
  }

  /** What the last tunnel of a snapshot adds to a share. */
  lemma ActiveSnoc(prev: map<Id, Pair>, snap: Snapshot, id: Id, d: Dir)
    requires snap != []
    ensures var st := snap[|snap| - 1];
            ShareOf(Active(prev, snap), id, d) ==
            ShareOf(Active(prev, snap[..|snap| - 1]), id, d) + if st.id == id then OfDelta(DeltaOf(prev, st), d) else 0
  {
    ShareSnoc(Active(prev, snap[..|snap| - 1]), DeltaOf(prev, snap[|snap| - 1]), id, d);
  }

  lemma CurrentSnoc(snap: Snapshot, id: Id, d: Dir)
    requires snap != []
    ensures var st := snap[|snap| - 1];
            CounterIn(Current(snap), id, d) ==
            if st.id == id then Some(OfPair(Pair(st.bytesIn, st.bytesOut), d)) else CounterIn(Current(snap[..|snap| - 1]), id, d)
  {
  }

  lemma {:induction false} NoShareWhenAbsent(prev: map<Id, Pair>, snap: Snapshot, id: Id, d: Dir)
    requires Absent(snap, id)
    ensures ShareOf(Active(prev, snap), id, d) == 0
    decreases |snap|
  {
    if snap != [] {
      NoShareWhenAbsent(prev, snap[..|snap| - 1], id, d);
      ActiveSnoc(prev, snap, id, d);
    }
  }

  /** The delta due to one tunnel, None where the snapshot does not show it. */
  function Due(before: Pair, now: Option<Count>, d: Dir): nat {
    if now.Some? then Delta(OfPair(before, d), now.value) else 0
  }

  lemma UniqueIdsPrefix(snap: Snapshot)
    requires UniqueIds(snap) && snap != []
    ensures UniqueIds(snap[..|snap| - 1]) && Absent(snap[..|snap| - 1], snap[|snap| - 1].id)
  {
  }

  lemma {:induction false} ShareInOneSample(prev: map<Id, Pair>, snap: Snapshot, id: Id, d: Dir)
    requires UniqueIds(snap)
    ensures ShareOf(Active(prev, snap), id, d) == Due(Before(prev, id), CounterIn(Current(snap), id, d), d)
    decreases |snap|
  {
    if snap != [] {
      var init, st := snap[..|snap| - 1], snap[|snap| - 1];
      UniqueIdsPrefix(snap);
      ActiveSnoc(prev, snap, id, d);
      CurrentSnoc(snap, id, d);
      if st.id == id {
        NoShareWhenAbsent(prev, init, id, d);
      } else {
        ShareInOneSample(prev, init, id, d);
      }
    }
  }

  /** Everything the sampler reports for one tunnel over a run of snapshots. */
  function Sampled(prev: map<Id, Pair>, snaps: seq<Snapshot>, id: Id, d: Dir): nat
    decreases |snaps|
  {
    if snaps == [] then 0
    else ShareOf(Active(prev, snaps[0]), id, d) + Sampled(Current(snaps[0]), snaps[1..], id, d)
  }

  lemma {:induction false} SampledIsDeltaSum(prev: map<Id, Pair>, snaps: seq<Snapshot>, id: Id, d: Dir)
    requires forall i :: 0 <= i < |snaps| ==> UniqueIds(snaps[i])
    ensures Sampled(prev, snaps, id, d) == DeltaSum(CounterIn(prev, id, d), SeriesOf(snaps, id, d))
    decreases |snaps|
  {
    if snaps != [] {
      ShareInOneSample(prev, snaps[0], id, d);
      SampledIsDeltaSum(Current(snaps[0]), snaps[1..], id, d);
      assert SeriesOf(snaps, id, d)[1..] == SeriesOf(snaps[1..], id, d);
    }
  }

  /**
   Over any run of snapshots, what the one-second samples report for a tunnel is
   the sum of the ends of its non-decreasing runs; a run also ends where the
   tunnel is missing.
   */
  lemma SamplesReportRunEnds(snaps: seq<Snapshot>, id: Id, d: Dir)
    requires forall i :: 0 <= i < |snaps| ==> UniqueIds(snaps[i])
    ensures Sampled(map[], snaps, id, d) == RunEnds(SeriesOf(snaps, id, d))
  {
    SampledIsDeltaSum(map[], snaps, id, d);
    DeltasTelescope(SeriesOf(snaps, id, d));
  }

  // ---------------------------------------------------------------- whole flush runs

  /** A series with its gaps closed: flush keeps a missing tunnel's last value. */
  function Present(s: Series): Series {
    if s == [] then [] else (if s[0].Some? then [s[0]] else []) + Present(s[1..])
  }

  /** What a list of writes carries for one tunnel. */
  function WrittenFor(ws: seq<Write>, id: Id, d: Dir): nat
    decreases |ws|
  {
    if ws == [] then 0
    else
      var w := ws[|ws| - 1];
      WrittenFor(ws[..|ws| - 1], id, d) +
      (if w.id == id then (match d case In => w.bytesIn case Out => w.bytesOut) else 0)
  }

  lemma {:induction false} WrittenForAppend(a: seq<Write>, b: seq<Write>, id: Id, d: Dir)
    ensures WrittenFor(a + b, id, d) == WrittenFor(a, id, d) + WrittenFor(b, id, d)
    decreases |b|
  {
    if b == [] {
      assert a + b == a;
    } else {
      var init := b[..|b| - 1];
      WrittenForAppend(a, init, id, d);
      assert (a + b)[..|a + b| - 1] == a + init;
    }
  }

  lemma NothingWrittenWhenAbsent(last: map<Id, Pair>, snap: Snapshot, calls: Calls, id: Id, d: Dir)
    requires Absent(snap, id)
    ensures WrittenFor(Writes(last, snap, calls), id, d) == 0
    ensures id !in Current(snap) && CounterIn(Flushed(last, snap), id, d) == CounterIn(last, id, d)
    ensures Before(Flushed(last, snap), id) == Before(last, id)
    decreases |snap|
  {
    if snap != [] {
      var init := snap[..|snap| - 1];
      NothingWrittenWhenAbsent(last, init, calls, id, d);
      WritesSnoc(last, snap, calls, id, d);
    }
  }

  lemma WritesSnoc(last: map<Id, Pair>, snap: Snapshot, calls: Calls, id: Id, d: Dir)
    requires snap != []
    ensures var init, st := snap[..|snap| - 1], snap[|snap| - 1];
            WrittenFor(Writes(last, snap, calls), id, d) ==
            WrittenFor(Writes(last, init, calls), id, d) +
            if st.id == id then OfDelta(DeltaOf(Flushed(last, init), st), d) else 0
  {
    var i := |snap| - 1;
    var e := DeltaOf(Flushed(last, snap[..i]), snap[i]);
    var ws := Writes(last, snap[..i], calls);
    var w := Write(e.id, calls(i).0, e.bytesIn, e.bytesOut, snap[i].mappings, calls(i).1);
    assert (ws + [w])[..|ws|] == ws;
    assert ws + [] == ws;
  }

  lemma {:induction false} OneFlushRemembers(last: map<Id, Pair>, snap: Snapshot, id: Id, d: Dir)
    ensures CounterIn(Flushed(last, snap), id, d) ==
            if CounterIn(Current(snap), id, d).Some? then CounterIn(Current(snap), id, d) else CounterIn(last, id, d)
    decreases |snap|
  {
    if snap != [] {
      OneFlushRemembers(last, snap[..|snap| - 1], id, d);
    }
  }

  /** The tunnel that comes last in a snapshot: nothing was written for it before. */
  lemma LastTunnelWritten(last: map<Id, Pair>, snap: Snapshot, calls: Calls, d: Dir)
    requires UniqueIds(snap) && snap != []
    ensures var st := snap[|snap| - 1];
            WrittenFor(Writes(last, snap, calls), st.id, d) == Due(Before(last, st.id), CounterIn(Current(snap), st.id, d), d)
  {
    var init, st := snap[..|snap| - 1], snap[|snap| - 1];
    UniqueIdsPrefix(snap);
    NothingWrittenWhenAbsent(last, init, calls, st.id, d);
    WritesSnoc(last, snap, calls, st.id, d);
    assert CounterIn(Current(snap), st.id, d) == Some(OfPair(Pair(st.bytesIn, st.bytesOut), d));
  }

  lemma {:induction false} OneFlushWrites(last: map<Id, Pair>, snap: Snapshot, calls: Calls, id: Id, d: Dir)
    requires UniqueIds(snap)
    ensures WrittenFor(Writes(last, snap, calls), id, d) == Due(Before(last, id), CounterIn(Current(snap), id, d), d)
    decreases |snap|
  {
    if snap != [] {
      var init, st := snap[..|snap| - 1], snap[|snap| - 1];
      if st.id == id {
        LastTunnelWritten(last, snap, calls, d);
      } else {
        UniqueIdsPrefix(snap);
        OneFlushWrites(last, init, calls, id, d);
        WritesSnoc(last, snap, calls, id, d);
        assert CounterIn(Current(snap), id, d) == CounterIn(Current(init), id, d);
      }
    }
  }

  /** All writes of a run of flushes. */
  function AllWrites(last: map<Id, Pair>, snaps: seq<Snapshot>, calls: nat -> Calls): seq<Write>
    decreases |snaps|
  {
    if snaps == [] then []
    else
      var n := |snaps| - 1;
      AllWrites(last, snaps[..n], calls) + Writes(AllFlushed(last, snaps[..n]), snaps[n], calls(n))
  }

  function AllFlushed(last: map<Id, Pair>, snaps: seq<Snapshot>): map<Id, Pair>
    decreases |snaps|
  {
    if snaps == [] then last else Flushed(AllFlushed(last, snaps[..|snaps| - 1]), snaps[|snaps| - 1])
  }

  lemma {:induction false} PresentSnoc(s: Series, x: Option<Count>)
    ensures Present(s + [x]) == Present(s) + (if x.Some? then [x] else [])
  {
    if s != [] {
      PresentSnoc(s[1..], x);
      assert (s + [x])[1..] == s[1..] + [x];
    } else {
      assert [x][1..] == [];
    }
  }

  lemma {:induction false} DeltaSumSnoc(prev: Option<Count>, s: Series, x: Count)
    requires forall i :: 0 <= i < |s| ==> s[i].Some?
    ensures DeltaSum(prev, s + [Some(x)]) ==
            DeltaSum(prev, s) + Delta(if s != [] then s[|s| - 1].value else if prev.Some? then prev.value else 0, x)
    decreases |s|
  {
    if s != [] {
      DeltaSumSnoc(s[0], s[1..], x);
      assert (s + [Some(x)])[1..] == s[1..] + [Some(x)];
    } else {
      assert [Some(x)][1..] == [];
    }
  }

  lemma {:induction false} PresentIsPresent(s: Series)
    ensures forall i :: 0 <= i < |Present(s)| ==> Present(s)[i].Some?
  {
    if s != [] {
      PresentIsPresent(s[1..]);
    }
  }

  /** What the log's writes and lastFlushed know of one counter, given its history. */
  ghost predicate Tells(written: nat, last: Option<Count>, s: Series) {
    && written == DeltaSum(None, s)
    && last == (if s == [] then None else s[|s| - 1])
  }

  lemma TellsOneMore(written: nat, last: Option<Count>, s: Series, x: Option<Count>)
    requires Tells(written, last, Present(s))
    ensures Tells(written + (if x.Some? then Delta(if last.Some? then last.value else 0, x.value) else 0),
                  if x.Some? then x else last, Present(s + [x]))
  {
    PresentSnoc(s, x);
    PresentIsPresent(s);
    assert Present(s) + [] == Present(s);
    if x.Some? {
      DeltaSumSnoc(None, Present(s), x.value);
    }
  }

  /** One more flush writes what one more counter value adds. */
  lemma FlushOnce(before: seq<Write>, last: map<Id, Pair>, snap: Snapshot, call: Calls, id: Id, d: Dir, s: Series)
    requires UniqueIds(snap)
    requires Tells(WrittenFor(before, id, d), CounterIn(last, id, d), Present(s))
    ensures Tells(WrittenFor(before + Writes(last, snap, call), id, d), CounterIn(Flushed(last, snap), id, d),
                  Present(s + [CounterIn(Current(snap), id, d)]))
  {
    OneFlushRemembers(last, snap, id, d);
    OneFlushWrites(last, snap, call, id, d);
    WrittenForAppend(before, Writes(last, snap, call), id, d);
    TellsOneMore(WrittenFor(before, id, d), CounterIn(last, id, d), s, CounterIn(Current(snap), id, d));
  }

  lemma SeriesSnoc(snaps: seq<Snapshot>, id: Id, d: Dir)
    requires snaps != []
    ensures SeriesOf(snaps, id, d) ==
            SeriesOf(snaps[..|snaps| - 1], id, d) + [CounterIn(Current(snaps[|snaps| - 1]), id, d)]
  {
  }

  lemma FlushSnoc(snaps: seq<Snapshot>, calls: nat -> Calls)
    requires snaps != []
    ensures var n := |snaps| - 1;
            var last := AllFlushed(map[], snaps[..n]);
            && AllWrites(map[], snaps, calls) == AllWrites(map[], snaps[..n], calls) + Writes(last, snaps[n], calls(n))
            && AllFlushed(map[], snaps) == Flushed(last, snaps[n])
  {
  }

  lemma {:induction false} FlushesSoFar(snaps: seq<Snapshot>, calls: nat -> Calls, id: Id, d: Dir)
    requires forall i :: 0 <= i < |snaps| ==> UniqueIds(snaps[i])
    ensures Tells(WrittenFor(AllWrites(map[], snaps, calls), id, d), CounterIn(AllFlushed(map[], snaps), id, d),
                  Present(SeriesOf(snaps, id, d)))
    decreases |snaps|
  {
    if snaps != [] {
      var n := |snaps| - 1;
      var init := snaps[..n];
      FlushesSoFar(init, calls, id, d);
      FlushOnce(AllWrites(map[], init, calls), AllFlushed(map[], init), snaps[n], calls(n), id, d, SeriesOf(init, id, d));
      SeriesSnoc(snaps, id, d);
      FlushSnoc(snaps, calls);
    }
  }

  /**
   Over any run of flushes, what is written for a tunnel is the sum of the ends
   of the non-decreasing runs of its counter; being missing ends no run.
   */
  lemma FlushesWriteRunEnds(snaps: seq<Snapshot>, calls: nat -> Calls, id: Id, d: Dir)
    requires forall i :: 0 <= i < |snaps| ==> UniqueIds(snaps[i])
    ensures WrittenFor(AllWrites(map[], snaps, calls), id, d) == RunEnds(Present(SeriesOf(snaps, id, d)))
  {
    FlushesSoFar(snaps, calls, id, d);
    DeltasTelescope(Present(SeriesOf(snaps, id, d)));
  }

  // ---------------------------------------------------------------- flushing against sampling

  /** The values a series shows, gaps left out. */
  function Counts(s: Series): seq<Count> {
    if s == [] then [] else (if s[0].Some? then [s[0].value] else []) + Counts(s[1..])
  }

  lemma {:induction false} PresentShowsCounts(s: Series)
    ensures Present(s) == Shown(Counts(s))
  {
    if s != [] {
      PresentShowsCounts(s[1..]);
    }
  }

  lemma CountsHeadTail(snaps: seq<Snapshot>, id: Id, d: Dir)
    requires snaps != []
    ensures var x := CounterIn(Current(snaps[0]), id, d);
            Counts(SeriesOf(snaps, id, d)) == (if x.Some? then [x.value] else []) + Counts(SeriesOf(snaps[1..], id, d))
  {
    assert SeriesOf(snaps, id, d)[1..] == SeriesOf(snaps[1..], id, d);
  }

  /** A counter in thinned snapshots is the thinned counter. */
  lemma {:induction false} ThinnedSnapshots(fine: seq<Snapshot>, coarse: seq<Snapshot>, id: Id, d: Dir)
    requires Thins(fine, coarse)
    ensures Thins(Counts(SeriesOf(fine, id, d)), Counts(SeriesOf(coarse, id, d)))
    decreases |fine|
  {
    if coarse != [] {
      var x := CounterIn(Current(fine[0]), id, d);
      var f := Counts(SeriesOf(fine[1..], id, d));
      CountsHeadTail(fine, id, d);
      if fine[0] == coarse[0] && Thins(fine[1..], coarse[1..]) {
        ThinnedSnapshots(fine[1..], coarse[1..], id, d);
        CountsHeadTail(coarse, id, d);
        var c := Counts(SeriesOf(coarse[1..], id, d));
        assert [] + f == f && [] + c == c;
        if x.Some? {
          TakingBoth(x.value, f, c);
        }
      } else {
        ThinnedSnapshots(fine[1..], coarse, id, d);
        assert [] + f == f;
        if x.Some? {
          SkippingOne(x.value, f, Counts(SeriesOf(coarse, id, d)));
        }
      }
    }
  }

  lemma TakingBoth<T>(x: T, fine: seq<T>, coarse: seq<T>)
    requires Thins(fine, coarse)
    ensures Thins([x] + fine, [x] + coarse)
  {
    assert ([x] + fine)[1..] == fine && ([x] + coarse)[1..] == coarse;
  }

  lemma SkippingOne<T>(x: T, fine: seq<T>, coarse: seq<T>)
    requires Thins(fine, coarse)
    ensures Thins([x] + fine, coarse)
  {
    assert ([x] + fine)[1..] == fine;
  }

  lemma {:induction false} ThinnedAreSome<T>(fine: seq<T>, coarse: seq<T>, p: T -> bool)
    requires Thins(fine, coarse) && forall i :: 0 <= i < |fine| ==> p(fine[i])
    ensures forall i :: 0 <= i < |coarse| ==> p(coarse[i])
    decreases |fine|
  {
    if coarse != [] {
      if fine[0] == coarse[0] && Thins(fine[1..], coarse[1..]) {
        ThinnedAreSome(fine[1..], coarse[1..], p);
        forall i | 0 <= i < |coarse| ensures p(coarse[i]) {
          assert i > 0 ==> coarse[i] == coarse[1..][i - 1];
        }
      } else {
        ThinnedAreSome(fine[1..], coarse, p);
      }
    }
  }

  /** Forgetting a missing tunnel never makes the deltas smaller. */
  lemma {:induction false} GapsAddOn(prev: Option<Count>, kept: Count, s: Series)
    requires prev.Some? ==> prev.value == kept
    ensures Deltas(kept, Counts(s)) <= DeltaSum(prev, s)
    decreases |s|
  {
    if s != [] {
      if s[0].Some? {
        GapsAddOn(s[0], s[0].value, s[1..]);
        assert Counts(s)[1..] == Counts(s[1..]);
      } else {
        GapsAddOn(None, kept, s[1..]);
        assert Counts(s) == Counts(s[1..]);
      }
    }
  }

  /** What flushes write for a tunnel are the plain deltas of the counter values they see. */
  lemma FlushesWriteDeltas(snaps: seq<Snapshot>, calls: nat -> Calls, id: Id, d: Dir)
    requires forall i :: 0 <= i < |snaps| ==> UniqueIds(snaps[i])
    ensures WrittenFor(AllWrites(map[], snaps, calls), id, d) == Deltas(0, Counts(SeriesOf(snaps, id, d)))
  {
    var s := SeriesOf(snaps, id, d);
    FlushesWriteRunEnds(snaps, calls, id, d);
    DeltasTelescope(Present(s));
    PresentShowsCounts(s);
    AlwaysPresent(None, Counts(s));
  }

  lemma ThinnedFlushes(fine: seq<Snapshot>, coarse: seq<Snapshot>, calls: nat -> Calls, id: Id, d: Dir)
    requires Thins(fine, coarse) && forall i :: 0 <= i < |fine| ==> UniqueIds(fine[i])
    ensures WrittenFor(AllWrites(map[], coarse, calls), id, d) == Deltas(0, Counts(SeriesOf(coarse, id, d)))
    ensures Thins(Counts(SeriesOf(fine, id, d)), Counts(SeriesOf(coarse, id, d)))
  {
    ThinnedAreSome(fine, coarse, snap => UniqueIds(snap));
    FlushesWriteDeltas(coarse, calls, id, d);
    ThinnedSnapshots(fine, coarse, id, d);
  }

  /**
   Flushing at some of the moments at which another sampler samples never
   reports more than that one: for every run, tunnel and direction, with any
   resets and gaps.
   */
  lemma FlushingNeverOverReportsSampling(fine: seq<Snapshot>, coarse: seq<Snapshot>, calls: nat -> Calls, id: Id, d: Dir)
    requires Thins(fine, coarse) && forall i :: 0 <= i < |fine| ==> UniqueIds(fine[i])
    ensures WrittenFor(AllWrites(map[], coarse, calls), id, d) <= Sampled(map[], fine, id, d)
  {
    ThinnedFlushes(fine, coarse, calls, id, d);
    CoarseNeverOverReports(0, Counts(SeriesOf(fine, id, d)), Counts(SeriesOf(coarse, id, d)));
    GapsAddOn(None, 0, SeriesOf(fine, id, d));
    SampledIsDeltaSum(map[], fine, id, d);
  }

  /** The tunnel is in every snapshot. */
  ghost predicate AlwaysThere(s: Series) {
    forall i :: 0 <= i < |s| ==> s[i].Some?
  }

  lemma {:induction false} AlwaysShown(s: Series)
    requires AlwaysThere(s)
    ensures Shown(Counts(s)) == s
    decreases |s|
  {
    if s != [] {
      AlwaysShown(s[1..]);
    }
  }

  lemma {:induction false} LastCount(s: Series)
    requires s != [] && s[|s| - 1].Some?
    ensures Counts(s) != [] && Counts(s)[|Counts(s)| - 1] == s[|s| - 1].value
    decreases |s|
  {
    if |s| > 1 {
      LastCount(s[1..]);
    } else {
      assert Counts(s) == [s[0].value] + Counts(s[1..]);
    }
  }

  /**
   For a tunnel that is always there and whose counter never falls, flushing
   that ends with the last sample reports exactly what sampling does.
   */
  lemma FlushingIsExactWithoutResets(fine: seq<Snapshot>, coarse: seq<Snapshot>, calls: nat -> Calls, id: Id, d: Dir)
    requires Thins(fine, coarse) && forall i :: 0 <= i < |fine| ==> UniqueIds(fine[i])
    requires AlwaysThere(SeriesOf(fine, id, d)) && Ascending(0, Counts(SeriesOf(fine, id, d)))
    requires coarse != [] && coarse[|coarse| - 1] == fine[|fine| - 1]
    ensures WrittenFor(AllWrites(map[], coarse, calls), id, d) == Sampled(map[], fine, id, d)
  {
    ThinnedFlushes(fine, coarse, calls, id, d);
    SampledIsDeltaSum(map[], fine, id, d);
    SameLastCount(fine, coarse, id, d);
    SteadyIsExact(SeriesOf(fine, id, d), Counts(SeriesOf(coarse, id, d)));
  }

  lemma SameLastCount(fine: seq<Snapshot>, coarse: seq<Snapshot>, id: Id, d: Dir)
    requires fine != [] && coarse != [] && coarse[|coarse| - 1] == fine[|fine| - 1]
    requires SeriesOf(fine, id, d)[|fine| - 1].Some?
    ensures var f, c := Counts(SeriesOf(fine, id, d)), Counts(SeriesOf(coarse, id, d));
            f != [] && c != [] && c[|c| - 1] == f[|f| - 1]
  {
    LastCount(SeriesOf(fine, id, d));
    LastCount(SeriesOf(coarse, id, d));
  }

  lemma SteadyIsExact(s: Series, coarse: seq<Count>)
    requires AlwaysThere(s) && Ascending(0, Counts(s)) && Thins(Counts(s), coarse)
    requires Counts(s) != [] && coarse != [] && coarse[|coarse| - 1] == Counts(s)[|Counts(s)| - 1]
    ensures Deltas(0, coarse) == DeltaSum(None, s)
  {
    AlwaysShown(s);
    AlwaysPresent(None, Counts(s));
    CoarseIsExactWithoutResets(0, Counts(s), coarse);
  }

  // ---------------------------------------------------------------- one sample, one flush

  function Share(ds: seq<TunnelDelta>, ids: seq<Id>, d: Dir): nat {
    if ids == [] then 0 else ShareOf(ds, ids[0], d) + Share(ds, ids[1..], d)
  }

  lemma {:induction false} NoShares(ids: seq<Id>, d: Dir)
    ensures Share([], ids, d) == 0
  {
    if ids != [] {
      NoShares(ids[1..], d);
    }
  }

  lemma {:induction false} OneMoreShare(ds: seq<TunnelDelta>, e: TunnelDelta, ids: seq<Id>, d: Dir)
    requires forall i, j :: 0 <= i < j < |ids| ==> ids[i] != ids[j]
    ensures Share(ds + [e], ids, d) == Share(ds, ids, d) + if e.id in ids then OfDelta(e, d) else 0
    decreases |ids|
  {
    if ids != [] {
      ShareSnoc(ds, e, ids[0], d);
      OneMoreShare(ds, e, ids[1..], d);
    }
  }

  /** The totals of a sample are what its tunnels contribute. */
  lemma {:induction false} TotalsAreTheShares(ds: seq<TunnelDelta>, ids: seq<Id>)
    requires forall i, j :: 0 <= i < j < |ids| ==> ids[i] != ids[j]
    requires forall i :: 0 <= i < |ds| ==> ds[i].id in ids
    ensures SumIn(ds) == Share(ds, ids, In) && SumOut(ds) == Share(ds, ids, Out)
    decreases |ds|
  {
    if ds == [] {
      NoShares(ids, In);
      NoShares(ids, Out);
    } else {
      var init, e := ds[..|ds| - 1], ds[|ds| - 1];
      assert ds == init + [e];
      TotalsAreTheShares(init, ids);
      OneMoreShare(init, e, ids, In);
      OneMoreShare(init, e, ids, Out);
    }
  }

  /** The k-th write of a flush is about the tunnels[k]-th of the snapshot, at the time and with the outcome of that call. */
  ghost predicate WritesAreAbout(ws: seq<Write>, snap: Snapshot, calls: Calls, tunnels: seq<nat>) {
    && |ws| == |tunnels|
    && (forall k :: 0 <= k < |tunnels| ==>
          && tunnels[k] < |snap|
          && ws[k].id == snap[tunnels[k]].id && ws[k].conns == snap[tunnels[k]].mappings
          && ws[k].sec == calls(tunnels[k]).0 && ws[k].ok == calls(tunnels[k]).1)
    && (forall k, l :: 0 <= k < l < |tunnels| ==> tunnels[k] < tunnels[l])
  }

  lemma AboutOneMore(ws: seq<Write>, snap: Snapshot, calls: Calls, tunnels: seq<nat>, st: Status, w: Write)
    requires WritesAreAbout(ws, snap, calls, tunnels)
    requires w.id == st.id && w.conns == st.mappings && w.sec == calls(|snap|).0 && w.ok == calls(|snap|).1
    ensures WritesAreAbout(ws + [w], snap + [st], calls, tunnels + [|snap|])
  {
  }

  lemma AboutNoMore(ws: seq<Write>, snap: Snapshot, calls: Calls, tunnels: seq<nat>, st: Status)
    requires WritesAreAbout(ws, snap, calls, tunnels)
    ensures WritesAreAbout(ws, snap + [st], calls, tunnels)
  {
  }

  lemma WritesOfOneMore(last: map<Id, Pair>, snap: Snapshot, st: Status, calls: Calls)
    ensures var d := DeltaOf(Flushed(last, snap), st);
            Writes(last, snap + [st], calls) ==
            if IsIdle(d) then Writes(last, snap, calls)
            else Writes(last, snap, calls) + [Write(st.id, calls(|snap|).0, d.bytesIn, d.bytesOut, st.mappings, calls(|snap|).1)]
  {
    assert (snap + [st])[..|snap|] == snap;
  }

  lemma {:induction false} WritesTellTheSnapshot(last: map<Id, Pair>, snap: Snapshot, calls: Calls) returns (tunnels: seq<nat>)
    ensures WritesAreAbout(Writes(last, snap, calls), snap, calls, tunnels)
    decreases |snap|
  {
    if snap == [] {
      tunnels := [];
    } else {
      var init, st := snap[..|snap| - 1], snap[|snap| - 1];
      tunnels := WritesTellTheSnapshot(last, init, calls);
      var ws, d := Writes(last, init, calls), DeltaOf(Flushed(last, init), st);
      WritesOfOneMore(last, init, st, calls);
      assert snap == init + [st];
      if IsIdle(d) {
        AboutNoMore(ws, init, calls, tunnels, st);
      } else {
        AboutOneMore(ws, init, calls, tunnels, st, Write(st.id, calls(|init|).0, d.bytesIn, d.bytesOut, st.mappings, calls(|init|).1));
        tunnels := tunnels + [|init|];
      }
    }
  }

  // ---------------------------------------------------------------- from the writes to the query

  /** A new store's log. */
  function Empty(): Bucket {
    map[]
  }

  function Carried(w: Write): Totals {
    Totals(w.bytesIn, w.bytesOut, w.conns)
  }

  /** The sum of what the accepted writes carry. */
  function Recorded(ws: seq<Write>): Totals
    decreases |ws|
  {
    if ws == [] then NOTHING
    else Recorded(ws[..|ws| - 1]).Plus(if ws[|ws| - 1].ok then Carried(ws[|ws| - 1]) else NOTHING)
  }

  /** What accepted writes replaced in the log: earlier entries of the same tunnel and second. */
  ghost function Overwritten(db: Bucket, ws: seq<Write>): Totals
    decreases |ws|
  {
    if ws == [] then NOTHING
    else
      var init, w := ws[..|ws| - 1], ws[|ws| - 1];
      Overwritten(db, init).Plus(Replaced(Logged(db, init), w))
  }

  /** What one write replaces. */
  function Replaced(db: Bucket, w: Write): Totals {
    if w.ok then ValueAt(db, KeyOf(w.id, w.sec)) else NOTHING
  }

  lemma OneWriteBalances(db: Bucket, w: Write)
    ensures var after := db[KeyOf(w.id, w.sec) := EncodeTotals(w.bytesIn, w.bytesOut, w.conns)];
            Sum(after, after.Keys).Plus(ValueAt(db, KeyOf(w.id, w.sec))) == Sum(db, db.Keys).Plus(Carried(w))
  {
    var k := KeyOf(w.id, w.sec);
    var after := db[k := EncodeTotals(w.bytesIn, w.bytesOut, w.conns)];
    TotalsRoundTrip(w.bytesIn, w.bytesOut, w.conns);
    assert Values(after)(k) == Carried(w);
    PutBalances(Values(db), Values(after), db.Keys, k);
    assert after.Keys == db.Keys + {k};
  }

  /** One write more keeps the books balanced. */
  lemma WriteBalances(log: Bucket, w: Write, start: Totals, replaced: Totals, recorded: Totals)
    requires Sum(log, log.Keys).Plus(replaced) == start.Plus(recorded)
    ensures var after := if w.ok then log[KeyOf(w.id, w.sec) := EncodeTotals(w.bytesIn, w.bytesOut, w.conns)] else log;
            Sum(after, after.Keys).Plus(replaced.Plus(Replaced(log, w)))
            == start.Plus(recorded.Plus(if w.ok then Carried(w) else NOTHING))
  {
    if w.ok {
      OneWriteBalances(log, w);
    }
  }

  /** Whatever is written: what the log gains plus what was overwritten is what was recorded. */
  lemma {:induction false} LogBalances(db: Bucket, ws: seq<Write>)
    ensures var after := Logged(db, ws);
            Sum(after, after.Keys).Plus(Overwritten(db, ws)) == Sum(db, db.Keys).Plus(Recorded(ws))
    decreases |ws|
  {
    if ws == [] {
      PlusSwap(Sum(db, db.Keys), NOTHING, NOTHING);
    } else {
      var init, w := ws[..|ws| - 1], ws[|ws| - 1];
      LogBalances(db, init);
      WriteBalances(Logged(db, init), w, Sum(db, db.Keys), Overwritten(db, init), Recorded(init));
    }
  }

  /** No two accepted writes are for the same tunnel in the same second. */
  ghost predicate NoSecondTwice(ws: seq<Write>) {
    forall i, j :: 0 <= i < j < |ws| && ws[i].ok && ws[j].ok ==> !(ws[i].id == ws[j].id && ws[i].sec == ws[j].sec)
  }

  ghost predicate IsKeyOf(k: Key, w: Write) {
    w.ok && KeyOf(w.id, w.sec) == k
  }

  /** Every key of the log is that of some accepted write. */
  lemma {:induction false} LoggedKey(ws: seq<Write>, k: Key) returns (i: nat)
    requires k in Logged(Empty(), ws)
    ensures i < |ws| && IsKeyOf(k, ws[i])
    decreases |ws|
  {
    var n := |ws| - 1;
    if IsKeyOf(k, ws[n]) {
      i := n;
    } else {
      i := LoggedKey(ws[..n], k);
    }
  }

  lemma NothingReplaced(ws: seq<Write>)
    requires ws != [] && NoSecondTwice(ws)
    ensures Replaced(Logged(Empty(), ws[..|ws| - 1]), ws[|ws| - 1]) == NOTHING
    ensures NoSecondTwice(ws[..|ws| - 1])
  {
    var n := |ws| - 1;
    var w := ws[n];
    var k := KeyOf(w.id, w.sec);
    if w.ok && k in Logged(Empty(), ws[..n]) {
      var i := LoggedKey(ws[..n], k);
      KeysAreInjective(ws[i].id, ws[i].sec, w.id, w.sec);
      assert false;
    }
  }

  lemma OverwrittenStep(ws: seq<Write>)
    requires ws != []
    ensures Overwritten(Empty(), ws) ==
            Overwritten(Empty(), ws[..|ws| - 1]).Plus(Replaced(Logged(Empty(), ws[..|ws| - 1]), ws[|ws| - 1]))
  {
  }

  lemma {:induction false} DistinctSecondsLoseNothing(ws: seq<Write>)
    requires NoSecondTwice(ws)
    ensures Overwritten(Empty(), ws) == NOTHING
    decreases |ws|
  {
    if ws != [] {
      NothingReplaced(ws);
      DistinctSecondsLoseNothing(ws[..|ws| - 1]);
      OverwrittenStep(ws);
    }
  }

  ghost predicate Covers(from: int, upTo: int, ws: seq<Write>) {
    forall i :: 0 <= i < |ws| ==> from <= ws[i].sec * SECOND < upTo
  }

  lemma CoveredLogIsInRange(ws: seq<Write>, from: int, upTo: int)
    requires Covers(from, upTo, ws)
    ensures InRange(Logged(Empty(), ws), from, upTo) == Logged(Empty(), ws).Keys
  {
    forall k | k in Logged(Empty(), ws) ensures from <= KeyTime(k) < upTo {
      var i := LoggedKey(ws, k);
      ExtractAfterMake(ws[i].id, ws[i].sec);
    }
  }

  lemma EmptySum()
    ensures Sum(Empty(), Empty().Keys) == NOTHING
  {
    assert Empty().Keys == {};
  }

  lemma LogFromNothingBalances(ws: seq<Write>)
    ensures var db := Logged(Empty(), ws);
            Sum(db, db.Keys).Plus(Overwritten(Empty(), ws)) == Recorded(ws)
  {
    LogBalances(Empty(), ws);
    EmptySum();
    PlusSwap(Recorded(ws), NOTHING, NOTHING);
  }

  /** The grand total of a query over the log these writes leave. */
  ghost function Reported(ws: seq<Write>, from: int, upTo: int, step: int): Totals
    requires step > 0
  {
    GrandTotal(Answer(Logged(Empty(), ws), from, upTo, step))
  }

  lemma CoveringQueryReportsTheLog(ws: seq<Write>, from: int, upTo: int, step: int)
    requires step >= SECOND && Covers(from, upTo, ws)
    ensures var db := Logged(Empty(), ws);
            Reported(ws, from, upTo, step) == Sum(db, db.Keys)
  {
    QueryConserves(Logged(Empty(), ws), from, upTo, step);
    CoveredLogIsInRange(ws, from, upTo);
  }

  lemma TakeAway(reported: Totals, lost: Totals, recorded: Totals)
    requires reported.Plus(lost) == recorded && lost == NOTHING
    ensures reported == recorded
  {
  }

  /**
   Starting from an empty log, a query that covers the writes reports exactly
   what the accepted ones recorded, less what later writes of the same tunnel
   and second replaced.
   */
  lemma QueryReportsRecordedLessReplaced(ws: seq<Write>, from: int, upTo: int, step: int)
    requires step >= SECOND && Covers(from, upTo, ws)
    ensures Reported(ws, from, upTo, step).Plus(Overwritten(Empty(), ws)) == Recorded(ws)
  {
    CoveringQueryReportsTheLog(ws, from, upTo, step);
    LogFromNothingBalances(ws);
  }

  /** With distinct seconds per tunnel it reports all of it. */
  lemma QueryReportsWhatWasRecorded(ws: seq<Write>, from: int, upTo: int, step: int)
    requires step >= SECOND && Covers(from, upTo, ws) && NoSecondTwice(ws)
    ensures Reported(ws, from, upTo, step) == Recorded(ws)
  {
    QueryReportsRecordedLessReplaced(ws, from, upTo, step);
    DistinctSecondsLoseNothing(ws);
    TakeAway(Reported(ws, from, upTo, step), Overwritten(Empty(), ws), Recorded(ws));
  }

  function WrittenForAll(ws: seq<Write>, ids: seq<Id>, d: Dir): nat {
    if ids == [] then 0 else WrittenFor(ws, ids[0], d) + WrittenForAll(ws, ids[1..], d)
  }

  function RunEndsOfAll(snaps: seq<Snapshot>, ids: seq<Id>, d: Dir): nat {
    if ids == [] then 0 else RunEnds(Present(SeriesOf(snaps, ids[0], d))) + RunEndsOfAll(snaps, ids[1..], d)
  }

  function OfWrite(w: Write, d: Dir): nat {
    match d case In => w.bytesIn case Out => w.bytesOut
  }

  lemma {:induction false} OneMoreForAll(ws: seq<Write>, ids: seq<Id>, d: Dir)
    requires ws != [] && forall i, j :: 0 <= i < j < |ids| ==> ids[i] != ids[j]
    ensures WrittenForAll(ws, ids, d) ==
            WrittenForAll(ws[..|ws| - 1], ids, d) + if ws[|ws| - 1].id in ids then OfWrite(ws[|ws| - 1], d) else 0
    decreases |ids|
  {
    if ids != [] {
      OneMoreForAll(ws, ids[1..], d);
    }
  }

  lemma {:induction false} NothingForAll(ids: seq<Id>, d: Dir)
    ensures WrittenForAll([], ids, d) == 0
  {
    if ids != [] {
      NothingForAll(ids[1..], d);
    }
  }

  function OfTotals(t: Totals, d: Dir): int {
    match d case In => t.bytesIn case Out => t.bytesOut
  }

  /** When all writes are accepted, the recorded sum is shared out among the tunnels. */
  lemma {:induction false} RecordedIsSharedOut(ws: seq<Write>, ids: seq<Id>, d: Dir)
    requires forall i, j :: 0 <= i < j < |ids| ==> ids[i] != ids[j]
    requires forall i :: 0 <= i < |ws| ==> ws[i].ok && ws[i].id in ids
    ensures OfTotals(Recorded(ws), d) == WrittenForAll(ws, ids, d)
    decreases |ws|
  {
    if ws == [] {
      NothingForAll(ids, d);
    } else {
      RecordedIsSharedOut(ws[..|ws| - 1], ids, d);
      OneMoreForAll(ws, ids, d);
    }
  }

  lemma {:induction false} AllWrittenIsRunEnds(snaps: seq<Snapshot>, calls: nat -> Calls, ids: seq<Id>, d: Dir)
    requires forall i :: 0 <= i < |snaps| ==> UniqueIds(snaps[i])
    ensures WrittenForAll(AllWrites(map[], snaps, calls), ids, d) == RunEndsOfAll(snaps, ids, d)
    decreases |ids|
  {
    if ids != [] {
      FlushesWriteRunEnds(snaps, calls, ids[0], d);
      AllWrittenIsRunEnds(snaps, calls, ids[1..], d);
    }
  }

  /**
   End to end: when all writes are accepted and no tunnel is written twice in a
   second, a query over a run of flushes reports, byte for byte, the ends of the
   non-decreasing runs of all the tunnels' counters.
   */
  lemma QueryReportsRunEnds(snaps: seq<Snapshot>, calls: nat -> Calls, ids: seq<Id>, from: int, upTo: int, step: int, d: Dir)
    requires step >= SECOND
    requires forall i :: 0 <= i < |snaps| ==> UniqueIds(snaps[i])
    requires forall i, j :: 0 <= i < j < |ids| ==> ids[i] != ids[j]
    requires var ws := AllWrites(map[], snaps, calls);
             && Covers(from, upTo, ws) && NoSecondTwice(ws)
             && forall i :: 0 <= i < |ws| ==> ws[i].ok && ws[i].id in ids
    ensures OfTotals(Reported(AllWrites(map[], snaps, calls), from, upTo, step), d) == RunEndsOfAll(snaps, ids, d)
  {
    QueryReportsWhatWasRecorded(AllWrites(map[], snaps, calls), from, upTo, step);
    RecordedIsSharedOut(AllWrites(map[], snaps, calls), ids, d);
    AllWrittenIsRunEnds(snaps, calls, ids, d);
  }
}
