/** Querying and pruning the traffic log. Instants are integer nanoseconds of Unix time. */
module TrafficQuery {
  import opened Bytes
  import opened Sums
  import opened TrafficStore

  // ---------------------------------------------------------------- time

  function KeyTime(key: Key): int {
    ExtractSec(key) * SECOND
  }

  /** Time.Unix: whole seconds, rounding down. */
  function UnixOf(t: int): int {
    t / SECOND
  }

  /** Time.Truncate: down to a multiple of step counted from the zero time. */
  function Truncate(t: int, step: int): int
    requires step > 0
  {
    t - (t + ZERO_OFFSET) % step
  }

  ghost predicate OnGrid(t: int, step: int)
    requires step > 0
  {
    (t + ZERO_OFFSET) % step == 0
  }

  /** The multiples of step from t on, up to but excluding `upTo`. */
  function Grid(t: int, upTo: int, step: int): seq<int>
    requires step > 0
    decreases upTo - t
  {
    if t >= upTo then [] else [t] + Grid(t + step, upTo, step)
  }

  // ---------------------------------------------------------------- sums over the log

  function ValueAt(db: Bucket, key: Key): Totals {
    if key in db then DecodeTotals(db[key]) else NOTHING
  }

  function Values(db: Bucket): Key -> Totals {
    k => ValueAt(db, k)
  }

  /** The sum of the values stored under the given keys. */
  ghost function Sum(db: Bucket, keys: set<Key>): Totals {
    SumOf(Values(db), keys)
  }

  ghost function InRange(db: Bucket, from: int, upTo: int): set<Key> {
    set k | k in db && from <= KeyTime(k) < upTo
  }

  /** The bucket a key falls into, named by the Unix second of the bucket's start. */
  function BucketSecond(step: int): Key -> int
    requires step > 0
  {
    k => UnixOf(Truncate(KeyTime(k), step))
  }

  ghost function Labelled(keys: set<Key>, secondOf: Key -> int, sec: int): set<Key> {
    set k | k in keys && secondOf(k) == sec
  }

  datatype Sample = Sample(ts: int, totals: Totals)

  /** One sample per grid point, summing the keys labelled with the point's second. */
  ghost function Samples(db: Bucket, keys: set<Key>, secondOf: Key -> int, grid: seq<int>): (r: seq<Sample>)
    ensures |r| == |grid|
    ensures forall i :: 0 <= i < |r| ==> r[i] == Sample(grid[i], Sum(db, Labelled(keys, secondOf, UnixOf(grid[i]))))
  {
    seq(|grid|, i requires 0 <= i < |grid| => Sample(grid[i], Sum(db, Labelled(keys, secondOf, UnixOf(grid[i])))))
  }

  /** What a query answers: nothing without entries, otherwise one sample per grid point. */
  ghost function Answer(db: Bucket, from: int, upTo: int, step: int): seq<Sample>
    requires step > 0
  {
    if InRange(db, from, upTo) == {} then []
    else Samples(db, InRange(db, from, upTo), BucketSecond(step), Grid(Truncate(from, step), upTo, step))
  }

  function GrandTotal(samples: seq<Sample>): Totals {
    if samples == [] then NOTHING else samples[0].totals.Plus(GrandTotal(samples[1..]))
  }

  // ---------------------------------------------------------------- the grid

  lemma ProductApart(a: int, b: int, step: int)
    requires step > 0 && a < b
    ensures a * step + step <= b * step
  {
    assert (b - a - 1) * step >= 0;
    assert (b - a - 1) * step == b * step - a * step - step;
  }

  lemma MultiplesApart(x: int, y: int, step: int)
    requires step > 0 && x % step == 0 && y % step == 0 && x < y
    ensures x + step <= y
  {
    var a, b := x / step, y / step;
    assert x == a * step && y == b * step;
    if b < a {
      ProductApart(b, a, step);
    } else if a < b {
      ProductApart(a, b, step);
    }
  }

  lemma ProductIsMultiple(a: int, step: int)
    requires step > 0
    ensures (a * step) % step == 0
  {
    var x := a * step;
    var q, r := x / step, x % step;
    assert x == q * step + r && 0 <= r < step;
    if q < a {
      ProductApart(q, a, step);
    } else if a < q {
      ProductApart(a, q, step);
    }
  }

  lemma NextMultiple(x: int, step: int)
    requires step > 0 && x % step == 0
    ensures (x + step) % step == 0
  {
    var a := x / step;
    ProductIsMultiple(a + 1, step);
    assert x + step == (a + 1) * step;
  }

  lemma RoundDownIsMultiple(x: int, step: int)
    requires step > 0
    ensures (x - x % step) % step == 0
  {
    ProductIsMultiple(x / step, step);
    assert x - x % step == (x / step) * step;
  }

  lemma TruncateFacts(t: int, step: int)
    requires step > 0
    ensures OnGrid(Truncate(t, step), step)
    ensures Truncate(t, step) <= t < Truncate(t, step) + step
    ensures OnGrid(t, step) ==> Truncate(t, step) == t
  {
    RoundDownIsMultiple(t + ZERO_OFFSET, step);
    assert Truncate(t, step) + ZERO_OFFSET == (t + ZERO_OFFSET) - (t + ZERO_OFFSET) % step;
  }

  lemma GridApart(x: int, y: int, step: int)
    requires step > 0 && OnGrid(x, step) && OnGrid(y, step) && x < y
    ensures x + step <= y
  {
    MultiplesApart(x + ZERO_OFFSET, y + ZERO_OFFSET, step);
  }

  lemma TruncateMonotone(s: int, t: int, step: int)
    requires step > 0 && s <= t
    ensures Truncate(s, step) <= Truncate(t, step)
  {
    TruncateFacts(s, step);
    TruncateFacts(t, step);
    if Truncate(t, step) < Truncate(s, step) {
      GridApart(Truncate(t, step), Truncate(s, step), step);
    }
  }

  /** With steps of a second or more, grid points are told apart by their Unix second. */
  lemma SecondsTellGridPointsApart(x: int, y: int, step: int)
    requires step >= SECOND && OnGrid(x, step) && OnGrid(y, step) && UnixOf(x) == UnixOf(y)
    ensures x == y
  {
    if x < y {
      GridApart(x, y, step);
    } else if y < x {
      GridApart(y, x, step);
    }
  }

  /** The grid is gap-free and ascending, starts at its first point and stops just short of `upTo`. */
  lemma {:induction false} GridIsGapFree(t: int, upTo: int, step: int)
    requires step > 0
    ensures var g := Grid(t, upTo, step);
            && (forall i :: 0 <= i < |g| ==> g[i] == t + i * step < upTo)
            && (t < upTo ==> |g| > 0 && g[|g| - 1] + step >= upTo)
            && (t >= upTo ==> g == [])
    decreases upTo - t
  {
    if t < upTo {
      GridIsGapFree(t + step, upTo, step);
      var rest := Grid(t + step, upTo, step);
      forall i | 0 <= i < |rest| + 1 ensures ([t] + rest)[i] == t + i * step < upTo {
        if i > 0 {
          assert rest[i - 1] == t + step + (i - 1) * step;
          assert (i - 1) * step == i * step - step;
        }
      }
    }
  }

  lemma {:induction false} GridSplits(t: int, mid: int, upTo: int, step: int)
    requires step > 0 && OnGrid(t, step) && OnGrid(mid, step) && t <= mid <= upTo
    ensures Grid(t, upTo, step) == Grid(t, mid, step) + Grid(mid, upTo, step)
    decreases mid - t
  {
    if t < mid {
      GridApart(t, mid, step);
      NextMultiple(t + ZERO_OFFSET, step);
      assert OnGrid(t + step, step);
      GridSplits(t + step, mid, upTo, step);
    }
  }

  lemma TruncatedGridIsOnGrid(from: int, upTo: int, step: int)
    requires step > 0
    ensures var grid := Grid(Truncate(from, step), upTo, step);
            forall i :: 0 <= i < |grid| ==> OnGrid(grid[i], step)
  {
    TruncateFacts(from, step);
    GridIsOnGrid(Truncate(from, step), upTo, step);
  }

  lemma {:induction false} GridIsOnGrid(t: int, upTo: int, step: int)
    requires step > 0 && OnGrid(t, step)
    ensures forall x :: x in Grid(t, upTo, step) ==> OnGrid(x, step)
    decreases upTo - t
  {
    if t < upTo {
      NextMultiple(t + ZERO_OFFSET, step);
      assert OnGrid(t + step, step);
      GridIsOnGrid(t + step, upTo, step);
    }
  }

  lemma {:induction false} GridReaches(t: int, upTo: int, step: int, x: int)
    requires step > 0 && OnGrid(t, step) && OnGrid(x, step) && t <= x < upTo
    ensures x in Grid(t, upTo, step)
    decreases upTo - t
  {
    if t < x {
      GridApart(t, x, step);
      NextMultiple(t + ZERO_OFFSET, step);
      assert OnGrid(t + step, step);
      GridReaches(t + step, upTo, step, x);
    }
  }

  // ---------------------------------------------------------------- samples and intervals

  /** The entries of the window whose instants lie in the interval of one step from `start` on. */
  ghost function InBucket(db: Bucket, from: int, upTo: int, start: int, step: int): set<Key> {
    set k | k in InRange(db, from, upTo) && start <= KeyTime(k) < start + step
  }

  /** What an answer is, apart from how it is computed: consecutive intervals, each with the sum of its entries. */
  ghost predicate IsAnswer(db: Bucket, from: int, upTo: int, step: int, r: seq<Sample>)
    requires step > 0
  {
    if InRange(db, from, upTo) == {} then r == []
    else
      && r != [] && r[|r| - 1].ts < upTo <= r[|r| - 1].ts + step
      && forall i :: 0 <= i < |r| ==>
           && r[i].ts == Truncate(from, step) + i * step
           && r[i].totals == Sum(db, InBucket(db, from, upTo, r[i].ts, step))
  }

  lemma SameBucket(t: int, g: int, step: int)
    requires step >= SECOND && OnGrid(g, step)
    ensures UnixOf(Truncate(t, step)) == UnixOf(g) <==> g <= t < g + step
  {
    TruncateFacts(t, step);
    if UnixOf(Truncate(t, step)) == UnixOf(g) {
      SecondsTellGridPointsApart(Truncate(t, step), g, step);
    } else if g <= t < g + step {
      if g < Truncate(t, step) {
        GridApart(g, Truncate(t, step), step);
      } else if Truncate(t, step) < g {
        GridApart(Truncate(t, step), g, step);
      }
    }
  }

  /** With steps of a second or more, the keys a grid point labels are those of its interval. */
  lemma BucketsAreIntervals(db: Bucket, from: int, upTo: int, step: int, g: int)
    requires step >= SECOND && OnGrid(g, step)
    ensures Labelled(InRange(db, from, upTo), BucketSecond(step), UnixOf(g)) == InBucket(db, from, upTo, g, step)
  {
    forall k | k in InRange(db, from, upTo)
      ensures k in Labelled(InRange(db, from, upTo), BucketSecond(step), UnixOf(g)) <==> k in InBucket(db, from, upTo, g, step)
    {
      SameBucket(KeyTime(k), g, step);
    }
  }

  lemma LabelledAnswer(db: Bucket, from: int, upTo: int, step: int)
    requires step >= SECOND
    ensures IsAnswer(db, from, upTo, step, Answer(db, from, upTo, step))
  {
    if InRange(db, from, upTo) != {} {
      var k :| k in InRange(db, from, upTo);
      var t := Truncate(from, step);
      var grid := Grid(t, upTo, step);
      TruncateFacts(from, step);
      GridIsGapFree(t, upTo, step);
      GridIsOnGrid(t, upTo, step);
      forall i | 0 <= i < |grid|
        ensures Labelled(InRange(db, from, upTo), BucketSecond(step), UnixOf(grid[i])) == InBucket(db, from, upTo, grid[i], step)
      {
        assert grid[i] in grid;
        BucketsAreIntervals(db, from, upTo, step, grid[i]);
      }
    }
  }

  lemma OnlyOneAnswer(db: Bucket, from: int, upTo: int, step: int, r: seq<Sample>, a: seq<Sample>)
    requires step > 0 && IsAnswer(db, from, upTo, step, r) && IsAnswer(db, from, upTo, step, a)
    ensures r == a
  {
    if InRange(db, from, upTo) != {} {
      SameLength(Truncate(from, step), upTo, step, |r|, |a|);
    }
  }

  /** With steps of a second or more the answer is just that, and nothing else is. */
  lemma SamplesAreTheirIntervals(db: Bucket, from: int, upTo: int, step: int, r: seq<Sample>)
    requires step >= SECOND
    ensures IsAnswer(db, from, upTo, step, r) <==> r == Answer(db, from, upTo, step)
  {
    LabelledAnswer(db, from, upTo, step);
    if IsAnswer(db, from, upTo, step, r) {
      OnlyOneAnswer(db, from, upTo, step, r, Answer(db, from, upTo, step));
    }
  }

  lemma SameLength(t: int, upTo: int, step: int, m: nat, n: nat)
    requires step > 0 && m > 0 && n > 0
    requires t + (m - 1) * step < upTo <= t + (m - 1) * step + step
    requires t + (n - 1) * step < upTo <= t + (n - 1) * step + step
    ensures m == n
  {
    if m < n {
      ProductApart(m - 1, n - 1, step);
    } else if n < m {
      ProductApart(n - 1, m - 1, step);
    }
  }

  // ---------------------------------------------------------------- conservation

  ghost predicate DistinctSeconds(grid: seq<int>) {
    forall i, j :: 0 <= i < j < |grid| ==> UnixOf(grid[i]) != UnixOf(grid[j])
  }

  ghost function LabelledWithin(keys: set<Key>, secondOf: Key -> int, grid: seq<int>): set<Key> {
    set k | k in keys && exists i :: 0 <= i < |grid| && UnixOf(grid[i]) == secondOf(k)
  }

  lemma FirstLabelAndRest(keys: set<Key>, secondOf: Key -> int, grid: seq<int>)
    requires grid != [] && DistinctSeconds(grid)
    ensures Labelled(keys, secondOf, UnixOf(grid[0])) !! LabelledWithin(keys, secondOf, grid[1..])
    ensures LabelledWithin(keys, secondOf, grid) == Labelled(keys, secondOf, UnixOf(grid[0])) + LabelledWithin(keys, secondOf, grid[1..])
  {
    forall k | k in keys
      ensures k in LabelledWithin(keys, secondOf, grid)
              <==> k in Labelled(keys, secondOf, UnixOf(grid[0])) || k in LabelledWithin(keys, secondOf, grid[1..])
    {
      if k in LabelledWithin(keys, secondOf, grid[1..]) {
        var i :| 0 <= i < |grid[1..]| && UnixOf(grid[1..][i]) == secondOf(k);
        assert UnixOf(grid[i + 1]) == secondOf(k);
      }
      if k in LabelledWithin(keys, secondOf, grid) {
        var i :| 0 <= i < |grid| && UnixOf(grid[i]) == secondOf(k);
        if i > 0 {
          assert UnixOf(grid[1..][i - 1]) == secondOf(k);
        }
      }
    }
  }

  lemma SamplesHeadTail(db: Bucket, keys: set<Key>, secondOf: Key -> int, grid: seq<int>)
    requires grid != []
    ensures GrandTotal(Samples(db, keys, secondOf, grid)) ==
            Sum(db, Labelled(keys, secondOf, UnixOf(grid[0]))).Plus(GrandTotal(Samples(db, keys, secondOf, grid[1..])))
  {
    assert Samples(db, keys, secondOf, grid)[1..] == Samples(db, keys, secondOf, grid[1..]);
  }

  /** Buckets with different seconds partition the keys they cover. */
  lemma {:induction false} BucketsPartition(db: Bucket, keys: set<Key>, secondOf: Key -> int, grid: seq<int>)
    requires DistinctSeconds(grid)
    ensures GrandTotal(Samples(db, keys, secondOf, grid)) == Sum(db, LabelledWithin(keys, secondOf, grid))
  {
    if grid == [] {
      assert LabelledWithin(keys, secondOf, grid) == {};
    } else {
      BucketsPartition(db, keys, secondOf, grid[1..]);
      SamplesHeadTail(db, keys, secondOf, grid);
      FirstLabelAndRest(keys, secondOf, grid);
      SumUnion(Values(db), Labelled(keys, secondOf, UnixOf(grid[0])), LabelledWithin(keys, secondOf, grid[1..]));
    }
  }

  lemma GridSecondsAreDistinct(t: int, upTo: int, step: int)
    requires step >= SECOND
    ensures DistinctSeconds(Grid(t, upTo, step))
  {
    var g := Grid(t, upTo, step);
    GridIsGapFree(t, upTo, step);
    forall i, j | 0 <= i < j < |g| ensures UnixOf(g[i]) != UnixOf(g[j]) {
      ProductApart(i, j, step);
      assert g[i] + SECOND <= g[j];
    }
  }

  /** Every in-range key has its bucket on the grid. */
  lemma GridCoversTheRange(db: Bucket, from: int, upTo: int, step: int)
    requires step > 0
    ensures LabelledWithin(InRange(db, from, upTo), BucketSecond(step), Grid(Truncate(from, step), upTo, step)) == InRange(db, from, upTo)
  {
    var g := Grid(Truncate(from, step), upTo, step);
    var secondOf := BucketSecond(step);
    TruncateFacts(from, step);
    forall k | k in InRange(db, from, upTo) ensures exists i :: 0 <= i < |g| && UnixOf(g[i]) == secondOf(k) {
      var x := Truncate(KeyTime(k), step);
      TruncateFacts(KeyTime(k), step);
      TruncateMonotone(from, KeyTime(k), step);
      GridReaches(Truncate(from, step), upTo, step, x);
      var i :| 0 <= i < |g| && g[i] == x;
      assert UnixOf(g[i]) == secondOf(k);
    }
  }

  ghost predicate Conserves(db: Bucket, from: int, upTo: int, step: int)
    requires step > 0
  {
    GrandTotal(Answer(db, from, upTo, step)) == Sum(db, InRange(db, from, upTo))
  }

  /** With steps of at least a second no traffic is lost and none is counted twice. */
  lemma QueryConserves(db: Bucket, from: int, upTo: int, step: int)
    requires step >= SECOND
    ensures Conserves(db, from, upTo, step)
  {
    TruncateFacts(from, step);
    GridSecondsAreDistinct(Truncate(from, step), upTo, step);
    GridCoversTheRange(db, from, upTo, step);
    BucketsPartition(db, InRange(db, from, upTo), BucketSecond(step), Grid(Truncate(from, step), upTo, step));
  }

  /** A grid with two points in the entry's second repeats the entry. */
  lemma TwoSamplesShareTheEntry(db: Bucket, key: Key, secondOf: Key -> int, grid: seq<int>)
    requires ValueAt(db, key) == Totals(1, 0, 0)
    requires |grid| >= 2 && UnixOf(grid[0]) == UnixOf(grid[1]) == secondOf(key)
    ensures GrandTotal(Samples(db, {key}, secondOf, grid)).bytesIn >= 2
  {
    SamplesHeadTail(db, {key}, secondOf, grid);
    SamplesHeadTail(db, {key}, secondOf, grid[1..]);
    SumOfOne(Values(db), key, Labelled({key}, secondOf, UnixOf(grid[0])));
    var rest := Samples(db, {key}, secondOf, grid[1..][1..]);
    forall i | 0 <= i < |rest| ensures rest[i].totals.bytesIn >= 0 {
      SumOfOne(Values(db), key, Labelled({key}, secondOf, UnixOf(grid[1..][1..][i])));
    }
    NonNegativeTotal(rest);
  }

  lemma {:induction false} NonNegativeTotal(samples: seq<Sample>)
    requires forall i :: 0 <= i < |samples| ==> samples[i].totals.bytesIn >= 0
    ensures GrandTotal(samples).bytesIn >= 0
  {
    if samples != [] {
      NonNegativeTotal(samples[1..]);
    }
  }

  /** In any stretch of `step` seconds there is one whose start lies on the grid. */
  lemma AlignedSecond(since: int, step: int) returns (sec: int)
    requires step > 0
    ensures since <= sec < since + step && OnGrid(sec * SECOND, step)
  {
    var x := since - ZERO_UNIX + step - 1;
    var y := x - x % step;
    RoundDownIsMultiple(x, step);
    ScaledMultiple(y, step, SECOND);
    sec := ZERO_UNIX + y;
    assert sec * SECOND + ZERO_OFFSET == y * SECOND;
  }

  lemma ScaledMultiple(y: int, step: int, k: int)
    requires step > 0 && y % step == 0
    ensures y * k % step == 0
  {
    var q := y / step;
    assert y == q * step && y * k == (q * k) * step;
    ProductIsMultiple(q * k, step);
  }

  /** A window of the entry's second has two grid points in the bucket of that entry. */
  lemma AlignedGrid(key: Key, from: int, step: int) returns (grid: seq<int>)
    requires 0 < step < SECOND && from == KeyTime(key) && OnGrid(from, step)
    ensures grid == Grid(from, from + SECOND, step)
    ensures |grid| >= 2 && UnixOf(grid[0]) == UnixOf(grid[1]) == BucketSecond(step)(key)
  {
    TruncateFacts(from, step);
    TwoPointsInASecond(ExtractSec(key), step);
    grid := Grid(from, from + SECOND, step);
  }

  lemma AnswerFromGrid(db: Bucket, from: int, upTo: int, step: int)
    requires step > 0 && OnGrid(from, step) && InRange(db, from, upTo) != {}
    ensures Answer(db, from, upTo, step) == Samples(db, InRange(db, from, upTo), BucketSecond(step), Grid(from, upTo, step))
  {
    TruncateFacts(from, step);
  }

  lemma OnlyEntryInRange(db: Bucket, key: Key, upTo: int)
    requires db.Keys == {key} && KeyTime(key) < upTo
    ensures InRange(db, KeyTime(key), upTo) == {key}
    ensures Sum(db, InRange(db, KeyTime(key), upTo)) == ValueAt(db, key)
  {
    assert InRange(db, KeyTime(key), upTo) == {key};
    SumOfOne(Values(db), key, {key});
  }

  /** An entry on the grid is in the first two samples of a window of its second, if the step is shorter than that. */
  lemma AlignedEntryCountsTwice(db: Bucket, key: Key, from: int, step: int)
    requires 0 < step < SECOND && from == KeyTime(key) && OnGrid(from, step)
    requires db.Keys == {key} && ValueAt(db, key) == Totals(1, 0, 0)
    ensures !Conserves(db, from, from + SECOND, step)
  {
    OnlyEntryInRange(db, key, from + SECOND);
    AnswerFromGrid(db, from, from + SECOND, step);
    var grid := AlignedGrid(key, from, step);
    AnsweredTwice(db, key, BucketSecond(step), grid, Answer(db, from, from + SECOND, step), InRange(db, from, from + SECOND));
  }

  lemma AnsweredTwice(db: Bucket, key: Key, secondOf: Key -> int, grid: seq<int>, answer: seq<Sample>, keys: set<Key>)
    requires ValueAt(db, key) == Totals(1, 0, 0) && keys == {key} && Sum(db, keys) == ValueAt(db, key)
    requires |grid| >= 2 && UnixOf(grid[0]) == UnixOf(grid[1]) == secondOf(key)
    requires answer == Samples(db, keys, secondOf, grid)
    ensures GrandTotal(answer) != Sum(db, keys)
  {
    TwoSamplesShareTheEntry(db, key, secondOf, grid);
  }

  lemma TwoPointsInASecond(sec: int, step: int)
    requires 0 < step < SECOND
    ensures var grid := Grid(sec * SECOND, sec * SECOND + SECOND, step);
            |grid| >= 2 && UnixOf(grid[0]) == UnixOf(grid[1]) == sec
  {
    GridIsGapFree(sec * SECOND, sec * SECOND + SECOND, step);
  }

  /**
   A sub-second step counts at least twice the one entry of some log, which a
   tunnel of any name could have recorded at some second after any given one.
   */
  lemma SubSecondStepsCountTwice(step: int, id: Id, since: int64) returns (sec: int64, db: Bucket, from: int)
    requires 0 < step < SECOND && since < 0x4000_0000_0000_0000
    ensures since <= sec < since + step && db == map[KeyOf(id, sec) := EncodeTotals(1, 0, 0)]
    ensures from == sec * SECOND && !Conserves(db, from, from + SECOND, step)
  {
    var key;
    sec, key, from := AlignedKey(id, since, step);
    db := LogOfOne(key);
    AlignedEntryCountsTwice(db, key, from, step);
  }

  lemma AlignedKey(id: Id, since: int64, step: int) returns (sec: int64, key: Key, from: int)
    requires 0 < step < SECOND && since < 0x4000_0000_0000_0000
    ensures since <= sec < since + step && key == KeyOf(id, sec)
    ensures from == KeyTime(key) == sec * SECOND && OnGrid(from, step)
  {
    sec := AlignedSecond(since, step);
    key, from := KeyOf(id, sec), sec * SECOND;
    ExtractAfterMake(id, sec);
  }

  lemma LogOfOne(key: Key) returns (db: Bucket)
    ensures db == map[key := EncodeTotals(1, 0, 0)] && ValueAt(db, key) == Totals(1, 0, 0)
  {
    TotalsRoundTrip(1, 0, 0);
    db := map[key := EncodeTotals(1, 0, 0)];
  }

  /** So a step conserves traffic for every log and window exactly when it is at least a second. */
  lemma ExactlyWhenStepsConserve(step: int)
    requires step > 0
    ensures (forall db: Bucket, from: int, upTo: int :: Conserves(db, from, upTo, step)) <==> step >= SECOND
  {
    if step >= SECOND {
      forall db: Bucket, from: int, upTo: int ensures Conserves(db, from, upTo, step) {
        QueryConserves(db, from, upTo, step);
      }
    } else {
      var sec, db, from := SubSecondStepsCountTwice(step, [], 0);
    }
  }

  // ---------------------------------------------------------------- composition and pruning

  lemma SamplesAgree(db1: Bucket, keys1: set<Key>, db2: Bucket, keys2: set<Key>, secondOf: Key -> int, grid: seq<int>)
    requires forall i :: 0 <= i < |grid| ==>
               Sum(db1, Labelled(keys1, secondOf, UnixOf(grid[i]))) == Sum(db2, Labelled(keys2, secondOf, UnixOf(grid[i])))
    ensures Samples(db1, keys1, secondOf, grid) == Samples(db2, keys2, secondOf, grid)
  {
    var r1, r2 := Samples(db1, keys1, secondOf, grid), Samples(db2, keys2, secondOf, grid);
    forall i | 0 <= i < |grid| ensures r1[i] == r2[i] {}
  }

  lemma SamplesAppend(db: Bucket, keys: set<Key>, secondOf: Key -> int, g: seq<int>, h: seq<int>)
    ensures Samples(db, keys, secondOf, g + h) == Samples(db, keys, secondOf, g) + Samples(db, keys, secondOf, h)
  {
  }

  /** A bucket before an aligned instant holds only earlier entries, one from it on only later ones. */
  lemma HalfBuckets(db: Bucket, from: int, mid: int, upTo: int, step: int, g: int)
    requires step >= SECOND && OnGrid(mid, step) && OnGrid(g, step) && from <= mid <= upTo
    ensures var secondOf := BucketSecond(step);
            && (g < mid ==> Labelled(InRange(db, from, upTo), secondOf, UnixOf(g)) == Labelled(InRange(db, from, mid), secondOf, UnixOf(g)))
            && (g >= mid ==> Labelled(InRange(db, from, upTo), secondOf, UnixOf(g)) == Labelled(InRange(db, mid, upTo), secondOf, UnixOf(g)))
  {
    forall k: Key | UnixOf(Truncate(KeyTime(k), step)) == UnixOf(g)
      ensures g < mid <==> KeyTime(k) < mid
    {
      TruncateFacts(KeyTime(k), step);
      SecondsTellGridPointsApart(Truncate(KeyTime(k), step), g, step);
      if g < mid {
        GridApart(g, mid, step);
      }
    }
  }

  lemma EarlierHalf(db: Bucket, from: int, mid: int, upTo: int, step: int)
    requires step >= SECOND && OnGrid(mid, step) && from < mid < upTo
    ensures var g := Grid(Truncate(from, step), mid, step);
            Samples(db, InRange(db, from, upTo), BucketSecond(step), g) == Samples(db, InRange(db, from, mid), BucketSecond(step), g)
  {
    var g := Grid(Truncate(from, step), mid, step);
    TruncateFacts(from, step);
    GridIsOnGrid(Truncate(from, step), mid, step);
    GridIsGapFree(Truncate(from, step), mid, step);
    forall i | 0 <= i < |g|
      ensures Labelled(InRange(db, from, upTo), BucketSecond(step), UnixOf(g[i])) == Labelled(InRange(db, from, mid), BucketSecond(step), UnixOf(g[i]))
    {
      assert g[i] in g;
      HalfBuckets(db, from, mid, upTo, step, g[i]);
    }
    SamplesAgree(db, InRange(db, from, upTo), db, InRange(db, from, mid), BucketSecond(step), g);
  }

  lemma {:induction false} GridStartsAt(t: int, upTo: int, step: int)
    requires step > 0
    ensures forall x :: x in Grid(t, upTo, step) ==> t <= x
    decreases upTo - t
  {
    if t < upTo {
      GridStartsAt(t + step, upTo, step);
    }
  }

  lemma LaterHalf(db: Bucket, from: int, mid: int, upTo: int, step: int)
    requires step >= SECOND && OnGrid(mid, step) && from < mid < upTo
    ensures var h := Grid(mid, upTo, step);
            Samples(db, InRange(db, from, upTo), BucketSecond(step), h) == Samples(db, InRange(db, mid, upTo), BucketSecond(step), h)
  {
    var h := Grid(mid, upTo, step);
    GridIsOnGrid(mid, upTo, step);
    GridStartsAt(mid, upTo, step);
    forall i | 0 <= i < |h|
      ensures Labelled(InRange(db, from, upTo), BucketSecond(step), UnixOf(h[i])) == Labelled(InRange(db, mid, upTo), BucketSecond(step), UnixOf(h[i]))
    {
      assert h[i] in h;
      HalfBuckets(db, from, mid, upTo, step, h[i]);
    }
    SamplesAgree(db, InRange(db, from, upTo), db, InRange(db, mid, upTo), BucketSecond(step), h);
  }

  lemma SplitSamples(db: Bucket, from: int, mid: int, upTo: int, step: int)
    requires step >= SECOND && OnGrid(mid, step) && from < mid < upTo
    ensures var t, secondOf := Truncate(from, step), BucketSecond(step);
            Samples(db, InRange(db, from, upTo), secondOf, Grid(t, upTo, step)) ==
            Samples(db, InRange(db, from, mid), secondOf, Grid(t, mid, step)) +
            Samples(db, InRange(db, mid, upTo), secondOf, Grid(mid, upTo, step))
  {
    var t, secondOf := Truncate(from, step), BucketSecond(step);
    TruncateFacts(from, step);
    GridSplits(t, mid, upTo, step);
    SamplesAppend(db, InRange(db, from, upTo), secondOf, Grid(t, mid, step), Grid(mid, upTo, step));
    EarlierHalf(db, from, mid, upTo, step);
    LaterHalf(db, from, mid, upTo, step);
  }

  /**
   Two queries meeting at a step-aligned instant join up to the query over the
   whole window exactly when both halves have entries or neither has.
   */
  lemma QueriesCompose(db: Bucket, from: int, mid: int, upTo: int, step: int)
    requires step >= SECOND && OnGrid(mid, step) && from < mid < upTo
    ensures Answer(db, from, mid, step) + Answer(db, mid, upTo, step) == Answer(db, from, upTo, step)
            <==> (InRange(db, from, mid) == {} <==> InRange(db, mid, upTo) == {})
  {
    SplitSamples(db, from, mid, upTo, step);
    TruncateFacts(mid, step);
    TruncateFacts(from, step);
    GridIsGapFree(Truncate(from, step), mid, step);
    GridIsGapFree(mid, upTo, step);
    assert InRange(db, from, upTo) == InRange(db, from, mid) + InRange(db, mid, upTo);
  }

  ghost function Pruned(db: Bucket, cutoff: int): Bucket {
    map k | k in db && KeyTime(k) >= cutoff :: db[k]
  }

  /** Pruning is invisible to every query that starts at or after the cutoff. */
  lemma PruneIsInvisibleAfterTheCutoff(db: Bucket, cutoff: int, from: int, upTo: int, step: int)
    requires step > 0 && cutoff <= from
    ensures Answer(Pruned(db, cutoff), from, upTo, step) == Answer(db, from, upTo, step)
  {
    var p := Pruned(db, cutoff);
    var keys := InRange(db, from, upTo);
    assert InRange(p, from, upTo) == keys;
    var grid := Grid(Truncate(from, step), upTo, step);
    forall i | 0 <= i < |grid|
      ensures Sum(p, Labelled(keys, BucketSecond(step), UnixOf(grid[i]))) == Sum(db, Labelled(keys, BucketSecond(step), UnixOf(grid[i])))
    {
      SumsAgree(Values(p), Values(db), Labelled(keys, BucketSecond(step), UnixOf(grid[i])));
    }
    SamplesAgree(p, keys, db, keys, BucketSecond(step), grid);
  }

  // ---------------------------------------------------------------- the store

  datatype Raw = Raw(ts: int, totals: Totals)

  /** The start of the bucket a key falls into. */
  function BucketStart(step: int): Key -> int
    requires step > 0
  {
    k => Truncate(KeyTime(k), step)
  }

  /** The bucket of one second: there if some key seen falls into it, with the sum of all that do. */
  ghost predicate AggregatedAt(v: Key -> Totals, seen: set<Key>, start: Key -> int, second: Key -> int, buckets: map<int, Sample>, sec: int) {
    var keys := Labelled(seen, second, sec);
    && (sec in buckets <==> keys != {})
    && (sec in buckets ==> buckets[sec].totals == SumOf(v, keys) && exists k :: k in keys && buckets[sec].ts == start(k))
  }

  ghost predicate Aggregates(v: Key -> Totals, seen: set<Key>, start: Key -> int, second: Key -> int, buckets: map<int, Sample>) {
    forall sec: int :: AggregatedAt(v, seen, start, second, buckets, sec)
  }

  /** Adding an entry to its bucket, which is opened when it is the first. */
  function AddTo(buckets: map<int, Sample>, sec: int, ts: int, t: Totals): map<int, Sample> {
    var s := if sec in buckets then buckets[sec] else Sample(ts, NOTHING);
    buckets[sec := s.(totals := s.totals.Plus(t))]
  }

  lemma NothingAggregated(v: Key -> Totals, start: Key -> int, second: Key -> int)
    ensures Aggregates(v, {}, start, second, map[])
  {
    forall sec: int ensures AggregatedAt(v, {}, start, second, map[], sec) {
      assert Labelled({}, second, sec) == {};
    }
  }

  lemma LabelledGrows(seen: set<Key>, second: Key -> int, k: Key)
    requires k !in seen
    ensures k !in Labelled(seen, second, second(k))
    ensures Labelled(seen + {k}, second, second(k)) == Labelled(seen, second, second(k)) + {k}
  {
  }

  lemma AddToItsBucket(v: Key -> Totals, seen: set<Key>, start: Key -> int, second: Key -> int, buckets: map<int, Sample>, k: Key)
    requires k !in seen && AggregatedAt(v, seen, start, second, buckets, second(k))
    ensures AggregatedAt(v, seen + {k}, start, second, AddTo(buckets, second(k), start(k), v(k)), second(k))
  {
    var sec := second(k);
    var before, after := Labelled(seen, second, sec), Labelled(seen + {k}, second, sec);
    LabelledGrows(seen, second, k);
    SumWithOneMore(v, before, k);
    var bucket := AddTo(buckets, sec, start(k), v(k))[sec];
    if sec in buckets {
      var j :| j in before && buckets[sec].ts == start(j);
      assert j in after && bucket.ts == start(j);
    } else {
      assert k in after && bucket.ts == start(k);
    }
  }

  lemma AggregateOneMore(v: Key -> Totals, seen: set<Key>, start: Key -> int, second: Key -> int, buckets: map<int, Sample>, k: Key)
    requires k !in seen && Aggregates(v, seen, start, second, buckets)
    ensures Aggregates(v, seen + {k}, start, second, AddTo(buckets, second(k), start(k), v(k)))
  {
    var after := AddTo(buckets, second(k), start(k), v(k));
    forall sec: int ensures AggregatedAt(v, seen + {k}, start, second, after, sec) {
      assert AggregatedAt(v, seen, start, second, buckets, sec);
      if sec == second(k) {
        AddToItsBucket(v, seen, start, second, buckets, k);
      } else {
        assert Labelled(seen + {k}, second, sec) == Labelled(seen, second, sec);
      }
    }
  }

  /** What the fill loop puts at one grid point. */
  function PickSample(buckets: map<int, Sample>, t: int): Sample {
    if UnixOf(t) in buckets then buckets[UnixOf(t)] else Sample(t, NOTHING)
  }

  lemma PickedSampleIsExact(db: Bucket, keys: set<Key>, step: int, buckets: map<int, Sample>, t: int)
    requires step > 0 && OnGrid(t, step)
    requires Aggregates(Values(db), keys, BucketStart(step), BucketSecond(step), buckets)
    ensures PickSample(buckets, t).totals == Sum(db, Labelled(keys, BucketSecond(step), UnixOf(t)))
    ensures step >= SECOND ==> PickSample(buckets, t).ts == t
  {
    var sec := UnixOf(t);
    assert AggregatedAt(Values(db), keys, BucketStart(step), BucketSecond(step), buckets, sec);
    if sec in buckets {
      var k :| k in Labelled(keys, BucketSecond(step), sec) && buckets[sec].ts == BucketStart(step)(k);
      TruncateFacts(KeyTime(k), step);
      if step >= SECOND {
        SecondsTellGridPointsApart(buckets[sec].ts, t, step);
      }
    } else {
      assert Labelled(keys, BucketSecond(step), sec) == {};
    }
  }

  ghost predicate NoRepeats(s: seq<Key>) {
    forall i, j :: 0 <= i < j < |s| ==> s[i] != s[j]
  }

  lemma NewAtItsPlace(s: seq<Key>, i: nat)
    requires i < |s| && NoRepeats(s)
    ensures s[i] !in s[..i]
  {
    forall j | 0 <= j < i ensures s[..i][j] != s[i] {
      assert s[j] != s[i];
    }
  }

  class Store {
    var db: Bucket

    constructor ()
      ensures db == map[]
    {
      db := map[];
    }

    /** One entry per tunnel and second: a second write in the same second replaces the first. */
    method Record(id: Id, bytesIn: int64, bytesOut: int64, conns: int64, now: int64)
      modifies this
      ensures db == old(db)[KeyOf(id, now) := EncodeTotals(bytesIn, bytesOut, conns)]
    {
      var key := MakeKey(id, now);
      var val := EncodeValue(bytesIn, bytesOut, conns);
      db := db[key := val];
    }

    /** The cursor scan, in whatever order: each in-range entry once. */
    method Collect(from: int, upTo: int) returns (raws: seq<Raw>, ghost who: seq<Key>)
      ensures |raws| == |who|
      ensures forall i :: 0 <= i < |who| ==> who[i] in db && raws[i] == Raw(KeyTime(who[i]), ValueAt(db, who[i]))
      ensures NoRepeats(who)
      ensures forall k :: k in who <==> k in InRange(db, from, upTo)
    {
      raws, who := [], [];
      var todo := db.Keys;
      while todo != {}
        invariant todo <= db.Keys && |raws| == |who|
        invariant forall i :: 0 <= i < |who| ==> who[i] in db && raws[i] == Raw(KeyTime(who[i]), ValueAt(db, who[i]))
        invariant NoRepeats(who)
        invariant forall k :: k in who <==> k in InRange(db, from, upTo) && k !in todo
      {
        var k :| k in todo;
        var ts := ExtractSec(k) * SECOND;
        if !(ts < from || !(ts < upTo)) {
          raws := raws + [Raw(ts, DecodeTotals(db[k]))];
          who := who + [k];
        }
        todo := todo - {k};
      }
    }

    /** One entry goes to the bucket its truncated time names. */
    static method AddRaw(buckets: map<int, Sample>, raw: Raw, step: int) returns (r: map<int, Sample>)
      requires step > 0
      ensures r == AddTo(buckets, UnixOf(Truncate(raw.ts, step)), Truncate(raw.ts, step), raw.totals)
    {
      var bucketTS := Truncate(raw.ts, step);
      var key := UnixOf(bucketTS);
      r := buckets;
      if key !in r {
        r := r[key := Sample(bucketTS, NOTHING)];
      }
      var s := r[key];
      r := r[key := s.(totals := s.totals.Plus(raw.totals))];
    }

    method Aggregate(raws: seq<Raw>, step: int, ghost who: seq<Key>) returns (buckets: map<int, Sample>)
      requires step > 0 && |raws| == |who|
      requires forall i :: 0 <= i < |who| ==> raws[i] == Raw(KeyTime(who[i]), ValueAt(db, who[i]))
      requires NoRepeats(who)
      ensures Aggregates(Values(db), (set k | k in who), BucketStart(step), BucketSecond(step), buckets)
    {
      buckets := map[];
      ghost var seen: set<Key> := {};
      var i := 0;
      NothingAggregated(Values(db), BucketStart(step), BucketSecond(step));
      while i < |raws|
        invariant 0 <= i <= |raws|
        invariant forall k :: k in seen <==> k in who[..i]
        invariant Aggregates(Values(db), seen, BucketStart(step), BucketSecond(step), buckets)
      {
        NewAtItsPlace(who, i);
        AggregateOneMore(Values(db), seen, BucketStart(step), BucketSecond(step), buckets, who[i]);
        buckets := AddRaw(buckets, raws[i], step);
        seen := seen + {who[i]};
        assert who[..i + 1] == who[..i] + [who[i]];
        i := i + 1;
      }
      assert who[..i] == who;
      assert seen == set k | k in who;
    }

    /** The fill loop: one sample per step from the truncated start, gaps filled with zeros. */
    method Fill(buckets: map<int, Sample>, from: int, upTo: int, step: int) returns (result: seq<Sample>)
      requires step > 0
      ensures var grid := Grid(Truncate(from, step), upTo, step);
              && |result| == |grid|
              && forall i :: 0 <= i < |grid| ==> OnGrid(grid[i], step) && result[i] == PickSample(buckets, grid[i])
    {
      result := FillFrom(buckets, Truncate(from, step), upTo, step);
      TruncatedGridIsOnGrid(from, upTo, step);
    }

    method FillFrom(buckets: map<int, Sample>, start: int, upTo: int, step: int) returns (result: seq<Sample>)
      requires step > 0
      ensures var grid := Grid(start, upTo, step);
              |result| == |grid| && forall i :: 0 <= i < |grid| ==> result[i] == PickSample(buckets, grid[i])
    {
      result := [];
      var t := start;
      ghost var grid, filled := Grid(t, upTo, step), [];
      while t < upTo
        invariant grid == filled + Grid(t, upTo, step)
        invariant |result| == |filled|
        invariant forall i :: 0 <= i < |filled| ==> result[i] == PickSample(buckets, filled[i])
        decreases upTo - t
      {
        var key := UnixOf(t);
        if key in buckets {
          result := result + [buckets[key]];
        } else {
          result := result + [Sample(t, NOTHING)];
        }
        filled := filled + [t];
        t := t + step;
      }
      assert grid == filled;
    }

    /**
     Aggregated samples for [from, upTo). For steps of at least a second: none
     without entries, otherwise consecutive intervals, each with the sum of
     exactly its own entries. A shorter step sums by Unix second, and may show the
     start of a neighbouring bucket.
     */
    method Query(from: int, upTo: int, step: int) returns (result: seq<Sample>)
      requires step > 0
      ensures |result| == |Answer(db, from, upTo, step)|
      ensures forall i :: 0 <= i < |result| ==> result[i].totals == Answer(db, from, upTo, step)[i].totals
      ensures step >= SECOND ==> result == Answer(db, from, upTo, step) && IsAnswer(db, from, upTo, step, result)
    {
      if step >= SECOND {
        LabelledAnswer(db, from, upTo, step);
      }
      var raws, who := Collect(from, upTo);
      ghost var keys := InRange(db, from, upTo);
      assert keys == set k | k in who;
      if |raws| == 0 {
        return [];
      }
      assert who[0] in keys;
      var buckets := Aggregate(raws, step, who);
      result := Fill(buckets, from, upTo, step);
      ghost var grid := Grid(Truncate(from, step), upTo, step);
      forall i | 0 <= i < |grid|
        ensures result[i].totals == Sum(db, Labelled(keys, BucketSecond(step), UnixOf(grid[i])))
        ensures step >= SECOND ==> result[i].ts == grid[i]
      {
        PickedSampleIsExact(db, keys, step, buckets, grid[i]);
      }
    }

    method Prune(now: int, olderThan: int)
      modifies this
      ensures db == Pruned(old(db), now - olderThan)
    {
      var cutoff := now - olderThan;
      var todo := db.Keys;
      while todo != {}
        invariant todo <= db.Keys
        invariant forall k :: k in old(db) && (k in todo || KeyTime(k) >= cutoff) ==> k in db
        invariant forall k :: k in db ==> k in old(db) && db[k] == old(db)[k] && (k in todo || KeyTime(k) >= cutoff)
      {
        var k :| k in todo;
        if ExtractSec(k) * SECOND < cutoff {
          db := db - {k};
        }
        todo := todo - {k};
      }
    }
  }
}
