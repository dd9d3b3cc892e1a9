/** The counter-to-gauge normaliser (infoset/db/db_data.py, class GetIDX).

    `GetIdx` resolves a query window from an optional start, an optional
    stop and the current time, loads the stored `(value, timestamp)` rows of
    one datapoint into a timestamp -> value map (a falsy value is fatal),
    and `Counter` turns that map into a series on a 300-second grid: gauges
    are copied, counters are differenced, the earliest counter sample serves
    only as a baseline, and a negative difference is replaced by the source's
    literal wrap formula `MOD + abs(value) - 1`.

    The reference meaning of the output is the ghost function `Normalize`;
    `Counter`'s loop is proved against it, and the listed properties of the
    series are lemmas about `Normalize`.
 */
module Normalizer {
  import opened Failures
  import Text
  import Database
  import Maps

  const INTERVAL: int := 300
  const DAY: int := 3600 * 24
  /** `base_type` of a gauge; every other value is a counter. */
  const GAUGE: int := 1
  const COUNTER32: int := 32
  const MOD32: int := 4294967296
  const MOD64: int := 4294967296 * 4294967296

  /** One `SELECT value, timestamp` row; a NULL value is `None`. */
  datatype Row = Row(value: Option<int>, timestamp: int)

  /** Python truthiness of a stored value: NULL and 0 are falsy. */
  predicate Truthy(v: Option<int>) {
    v.Some? && v.value != 0
  }

  predicate AllTruthy(rows: seq<Row>) {
    forall i :: 0 <= i < |rows| ==> Truthy(rows[i].value)
  }

  function Abs(x: int): (a: int)
    ensures a >= 0 && (a == x || a == -x)
  {
    if x < 0 then -x else x
  }

  // ---------------------------------------------------------------------
  // The query window
  // ---------------------------------------------------------------------

  datatype Window = Window(start: int, stop: int)

  /** `ts_start` and `ts_stop` as `__init__` computes them.  The source
      reads the normalised clock twice: `nowStart` is the reading taken for
      a missing start, `nowStop` the later one taken for a missing stop. */
  function ResolveWindow(baseType: int, start: Option<int>, stop: Option<int>, nowStart: int, nowStop: int): (w: Window)
    ensures w.start <= w.stop
  {
    var first :=
      if start.None? then nowStart - DAY
      else if baseType == GAUGE then start.value
      else start.value - INTERVAL;
    var last := if stop.None? then nowStop else stop.value;
    Window(if first > last then last else first, last)
  }

  /** The window rules, case by case: a given start is used as is for a
      gauge and moved back one interval for a counter; a missing start is
      one day before the first clock reading for every kind; a missing stop
      is the second reading; a start past the stop collapses onto the stop. */
  lemma WindowRules(baseType: int, start: Option<int>, stop: Option<int>, nowStart: int, nowStop: int)
    ensures var w := ResolveWindow(baseType, start, stop, nowStart, nowStop);
      && w.stop == stop.GetOr(nowStop)
      && (start.Some? && baseType == GAUGE && start.value <= w.stop ==> w.start == start.value)
      && (start.Some? && baseType != GAUGE && start.value - INTERVAL <= w.stop ==> w.start == start.value - INTERVAL)
      && (start.None? && nowStart - DAY <= w.stop ==> w.start == nowStart - DAY)
      && (w.start < w.stop ==> w.start == (if start.None? then nowStart - DAY else if baseType == GAUGE then start.value else start.value - INTERVAL))
  {
  }

  /** A missing start is not moved back for counters, unlike a given one. */
  lemma MissingStartIsNotShifted(now: int)
    ensures ResolveWindow(COUNTER32, None, None, now, now).start == now - DAY
    ensures ResolveWindow(GAUGE, None, None, now, now).start == now - DAY
    ensures ResolveWindow(COUNTER32, Some(now - DAY), None, now, now).start == now - DAY - INTERVAL
  {
  }

  /** With neither bound given, the window spans one day plus whatever the
      clock advanced between its two readings: exactly one day when both
      fall in the same interval, one day and one interval when an interval
      boundary passes between them. */
  lemma DefaultWindowLength(baseType: int, nowStart: int, nowStop: int)
    requires nowStart - DAY <= nowStop
    ensures var w := ResolveWindow(baseType, None, None, nowStart, nowStop);
      w.stop - w.start == DAY + (nowStop - nowStart)
    ensures var w := ResolveWindow(baseType, None, None, nowStart, nowStart + INTERVAL);
      w.stop - w.start == DAY + INTERVAL
  {
  }

  /** The text of the range query, with the window and the datapoint's idx
      printed as Python prints integers: the keyword, then the rest. */
  function RangeQuery(w: Window, idx: int): string {
    "SELECT" + RangeQueryTail(w, idx)
  }

  function RangeQueryTail(w: Window, idx: int): (s: string)
    ensures |s| > 0 && s[0] == ' '
  {
    [' '] + "value, timestamp FROM iset_data WHERE (timestamp >= " + Text.Decimal(w.start) +
    " AND timestamp <= " + Text.Decimal(w.stop) +
    ") AND idx_datapoint='" + Text.Decimal(idx) + "'"
  }

  /** The range query is a SELECT, so the store's read guard lets it through. */
  lemma RangeQueryIsRead(w: Window, idx: int)
    ensures Database.IsReadStatement(RangeQuery(w, idx))
  {
    Database.LowerSelect();
    Database.ReadStatementOf("SELECT", RangeQueryTail(w, idx));
  }

  // ---------------------------------------------------------------------
  // Loading the rows
  // ---------------------------------------------------------------------

  /** The sample map built from the rows: one value per timestamp, a later
      row overwriting an earlier one with the same timestamp. */
  function Samples(rows: seq<Row>): (m: map<int, int>)
    requires AllTruthy(rows)
    ensures forall t :: t in m ==> m[t] != 0
  {
    if rows == [] then map[]
    else
      var last := rows[|rows| - 1];
      Samples(rows[..|rows| - 1])[last.timestamp := last.value.value]
  }

  /** What the sample map holds: exactly the rows' timestamps, each with the
      value of the last row that carries it. */
  lemma {:induction false} SamplesContent(rows: seq<Row>)
    requires AllTruthy(rows)
    ensures forall t :: t in Samples(rows) <==> exists i :: 0 <= i < |rows| && rows[i].timestamp == t
    ensures forall i :: 0 <= i < |rows| && IsLastFor(rows, i) ==>
      Samples(rows)[rows[i].timestamp] == rows[i].value.value
  {
    if rows != [] {
      var init := rows[..|rows| - 1];
      assert AllTruthy(init);
      SamplesContent(init);
      forall i | 0 <= i < |rows| && IsLastFor(rows, i)
        ensures Samples(rows)[rows[i].timestamp] == rows[i].value.value
      {
        if i < |rows| - 1 {
          assert rows[|rows| - 1].timestamp != rows[i].timestamp;
          assert init[i] == rows[i];
          assert IsLastFor(init, i);
        }
      }
      forall t ensures t in Samples(rows) <==> exists i :: 0 <= i < |rows| && rows[i].timestamp == t {
        if t in Samples(init) {
          var i :| 0 <= i < |init| && init[i].timestamp == t;
          assert rows[i].timestamp == t;
        }
        if exists i :: 0 <= i < |rows| && rows[i].timestamp == t {
          var i :| 0 <= i < |rows| && rows[i].timestamp == t;
          if i < |rows| - 1 {
            assert init[i].timestamp == t;
          }
        }
      }
    }
  }

  /** No later row has the same timestamp as row `i`. */
  ghost predicate IsLastFor(rows: seq<Row>, i: int)
    requires 0 <= i < |rows|
  {
    forall j :: i < j < |rows| ==> rows[j].timestamp != rows[i].timestamp
  }

  // ---------------------------------------------------------------------
  // The reference meaning of the output series
  // ---------------------------------------------------------------------

  /** `t` is an element of `range(lo, hi, 300)`. */
  predicate InRange(lo: int, hi: int, t: int) {
    lo <= t < hi && (t - lo) % INTERVAL == 0
  }

  /** `dict.fromkeys(range(lo, hi, 300), 0)`. */
  function ZeroFilled(lo: int, hi: int): (g: map<int, int>)
    ensures forall t :: t in g ==> g[t] == 0
  {
    map t | lo <= t < hi && InRange(lo, hi, t) :: 0
  }

  /** The first pre-filled bucket: the window start for a gauge, one
      interval later for a counter. */
  function FirstBucket(baseType: int, w: Window): int {
    if baseType == GAUGE then w.start else w.start + INTERVAL
  }

  /** The zero-filled buckets of `_counter`. */
  function Grid(baseType: int, w: Window): (g: map<int, int>)
    ensures forall t :: t in g ==> g[t] == 0
  {
    ZeroFilled(FirstBucket(baseType, w), w.stop + INTERVAL)
  }

  /** The grid is `first + 300*i` for every `i` that stays below
      `ts_stop + 300`. */
  lemma GridShape(baseType: int, w: Window, t: int)
    ensures t in Grid(baseType, w) <==>
      exists i: nat :: t == FirstBucket(baseType, w) + INTERVAL * i && t < w.stop + INTERVAL
  {
    var first := FirstBucket(baseType, w);
    if t in Grid(baseType, w) {
      var i: nat := (t - first) / INTERVAL;
      assert t == first + INTERVAL * i;
    }
    if exists i: nat :: t == first + INTERVAL * i && t < w.stop + INTERVAL {
      var i: nat :| t == first + INTERVAL * i && t < w.stop + INTERVAL;
      assert (t - first) % INTERVAL == (INTERVAL * i) % INTERVAL == 0;
    }
  }

  /** For a counter the shifted-back baseline bucket is never pre-filled;
      for a gauge the window start always is. */
  lemma BaselineBucket(baseType: int, w: Window)
    requires w.start <= w.stop
    ensures baseType != GAUGE ==> w.start !in Grid(baseType, w)
    ensures baseType == GAUGE ==> w.start in Grid(baseType, w)
  {
  }

  ghost predicate HasEarlier(data: map<int, int>, t: int) {
    exists p :: p in data && p < t
  }

  /** The sample that precedes `t` in ascending timestamp order. */
  ghost function Latest(data: map<int, int>, t: int): (p: int)
    requires HasEarlier(data, t)
    ensures p in data && p < t
    ensures forall q :: q in data && q < t ==> q <= p
  {
    var earlier := set q | q in data && q < t;
    var w :| w in data && w < t;
    MaxExists(earlier, w);
    var p :| IsMax(earlier, p);
    assert forall q :: q in data && q < t ==> q in earlier;
    p
  }

  /** The width of the counter that `base_type` names, as the source
      chooses it: 32 bits for 32, 64 bits for anything else. */
  function Modulus(baseType: int): (m: int)
    ensures m == MOD32 || m == MOD64
  {
    if baseType == COUNTER32 then MOD32 else MOD64
  }

  /** One counter bucket: the difference of consecutive samples, or, when
      that is negative, the source's literal repair from the raw current
      value. */
  function CounterValue(baseType: int, previous: int, current: int): (v: int)
    ensures v >= 0
  {
    var delta := current - previous;
    if delta >= 0 then delta else Modulus(baseType) + Abs(current) - 1
  }

  /** The two branches of the repair: it uses the current raw value, not
      the difference, and a repaired bucket is never below `MOD - 1`, so it
      never looks like a real difference of a counter of that width. */
  lemma CounterRepair(baseType: int, previous: int, current: int)
    ensures current >= previous ==> CounterValue(baseType, previous, current) == current - previous
    ensures current < previous && baseType == COUNTER32 ==>
      CounterValue(baseType, previous, current) == 4294967296 + Abs(current) - 1
    ensures current < previous && baseType != COUNTER32 ==>
      CounterValue(baseType, previous, current) == 18446744073709551616 + Abs(current) - 1
    ensures current < previous ==> CounterValue(baseType, previous, current) >= Modulus(baseType) - 1
  {
  }

  /** The buckets the sample walk writes: every sample for a gauge; for a
      counter every sample but the earliest, from itself and its
      predecessor. */
  ghost function Written(baseType: int, data: map<int, int>): map<int, int> {
    if baseType == GAUGE then data
    else map t | t in data && HasEarlier(data, t) :: CounterValue(baseType, data[Latest(data, t)], data[t])
  }

  /** The output series: the zero grid, overwritten by the walk. */
  ghost function Normalize(baseType: int, w: Window, data: map<int, int>): map<int, int> {
    Grid(baseType, w) + Written(baseType, data)
  }

  // ---------------------------------------------------------------------
  // Sorted enumeration of the timestamps
  // ---------------------------------------------------------------------

  ghost predicate Increasing(ks: seq<int>) {
    forall i, j :: 0 <= i < j < |ks| ==> ks[i] < ks[j]
  }

  /** `ks` lists `keys` in ascending order. */
  ghost predicate Enumerates(ks: seq<int>, keys: set<int>) {
    Increasing(ks) && forall t :: t in keys <==> t in ks
  }

  predicate IsMax(s: set<int>, m: int) {
    m in s && forall q :: q in s ==> q <= m
  }

  predicate IsMin(s: set<int>, m: int) {
    m in s && forall q :: q in s ==> m <= q
  }

  /** Some element of a non-empty set. */
  lemma Element(s: set<int>) returns (x: int)
    requires |s| > 0
    ensures x in s
  {
    if forall z :: z !in s {
      assert false;
    }
    x :| x in s;
  }

  /** A finite set of integers has a largest element. */
  lemma MaxExists(s: set<int>, x: int)
    requires x in s
    ensures exists m :: IsMax(s, m)
    decreases |s|
  {
    var rest := s - {x};
    if y :| y in rest && x < y {
      MaxExists(rest, y);
      var m :| IsMax(rest, m);
      assert IsMax(s, m) by {
        forall q | q in s ensures q <= m {
          if q != x { assert q in rest; }
        }
      }
    } else {
      assert IsMax(s, x) by {
        forall q | q in s ensures q <= x {
          if q != x { assert q in rest; }
        }
      }
    }
  }

  /** A finite set of integers has a smallest element. */
  lemma MinExists(s: set<int>, x: int)
    requires x in s
    ensures exists m :: IsMin(s, m)
    decreases |s|
  {
    var rest := s - {x};
    if y :| y in rest && y < x {
      MinExists(rest, y);
      var m :| IsMin(rest, m);
      assert IsMin(s, m) by {
        forall q | q in s ensures m <= q {
          if q != x { assert q in rest; }
        }
      }
    } else {
      assert IsMin(s, x) by {
        forall q | q in s ensures x <= q {
          if q != x { assert q in rest; }
        }
      }
    }
  }

  /** `sorted(...)` on the timestamps of the sample map. */
  method SortedTimestamps(keys: set<int>) returns (ks: seq<int>)
    ensures Increasing(ks)
    ensures forall t :: t in keys <==> t in ks
  {
    var rest := keys;
    ks := [];
    while |rest| > 0
      invariant rest <= keys
      invariant forall t :: t in keys <==> t in ks || t in rest
      invariant Increasing(ks)
      invariant forall i, t :: 0 <= i < |ks| && t in rest ==> ks[i] < t
      decreases |rest|
    {
      ghost var x := Element(rest);
      MinExists(rest, x);
      var m :| IsMin(rest, m);
      ks := ks + [m];
      rest := rest - {m};
    }
  }

  /** In an ascending enumeration the predecessor of every sample but the
      first is the entry just before it, and the first has none. */
  lemma LatestIsPrevious(data: map<int, int>, ks: seq<int>, i: int)
    requires Enumerates(ks, data.Keys)
    requires 0 <= i < |ks|
    ensures i == 0 ==> !HasEarlier(data, ks[i])
    ensures 0 < i ==> HasEarlier(data, ks[i]) && Latest(data, ks[i]) == ks[i - 1]
  {
    if 0 < i {
      assert ks[i - 1] in data && ks[i - 1] < ks[i];
      var p := Latest(data, ks[i]);
      var j :| 0 <= j < |ks| && ks[j] == p;
      assert j < i;
      assert ks[i - 1] <= p;
    }
  }

  /** The written buckets restricted to the timestamps listed in `ks`. */
  ghost function Upto(m: map<int, int>, ks: seq<int>): map<int, int> {
    map t | t in m && t in ks :: m[t]
  }

  /** Extending the enumeration by one timestamp adds that timestamp's
      bucket, if it is written. */
  lemma UptoExtend(m: map<int, int>, ks: seq<int>, i: int)
    requires 0 <= i < |ks|
    ensures ks[i] in m ==> Upto(m, ks[..i + 1]) == Upto(m, ks[..i])[ks[i] := m[ks[i]]]
    ensures ks[i] !in m ==> Upto(m, ks[..i + 1]) == Upto(m, ks[..i])
  {
    assert ks[..i + 1] == ks[..i] + [ks[i]];
  }

  /** The buckets the walk writes, one by one: a gauge writes every sample
      as stored; a counter writes every sample that has a predecessor, from
      that predecessor and itself. */
  lemma WrittenShape(baseType: int, data: map<int, int>)
    ensures baseType == GAUGE ==> Written(baseType, data) == data
    ensures baseType != GAUGE ==> forall t :: t in Written(baseType, data) <==> t in data && HasEarlier(data, t)
    ensures baseType != GAUGE ==> forall t :: t in Written(baseType, data) ==>
      Written(baseType, data)[t] == CounterValue(baseType, data[Latest(data, t)], data[t])
  {
  }

  /** What step `i` of the walk over an ascending enumeration writes:
      nothing for a counter's first sample; otherwise the sample's own
      bucket, holding the gauge value or the counter value computed from
      the previous entry. */
  lemma WalkStep(baseType: int, data: map<int, int>, ks: seq<int>, i: int)
    requires Enumerates(ks, data.Keys)
    requires 0 <= i < |ks|
    ensures baseType != GAUGE && i == 0 ==> ks[i] !in Written(baseType, data)
    ensures baseType == GAUGE ==> ks[i] in Written(baseType, data) && Written(baseType, data)[ks[i]] == data[ks[i]]
    ensures baseType != GAUGE && 0 < i ==> (ks[i] in Written(baseType, data) &&
      Written(baseType, data)[ks[i]] == CounterValue(baseType, data[ks[i - 1]], data[ks[i]]))
  {
    LatestIsPrevious(data, ks, i);
    WrittenShape(baseType, data);
  }

  /** After the whole enumeration, every written bucket is in place. */
  lemma WalkDone(baseType: int, data: map<int, int>, ks: seq<int>)
    requires Enumerates(ks, data.Keys)
    ensures Upto(Written(baseType, data), ks[..|ks|]) == Written(baseType, data)
  {
    var w := Written(baseType, data);
    assert ks[..|ks|] == ks;
    WrittenWithinSamples(baseType, data);
    forall t | t in w ensures t in ks {
      assert t in data.Keys;
    }
    assert Upto(w, ks).Keys == w.Keys;
  }

  lemma WrittenWithinSamples(baseType: int, data: map<int, int>)
    ensures Written(baseType, data).Keys <= data.Keys
  {
  }

  // ---------------------------------------------------------------------
  // Properties of the output series
  // ---------------------------------------------------------------------

  /** With no samples the series is exactly the zero grid. */
  lemma NoSamplesGivesGrid(baseType: int, w: Window)
    ensures Normalize(baseType, w, map[]) == Grid(baseType, w)
  {
    WrittenWithinSamples(baseType, map[]);
    assert Written(baseType, map[]) == map[];
  }

  /** A gauge series holds every sample as stored, a zero in every other
      grid bucket, and nothing else. */
  lemma GaugeSeries(w: Window, data: map<int, int>)
    ensures Normalize(GAUGE, w, data).Keys == Grid(GAUGE, w).Keys + data.Keys
    ensures forall t :: t in data ==> Normalize(GAUGE, w, data)[t] == data[t]
    ensures forall t :: t in Normalize(GAUGE, w, data) && t !in data ==> Normalize(GAUGE, w, data)[t] == 0
  {
    WrittenShape(GAUGE, data);
  }

  /** A counter series, read off an ascending enumeration `ks` of the
      samples: the earliest sample gets no bucket of its own, every later
      sample gets the counter value computed from its predecessor, and all
      other grid buckets are zero. */
  lemma CounterSeries(baseType: int, w: Window, data: map<int, int>, ks: seq<int>)
    requires baseType != GAUGE
    requires Enumerates(ks, data.Keys) && |ks| > 0
    ensures Normalize(baseType, w, data).Keys == Grid(baseType, w).Keys + (data.Keys - {ks[0]})
    ensures forall i :: 0 < i < |ks| ==>
      Normalize(baseType, w, data)[ks[i]] == CounterValue(baseType, data[ks[i - 1]], data[ks[i]])
    ensures forall t :: t in Normalize(baseType, w, data) && (t !in data || t == ks[0]) ==>
      Normalize(baseType, w, data)[t] == 0
  {
    CounterWritten(baseType, data, ks);
    var written := Written(baseType, data);
    var out := Normalize(baseType, w, data);
    assert out == Grid(baseType, w) + written;
  }

  /** The buckets the walk writes for a counter, read off `ks`. */
  lemma CounterWritten(baseType: int, data: map<int, int>, ks: seq<int>)
    requires baseType != GAUGE
    requires Enumerates(ks, data.Keys) && |ks| > 0
    ensures Written(baseType, data).Keys == data.Keys - {ks[0]}
    ensures forall i :: 0 < i < |ks| ==>
      Written(baseType, data)[ks[i]] == CounterValue(baseType, data[ks[i - 1]], data[ks[i]])
  {
    CounterWrittenKeys(baseType, data, ks);
    forall i | 0 < i < |ks|
      ensures Written(baseType, data)[ks[i]] == CounterValue(baseType, data[ks[i - 1]], data[ks[i]])
    {
      WalkStep(baseType, data, ks, i);
    }
  }

  lemma CounterWrittenKeys(baseType: int, data: map<int, int>, ks: seq<int>)
    requires baseType != GAUGE
    requires Enumerates(ks, data.Keys) && |ks| > 0
    ensures Written(baseType, data).Keys == data.Keys - {ks[0]}
  {
    WrittenKeys(baseType, data);
    FirstHasNoEarlier(data, ks);
    var written := Written(baseType, data);
    forall t ensures t in written <==> t in data && t != ks[0] {
      if t in data && t != ks[0] {
        var j :| 0 <= j < |ks| && ks[j] == t;
        assert ks[0] in data && ks[0] < t;
      }
    }
  }

  lemma FirstHasNoEarlier(data: map<int, int>, ks: seq<int>)
    requires Enumerates(ks, data.Keys) && |ks| > 0
    ensures !HasEarlier(data, ks[0])
  {
  }

  lemma WrittenKeys(baseType: int, data: map<int, int>)
    requires baseType != GAUGE
    ensures forall t :: t in Written(baseType, data) <==> t in data && HasEarlier(data, t)
  {
  }

  /** Every bucket of a counter series is non-negative. */
  lemma CounterSeriesNonNegative(baseType: int, w: Window, data: map<int, int>)
    requires baseType != GAUGE
    ensures forall t :: t in Normalize(baseType, w, data) ==> Normalize(baseType, w, data)[t] >= 0
  {
    WrittenShape(baseType, data);
  }

  /** Gap filling: a gauge over [0, 600] without samples has the three
      buckets 0, 300 and 600. */
  lemma GaugeGapFill()
    ensures Normalize(GAUGE, Window(0, 600), map[]) == map[0 := 0, 300 := 0, 600 := 0]
  {
    NoSamplesGivesGrid(GAUGE, Window(0, 600));
    GridBuckets(0, 900);
  }

  /** A counter over the same window drops the baseline bucket 0. */
  lemma CounterGapFill()
    ensures Normalize(COUNTER32, Window(0, 600), map[]) == map[300 := 0, 600 := 0]
  {
    NoSamplesGivesGrid(COUNTER32, Window(0, 600));
    GridBuckets(300, 900);
  }

  /** The buckets of a short grid, listed. */
  lemma GridBuckets(lo: int, hi: int)
    requires lo == 0 || lo == 300
    requires hi == 900
    ensures lo == 0 ==> ZeroFilled(lo, hi) == map[0 := 0, 300 := 0, 600 := 0]
    ensures lo == 300 ==> ZeroFilled(lo, hi) == map[300 := 0, 600 := 0]
  {
    forall t | t in ZeroFilled(lo, hi) ensures t == 0 || t == 300 || t == 600 {
      var k := (t - lo) / INTERVAL;
      assert t == lo + INTERVAL * k;
    }
    assert InRange(lo, hi, 300) && InRange(lo, hi, 600);
    assert lo == 0 ==> InRange(lo, hi, 0);
  }

  /** A normal counter step: the bucket holds the difference. */
  lemma CounterDelta()
    ensures Normalize(COUNTER32, Window(0, 300), map[0 := 1000, 300 := 1500]) == map[300 := 500]
  {
    CounterExample(map[0 := 1000, 300 := 1500]);
  }

  /** A 32-bit counter that went down: the repair is `2^32 + 50 - 1`. */
  lemma Counter32Wrap()
    ensures Normalize(COUNTER32, Window(0, 300), map[0 := 4294967290, 300 := 50]) == map[300 := 4294967345]
  {
    CounterExample(map[0 := 4294967290, 300 := 50]);
  }

  /** A 32-bit counter with two samples, at 0 and 300, over [0, 300]. */
  lemma CounterExample(data: map<int, int>)
    requires data.Keys == {0, 300}
    ensures Normalize(COUNTER32, Window(0, 300), data) == map[300 := CounterValue(COUNTER32, data[0], data[300])]
  {
    var ks := [0, 300];
    assert Enumerates(ks, data.Keys);
    CounterSeries(COUNTER32, Window(0, 300), data, ks);
    SingleBucket();
  }

  lemma SingleBucket()
    ensures Grid(COUNTER32, Window(0, 300)) == map[300 := 0]
  {
    forall t | t in ZeroFilled(300, 600) ensures t == 300 {
      var k := (t - 300) / INTERVAL;
      assert t == 300 + INTERVAL * k;
    }
    assert InRange(300, 600, 300);
  }

  // ---------------------------------------------------------------------
  // The class
  // ---------------------------------------------------------------------

  class GetIdx {
    const idx: int
    const baseType: int
    var tsStart: int
    var tsStop: int
    /** timestamp -> stored value */
    var data: map<int, int>

    ghost predicate Valid()
      reads this
    {
      tsStart <= tsStop && forall t :: t in data ==> data[t] != 0
    }

    /** The window part of `__init__`. */
    constructor (idx: int, baseType: int, start: Option<int>, stop: Option<int>, nowStart: int, nowStop: int)
      ensures this.idx == idx && this.baseType == baseType
      ensures Window(tsStart, tsStop) == ResolveWindow(baseType, start, stop, nowStart, nowStop)
      ensures data == map[]
      ensures Valid()
    {
      this.idx := idx;
      this.baseType := baseType;
      data := map[];
      var first: int;
      if start.None? {
        first := nowStart - DAY;
      } else if baseType == GAUGE {
        first := start.value;
      } else {
        first := start.value - INTERVAL;
      }
      var last: int;
      if stop.None? {
        last := nowStop;
      } else {
        last := stop.value;
      }
      if first > last {
        first := last;
      }
      tsStart := first;
      tsStop := last;
    }

    /** The row loop of `__init__`: a falsy value dies with 1302,
        otherwise the row's value is stored under its timestamp. */
    method Load(rows: seq<Row>) returns (r: Result<()>)
      requires Valid() && data == map[]
      modifies this`data
      ensures Valid()
      ensures r.Ok? <==> AllTruthy(rows)
      ensures r.Err? ==> r.failure == Die(1302)
      ensures r.Ok? ==> data == Samples(rows)
    {
      for i := 0 to |rows|
        invariant AllTruthy(rows[..i])
        invariant data == Samples(rows[..i])
        invariant Valid()
      {
        var row := rows[i];
        if !Truthy(row.value) {
          return Err(Die(1302));
        }
        assert rows[..i + 1][..i] == rows[..i];
        data := data[row.timestamp := row.value.value];
      }
      assert rows[..|rows|] == rows;
      return Ok(());
    }

    /** `GetIDX(idx, config, start, stop)`: resolve the window, run the
        range query through the store (dying with 1301 when it fails), and
        load the rows. */
    static method Open(idx: int, baseType: int, start: Option<int>, stop: Option<int>, nowStart: int, nowStop: int,
                       store: Database.Store, reply: Database.QueryReply<Row>)
      returns (r: Result<GetIdx>)
      modifies store
      ensures var w := ResolveWindow(baseType, start, stop, nowStart, nowStop);
        store.trace == old(store.trace) + Database.QueryOps(RangeQuery(w, idx), reply)
      ensures !reply.Fetched? ==> r == Err(Die(1301))
      ensures reply.Fetched? && !AllTruthy(reply.rows) ==> r == Err(Die(1302))
      ensures r.Ok? <==> reply.Fetched? && AllTruthy(reply.rows)
      ensures r.Ok? ==>
        && fresh(r.value) && r.value.Valid()
        && r.value.idx == idx && r.value.baseType == baseType
        && Window(r.value.tsStart, r.value.tsStop) == ResolveWindow(baseType, start, stop, nowStart, nowStop)
        && r.value.data == Samples(reply.rows)
    {
      var g := new GetIdx(idx, baseType, start, stop, nowStart, nowStop);
      var statement := RangeQuery(Window(g.tsStart, g.tsStop), idx);
      RangeQueryIsRead(Window(g.tsStart, g.tsStop), idx);
      var rows :- store.Query(statement, 1301, reply);
      var loaded := g.Load(rows);
      if loaded.Err? {
        return Err(loaded.failure);
      }
      return Ok(g);
    }

    /** `everything()`: the normalised series. */
    method Everything() returns (values: map<int, int>)
      ensures values == Normalize(baseType, Window(tsStart, tsStop), data)
    {
      values := Counter();
    }

    /** `_counter()`: pre-fill the grid with zeros, then walk the samples in
        ascending timestamp order. */
    method Counter() returns (values: map<int, int>)
      ensures values == Normalize(baseType, Window(tsStart, tsStop), data)
    {
      var count := 0;
      values := Grid(baseType, Window(tsStart, tsStop));
      var timestamps := SortedTimestamps(data.Keys);
      var oldTimestamp := 0;
      ghost var grid := values;
      ghost var written := Written(baseType, data);
      ghost var done: map<int, int> := map[];
      assert timestamps[..0] == [];
      for i := 0 to |timestamps|
        invariant done == Upto(written, timestamps[..i])
        invariant values == grid + done
        invariant baseType != GAUGE ==> count == if i == 0 then 0 else 1
        invariant 0 < i ==> oldTimestamp == timestamps[i - 1]
      {
        var timestamp := timestamps[i];
        var value := data[timestamp];
        WalkStep(baseType, data, timestamps, i);
        UptoExtend(written, timestamps, i);
        ghost var before := values;
        if baseType != GAUGE {
          if count == 0 {
            // The earliest sample is only the baseline.
            oldTimestamp := timestamp;
            count := count + 1;
            continue;
          }
          var newValue := value - data[oldTimestamp];
          if newValue >= 0 {
            assert newValue == written[timestamp];
            values := values[timestamp := newValue];
          } else {
            var fixedValue: int;
            if baseType == COUNTER32 {
              fixedValue := 4294967296 + Abs(value) - 1;
            } else {
              fixedValue := (4294967296 * 4294967296) + Abs(value) - 1;
            }
            assert fixedValue == written[timestamp];
            values := values[timestamp := fixedValue];
          }
        } else {
          values := values[timestamp := value];
        }
        assert values == before[timestamp := written[timestamp]];
        Maps.OverrideUpdate(grid, done, timestamp, written[timestamp]);
        done := done[timestamp := written[timestamp]];
        oldTimestamp := timestamp;
      }
      WalkDone(baseType, data, timestamps);
    }
  }
}
