/** The append-only replay of scripts/prediction-backtest.ts, over windows split as packages/core/src/usage-prediction.ts does. */
module PredictionReplay {
  import opened Wrappers

  const LIMIT := 100.0
  const RESET_JITTER_TOLERANCE_MS := 60_000
  const SEGMENT_COVERAGE_SLACK_MS := 600_000

  datatype Point = Point(t: int, utilization: real, resetsAt: Option<int>)

  ghost predicate Sorted(points: seq<Point>) {
    forall i, j :: 0 <= i < j < |points| ==> points[i].t <= points[j].t
  }

  // Windows

  function Distance(a: int, b: int): nat {
    if a < b then b - a else a - b
  }

  /** `isResetBoundary`. */
  predicate IsResetBoundary(prev: Point, cur: Point) {
    match (prev.resetsAt, cur.resetsAt)
    case (None, None) => false
    case (Some(a), Some(b)) => Distance(b, a) > RESET_JITTER_TOLERANCE_MS
    case _ => true
  }

  function Concat(windows: seq<seq<Point>>, n: nat): seq<Point>
    requires n <= |windows|
  {
    if n == 0 then [] else Concat(windows, n - 1) + windows[n - 1]
  }

  /** No boundary inside a window, and one between each window and the next. */
  ghost predicate SplitAtResets(windows: seq<seq<Point>>) {
    && (forall w :: 0 <= w < |windows| ==> windows[w] != [])
    && (forall w, i :: 0 <= w < |windows| && 0 < i < |windows[w]| ==> !IsResetBoundary(windows[w][i - 1], windows[w][i]))
    && forall w :: 0 < w < |windows| && windows[w - 1] != [] && windows[w] != [] ==>
         IsResetBoundary(windows[w - 1][|windows[w - 1]| - 1], windows[w][0])
  }

  lemma {:induction false} ConcatMore(windows: seq<seq<Point>>, more: seq<seq<Point>>, n: nat)
    requires n <= |windows| && windows <= more
    ensures Concat(more, n) == Concat(windows, n)
  {
    if n > 0 {
      ConcatMore(windows, more, n - 1);
    }
  }

  /** `splitSeries` on reset boundaries: a plain partition. */
  method SplitSeries(points: seq<Point>) returns (windows: seq<seq<Point>>)
    ensures Concat(windows, |windows|) == points && SplitAtResets(windows)
  {
    if points == [] {
      return [];
    }
    hide IsResetBoundary;
    windows := [];
    var current := [points[0]];
    assert points[..1] == [points[0]];
    for i := 1 to |points|
      invariant current != [] && current[|current| - 1] == points[i - 1]
      invariant Concat(windows, |windows|) + current == points[..i]
      invariant SplitAtResets(windows + [current])
    {
      assert points[..i + 1] == points[..i] + [points[i]];
      if IsResetBoundary(points[i - 1], points[i]) {
        ConcatMore(windows, windows + [current], |windows|);
        ghost var before := windows + [current];
        windows := windows + [current];
        current := [points[i]];
        assert windows[|windows| - 1] == before[|before| - 1];
      } else {
        ghost var before := windows + [current];
        assert before[|windows|] == current;
        current := current + [points[i]];
        SplitGrows(windows, before[|windows|], points[i]);
      }
    }
    ConcatMore(windows, windows + [current], |windows|);
    windows := windows + [current];
    assert points[..|points|] == points;
  }

  lemma SplitGrows(windows: seq<seq<Point>>, current: seq<Point>, p: Point)
    requires SplitAtResets(windows + [current]) && current != [] && !IsResetBoundary(current[|current| - 1], p)
    ensures SplitAtResets(windows + [current + [p]])
  {
    var a, b := windows + [current], windows + [current + [p]];
    assert a[|windows|] == current && b[|windows|] == current + [p];
    assert forall w :: 0 <= w < |windows| ==> a[w] == windows[w] && b[w] == windows[w];
  }

  // Outcomes

  datatype Outcome = Exhausted(at: int) | Censored | Survived

  /** The first sample after `t` at the limit, among those from `i` on; the length of the series if there is none. */
  function FirstAtLimit(series: seq<Point>, t: int, i: nat): (k: nat)
    requires i <= |series|
    ensures i <= k <= |series|
    ensures k < |series| ==> series[k].t > t && series[k].utilization >= LIMIT
    ensures forall j :: i <= j < k ==> !(series[j].t > t && series[j].utilization >= LIMIT)
    decreases |series| - i
  {
    if i == |series| || (series[i].t > t && series[i].utilization >= LIMIT) then i else FirstAtLimit(series, t, i + 1)
  }

  function Earlier(a: Option<int>, b: Option<int>): Option<int> {
    if a.None? then b
    else if b.None? then a
    else if a.value < b.value then a else b
  }

  /** `deriveOutcome`. */
  function OutcomeOf(series: seq<Point>, t: int, resetAt: Option<int>, nextStarts: Option<int>): Outcome {
    var k := FirstAtLimit(series, t, 0);
    if k < |series| then Exhausted(series[k].t)
    else if nextStarts.None? || series == [] then Censored
    else if Earlier(resetAt, nextStarts).value - series[|series| - 1].t > SEGMENT_COVERAGE_SLACK_MS then Censored
    else Survived
  }

  /** When the outcome's region ends; `None` is never. */
  function OutcomeEnd(outcome: Outcome, resetAt: Option<int>, nextStarts: Option<int>): Option<int> {
    if outcome.Exhausted? then Some(outcome.at) else Earlier(resetAt, nextStarts)
  }

  /** The earliest of the two instants that are known. */
  lemma EarlierIs(a: Option<int>, b: Option<int>)
    ensures Earlier(a, b).None? <==> a.None? && b.None?
    ensures Earlier(a, b).Some? ==> Earlier(a, b) == a || Earlier(a, b) == b
    ensures Earlier(a, b).Some? && a.Some? ==> Earlier(a, b).value <= a.value
    ensures Earlier(a, b).Some? && b.Some? ==> Earlier(a, b).value <= b.value
  {
  }

  /**
   * A window is exhausted at its first sample after the instant that is at 100 percent. Otherwise it survived if the
   * next window was seen to start and samples went on to within ten minutes of this one's end, which is its reset or
   * that start, whichever is earlier; and it is censored if not.
   */
  lemma OutcomeIs(series: seq<Point>, t: int, resetAt: Option<int>, nextStarts: Option<int>)
    ensures forall i :: 0 <= i < |series| && series[i].t > t && series[i].utilization >= 100.0
                        && (forall j :: 0 <= j < i ==> series[j].t <= t || series[j].utilization < 100.0) ==>
              OutcomeOf(series, t, resetAt, nextStarts) == Exhausted(series[i].t)
    ensures (forall i :: 0 <= i < |series| ==> series[i].t <= t || series[i].utilization < 100.0) ==>
              OutcomeOf(series, t, resetAt, nextStarts)
              == if series != [] && nextStarts.Some?
                    && (|| nextStarts.value <= series[|series| - 1].t + 600_000
                        || (resetAt.Some? && resetAt.value <= series[|series| - 1].t + 600_000))
                 then Survived else Censored
  {
  }

  /** The label of an instant ends at the exhaustion, or with the window. */
  lemma OutcomeEndIs(outcome: Outcome, resetAt: Option<int>, nextStarts: Option<int>)
    ensures outcome.Exhausted? ==> OutcomeEnd(outcome, resetAt, nextStarts) == Some(outcome.at)
    ensures !outcome.Exhausted? && resetAt.Some? && nextStarts.Some? ==>
      OutcomeEnd(outcome, resetAt, nextStarts) == Some(if resetAt.value <= nextStarts.value then resetAt.value else nextStarts.value)
    ensures !outcome.Exhausted? && resetAt.None? ==> OutcomeEnd(outcome, resetAt, nextStarts) == nextStarts
    ensures !outcome.Exhausted? && nextStarts.None? ==> OutcomeEnd(outcome, resetAt, nextStarts) == resetAt
  {
  }

  /** A reset boundary: one sample knows a reset and the other does not, or theirs are more than a minute apart. */
  lemma BoundaryIs(prev: Point, cur: Point)
    ensures IsResetBoundary(prev, cur)
       <==> || (prev.resetsAt == None && cur.resetsAt != None)
            || (prev.resetsAt != None && cur.resetsAt == None)
            || (prev.resetsAt.Some? && cur.resetsAt.Some?
                && !(-60_000 <= cur.resetsAt.value - prev.resetsAt.value <= 60_000))
  {
  }

  // The replay

  /** What one scored instant hands every estimator, and how it is labelled. */
  datatype Record = Record(
    t: int, window: nat, input: seq<Point>, outcome: Outcome, end: Option<int>, knownReset: Option<int>,
    labelReset: Option<int>)

  /** All samples no later than `t`. */
  function UpTo(points: seq<Point>, t: int): seq<Point> {
    if points == [] then []
    else (if points[0].t <= t then [points[0]] else []) + UpTo(points[1..], t)
  }

  lemma {:induction false} UpToIsPrefix(points: seq<Point>, t: int, k: nat)
    requires k <= |points|
    requires forall i :: 0 <= i < k ==> points[i].t <= t
    requires forall i :: k <= i < |points| ==> points[i].t > t
    ensures UpTo(points, t) == points[..k]
  {
    if points != [] {
      if k > 0 {
        UpToIsPrefix(points[1..], t, k - 1);
        assert points[..k] == [points[0]] + points[1..][..k - 1];
      } else {
        UpToIsPrefix(points[1..], t, 0);
      }
    }
  }

  function NextStart(windows: seq<seq<Point>>, w: nat): Option<int> {
    if w + 1 < |windows| && windows[w + 1] != [] then Some(windows[w + 1][0].t) else None
  }

  /** The label needs the first sample of the window after this one, if any. */
  lemma NextStartIs(windows: seq<seq<Point>>, w: nat)
    requires forall k :: 0 <= k < |windows| ==> windows[k] != []
    ensures NextStart(windows, w) == None <==> w + 1 >= |windows|
    ensures forall k :: 0 <= k < |windows| && k == w + 1 ==> NextStart(windows, w) == Some(windows[k][0].t)
  {
  }

  /** A sample in range, below the cap, and a step after the candidate before it. */
  predicate Picks(p: Point, last: Option<int>, from: int, to: int, step: int) {
    from <= p.t < to && (last.None? || p.t - last.value >= step) && p.utilization < LIMIT
  }

  /** The last candidate among the first `n` samples of a window. */
  function LastPick(series: seq<Point>, n: nat, from: int, to: int, step: int): Option<int>
    requires n <= |series|
  {
    if n == 0 then None
    else
      var last := LastPick(series, n - 1, from, to, step);
      if Picks(series[n - 1], last, from, to, step) then Some(series[n - 1].t) else last
  }

  /** The outcome of the instant ends inside the range. */
  predicate EndsInRange(series: seq<Point>, t: int, nextStarts: Option<int>, to: int)
    requires series != []
  {
    var resetAt := series[|series| - 1].resetsAt;
    var end := OutcomeEnd(OutcomeOf(series, t, resetAt, nextStarts), resetAt, nextStarts);
    end.Some? && end.value < to
  }

  /** The instants to score among the first `n` samples of a window. */
  function Instants(series: seq<Point>, nextStarts: Option<int>, n: nat, from: int, to: int, step: int): seq<int>
    requires n <= |series|
  {
    if n == 0 then []
    else
      var p := series[n - 1];
      Instants(series, nextStarts, n - 1, from, to, step)
      + if Picks(p, LastPick(series, n - 1, from, to, step), from, to, step) && EndsInRange(series, p.t, nextStarts, to)
        then [p.t] else []
  }

  function AllInstants(windows: seq<seq<Point>>, w: nat, from: int, to: int, step: int): seq<int>
    requires w <= |windows|
  {
    if w == 0 then []
    else AllInstants(windows, w - 1, from, to, step)
         + Instants(windows[w - 1], NextStart(windows, w - 1), |windows[w - 1]|, from, to, step)
  }

  function Times(records: seq<Record>): seq<int> {
    seq(|records|, k requires 0 <= k < |records| => records[k].t)
  }

  /** A record sees everything up to its instant and nothing later, ends inside the range, and knows its own sample. */
  ghost predicate Honest(r: Record, all: seq<Point>, windows: seq<seq<Point>>, from: int, to: int) {
    && from <= r.t < to
    && r.input == UpTo(all, r.t)
    && r.input != [] && r.input[|r.input| - 1].t == r.t && r.knownReset == r.input[|r.input| - 1].resetsAt
    && r.window < |windows| && windows[r.window] != []
    && r.labelReset == windows[r.window][|windows[r.window]| - 1].resetsAt
    && r.end.Some? && r.end.value < to
    && r.outcome == OutcomeOf(windows[r.window], r.t, r.labelReset, NextStart(windows, r.window))
    && r.end == OutcomeEnd(r.outcome, r.labelReset, NextStart(windows, r.window))
    && (r.outcome.Exhausted? ==> r.t < r.outcome.at == r.end.value)
  }

  /** Instants of one window are at least a step apart. */
  ghost predicate Stepped(records: seq<Record>, step: int) {
    forall i, j :: 0 <= i < j < |records| && records[i].window == records[j].window ==>
      records[j].t - records[i].t >= step
  }

  /** Where the `w`-th window starts in the whole series. */
  function Offset(windows: seq<seq<Point>>, w: nat): nat
    requires w <= |windows|
  {
    |Concat(windows, w)|
  }

  lemma {:induction false} ConcatPrefix(windows: seq<seq<Point>>, n: nat, m: nat)
    requires n <= m <= |windows|
    ensures Concat(windows, n) <= Concat(windows, m)
  {
    if n < m {
      ConcatPrefix(windows, n, m - 1);
    }
  }

  lemma PointAt(all: seq<Point>, windows: seq<seq<Point>>, w: nat, i: nat)
    requires all == Concat(windows, |windows|) && w < |windows| && i < |windows[w]|
    ensures Offset(windows, w) + i < |all| && all[Offset(windows, w) + i] == windows[w][i]
    ensures Offset(windows, w + 1) == Offset(windows, w) + |windows[w]|
  {
    ConcatPrefix(windows, w + 1, |windows|);
    assert Concat(windows, w + 1)[Offset(windows, w) + i] == windows[w][i];
  }

  /** The cursor's prefix is everything up to the instant. */
  lemma CursorSees(all: seq<Point>, cursor: nat, t: int)
    requires Sorted(all) && cursor <= |all|
    requires cursor > 0 ==> all[cursor - 1].t <= t
    requires cursor < |all| ==> all[cursor].t > t
    ensures all[..cursor] == UpTo(all, t)
  {
    UpToIsPrefix(all, t, cursor);
  }

  class Replay {
    const all: seq<Point>
    var input: seq<Point>
    var cursor: nat

    constructor (all: seq<Point>)
      ensures this.all == all && input == [] && cursor == 0
    {
      this.all := all;
      input, cursor := [], 0;
    }

    /** Only ever appended to: each sample at most once. */
    ghost predicate Valid()
      reads this
    {
      cursor <= |all| && input == all[..cursor]
    }

    /** The prefix holds nothing later than sample `i`. */
    ghost predicate Behind(i: nat)
      requires cursor <= |all|
      reads this
    {
      cursor > 0 && i < |all| ==> all[cursor - 1].t <= all[i].t
    }

    /** Extend the prefix to the instant `t`. */
    method Advance(t: int)
      requires Valid() && Sorted(all) && (cursor > 0 ==> all[cursor - 1].t <= t)
      modifies this`input, this`cursor
      ensures Valid() && cursor >= old(cursor) && old(input) <= input
      ensures input == UpTo(all, t)
      ensures cursor > 0 ==> all[cursor - 1].t <= t
    {
      while cursor < |all| && all[cursor].t <= t
        invariant Valid() && cursor >= old(cursor)
        invariant cursor > 0 ==> all[cursor - 1].t <= t
      {
        input := input + [all[cursor]];
        cursor := cursor + 1;
      }
      CursorSees(all, cursor, t);
    }

    /** One account and one window kind, over one scoring range. */
    method Run(from: int, to: int, step: int) returns (records: seq<Record>, ghost windows: seq<seq<Point>>)
      requires Sorted(all) && input == [] && cursor == 0
      modifies this`input, this`cursor
      ensures Valid()
      ensures Concat(windows, |windows|) == all && SplitAtResets(windows)
      ensures AllHonest(records, all, windows, from, to, |windows|)
      ensures Times(records) == AllInstants(windows, |windows|, from, to, step)
      ensures Stepped(records, step)
    {
      var split := SplitSeries(all);
      windows := split;
      ghost var bases := Bases(all, split);
      records := RunWindows(from, to, step, split, bases);
    }

    method RunWindows(from: int, to: int, step: int, split: seq<seq<Point>>, ghost bases: seq<nat>)
      returns (records: seq<Record>)
      requires Sorted(all) && input == [] && cursor == 0
      requires Partition(all, split, bases)
      modifies this`input, this`cursor
      ensures Valid()
      ensures AllHonest(records, all, split, from, to, |split|)
      ensures Times(records) == AllInstants(split, |split|, from, to, step)
      ensures Stepped(records, step)
    {
      records := [];
      for w := 0 to |split|
        invariant Valid() && Behind(bases[w])
        invariant AllHonest(records, all, split, from, to, w)
        invariant Times(records) == AllInstants(split, w, from, to, step)
        invariant Stepped(records, step)
      {
        records := RunWindow(from, to, step, split, w, NextStart(split, w), records, bases[w]);
      }
    }

    method RunWindow(
      from: int, to: int, step: int, split: seq<seq<Point>>, w: nat, nextStarts: Option<int>, sofar: seq<Record>,
      ghost base: nat)
      returns (records: seq<Record>)
      requires Sorted(all) && Valid() && w < |split| && split[w] != [] && Placed(all, split[w], base)
      requires Behind(base)
      requires AllHonest(sofar, all, split, from, to, w)
      requires Stepped(sofar, step) && nextStarts == NextStart(split, w)
      modifies this`input, this`cursor
      ensures Valid()
      ensures Behind(base + |split[w]|)
      ensures AllHonest(records, all, split, from, to, w + 1)
      ensures Times(records) == Times(sofar) + Instants(split[w], nextStarts, |split[w]|, from, to, step)
      ensures Stepped(records, step)
    {
      hide AllHonest, Honest, NoLater, Stepped, Instants, LastPick, EndsInRange, Times, Sorted, NextStart;
      records := sofar;
      var series := split[w];
      RecordsSoFar(sofar, all, split, from, to, w);
      NothingPicked(series, nextStarts, from, to, step);
      var lastCandidate: Option<int> := None;
      for i := 0 to |series|
        invariant Valid()
        invariant Behind(base + i)
        invariant AllHonest(records, all, split, from, to, w + 1)
        invariant lastCandidate.Some? && base + i < |all| ==> lastCandidate.value <= all[base + i].t
        invariant lastCandidate == LastPick(series, i, from, to, step)
        invariant Times(records) == Times(sofar) + Instants(series, nextStarts, i, from, to, step)
        invariant NoLater(records, w, lastCandidate)
        invariant Stepped(records, step)
      {
        var p := series[i];
        assert all[base + i] == p;
        SortedNext(all, base + i);
        PickNext(series, nextStarts, i, from, to, step);
        if p.t < from || p.t >= to || (lastCandidate.Some? && p.t - lastCandidate.value < step) || p.utilization >= LIMIT {
          continue;
        }
        ghost var before := lastCandidate;
        lastCandidate := Some(p.t);
        var scored, record := Score(from, to, split, w, i, nextStarts, base + i);
        if scored {
          RecordMore(records, record, all, split, from, to, w + 1, before, step);
          records := records + [record];
        } else {
          NoLaterYet(records, w, before, p.t);
        }
      }
    }

    /** One candidate instant: label it, and if its outcome ends inside the range, extend the prefix and record it. */
    method Score(from: int, to: int, split: seq<seq<Point>>, w: nat, i: nat, nextStarts: Option<int>, ghost now: nat)
      returns (scored: bool, record: Record)
      requires Sorted(all) && Valid() && w < |split| && i < |split[w]|
      requires now < |all| && all[now] == split[w][i]
      requires nextStarts == NextStart(split, w)
      requires from <= split[w][i].t < to && (cursor > 0 ==> all[cursor - 1].t <= split[w][i].t)
      modifies this`input, this`cursor
      ensures Valid() && (cursor > 0 ==> all[cursor - 1].t <= split[w][i].t)
      ensures scored ==> Honest(record, all, split, from, to) && record.window == w && record.t == split[w][i].t
      ensures scored <==> EndsInRange(split[w], split[w][i].t, nextStarts, to)
    {
      var series, t := split[w], split[w][i].t;
      var labelReset := series[|series| - 1].resetsAt;
      var outcome := OutcomeOf(series, t, labelReset, nextStarts);
      var end := OutcomeEnd(outcome, labelReset, nextStarts);
      scored := end.Some? && end.value < to;
      record := Record(t, w, [], outcome, end, None, labelReset);
      if scored {
        Advance(t);
        LastIsNow(all, now, cursor, t);
        record := Record(t, w, input, outcome, end, input[|input| - 1].resetsAt, labelReset);
      }
    }
  }

  ghost predicate AllHonest(records: seq<Record>, all: seq<Point>, windows: seq<seq<Point>>, from: int, to: int, bound: nat) {
    forall k :: 0 <= k < |records| ==> Honest(records[k], all, windows, from, to) && records[k].window < bound
  }

  /** Records of window `w` are no later than its last candidate. */
  ghost predicate NoLater(records: seq<Record>, w: nat, last: Option<int>) {
    forall k :: 0 <= k < |records| && records[k].window == w ==> last.Some? && records[k].t <= last.value
  }

  lemma RecordMore(
    records: seq<Record>, r: Record, all: seq<Point>, windows: seq<seq<Point>>, from: int, to: int, bound: nat,
    last: Option<int>, step: int)
    requires Stepped(records, step) && NoLater(records, r.window, last) && (last.Some? ==> last.value <= r.t - step)
    requires last.Some? ==> last.value <= r.t
    requires AllHonest(records, all, windows, from, to, bound) && Honest(r, all, windows, from, to) && r.window < bound
    ensures Stepped(records + [r], step) && NoLater(records + [r], r.window, Some(r.t))
    ensures AllHonest(records + [r], all, windows, from, to, bound)
    ensures Times(records + [r]) == Times(records) + [r.t]
  {
    hide Honest;
  }

  lemma NoLaterYet(records: seq<Record>, w: nat, last: Option<int>, t: int)
    requires NoLater(records, w, last) && (last.Some? ==> last.value <= t)
    ensures NoLater(records, w, Some(t))
  {
  }

  lemma RecordsSoFar(sofar: seq<Record>, all: seq<Point>, windows: seq<seq<Point>>, from: int, to: int, w: nat)
    requires AllHonest(sofar, all, windows, from, to, w)
    ensures AllHonest(sofar, all, windows, from, to, w + 1) && NoLater(sofar, w, None)
  {
    hide Honest;
  }

  lemma NothingPicked(series: seq<Point>, nextStarts: Option<int>, from: int, to: int, step: int)
    ensures LastPick(series, 0, from, to, step) == None && Instants(series, nextStarts, 0, from, to, step) == []
  {
  }

  lemma PickNext(series: seq<Point>, nextStarts: Option<int>, i: nat, from: int, to: int, step: int)
    requires i < |series|
    ensures var last := LastPick(series, i, from, to, step);
            var picks := Picks(series[i], last, from, to, step);
            && LastPick(series, i + 1, from, to, step) == (if picks then Some(series[i].t) else last)
            && Instants(series, nextStarts, i + 1, from, to, step)
            == Instants(series, nextStarts, i, from, to, step)
               + if picks && EndsInRange(series, series[i].t, nextStarts, to) then [series[i].t] else []
  {
    hide EndsInRange, Picks;
  }

  lemma SortedNext(all: seq<Point>, k: nat)
    requires Sorted(all)
    ensures k + 1 < |all| ==> all[k].t <= all[k + 1].t
  {
  }

  /** The series stands in the whole one, from `base` on. */
  ghost predicate Placed(all: seq<Point>, series: seq<Point>, base: nat) {
    base + |series| <= |all| && forall i :: 0 <= i < |series| ==> all[base + i] == series[i]
  }

  /** Where each window stands; the last base is the end of the series. */
  ghost predicate Partition(all: seq<Point>, windows: seq<seq<Point>>, bases: seq<nat>) {
    && |bases| == |windows| + 1
    && forall w :: 0 <= w < |windows| ==>
         windows[w] != [] && Placed(all, windows[w], bases[w]) && bases[w + 1] == bases[w] + |windows[w]|
  }

  lemma Bases(all: seq<Point>, windows: seq<seq<Point>>) returns (bases: seq<nat>)
    requires all == Concat(windows, |windows|) && forall w :: 0 <= w < |windows| ==> windows[w] != []
    ensures Partition(all, windows, bases)
  {
    hide Concat, Offset, Placed;
    bases := seq(|windows| + 1, w requires 0 <= w <= |windows| => Offset(windows, w));
    forall w | 0 <= w < |windows|
      ensures Placed(all, windows[w], bases[w]) && bases[w + 1] == bases[w] + |windows[w]|
    {
      WindowPlaced(all, windows, w);
    }
  }

  lemma WindowPlaced(all: seq<Point>, windows: seq<seq<Point>>, w: nat)
    requires all == Concat(windows, |windows|) && w < |windows| && windows[w] != []
    ensures Placed(all, windows[w], Offset(windows, w)) && Offset(windows, w + 1) == Offset(windows, w) + |windows[w]|
  {
    hide Concat, Offset;
    forall i | 0 <= i < |windows[w]|
      ensures Offset(windows, w) + i < |all| && all[Offset(windows, w) + i] == windows[w][i]
    {
      PointAt(all, windows, w, i);
    }
    PointAt(all, windows, w, |windows[w]| - 1);
  }

  /** The instant is itself a stored sample, so the prefix ends with a reading taken then. */
  lemma LastIsNow(all: seq<Point>, now: nat, cursor: nat, t: int)
    requires Sorted(all) && now < |all| && all[now].t == t && cursor <= |all| && all[..cursor] == UpTo(all, t)
    requires cursor > 0 ==> all[cursor - 1].t <= t
    ensures cursor > 0 && all[cursor - 1].t == t
  {
    UpToHas(all, t, now);
    if cursor <= now {
      UpToLonger(all, t, now + 1);
    }
  }

  lemma {:induction false} UpToHas(points: seq<Point>, t: int, i: nat)
    requires i < |points| && points[i].t <= t
    ensures points[i] in UpTo(points, t)
  {
    if i > 0 {
      UpToHas(points[1..], t, i - 1);
    }
  }

  lemma {:induction false} UpToLonger(points: seq<Point>, t: int, k: nat)
    requires k <= |points| && forall i :: 0 <= i < k ==> points[i].t <= t
    ensures |UpTo(points, t)| >= k
  {
    if k > 0 {
      UpToLonger(points[1..], t, k - 1);
    }
  }
}
