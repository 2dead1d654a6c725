/** The ledger feasibility study: interval merging, the cell grid and the block partition of scripts/ledger-feasibility.ts. */
module LedgerStudy {

  const MINUTE_MS := 60_000

  // Keepalive periods

  datatype Sample = Sample(at: int, sent: int)
  datatype Period = Period(from: int, to: int)

  ghost predicate SortedSamples(rows: seq<Sample>) {
    forall i, j :: 0 <= i < j < |rows| ==> rows[i].at <= rows[j].at
  }

  /** The counter rose between the two consecutive samples around `x`. */
  predicate ActiveAt(rows: seq<Sample>, n: nat, x: int)
    requires n <= |rows|
  {
    exists i :: 0 < i < n && rows[i].sent > rows[i - 1].sent && rows[i - 1].at <= x <= rows[i].at
  }

  predicate Covers(periods: seq<Period>, x: int) {
    exists k :: 0 <= k < |periods| && periods[k].from <= x <= periods[k].to
  }

  /** Sorted, each of them an interval, and with a gap between any two. */
  ghost predicate Separated(periods: seq<Period>) {
    && (forall k :: 0 <= k < |periods| ==> periods[k].from <= periods[k].to)
    && forall j, k :: 0 <= j < k < |periods| ==> periods[j].to < periods[k].from
  }

  lemma ActiveMore(rows: seq<Sample>, i: nat, x: int)
    requires 0 < i < |rows|
    ensures ActiveAt(rows, i + 1, x) <==>
      ActiveAt(rows, i, x) || (rows[i].sent > rows[i - 1].sent && rows[i - 1].at <= x <= rows[i].at)
  {
  }

  lemma CoversAppend(periods: seq<Period>, p: Period, x: int)
    ensures Covers(periods + [p], x) <==> Covers(periods, x) || p.from <= x <= p.to
  {
    if Covers(periods, x) {
      var k :| 0 <= k < |periods| && periods[k].from <= x <= periods[k].to;
      assert (periods + [p])[k] == periods[k];
    }
    assert (periods + [p])[|periods|] == p;
  }

  lemma CoversExtend(periods: seq<Period>, to: int, x: int)
    requires periods != []
    requires periods[|periods| - 1].from <= periods[|periods| - 1].to <= to
    ensures var last := periods[|periods| - 1];
            Covers(periods[|periods| - 1 := last.(to := to)], x) <==> Covers(periods, x) || last.to <= x <= to
  {
    var n := |periods| - 1;
    var before := periods[..n];
    assert periods == before + [periods[n]];
    assert periods[n := periods[n].(to := to)] == before + [periods[n].(to := to)];
    CoversAppend(before, periods[n], x);
    CoversAppend(before, periods[n].(to := to), x);
  }

  /** `keepaliveActivePeriods`. */
  method KeepaliveActivePeriods(rows: seq<Sample>) returns (periods: seq<Period>)
    requires SortedSamples(rows)
    ensures Separated(periods)
    ensures forall x :: Covers(periods, x) <==> ActiveAt(rows, |rows|, x)
  {
    periods := [];
    if rows == [] {
      return;
    }
    for i := 1 to |rows|
      invariant Separated(periods)
      invariant periods != [] ==> periods[|periods| - 1].to <= rows[i - 1].at
      invariant forall x :: Covers(periods, x) <==> ActiveAt(rows, i, x)
    {
      var prev, cur := rows[i - 1], rows[i];
      ghost var before := periods;
      if cur.sent > prev.sent {
        if periods != [] && periods[|periods| - 1].to >= prev.at {
          var last := periods[|periods| - 1];
          var to := if last.to < cur.at then cur.at else last.to;
          periods := periods[|periods| - 1 := last.(to := to)];
          forall x
            ensures Covers(periods, x) <==> Covers(before, x) || prev.at <= x <= cur.at
          {
            CoversExtend(before, to, x);
          }
        } else {
          periods := periods + [Period(prev.at, cur.at)];
          forall x
            ensures Covers(periods, x) <==> Covers(before, x) || prev.at <= x <= cur.at
          {
            CoversAppend(before, Period(prev.at, cur.at), x);
          }
        }
      }
      forall x
        ensures Covers(periods, x) <==> ActiveAt(rows, i + 1, x)
      {
        ActiveMore(rows, i, x);
      }
    }
  }

  // The cell grid

  const WIDTHS := [2, 5, 10]
  const LAGS := [0, 2, 4, 6]
  const OFFSETS := [2, 4]

  datatype Anchor = Terminal | Start
  const ANCHORS := [Terminal, Start]

  datatype Cell = Cell(lag: int, width: int, anchor: Anchor, control: bool)

  /** The cells of one width and lag, one per anchor, up to anchor `a`. */
  function PerAnchor(lag: int, width: int, control: bool, a: nat): seq<Cell>
    requires a <= |ANCHORS|
  {
    if a == 0 then [] else PerAnchor(lag, width, control, a - 1) + [Cell(lag, width, ANCHORS[a - 1], control)]
  }

  function Candidates(width: int, l: nat): seq<Cell>
    requires l <= |LAGS|
  {
    if l == 0 then []
    else Candidates(width, l - 1) + PerAnchor(LAGS[l - 1] * MINUTE_MS, width, false, |ANCHORS|)
  }

  function Controls(width: int, o: nat): seq<Cell>
    requires o <= |OFFSETS|
  {
    if o == 0 then []
    else Controls(width, o - 1) + PerAnchor(-(width + OFFSETS[o - 1] * MINUTE_MS), width, true, |ANCHORS|)
  }

  function Grid(w: nat): seq<Cell>
    requires w <= |WIDTHS|
  {
    if w == 0 then []
    else
      var width := WIDTHS[w - 1] * MINUTE_MS;
      Grid(w - 1) + Candidates(width, |LAGS|) + Controls(width, |OFFSETS|)
  }

  /** `buildCellGrid`. */
  method BuildCellGrid() returns (cells: seq<Cell>)
    ensures cells == Grid(|WIDTHS|)
  {
    hide PerAnchor;
    cells := [];
    for w := 0 to |WIDTHS|
      invariant cells == Grid(w)
    {
      var width := WIDTHS[w] * MINUTE_MS;
      ghost var before := cells;
      for l := 0 to |LAGS|
        invariant cells == before + Candidates(width, l)
      {
        var more := AddAnchors(LAGS[l] * MINUTE_MS, width, false);
        cells := cells + more;
      }
      ghost var half := cells;
      for o := 0 to |OFFSETS|
        invariant cells == half + Controls(width, o)
      {
        var more := AddAnchors(-(width + OFFSETS[o] * MINUTE_MS), width, true);
        cells := cells + more;
      }
    }
  }

  method AddAnchors(lag: int, width: int, control: bool) returns (cells: seq<Cell>)
    ensures cells == PerAnchor(lag, width, control, |ANCHORS|)
  {
    cells := [];
    for a := 0 to |ANCHORS|
      invariant cells == PerAnchor(lag, width, control, a)
    {
      cells := cells + [Cell(lag, width, ANCHORS[a], control)];
    }
  }

  predicate DistinctCells(cells: seq<Cell>) {
    forall i, j :: 0 <= i < j < |cells| ==> cells[i] != cells[j]
  }

  lemma DistinctConcat(a: seq<Cell>, b: seq<Cell>)
    requires DistinctCells(a) && DistinctCells(b) && forall c :: c in a ==> c !in b
    ensures DistinctCells(a + b)
  {
    forall i, j | 0 <= i < j < |a + b|
      ensures (a + b)[i] != (a + b)[j]
    {
      if i < |a| <= j {
        assert a[i] in a && b[j - |a|] in b;
      }
    }
  }

  lemma PerAnchorIs(lag: int, width: int, control: bool)
    ensures var cells := PerAnchor(lag, width, control, |ANCHORS|);
            && |cells| == |ANCHORS| && DistinctCells(cells)
            && forall c :: c in cells <==> c.lag == lag && c.width == width && c.control == control
  {
    var first, last := Cell(lag, width, Terminal, control), Cell(lag, width, Start, control);
    assert PerAnchor(lag, width, control, 1) == [first];
    assert PerAnchor(lag, width, control, 2) == [first, last];
    forall c
      ensures c in [first, last] <==> c.lag == lag && c.width == width && c.control == control
    {
      if c.lag == lag && c.width == width && c.control == control {
        assert c == if c.anchor.Terminal? then first else last;
      }
    }
  }

  /** One of the first `l` nonnegative lags of the sweep. */
  predicate IsCandidate(c: Cell, width: int, l: nat)
    requires l <= |LAGS|
  {
    !c.control && c.width == width && exists k :: 0 <= k < l && c.lag == LAGS[k] * MINUTE_MS
  }

  /** A whole width and one of the first `o` offsets ahead. */
  predicate IsControl(c: Cell, width: int, o: nat)
    requires o <= |OFFSETS|
  {
    c.control && c.width == width && exists k :: 0 <= k < o && c.lag == -(width + OFFSETS[k] * MINUTE_MS)
  }

  lemma {:induction false} CandidatesAre(width: int, l: nat)
    requires l <= |LAGS|
    ensures |Candidates(width, l)| == l * |ANCHORS| && DistinctCells(Candidates(width, l))
    ensures forall c :: c in Candidates(width, l) <==> IsCandidate(c, width, l)
  {
    if l > 0 {
      CandidatesAre(width, l - 1);
      var lag := LAGS[l - 1] * MINUTE_MS;
      PerAnchorIs(lag, width, false);
      assert forall k :: 0 <= k < l - 1 ==> LAGS[k] < LAGS[l - 1];
      DistinctConcat(Candidates(width, l - 1), PerAnchor(lag, width, false, |ANCHORS|));
    }
  }

  lemma {:induction false} ControlsAre(width: int, o: nat)
    requires o <= |OFFSETS|
    ensures |Controls(width, o)| == o * |ANCHORS| && DistinctCells(Controls(width, o))
    ensures forall c :: c in Controls(width, o) <==> IsControl(c, width, o)
  {
    if o > 0 {
      ControlsAre(width, o - 1);
      var lag := -(width + OFFSETS[o - 1] * MINUTE_MS);
      PerAnchorIs(lag, width, true);
      assert forall k :: 0 <= k < o - 1 ==> OFFSETS[k] < OFFSETS[o - 1];
      DistinctConcat(Controls(width, o - 1), PerAnchor(lag, width, true, |ANCHORS|));
    }
  }

  /** A candidate or a control of one of the first `w` widths. */
  predicate InSweep(c: Cell, w: nat)
    requires w <= |WIDTHS|
  {
    exists k :: 0 <= k < w && OfWidth(c, WIDTHS[k] * MINUTE_MS)
  }

  predicate OfWidth(c: Cell, width: int) {
    IsCandidate(c, width, |LAGS|) || IsControl(c, width, |OFFSETS|)
  }

  /** The grid holds exactly the candidates and the controls of the sweep's widths, each once. */
  lemma {:induction false} GridIs(w: nat)
    requires w <= |WIDTHS|
    ensures |Grid(w)| == w * (|LAGS| + |OFFSETS|) * |ANCHORS| && DistinctCells(Grid(w))
    ensures forall c :: c in Grid(w) <==> InSweep(c, w)
  {
    if w > 0 {
      GridIs(w - 1);
      var width := WIDTHS[w - 1] * MINUTE_MS;
      CandidatesAre(width, |LAGS|);
      ControlsAre(width, |OFFSETS|);
      var candidates, controls := Candidates(width, |LAGS|), Controls(width, |OFFSETS|);
      assert forall k :: 0 <= k < w - 1 ==> WIDTHS[k] < WIDTHS[w - 1];
      DistinctConcat(Grid(w - 1), candidates);
      DistinctConcat(Grid(w - 1) + candidates, controls);
      forall c
        ensures c in Grid(w) <==> InSweep(c, w)
      {
        assert OfWidth(c, width) <==> c in candidates || c in controls;
      }
    }
  }

  /** The sweep in full: widths of 2, 5 and 10 minutes, four lags to look back, and two offsets to look ahead. */
  lemma SweepIs(c: Cell)
    ensures c in Grid(|WIDTHS|)
       <==> && c.width in {120_000, 300_000, 600_000}
            && c.lag in if c.control then {-(c.width + 120_000), -(c.width + 240_000)} else {0, 120_000, 240_000, 360_000}
    ensures |Grid(|WIDTHS|)| == 36
  {
    hide Grid;
    GridIs(|WIDTHS|);
    assert WIDTHS[0] == 2 && WIDTHS[1] == 5 && WIDTHS[2] == 10 && OFFSETS[0] == 2 && OFFSETS[1] == 4;
    assert LAGS[0] == 0 && LAGS[1] == 2 && LAGS[2] == 4 && LAGS[3] == 6;
    assert InSweep(c, |WIDTHS|)
      <==> OfWidth(c, WIDTHS[0] * MINUTE_MS) || OfWidth(c, WIDTHS[1] * MINUTE_MS) || OfWidth(c, WIDTHS[2] * MINUTE_MS);
  }

  // Bins and blocks

  /** A bin covers `(start, end]`; its tokens come from the same interval moved back by the lag. */
  datatype Bin = Bin(start: int, end: int)

  predicate InPercent(b: Bin, t: int) {
    b.start < t <= b.end
  }

  predicate InTokens(b: Bin, lag: int, t: int) {
    b.start - lag < t <= b.end - lag
  }

  /** A control cell of the grid draws its tokens only after the bin has closed, by at least an offset of the sweep. */
  lemma ControlsLookAhead(c: Cell, b: Bin, t: int)
    requires c in Grid(|WIDTHS|) && c.control && b.end == b.start + c.width && InTokens(b, c.lag, t)
    ensures exists o :: 0 <= o < |OFFSETS| && c.lag == -(c.width + OFFSETS[o] * MINUTE_MS) && t > b.end + OFFSETS[o] * MINUTE_MS
    ensures t > b.end + 2 * MINUTE_MS
  {
    GridIs(|WIDTHS|);
    var o :| 0 <= o < |OFFSETS| && c.lag == -(c.width + OFFSETS[o] * MINUTE_MS);
    assert OFFSETS[o] >= 2;
  }

  datatype Bounds = Bounds(from: int, selectionEnd: int, to: int)

  function Min(a: int, b: int): int {
    if a < b then a else b
  }

  function Max(a: int, b: int): int {
    if a > b then a else b
  }

  function Earliest(b: Bin, lag: int): int {
    Min(b.start, b.start - lag)
  }

  function Latest(b: Bin, lag: int): int {
    Max(b.end, b.end - lag)
  }

  predicate Selects(b: Bin, lag: int, bounds: Bounds) {
    Earliest(b, lag) >= bounds.from && Latest(b, lag) <= bounds.selectionEnd
  }

  predicate Evaluates(b: Bin, lag: int, bounds: Bounds) {
    !Selects(b, lag, bounds) && Earliest(b, lag) >= bounds.selectionEnd && Latest(b, lag) <= bounds.to
  }

  function Selection(bins: seq<Bin>, n: nat, lag: int, bounds: Bounds): seq<Bin>
    requires n <= |bins|
  {
    if n == 0 then []
    else Selection(bins, n - 1, lag, bounds) + if Selects(bins[n - 1], lag, bounds) then [bins[n - 1]] else []
  }

  function Evaluation(bins: seq<Bin>, n: nat, lag: int, bounds: Bounds): seq<Bin>
    requires n <= |bins|
  {
    if n == 0 then []
    else Evaluation(bins, n - 1, lag, bounds) + if Evaluates(bins[n - 1], lag, bounds) then [bins[n - 1]] else []
  }

  datatype Blocks = Blocks(selection: seq<Bin>, evaluation: seq<Bin>, dropped: nat)

  const NO_BINS := Blocks([], [], 0)

  /** The bins of one account and window, under its group's key. */
  datatype Stream = Stream(key: string, bins: seq<Bin>)

  /** Every bin of one key, in the order the streams bring them. */
  function BinsOf(streams: seq<Stream>, n: nat, key: string): seq<Bin>
    requires n <= |streams|
  {
    if n == 0 then []
    else if streams[n - 1].key == key then BinsOf(streams, n - 1, key) + streams[n - 1].bins
    else BinsOf(streams, n - 1, key)
  }

  /** The blocks hold exactly the bins they should, and every other bin is counted. */
  ghost predicate Splits(blocks: Blocks, bins: seq<Bin>, lag: int, bounds: Bounds) {
    && blocks.selection == Selection(bins, |bins|, lag, bounds)
    && blocks.evaluation == Evaluation(bins, |bins|, lag, bounds)
    && |blocks.selection| + |blocks.evaluation| + blocks.dropped == |bins|
  }

  lemma {:induction false} SelectionPrefix(a: seq<Bin>, b: seq<Bin>, n: nat, lag: int, bounds: Bounds)
    requires n <= |a| && a <= b
    ensures Selection(b, n, lag, bounds) == Selection(a, n, lag, bounds)
    ensures Evaluation(b, n, lag, bounds) == Evaluation(a, n, lag, bounds)
  {
    if n > 0 {
      SelectionPrefix(a, b, n - 1, lag, bounds);
    }
  }

  lemma SplitsMore(blocks: Blocks, bins: seq<Bin>, b: Bin, lag: int, bounds: Bounds)
    requires Splits(blocks, bins, lag, bounds)
    ensures Splits(Sorted(blocks, b, lag, bounds), bins + [b], lag, bounds)
  {
    SelectionPrefix(bins, bins + [b], |bins|, lag, bounds);
  }

  /** The block a bin goes to, or the count of dropped ones. */
  function Sorted(blocks: Blocks, b: Bin, lag: int, bounds: Bounds): Blocks {
    if Selects(b, lag, bounds) then blocks.(selection := blocks.selection + [b])
    else if Evaluates(b, lag, bounds) then blocks.(evaluation := blocks.evaluation + [b])
    else blocks.(dropped := blocks.dropped + 1)
  }

  /** `binsForCell`, given the bins built for each account and window. */
  method BinsForCell(streams: seq<Stream>, lag: int, bounds: Bounds) returns (out: map<string, Blocks>)
    ensures forall key :: key in out <==> exists i :: 0 <= i < |streams| && streams[i].key == key
    ensures forall key :: key in out ==> Splits(out[key], BinsOf(streams, |streams|, key), lag, bounds)
  {
    out := map[];
    for i := 0 to |streams|
      invariant forall key :: key in out <==> exists j :: 0 <= j < i && streams[j].key == key
      invariant forall key :: key in out ==> Splits(out[key], BinsOf(streams, i, key), lag, bounds)
      invariant forall key :: key !in out ==> BinsOf(streams, i, key) == []
    {
      var Stream(key, bins) := streams[i];
      var bucket := if key in out then out[key] else NO_BINS;
      bucket := Fill(bucket, bins, lag, bounds, BinsOf(streams, i, key));
      out := out[key := bucket];
    }
  }

  method Fill(bucket: Blocks, bins: seq<Bin>, lag: int, bounds: Bounds, ghost earlier: seq<Bin>) returns (filled: Blocks)
    requires Splits(bucket, earlier, lag, bounds)
    ensures Splits(filled, earlier + bins, lag, bounds)
  {
    filled := bucket;
    assert earlier + bins[..0] == earlier;
    for k := 0 to |bins|
      invariant Splits(filled, earlier + bins[..k], lag, bounds)
    {
      SplitsMore(filled, earlier + bins[..k], bins[k], lag, bounds);
      assert earlier + bins[..k] + [bins[k]] == earlier + bins[..k + 1];
      var earliest := Min(bins[k].start, bins[k].start - lag);
      var latest := Max(bins[k].end, bins[k].end - lag);
      if earliest >= bounds.from && latest <= bounds.selectionEnd {
        filled := filled.(selection := filled.selection + [bins[k]]);
      } else if earliest >= bounds.selectionEnd && latest <= bounds.to {
        filled := filled.(evaluation := filled.evaluation + [bins[k]]);
      } else {
        filled := filled.(dropped := filled.dropped + 1);
      }
    }
    assert bins[..|bins|] == bins;
  }

  /** Both intervals of the bin, its own and the one its tokens come from, lie in `[from, to]`. */
  predicate Inside(b: Bin, lag: int, from: int, to: int) {
    from <= b.start && b.end <= to && from <= b.start - lag && b.end - lag <= to
  }

  lemma NextCounts(bins: seq<Bin>, n: nat, kept: seq<Bin>, keeps: bool, keepsB: bool, b: Bin)
    requires 0 < n <= |bins| && (bins[n - 1] == b ==> keeps == keepsB)
    requires multiset(kept)[b] == if keepsB then multiset(bins[..n - 1])[b] else 0
    ensures multiset(kept + if keeps then [bins[n - 1]] else [])[b] == if keepsB then multiset(bins[..n])[b] else 0
  {
    var x := bins[n - 1];
    assert bins[..n] == bins[..n - 1] + [x];
    assert multiset(bins[..n]) == multiset(bins[..n - 1]) + multiset{x};
    if keeps {
      assert multiset(kept + [x]) == multiset(kept) + multiset{x};
    } else {
      assert kept + [] == kept;
    }
  }

  lemma {:induction false} SelectionCounts(bins: seq<Bin>, n: nat, lag: int, bounds: Bounds, b: Bin)
    requires n <= |bins|
    ensures multiset(Selection(bins, n, lag, bounds))[b] == if Selects(b, lag, bounds) then multiset(bins[..n])[b] else 0
  {
    hide Selects;
    if n > 0 {
      SelectionCounts(bins, n - 1, lag, bounds, b);
      NextCounts(bins, n, Selection(bins, n - 1, lag, bounds), Selects(bins[n - 1], lag, bounds), Selects(b, lag, bounds), b);
    }
  }

  lemma {:induction false} EvaluationCounts(bins: seq<Bin>, n: nat, lag: int, bounds: Bounds, b: Bin)
    requires n <= |bins|
    ensures multiset(Evaluation(bins, n, lag, bounds))[b]
         == if Evaluates(b, lag, bounds) then multiset(bins[..n])[b] else 0
  {
    hide Evaluates;
    if n > 0 {
      EvaluationCounts(bins, n - 1, lag, bounds, b);
      NextCounts(bins, n, Evaluation(bins, n - 1, lag, bounds), Evaluates(bins[n - 1], lag, bounds), Evaluates(b, lag, bounds), b);
    }
  }

  /**
   * A bin is in the selection block just as often as it was built if both its intervals lie between the range's start
   * and the split; in the evaluation block, if they lie between the split and the range's end and not in the selection
   * block too; and otherwise in neither.
   */
  lemma BlocksHold(bins: seq<Bin>, n: nat, lag: int, bounds: Bounds, b: Bin)
    requires n <= |bins|
    ensures multiset(Selection(bins, n, lag, bounds))[b]
         == if Inside(b, lag, bounds.from, bounds.selectionEnd) then multiset(bins[..n])[b] else 0
    ensures multiset(Evaluation(bins, n, lag, bounds))[b]
         == if Inside(b, lag, bounds.selectionEnd, bounds.to) && !Inside(b, lag, bounds.from, bounds.selectionEnd)
            then multiset(bins[..n])[b] else 0
  {
    SelectionCounts(bins, n, lag, bounds, b);
    EvaluationCounts(bins, n, lag, bounds, b);
  }

  /** No instant feeds a selection bin and an evaluation bin, as percent or as tokens. */
  lemma BlocksShareNothing(a: Bin, b: Bin, lag: int, bounds: Bounds, t: int)
    requires Selects(a, lag, bounds) && Evaluates(b, lag, bounds)
    ensures !((InPercent(a, t) || InTokens(a, lag, t)) && (InPercent(b, t) || InTokens(b, lag, t)))
  {
  }

  lemma {:induction false} SelectionSelects(bins: seq<Bin>, n: nat, lag: int, bounds: Bounds)
    requires n <= |bins|
    ensures forall b :: b in Selection(bins, n, lag, bounds) ==> Selects(b, lag, bounds)
    ensures forall b :: b in Evaluation(bins, n, lag, bounds) ==> Evaluates(b, lag, bounds)
  {
    if n > 0 {
      SelectionSelects(bins, n - 1, lag, bounds);
    }
  }

  /** Whatever the cell and the streams, the two blocks of a group draw on disjoint instants. */
  lemma NoInstantInBothBlocks(blocks: Blocks, bins: seq<Bin>, lag: int, bounds: Bounds, a: Bin, b: Bin, t: int)
    requires Splits(blocks, bins, lag, bounds) && a in blocks.selection && b in blocks.evaluation
    requires InPercent(a, t) || InTokens(a, lag, t)
    ensures !InPercent(b, t) && !InTokens(b, lag, t)
  {
    SelectionSelects(bins, |bins|, lag, bounds);
    BlocksShareNothing(a, b, lag, bounds, t);
  }
}
