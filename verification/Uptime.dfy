/** Work time on the horizontal axis: the spans a driver was up, and the time
    axis with the gaps between them taken out (ablation/plot.py). Times are
    exact reals, in seconds. */
module Uptime {
  import opened Basics

  const GUARD := 120.0
  const HOUR := 3600.0

  datatype Span = Span(start: real, end: real)

  // ---- the spans ------------------------------------------------------------

  ghost predicate Ordered(stamps: seq<real>) {
    forall i, j | 0 <= i < j < |stamps| :: stamps[i] <= stamps[j]
  }

  ghost predicate NonNegative(durations: seq<real>) {
    forall i | 0 <= i < |durations| :: durations[i] >= 0.0
  }

  /** The last row well before a start bounds the death of the generation before
      it; without one, it died at that start. */
  ghost predicate DeathBound(stamps: seq<real>, start: real, end: real) {
    if exists t | t in stamps :: t < start - 120.0 then
      end in stamps && end < start - 120.0 && forall t | t in stamps && t < start - 120.0 :: t <= end
    else end == start
  }

  /** One after the other without overlap. */
  ghost predicate Apart(spans: seq<Span>) {
    && (forall i | 0 <= i < |spans| :: spans[i].start <= spans[i].end)
    && (forall i, j | 0 <= i < j < |spans| :: spans[i].end <= spans[j].start)
  }

  /** The generations' spans: the last ends with the log, each is as long as its
      generation ran, and each earlier one ends at its death bound. */
  ghost predicate Spans(durations: seq<real>, stamps: seq<real>, mtime: real, spans: seq<Span>) {
    && |spans| == |durations|
    && (spans != [] ==> spans[|spans| - 1].end == mtime)
    && (forall i | 0 <= i < |spans| :: spans[i].end - spans[i].start == durations[i])
    && (forall i | 0 < i < |spans| :: DeathBound(stamps, spans[i].start, spans[i - 1].end))
  }

  /** The last stamp well before a start, if any. */
  method LastRowBefore(stamps: seq<real>, start: real) returns (end: real)
    requires Ordered(stamps)
    ensures DeathBound(stamps, start, end)
    ensures end <= start
  {
    var prior: seq<real> := [];
    for i := 0 to |stamps|
      invariant forall t :: t in prior <==> t in stamps[..i] && t < start - GUARD
      invariant prior != [] ==> forall t | t in prior :: t <= prior[|prior| - 1]
    {
      assert stamps[..i + 1] == stamps[..i] + [stamps[i]];
      if stamps[i] < start - GUARD { prior := prior + [stamps[i]]; }
    }
    assert stamps[..|stamps|] == stamps;
    end := if prior != [] then prior[|prior| - 1] else start;
    if prior != [] { assert end in prior; }
  }

  /** What a backward walk has so far: the spans of the last generations. */
  ghost predicate Walked(durations: seq<real>, stamps: seq<real>, mtime: real, k: nat, end: real, spans: seq<Span>) {
    && k <= |durations| && |spans| == |durations| - k
    && (forall i | 0 <= i < |spans| :: spans[i].end - spans[i].start == durations[k + i])
    && (forall i | 0 < i < |spans| :: DeathBound(stamps, spans[i].start, spans[i - 1].end))
    && (forall i | 0 < i < |spans| :: spans[i - 1].end <= spans[i].start)
    && (if spans == [] then end == mtime
        else
          && spans[|spans| - 1].end == mtime
          && (k > 0 ==> DeathBound(stamps, spans[0].start, end) && end <= spans[0].start))
  }

  lemma WalkedFurther(durations: seq<real>, stamps: seq<real>, mtime: real, k: nat, end: real, spans: seq<Span>,
                      next: real)
    requires Walked(durations, stamps, mtime, k, end, spans) && k > 0
    requires var start := end - durations[k - 1];
             k > 1 ==> DeathBound(stamps, start, next) && next <= start
    ensures Walked(durations, stamps, mtime, k - 1, next, [Span(end - durations[k - 1], end)] + spans)
  {
  }

  lemma {:induction false} NeighboursApart(spans: seq<Span>, i: nat, j: nat)
    requires forall i | 0 <= i < |spans| :: spans[i].start <= spans[i].end
    requires forall i | 0 < i < |spans| :: spans[i - 1].end <= spans[i].start
    requires i < j < |spans|
    ensures spans[i].end <= spans[j].start
    decreases j - i
  {
    if i + 1 < j { NeighboursApart(spans, i, j - 1); }
  }

  function Reversed(spans: seq<Span>): seq<Span> {
    if spans == [] then [] else [spans[|spans| - 1]] + Reversed(spans[..|spans| - 1])
  }

  lemma ReversedMore(spans: seq<Span>, s: Span)
    ensures Reversed(spans + [s]) == [s] + Reversed(spans)
  {
    assert (spans + [s])[..|spans|] == spans;
  }

  lemma WalkedBack(durations: seq<real>, stamps: seq<real>, mtime: real, end: real, spans: seq<Span>)
    requires Walked(durations, stamps, mtime, 0, end, spans) && NonNegative(durations)
    ensures Spans(durations, stamps, mtime, spans) && Apart(spans)
  {
    assert forall i | 0 <= i < |spans| :: durations[i] >= 0.0;
    forall i, j | 0 <= i < j < |spans| ensures spans[i].end <= spans[j].start {
      NeighboursApart(spans, i, j);
    }
  }

  lemma BackwardFurther(durations: seq<real>, stamps: seq<real>, mtime: real, k: nat, end: real,
                        backward: seq<Span>, next: real)
    requires Walked(durations, stamps, mtime, k, end, Reversed(backward)) && k > 0
    requires var start := end - durations[k - 1];
             k > 1 ==> DeathBound(stamps, start, next) && next <= start
    ensures Walked(durations, stamps, mtime, k - 1, next, Reversed(backward + [Span(end - durations[k - 1], end)]))
  {
    ReversedMore(backward, Span(end - durations[k - 1], end));
    WalkedFurther(durations, stamps, mtime, k, end, Reversed(backward), next);
  }

  lemma WalkedFromTheEnd(durations: seq<real>, stamps: seq<real>, mtime: real)
    ensures Walked(durations, stamps, mtime, |durations|, mtime, Reversed([]))
  {
  }

  /** Walks back from the end of the log, newest generation first. */
  method UptimeSegments(durations: seq<real>, stamps: seq<real>, mtime: real) returns (spans: seq<Span>)
    requires Ordered(stamps) && NonNegative(durations)
    ensures Spans(durations, stamps, mtime, spans)
    ensures Apart(spans)
  {
    hide Walked, Spans, Apart, DeathBound, Reversed;
    var backward: seq<Span> := [];
    var end := mtime;
    WalkedFromTheEnd(durations, stamps, mtime);
    var k := |durations|;
    while k > 0
      invariant 0 <= k <= |durations|
      invariant Walked(durations, stamps, mtime, k, end, Reversed(backward))
    {
      var start, next := end - durations[k - 1], end;
      if k > 1 { next := LastRowBefore(stamps, start); }
      BackwardFurther(durations, stamps, mtime, k, end, backward, next);
      backward := backward + [Span(start, end)];
      end := next;
      k := k - 1;
    }
    spans := Reversed(backward);
    WalkedBack(durations, stamps, mtime, end, spans);
  }

  // ---- the axis -------------------------------------------------------------

  function Length(s: Span): real {
    s.end - s.start
  }

  function Total(spans: seq<Span>): real {
    if spans == [] then 0.0 else Total(spans[..|spans| - 1]) + Length(spans[|spans| - 1])
  }

  /** How much of a span lies before a time. */
  function Before(s: Span, c: real): real {
    if c <= s.start then 0.0 else if c >= s.end then Length(s) else c - s.start
  }

  /** How much uptime lies before a time. */
  function UptimeBefore(spans: seq<Span>, c: real): real {
    if spans == [] then 0.0 else UptimeBefore(spans[..|spans| - 1], c) + Before(spans[|spans| - 1], c)
  }

  lemma ApartPrefix(spans: seq<Span>, n: nat)
    requires Apart(spans) && n <= |spans|
    ensures Apart(spans[..n])
  {
  }

  /** All of the spans up to a time have passed. */
  lemma {:induction false} AllBefore(spans: seq<Span>, c: real)
    requires Apart(spans) && forall i | 0 <= i < |spans| :: spans[i].end <= c
    ensures UptimeBefore(spans, c) == Total(spans)
  {
    if spans != [] {
      ApartPrefix(spans, |spans| - 1);
      AllBefore(spans[..|spans| - 1], c);
    }
  }

  /** None of the spans after a time counts. */
  lemma {:induction false} NoneAfter(spans: seq<Span>, n: nat, c: real)
    requires Apart(spans) && n <= |spans|
    requires forall i | n <= i < |spans| :: c <= spans[i].start
    ensures UptimeBefore(spans, c) == UptimeBefore(spans[..n], c)
    decreases |spans|
  {
    if n == |spans| {
      assert spans[..n] == spans;
    } else {
      var init := spans[..|spans| - 1];
      ApartPrefix(spans, |spans| - 1);
      NoneAfter(init, n, c);
      assert init[..n] == spans[..n];
    }
  }

  /** In the first span that has not ended, the axis value is the uptime so
      far. */
  lemma InFirstOpenSpan(spans: seq<Span>, i: nat, c: real)
    requires Apart(spans) && i < |spans| && c <= spans[i].end
    requires forall k | 0 <= k < i :: spans[k].end < c
    ensures UptimeBefore(spans, c) == Total(spans[..i]) + Before(spans[i], c)
  {
    NoneAfter(spans, i + 1, c);
    ApartPrefix(spans, i);
    AllBefore(spans[..i], c);
    assert spans[..i + 1][..i] == spans[..i];
  }

  function Max(a: real, b: real): real {
    if a >= b then a else b
  }

  function Min(a: real, b: real): real {
    if a <= b then a else b
  }

  method Offsets(spans: seq<Span>) returns (acc: seq<real>, total: real)
    ensures |acc| == |spans| && total == Total(spans)
    ensures forall i | 0 <= i < |spans| :: acc[i] == Total(spans[..i])
  {
    acc, total := [], 0.0;
    for i := 0 to |spans|
      invariant |acc| == i && total == Total(spans[..i])
      invariant forall k | 0 <= k < i :: acc[k] == Total(spans[..k])
    {
      assert spans[..i + 1][..i] == spans[..i];
      acc := acc + [total];
      total := total + (spans[i].end - spans[i].start);
    }
    assert spans[..|spans|] == spans;
  }

  method AxisValue(c: real, spans: seq<Span>, acc: seq<real>, total: real) returns (val: real)
    requires Apart(spans) && |acc| == |spans| && total == Total(spans)
    requires forall i | 0 <= i < |spans| :: acc[i] == Total(spans[..i])
    ensures val == UptimeBefore(spans, c)
  {
    val := total;
    var i := 0;
    while i < |spans|
      invariant 0 <= i <= |spans|
      invariant val == total
      invariant forall k | 0 <= k < i :: spans[k].end < c
    {
      if c <= spans[i].end {
        InFirstOpenSpan(spans, i, c);
        val := acc[i] + Min(Max(0.0, c - spans[i].start), spans[i].end - spans[i].start);
        return;
      }
      i := i + 1;
    }
    AllBefore(spans, c);
  }

  /** Maps times to work hours: the uptime before each. */
  method UptimeAxis(spans: seq<Span>, created: seq<real>) returns (axis: seq<real>)
    requires Apart(spans)
    ensures |axis| == |created|
    ensures forall i | 0 <= i < |created| :: axis[i] == UptimeBefore(spans, created[i]) / 3600.0
  {
    var acc, total := Offsets(spans);
    axis := [];
    for i := 0 to |created|
      invariant |axis| == i
      invariant forall k | 0 <= k < i :: axis[k] == UptimeBefore(spans, created[k]) / HOUR
    {
      var val := AxisValue(created[i], spans, acc, total);
      axis := axis + [val / HOUR];
    }
  }

  // ---- what the axis promises -----------------------------------------------

  /** The axis starts at zero, never passes the total, and never runs back. */
  lemma {:induction false} AxisIsMonotone(spans: seq<Span>, c: real, d: real)
    requires Apart(spans) && c <= d
    ensures 0.0 <= UptimeBefore(spans, c) <= UptimeBefore(spans, d) <= Total(spans)
  {
    if spans != [] {
      ApartPrefix(spans, |spans| - 1);
      AxisIsMonotone(spans[..|spans| - 1], c, d);
    }
  }

  /** The axis never grows faster than wall time. */
  lemma {:induction false} AxisIsNoFasterThanTheWall(spans: seq<Span>, c: real, d: real)
    requires Apart(spans) && c <= d
    ensures UptimeBefore(spans, d) - UptimeBefore(spans, c) <= d - c
  {
    if spans != [] {
      var init, last := spans[..|spans| - 1], spans[|spans| - 1];
      ApartPrefix(spans, |spans| - 1);
      if d <= last.start {
        AxisIsNoFasterThanTheWall(init, c, d);
      } else if c >= last.start {
        AllBefore(init, c);
        AllBefore(init, d);
      } else {
        AxisIsNoFasterThanTheWall(init, c, last.start);
        AllBefore(init, last.start);
        AllBefore(init, d);
      }
    }
  }

  /** Between two times of one span the axis runs at wall speed. */
  lemma AxisRunsWithinASpan(spans: seq<Span>, i: nat, c: real, d: real)
    requires Apart(spans) && i < |spans| && spans[i].start <= c <= d <= spans[i].end
    ensures UptimeBefore(spans, d) - UptimeBefore(spans, c) == d - c
  {
    UptimeWithin(spans, i, c);
    UptimeWithin(spans, i, d);
  }

  lemma UptimeWithin(spans: seq<Span>, i: nat, c: real)
    requires Apart(spans) && i < |spans| && spans[i].start <= c <= spans[i].end
    ensures UptimeBefore(spans, c) == Total(spans[..i]) + (c - spans[i].start)
  {
    NoneAfter(spans, i + 1, c);
    ApartPrefix(spans, i);
    AllBefore(spans[..i], c);
    assert spans[..i + 1][..i] == spans[..i];
  }

  /** A gap between two spans has no width. */
  lemma GapsHaveNoWidth(spans: seq<Span>, i: nat, c: real, d: real)
    requires Apart(spans) && i + 1 < |spans| && spans[i].end <= c <= d <= spans[i + 1].start
    ensures UptimeBefore(spans, c) == UptimeBefore(spans, d)
  {
    NoneAfter(spans, i + 1, c);
    NoneAfter(spans, i + 1, d);
    ApartPrefix(spans, i + 1);
    AllBefore(spans[..i + 1], c);
    AllBefore(spans[..i + 1], d);
  }

  // ---- step curves ----------------------------------------------------------

  datatype Point = Point(cost: real, value: real)

  /** How many points come before the first that costs more. */
  function Reach(arr: seq<Point>, x: real): (n: nat)
    ensures n <= |arr|
    ensures forall i | 0 <= i < n :: arr[i].cost <= x
    ensures n < |arr| ==> arr[n].cost > x
  {
    if arr == [] || arr[0].cost > x then 0 else 1 + Reach(arr[1..], x)
  }

  lemma ReachIs(arr: seq<Point>, x: real, n: nat)
    requires n <= |arr| && (forall i | 0 <= i < n :: arr[i].cost <= x) && (n < |arr| ==> arr[n].cost > x)
    ensures n == Reach(arr, x)
  {
  }

  function Highest(grid: seq<real>): real
    requires grid != []
  {
    if |grid| == 1 then grid[0] else Max(Highest(grid[..|grid| - 1]), grid[|grid| - 1])
  }

  method Advance(arr: seq<Point>, j: nat, x: real) returns (n: nat)
    requires j <= |arr|
    ensures j <= n <= |arr|
    ensures forall k | j <= k < n :: arr[k].cost <= x
    ensures n < |arr| ==> arr[n].cost > x
  {
    n := j;
    while n < |arr| && arr[n].cost <= x
      invariant j <= n <= |arr|
      invariant forall k | j <= k < n :: arr[k].cost <= x
    {
      n := n + 1;
    }
  }

  /** Walks points and grid together. For any points and any grid, each answer
      is the value at the end of the points reached by the largest grid point
      so far. */
  method Stepped(arr: seq<Point>, grid: seq<real>) returns (out: seq<Option<real>>)
    ensures |out| == |grid|
    ensures forall i | 0 <= i < |grid| ::
              out[i] == var n := Reach(arr, Highest(grid[..i + 1])); if n > 0 then Some(arr[n - 1].value) else None
  {
    out := [];
    var j := 0;
    for i := 0 to |grid|
      invariant |out| == i && 0 <= j <= |arr|
      invariant if i == 0 then j == 0 else j == Reach(arr, Highest(grid[..i]))
      invariant forall k | 0 <= k < i ::
                  out[k] == var n := Reach(arr, Highest(grid[..k + 1])); if n > 0 then Some(arr[n - 1].value) else None
    {
      ghost var highest := Highest(grid[..i + 1]);
      assert i > 0 ==> grid[..i + 1][..i] == grid[..i];
      j := Advance(arr, j, grid[i]);
      ReachIs(arr, highest, j);
      out := out + [if j > 0 then Some(arr[j - 1].value) else None];
    }
  }

  ghost predicate CostsClimb(arr: seq<Point>) {
    forall i, j | 0 <= i < j < |arr| :: arr[i].cost <= arr[j].cost
  }

  /** The last point that costs no more. */
  ghost predicate IsLastWithin(arr: seq<Point>, x: real, n: nat) {
    n < |arr| && arr[n].cost <= x && forall i | n < i < |arr| :: arr[i].cost > x
  }

  lemma {:induction false} HighestIsLast(grid: seq<real>)
    requires grid != [] && Ordered(grid)
    ensures Highest(grid) == grid[|grid| - 1]
  {
    if |grid| > 1 { HighestIsLast(grid[..|grid| - 1]); }
  }

  /** For points by rising cost and a rising grid, each answer is the last value
      whose cost does not exceed the grid point, and there is none exactly
      before the first point. */
  lemma SteppedIsLastValueWithin(arr: seq<Point>, grid: seq<real>, i: nat)
    requires CostsClimb(arr) && Ordered(grid) && i < |grid|
    ensures var n := Reach(arr, Highest(grid[..i + 1]));
            if n > 0 then IsLastWithin(arr, grid[i], n - 1) else forall k | 0 <= k < |arr| :: arr[k].cost > grid[i]
  {
    HighestIsLast(grid[..i + 1]);
    var n := Reach(arr, grid[i]);
    if n < |arr| {
      assert forall k | n < k < |arr| :: arr[n].cost <= arr[k].cost;
    }
  }
}
