/** Which gaps are crossed, between which clicks, and how densely they are sampled. */
module TravelSpans {
  import opened Common
  import opened Schedule
  import opened Travel

  /** Where the pointer has clicked, with the place it started from. */
  function Trail(es: seq<Timed>, points: Points, start: Point): (trail: seq<Point>)
    ensures trail != []
  {
    [start] + Clicks(es, points)
  }

  /** When the pointer was last released. */
  function LastRelease(es: seq<Timed>, points: Points): nat {
    if es == [] then 0
    else if PointerUp(points, es[|es| - 1].event) then es[|es| - 1].at
    else LastRelease(es[..|es| - 1], points)
  }

  /** The i-th event is a click that the pointer has both time and distance to travel to. */
  predicate Crosses(es: seq<Timed>, points: Points, start: Point, i: nat)
    requires i < |es|
  {
    var trail := Trail(es[..i], points, start);
    && PointerDown(points, es[i].event) && LastRelease(es[..i], points) < es[i].at
    && PointOf(points, es[i].event) != Some(trail[|trail| - 1])
  }

  /** The span from the click before to this one, bending towards the clicks on either side. */
  predicate SpanAt(es: seq<Timed>, points: Points, start: Point, i: nat, span: Span)
    requires i < |es|
  {
    var trail, later := Trail(es[..i], points, start), Clicks(es[i + 1..], points);
    && Some(span.end) == PointOf(points, es[i].event) && span.start == trail[|trail| - 1]
    && span.previous == (if |trail| > 1 then Some(trail[|trail| - 2]) else None)
    && span.next == (if later == [] then None else Some(later[0]))
    && span.begins == LastRelease(es[..i], points) && span.deadline == es[i].at
  }

  /** `at` places the spans: each at its click, in order, and no crossing from `k` on left out. */
  ghost predicate Placed(at: seq<nat>, spans: seq<Span>, es: seq<Timed>, points: Points, start: Point, k: nat) {
    && |at| == |spans|
    && (forall j :: 0 <= j < |at| ==> k <= at[j] < |es| && Crosses(es, points, start, at[j]) && SpanAt(es, points, start, at[j], spans[j]))
    && (forall j, m :: 0 <= j < m < |at| ==> at[j] < at[m])
    && (forall i: nat :: k <= i < |es| && Crosses(es, points, start, i) ==> i in at)
  }

  lemma {:induction false} ClicksOne(es: seq<Timed>, t: Timed, points: Points)
    ensures Clicks(es + [t], points)
            == Clicks(es, points) + if PointerDown(points, t.event) then [PointOf(points, t.event).value] else []
  {
    if es == [] {
      assert (es + [t])[1..] == [];
    } else {
      ClicksOne(es[1..], t, points);
      assert (es + [t])[1..] == es[1..] + [t];
    }
  }

  function PenAt(es: seq<Timed>, points: Points, start: Point, k: nat): Pen
    requires k <= |es|
  {
    var trail := Trail(es[..k], points, start);
    Pen(if |trail| > 1 then Some(trail[|trail| - 2]) else None, trail[|trail| - 1], LastRelease(es[..k], points))
  }

  lemma PenMoves(es: seq<Timed>, points: Points, start: Point, k: nat)
    requires k < |es|
    ensures Advance(PenAt(es, points, start, k), es[k], points) == PenAt(es, points, start, k + 1)
  {
    assert es[..k + 1] == es[..k] + [es[k]];
    ClicksOne(es[..k], es[k], points);
    assert es[..k + 1][..k] == es[..k];
  }

  lemma EndingIs(es: seq<Timed>, points: Points, start: Point, k: nat)
    requires k < |es|
    ensures var r := Travel.Ending(es[k..], points, PenAt(es, points, start, k));
            if Crosses(es, points, start, k) then |r| == 1 && SpanAt(es, points, start, k, r[0]) else r == []
  {
    assert es[k..][0] == es[k] && es[k..][1..] == es[k + 1..];
    NextIsFirstClick(es[k + 1..], points);
  }

  lemma PlacedMore(at: seq<nat>, spans: seq<Span>, span: Span, es: seq<Timed>, points: Points, start: Point, k: nat)
    requires k < |es| && Placed(at, spans, es, points, start, k + 1)
    requires Crosses(es, points, start, k) && SpanAt(es, points, start, k, span)
    ensures Placed([k] + at, [span] + spans, es, points, start, k)
  {
    hide Crosses, SpanAt;
    var at', spans' := [k] + at, [span] + spans;
    assert at'[0] == k && spans'[0] == span;
    forall j | 1 <= j < |at'| ensures k < at'[j] < |es| && Crosses(es, points, start, at'[j]) && SpanAt(es, points, start, at'[j], spans'[j]) {
      assert at'[j] == at[j - 1] && spans'[j] == spans[j - 1];
    }
    forall j, m | 0 <= j < m < |at'| ensures at'[j] < at'[m] {
      assert j > 0 ==> at'[j] == at[j - 1];
      assert at'[m] == at[m - 1];
    }
    forall i: nat | k <= i < |es| && Crosses(es, points, start, i) ensures i in at' {
      if i != k {
        assert i in at;
      }
    }
  }

  lemma PlacedSkip(at: seq<nat>, spans: seq<Span>, es: seq<Timed>, points: Points, start: Point, k: nat)
    requires k < |es| && Placed(at, spans, es, points, start, k + 1) && !Crosses(es, points, start, k)
    ensures Placed(at, spans, es, points, start, k)
  {
    hide Crosses, SpanAt;
  }

  lemma {:induction false} PlacedFrom(es: seq<Timed>, points: Points, start: Point, k: nat) returns (at: seq<nat>)
    requires k <= |es|
    ensures Placed(at, Spans(es[k..], points, PenAt(es, points, start, k)), es, points, start, k)
    decreases |es| - k
  {
    if k == |es| {
      at := [];
    } else {
      hide Placed, PenAt, Advance, Crosses, SpanAt, Travel.Ending;
      var rest := PlacedFrom(es, points, start, k + 1);
      var pen, spans := PenAt(es, points, start, k), Spans(es[k + 1..], points, PenAt(es, points, start, k + 1));
      PenMoves(es, points, start, k);
      EndingIs(es, points, start, k);
      assert es[k..][0] == es[k] && es[k..][1..] == es[k + 1..];
      var r := Travel.Ending(es[k..], points, pen);
      assert Spans(es[k..], points, pen) == r + spans;
      if Crosses(es, points, start, k) {
        PlacedMore(rest, spans, r[0], es, points, start, k);
        at := [k] + rest;
        assert r == [r[0]];
      } else {
        PlacedSkip(rest, spans, es, points, start, k);
        at := rest;
        assert r + spans == spans;
      }
    }
  }

  /** The spans of a timeline are exactly its crossings, in order: each leads from the click before to the
      click it ends at, from the last release to the click's time, and bends towards the neighbouring clicks. */
  lemma SpansAreCrossings(frames: seq<Frame>, points: Points, start: Point) returns (at: seq<nat>)
    ensures Placed(at, Spans(Flat(frames), points, Pen(None, start, 0)), Flat(frames), points, start, 0)
  {
    var es := Flat(frames);
    at := PlacedFrom(es, points, start, 0);
    assert es[0..] == es && es[..0] == [];
  }

  /** Each sample is due at its exact share of the span, rounded down to a nanosecond. */
  lemma SampleShares(span: Span, curve: Curve, i: nat)
    requires span.begins < span.deadline && i < SpanCount(span)
    ensures var s, d, n := SpanSamples(span, curve)[i], span.deadline - span.begins, SpanCount(span);
            s.at >= span.begins && (s.at - span.begins) * n <= d * (i + 1) < (s.at - span.begins + 1) * n
  {
    var d, n := span.deadline - span.begins, SpanCount(span);
    if i + 1 < n {
      ShareBounds(d * (i + 1), n);
    } else {
      MoreThan(d, n);
    }
  }

  lemma ShareBounds(a: nat, n: nat)
    requires n > 0
    ensures a / n * n <= a < (a / n + 1) * n
  {
  }

  lemma MoreThan(d: nat, n: nat)
    requires n > 0
    ensures d * n < (d + 1) * n
  {
  }
}
