/** Cosmetic pointer travel: button-up gaps of a timeline are filled with cursor samples that lead
    from one click to the next, merged lazily into the original frames. */
module Travel {
  import opened Common
  import opened Schedule
  import Motion

  datatype Sample = Sample(at: nat, point: Point)

  /** A gap to cross: neighbouring clicks only bend the curve, never its ends or its times. */
  datatype Span = Span(previous: Option<Point>, start: Point, end: Point, next: Option<Point>, begins: nat, deadline: nat)

  /** Interior positions of a span's curve. */
  type Curve = (Span, nat) -> Point

  type Points = seq<Option<Point>>

  // ---------------------------------------------------------------- samples of one span

  /** The fewest samples that are at most a sixtieth of a second apart. */
  function SpanCount(span: Span): (n: nat)
    requires span.begins < span.deadline
    ensures (n - 1) * Motion.SECOND < (span.deadline - span.begins) * 60 <= n * Motion.SECOND
    ensures 1 <= n <= span.deadline - span.begins
  {
    Motion.CeilDiv((span.deadline - span.begins) * 60, Motion.SECOND)
  }

  function SpanSample(span: Span, k: nat, curve: Curve): Sample
    requires span.begins < span.deadline && 1 <= k <= SpanCount(span)
  {
    var n := SpanCount(span);
    if k == n then Sample(span.deadline, span.end)
    else Sample(span.begins + Portion(span.deadline - span.begins, k, n), curve(span, k))
  }

  /** The k-th of n equal parts of a duration, rounded down. */
  function Portion(d: nat, k: nat, n: nat): nat
    requires n > 0
  {
    assert d * k >= 0;
    d * k / n
  }

  function SpanSamples(span: Span, curve: Curve): (samples: seq<Sample>)
    requires span.begins < span.deadline
    ensures |samples| == SpanCount(span)
    ensures forall i :: 0 <= i < |samples| ==> samples[i] == SpanSample(span, i + 1, curve)
  {
    seq(SpanCount(span), i requires 0 <= i < SpanCount(span) => SpanSample(span, i + 1, curve))
  }

  lemma PositiveFactor(x: int, n: nat)
    requires x * n > 0
    ensures x > 0
  {
  }

  lemma QuotientBounds(a: nat, n: nat, lo: int, hi: int)
    requires n > 0 && lo * n <= a < (hi + 1) * n
    ensures lo <= a / n <= hi
  {
    var q := a / n;
    assert q * n <= a < q * n + n;
    assert (q + 1 - lo) * n > 0;
    PositiveFactor(q + 1 - lo, n);
    assert (hi + 1 - q) * n > 0;
    PositiveFactor(hi + 1 - q, n);
  }

  lemma MulMonotone(d: nat, j: nat, k: nat)
    requires j <= k
    ensures d * j <= d * k
  {
  }

  lemma QuotientMonotone(a: nat, b: nat, n: nat)
    requires a <= b && n > 0
    ensures a / n <= b / n
  {
    var p, q := a / n, b / n;
    assert p * n <= a && b < q * n + n;
    assert (q + 1 - p) * n > 0;
    PositiveFactor(q + 1 - p, n);
  }

  lemma QuotientInRange(a: nat, n: nat, d: nat)
    requires 0 < n <= a <= d * n
    ensures 1 <= a / n <= d
  {
    assert (d + 1) * n == d * n + n;
    QuotientBounds(a, n, 1, d);
  }

  lemma Share(d: nat, k: nat, n: nat)
    requires 1 <= k < n <= d
    ensures 0 < d * k / n <= d
    ensures d * k / n <= d * (k + 1) / n
  {
    MulMonotone(d, 1, k);
    MulMonotone(d, k, k + 1);
    MulMonotone(d, k, n);
    var a, b := d * k, d * (k + 1);
    assert n <= a <= b && a <= d * n;
    QuotientInRange(a, n, d);
    QuotientMonotone(a, b, n);
  }

  /** Samples lie after the release and not after the deadline, in order, and end exactly at the click. */
  lemma SpanTimes(span: Span, curve: Curve)
    requires span.begins < span.deadline
    ensures var s := SpanSamples(span, curve);
            && (forall i :: 0 <= i < |s| ==> span.begins < s[i].at <= span.deadline)
            && (forall i :: 0 <= i < |s| - 1 ==> s[i].at <= s[i + 1].at)
            && s[|s| - 1] == Sample(span.deadline, span.end)
  {
    var s, n, d := SpanSamples(span, curve), SpanCount(span), span.deadline - span.begins;
    forall i | 0 <= i < |s| - 1
      ensures span.begins < s[i].at <= span.deadline && s[i].at <= s[i + 1].at
    {
      Share(d, i + 1, n);
    }
  }

  // ---------------------------------------------------------------- spans of a timeline

  datatype Timed = Timed(at: nat, event: Transition)

  function Stamp(at: nat, events: seq<Transition>): (es: seq<Timed>)
    ensures |es| == |events|
  {
    seq(|events|, i requires 0 <= i < |events| => Timed(at, events[i]))
  }

  function Flat(frames: seq<Frame>): seq<Timed> {
    if frames == [] then [] else Stamp(frames[0].at, frames[0].events) + Flat(frames[1..])
  }

  /** The click position of a pointer transition; `None` for keys and moves. */
  function PointOf(points: Points, e: Transition): Option<Point> {
    if e.Move? || e.index >= |points| then None else points[e.index]
  }

  predicate PointerDown(points: Points, e: Transition) {
    e.Down? && PointOf(points, e).Some?
  }

  predicate PointerUp(points: Points, e: Transition) {
    e.Up? && PointOf(points, e).Some?
  }

  function NextClick(es: seq<Timed>, points: Points): Option<Point> {
    if es == [] then None
    else if PointerDown(points, es[0].event) then PointOf(points, es[0].event)
    else NextClick(es[1..], points)
  }

  /** The span ending at a pointer Down, when there is both time and distance to cross. */
  function SpanTo(previous: Option<Point>, start: Point, end: Point, next: Option<Point>, begins: nat, deadline: nat): (r: seq<Span>)
    ensures forall s :: s in r ==> s.begins < s.deadline
    ensures |r| <= 1
  {
    if begins < deadline && start != end then [Span(previous, start, end, next, begins, deadline)] else []
  }

  /** Where the scan stands: the click before, the current click position, the last release. */
  datatype Pen = Pen(previous: Option<Point>, cursor: Point, released: nat)

  function Advance(pen: Pen, t: Timed, points: Points): Pen {
    if PointerDown(points, t.event) then pen.(previous := Some(pen.cursor), cursor := PointOf(points, t.event).value)
    else if PointerUp(points, t.event) then pen.(released := t.at)
    else pen
  }

  /** The span, if any, that ends at the first of these events. */
  function Ending(es: seq<Timed>, points: Points, pen: Pen): (r: seq<Span>)
    requires es != []
    ensures forall s :: s in r ==> s.begins < s.deadline
  {
    if PointerDown(points, es[0].event)
    then SpanTo(pen.previous, pen.cursor, PointOf(points, es[0].event).value, NextClick(es[1..], points), pen.released, es[0].at)
    else []
  }

  function Spans(es: seq<Timed>, points: Points, pen: Pen): (r: seq<Span>)
    ensures forall s :: s in r ==> s.begins < s.deadline
  {
    if es == [] then []
    else Ending(es, points, pen) + Spans(es[1..], points, Advance(pen, es[0], points))
  }

  function Visual(spans: seq<Span>, curve: Curve): seq<Sample>
    requires forall s :: s in spans ==> s.begins < s.deadline
  {
    if spans == [] then [] else SpanSamples(spans[0], curve) + Visual(spans[1..], curve)
  }

  // ---------------------------------------------------------------- the merge

  /** A sample goes out before the first frame that is not earlier than it. */
  function Merge(frames: seq<Frame>, visual: seq<Sample>): seq<Frame>
    decreases |frames| + |visual|
  {
    if visual != [] && (frames == [] || visual[0].at <= frames[0].at)
    then [Frame(visual[0].at, [Move(visual[0].point)])] + Merge(frames, visual[1..])
    else if frames == [] then []
    else [frames[0]] + Merge(frames[1..], visual)
  }

  predicate Inserted(f: Frame) {
    |f.events| == 1 && f.events[0].Move?
  }

  function Erase(frames: seq<Frame>): seq<Frame> {
    if frames == [] then []
    else (if Inserted(frames[0]) then [] else [frames[0]]) + Erase(frames[1..])
  }

  predicate NoMoves(frames: seq<Frame>) {
    forall k, j :: 0 <= k < |frames| && 0 <= j < |frames[k].events| ==> !frames[k].events[j].Move?
  }

  predicate Ordered(frames: seq<Frame>) {
    forall j, k :: 0 <= j < k < |frames| ==> frames[j].at <= frames[k].at
  }

  predicate InOrder(samples: seq<Sample>) {
    forall j, k :: 0 <= j < k < |samples| ==> samples[j].at <= samples[k].at
  }

  /** Pointer transitions alternate, as one pointer's must. */
  predicate Alternates(es: seq<Timed>, points: Points, down: bool) {
    es == [] ||
    (if PointerDown(points, es[0].event) then !down && Alternates(es[1..], points, true)
     else if PointerUp(points, es[0].event) then down && Alternates(es[1..], points, false)
     else Alternates(es[1..], points, down))
  }

  predicate Climbs(es: seq<Timed>, from: nat) {
    es == [] || (from <= es[0].at && Climbs(es[1..], es[0].at))
  }

  /** What an observer of the merged timeline must see: the cursor moves only while the button is up
      and strictly after the last release, and a click after a positive gap finds it in place. */
  predicate Smooth(es: seq<Timed>, points: Points, down: bool, cursor: Point, released: nat) {
    es == [] ||
    (var e := es[0].event;
     if e.Move? then !down && es[0].at > released && Smooth(es[1..], points, down, e.point, released)
     else if PointerDown(points, e) then
       (es[0].at > released ==> cursor == PointOf(points, e).value)
       && Smooth(es[1..], points, true, PointOf(points, e).value, released)
     else if PointerUp(points, e) then Smooth(es[1..], points, false, cursor, es[0].at)
     else Smooth(es[1..], points, down, cursor, released))
  }

  /** Erasing the inserted moves gives back exactly the original frames. */
  lemma {:induction false} MergeErases(frames: seq<Frame>, visual: seq<Sample>)
    requires NoMoves(frames)
    ensures Erase(Merge(frames, visual)) == frames
    decreases |frames| + |visual|
  {
    if visual != [] && (frames == [] || visual[0].at <= frames[0].at) {
      MergeErases(frames, visual[1..]);
      var out := Merge(frames, visual);
      assert out[1..] == Merge(frames, visual[1..]);
    } else if frames != [] {
      assert NoMoves(frames[1..]);
      MergeErases(frames[1..], visual);
      var out := Merge(frames, visual);
      assert out[0] == frames[0] && out[1..] == Merge(frames[1..], visual);
      assert Erase(out) == [frames[0]] + Erase(out[1..]);
    }
  }

  /** Merging two ordered streams gives an ordered one that starts with the earlier head. */
  lemma {:induction false} MergeOrdered(frames: seq<Frame>, visual: seq<Sample>)
    requires Ordered(frames) && InOrder(visual)
    ensures Ordered(Merge(frames, visual))
    ensures forall k :: 0 <= k < |Merge(frames, visual)| ==>
              || (frames != [] && frames[0].at <= Merge(frames, visual)[k].at)
              || (visual != [] && visual[0].at <= Merge(frames, visual)[k].at)
    decreases |frames| + |visual|
  {
    if visual != [] && (frames == [] || visual[0].at <= frames[0].at) {
      MergeOrdered(frames, visual[1..]);
    } else if frames != [] {
      MergeOrdered(frames[1..], visual);
    }
  }

  // ---------------------------------------------------------------- the observer is satisfied

  lemma {:induction false} VisualConcat(a: seq<Span>, b: seq<Span>, curve: Curve)
    requires forall s :: s in a + b ==> s.begins < s.deadline
    ensures Visual(a + b, curve) == Visual(a, curve) + Visual(b, curve)
  {
    if a == [] {
      assert a + b == b;
    } else {
      assert (a + b)[1..] == a[1..] + b;
      VisualConcat(a[1..], b, curve);
    }
  }

  /** All samples still to come. */
  function Coming(es: seq<Timed>, points: Points, pen: Pen, curve: Curve): seq<Sample> {
    Visual(Spans(es, points, pen), curve)
  }

  /** The samples leading to the next pointer transition, when that is a Down. */
  function Lead(es: seq<Timed>, points: Points, pen: Pen, curve: Curve): seq<Sample> {
    if es == [] then []
    else if PointerDown(points, es[0].event) then Visual(Ending(es, points, pen), curve)
    else if PointerUp(points, es[0].event) then []
    else Lead(es[1..], points, pen, curve)
  }

  lemma ComingUnfolds(es: seq<Timed>, points: Points, pen: Pen, curve: Curve)
    requires es != []
    ensures Coming(es, points, pen, curve) ==
            Visual(Ending(es, points, pen), curve) + Coming(es[1..], points, Advance(pen, es[0], points), curve)
    ensures !PointerDown(points, es[0].event) ==>
              Coming(es, points, pen, curve) == Coming(es[1..], points, Advance(pen, es[0], points), curve)
  {
    VisualConcat(Ending(es, points, pen), Spans(es[1..], points, Advance(pen, es[0], points)), curve);
    if !PointerDown(points, es[0].event) {
      assert Visual(Ending(es, points, pen), curve) == [];
    }
  }

  /** A lead ends exactly at its click; it is empty exactly when there is no time or nowhere to go. */
  lemma LeadToClick(es: seq<Timed>, points: Points, pen: Pen, curve: Curve)
    requires es != [] && PointerDown(points, es[0].event)
    ensures var lead, end := Lead(es, points, pen, curve), PointOf(points, es[0].event).value;
            && (forall i :: 0 <= i < |lead| ==> pen.released < lead[i].at <= es[0].at)
            && (forall i :: 0 <= i < |lead| - 1 ==> lead[i].at <= lead[i + 1].at)
            && (if pen.released < es[0].at && pen.cursor != end then lead != [] && lead[|lead| - 1].point == end else lead == [])
  {
    var spans := Ending(es, points, pen);
    if spans != [] {
      SpanTimes(spans[0], curve);
      assert spans[1..] == [];
      assert Visual(spans, curve) == SpanSamples(spans[0], curve);
    }
  }

  /** `lead` opens `coming`, only while the button is up and after `released`; the rest is later than `next`. */
  ghost predicate Opens(lead: seq<Sample>, coming: seq<Sample>, down: bool, released: nat, next: Option<nat>) {
    && lead <= coming
    && (lead != [] ==> !down)
    && (forall i :: 0 <= i < |lead| ==> lead[i].at > released)
    && (forall i :: |lead| <= i < |coming| ==> next.Some? && coming[i].at > next.value)
    && InOrder(coming)
  }

  function NextTime(es: seq<Timed>): Option<nat> {
    if es == [] then None else Some(es[0].at)
  }

  ghost predicate LeadFirst(es: seq<Timed>, points: Points, pen: Pen, curve: Curve, down: bool) {
    Opens(Lead(es, points, pen, curve), Coming(es, points, pen, curve), down, pen.released, NextTime(es))
  }

  lemma OpensAfterUp(lead: seq<Sample>, coming: seq<Sample>, down: bool, released: nat, at: nat, next: Option<nat>)
    requires Opens(lead, coming, false, at, next) && (next.Some? ==> at <= next.value)
    ensures Opens([], coming, down, released, Some(at))
  {
  }

  lemma OpensAfterOther(lead: seq<Sample>, coming: seq<Sample>, down: bool, released: nat, at: nat, next: Option<nat>)
    requires Opens(lead, coming, down, released, next) && (next.Some? ==> at <= next.value)
    ensures Opens(lead, coming, down, released, Some(at))
  {
  }

  lemma OpensAfterDown(lead: seq<Sample>, after: seq<Sample>, coming: seq<Sample>, released: nat, at: nat, next: Option<nat>)
    requires Opens(after, coming, true, released, next) && (next.Some? ==> at <= next.value)
    requires InOrder(lead) && forall i :: 0 <= i < |lead| ==> released < lead[i].at <= at
    ensures Opens(lead, lead + coming, false, released, Some(at))
  {
  }

  /** What comes first leads to the next click while the button is up; everything after it is later
      than the next event; and all of it is in order. */
  lemma {:induction false} LeadComesFirst(es: seq<Timed>, points: Points, pen: Pen, curve: Curve, down: bool)
    requires Alternates(es, points, down) && Climbs(es, pen.released)
    ensures LeadFirst(es, points, pen, curve, down)
    decreases |es|
  {
    if es == [] {
      ComingNone(points, pen, curve);
    } else {
      hide LeadFirst;
      var pen', down' := Advance(pen, es[0], points),
          if PointerDown(points, es[0].event) then true else if PointerUp(points, es[0].event) then false else down;
      ClimbsWeaken(es[1..], es[0].at, pen'.released);
      LeadComesFirst(es[1..], points, pen', curve, down');
      if PointerDown(points, es[0].event) {
        LeadBeforeDown(es, points, pen, curve);
      } else {
        LeadBeforeOther(es, points, pen, curve, down, down');
      }
    }
  }

  lemma LeadBeforeDown(es: seq<Timed>, points: Points, pen: Pen, curve: Curve)
    requires es != [] && PointerDown(points, es[0].event) && Climbs(es, pen.released)
    requires LeadFirst(es[1..], points, Advance(pen, es[0], points), curve, true)
    ensures LeadFirst(es, points, pen, curve, false)
  {
    hide Coming, Lead, Visual, Ending, Opens;
    var pen' := Advance(pen, es[0], points);
    ComingUnfolds(es, points, pen, curve);
    LeadToClick(es, points, pen, curve);
    LeadInOrder(es, points, pen, curve);
    LeadIsEnding(es, points, pen, curve);
    OpensAfterDown(Lead(es, points, pen, curve), Lead(es[1..], points, pen', curve), Coming(es[1..], points, pen', curve),
                   pen.released, es[0].at, NextTime(es[1..]));
  }

  lemma LeadIsEnding(es: seq<Timed>, points: Points, pen: Pen, curve: Curve)
    requires es != [] && PointerDown(points, es[0].event)
    ensures Lead(es, points, pen, curve) == Visual(Ending(es, points, pen), curve)
  {
  }

  lemma LeadBeforeOther(es: seq<Timed>, points: Points, pen: Pen, curve: Curve, down: bool, down': bool)
    requires es != [] && !PointerDown(points, es[0].event) && Climbs(es, pen.released)
    requires down' == if PointerUp(points, es[0].event) then false else down
    requires LeadFirst(es[1..], points, Advance(pen, es[0], points), curve, down')
    ensures LeadFirst(es, points, pen, curve, down)
  {
    hide Coming, Visual, Ending, Opens;
    var pen' := Advance(pen, es[0], points);
    var lead, coming := Lead(es[1..], points, pen', curve), Coming(es[1..], points, pen', curve);
    ComingUnfolds(es, points, pen, curve);
    if PointerUp(points, es[0].event) {
      OpensAfterUp(lead, coming, down, pen.released, es[0].at, NextTime(es[1..]));
    } else {
      OpensAfterOther(lead, coming, down, pen.released, es[0].at, NextTime(es[1..]));
    }
  }

  lemma ComingNone(points: Points, pen: Pen, curve: Curve)
    ensures Coming([], points, pen, curve) == []
  {
  }

  lemma ClimbsWeaken(es: seq<Timed>, from: nat, lower: nat)
    requires Climbs(es, from) && lower <= from
    ensures Climbs(es, lower)
  {
  }

  lemma {:induction false} StepwiseOrder(s: seq<Sample>, i: nat, j: nat)
    requires (forall k :: 0 <= k < |s| - 1 ==> s[k].at <= s[k + 1].at) && i <= j < |s|
    ensures s[i].at <= s[j].at
    decreases j - i
  {
    if i < j {
      StepwiseOrder(s, i, j - 1);
    }
  }

  lemma LeadInOrder(es: seq<Timed>, points: Points, pen: Pen, curve: Curve)
    requires es != [] && PointerDown(points, es[0].event)
    ensures InOrder(Lead(es, points, pen, curve))
  {
    var lead := Lead(es, points, pen, curve);
    LeadToClick(es, points, pen, curve);
    forall i, j | 0 <= i < j < |lead| ensures lead[i].at <= lead[j].at {
      StepwiseOrder(lead, i, j);
    }
  }

  /** The merge so far has consumed `m` samples of the lead, and the live cursor is where they left it. */
  ghost predicate Midway(es: seq<Timed>, points: Points, pen: Pen, curve: Curve, down: bool,
                         visual: seq<Sample>, m: nat, cursor: Point) {
    && Alternates(es, points, down) && Climbs(es, pen.released)
    && m <= |Lead(es, points, pen, curve)| <= |Coming(es, points, pen, curve)|
    && visual == Coming(es, points, pen, curve)[m..]
    && cursor == (if m == 0 then pen.cursor else Lead(es, points, pen, curve)[m - 1].point)
  }

  lemma {:induction false} FlatClimbs(frames: seq<Frame>, from: nat)
    requires Ordered(frames) && (frames != [] ==> from <= frames[0].at)
    ensures Climbs(Flat(frames), from)
  {
    if frames != [] {
      FlatClimbs(frames[1..], frames[0].at);
      StampClimbs(frames[0].at, frames[0].events, Flat(frames[1..]), from);
    }
  }

  lemma {:induction false} StampClimbs(at: nat, events: seq<Transition>, rest: seq<Timed>, from: nat)
    requires from <= at && Climbs(rest, at)
    ensures Climbs(Stamp(at, events) + rest, from)
    decreases |events|
  {
    var es := Stamp(at, events) + rest;
    if events == [] {
      assert es == rest;
      ClimbsWeaken(rest, at, from);
    } else {
      StampClimbs(at, events[1..], rest, at);
      assert es[1..] == Stamp(at, events[1..]) + rest;
    }
  }

  lemma FlatFirst(f: Frame, rest: seq<Frame>)
    ensures Flat([f] + rest) == Stamp(f.at, f.events) + Flat(rest)
  {
    assert ([f] + rest)[1..] == rest;
  }

  /** The next event of the current frame goes out: the observer accepts it, and the rest is midway again. */
  lemma EventPasses(es: seq<Timed>, points: Points, pen: Pen, curve: Curve, down: bool,
                    visual: seq<Sample>, m: nat, cursor: Point)
    requires Midway(es, points, pen, curve, down, visual, m, cursor) && es != []
    requires visual == [] || visual[0].at > es[0].at
    requires !es[0].event.Move?
    ensures PointerDown(points, es[0].event) ==>
              && (es[0].at > pen.released ==> cursor == PointOf(points, es[0].event).value)
              && Midway(es[1..], points, Advance(pen, es[0], points), curve, true, visual, 0, PointOf(points, es[0].event).value)
    ensures PointerUp(points, es[0].event) ==>
              Midway(es[1..], points, Advance(pen, es[0], points), curve, false, visual, 0, cursor)
    ensures !PointerDown(points, es[0].event) && !PointerUp(points, es[0].event) ==>
              Midway(es[1..], points, Advance(pen, es[0], points), curve, down, visual, m, cursor)
  {
    hide Visual, Ending, Coming;
    var e, pen' := es[0].event, Advance(pen, es[0], points);
    var down' := if PointerDown(points, e) then true else if PointerUp(points, e) then false else down;
    ComingUnfolds(es, points, pen, curve);
    ClimbsWeaken(es[1..], es[0].at, pen'.released);
    LeadComesFirst(es[1..], points, pen', curve, down');
    if PointerDown(points, e) {
      LeadToClick(es, points, pen, curve);
      assert m == |Lead(es, points, pen, curve)|;
    }
  }

  /** The rest of a frame's events, then the rest of the merge, satisfy the observer. */
  lemma {:induction false} FrameSmooth(at: nat, events: seq<Transition>, frames: seq<Frame>, points: Points, pen: Pen,
                                       curve: Curve, down: bool, visual: seq<Sample>, m: nat, cursor: Point)
    requires Midway(Stamp(at, events) + Flat(frames), points, pen, curve, down, visual, m, cursor)
    requires visual == [] || visual[0].at > at
    requires NoMoves(frames) && Ordered(frames) && forall j :: 0 <= j < |events| ==> !events[j].Move?
    ensures Smooth(Stamp(at, events) + Flat(Merge(frames, visual)), points, down, cursor, pen.released)
    decreases |frames|, |visual|, 1 + |events|
  {
    hide Midway, Merge, Flat, NoMoves, Ordered;
    var es, out := Stamp(at, events) + Flat(frames), Stamp(at, events) + Flat(Merge(frames, visual));
    if events == [] {
      assert es == Flat(frames) && out == Flat(Merge(frames, visual));
      MergeSmooth(frames, points, pen, curve, down, visual, m, cursor);
    } else {
      var t := Timed(at, events[0]);
      var pen' := Advance(pen, t, points);
      assert es[0] == t && es[1..] == Stamp(at, events[1..]) + Flat(frames);
      assert out[0] == t && out[1..] == Stamp(at, events[1..]) + Flat(Merge(frames, visual));
      EventPasses(es, points, pen, curve, down, visual, m, cursor);
      if PointerDown(points, t.event) {
        FrameSmooth(at, events[1..], frames, points, pen', curve, true, visual, 0, PointOf(points, t.event).value);
      } else if PointerUp(points, t.event) {
        FrameSmooth(at, events[1..], frames, points, pen', curve, false, visual, 0, cursor);
      } else {
        FrameSmooth(at, events[1..], frames, points, pen', curve, down, visual, m, cursor);
      }
    }
  }

  /** A sample that goes out next belongs to the lead: the button is up and the release is past. */
  lemma SamplePasses(es: seq<Timed>, points: Points, pen: Pen, curve: Curve, down: bool,
                     visual: seq<Sample>, m: nat, cursor: Point)
    requires Midway(es, points, pen, curve, down, visual, m, cursor) && visual != []
    requires es == [] || visual[0].at <= es[0].at
    ensures !down && visual[0].at > pen.released
    ensures Midway(es, points, pen, curve, down, visual[1..], m + 1, visual[0].point)
  {
    hide Coming, Lead;
    LeadComesFirst(es, points, pen, curve, down);
  }

  lemma {:induction false} MergeSmooth(frames: seq<Frame>, points: Points, pen: Pen, curve: Curve, down: bool,
                                       visual: seq<Sample>, m: nat, cursor: Point)
    requires Midway(Flat(frames), points, pen, curve, down, visual, m, cursor) && NoMoves(frames) && Ordered(frames)
    ensures Smooth(Flat(Merge(frames, visual)), points, down, cursor, pen.released)
    decreases |frames|, |visual|, 0
  {
    hide Midway;
    if visual != [] && (frames == [] || visual[0].at <= frames[0].at) {
      FlatClimbs(frames, if frames == [] then 0 else frames[0].at);
      SamplePasses(Flat(frames), points, pen, curve, down, visual, m, cursor);
      MergeSmooth(frames, points, pen, curve, down, visual[1..], m + 1, visual[0].point);
      FlatFirst(Frame(visual[0].at, [Move(visual[0].point)]), Merge(frames, visual[1..]));
    } else if frames != [] {
      FlatFirst(frames[0], frames[1..]);
      assert frames == [frames[0]] + frames[1..];
      FlatFirst(frames[0], Merge(frames[1..], visual));
      FrameSmooth(frames[0].at, frames[0].events, frames[1..], points, pen, curve, down, visual, m, cursor);
    }
  }

  ghost function Travelled(frames: seq<Frame>, points: Points, start: Point, curve: Curve): seq<Frame> {
    Merge(frames, Coming(Flat(frames), points, Pen(None, start, 0), curve))
  }

  /** For every ordered timeline of one alternating pointer, whatever the curve: inserting travel keeps
      the native frames exactly, keeps time order, and satisfies the observer. */
  lemma TravelPreservesMeaning(frames: seq<Frame>, points: Points, start: Point, curve: Curve)
    requires NoMoves(frames) && Ordered(frames) && Alternates(Flat(frames), points, false)
    ensures var out := Travelled(frames, points, start, curve);
            && Erase(out) == frames && Ordered(out)
            && Smooth(Flat(out), points, false, start, 0)
  {
    var es, pen := Flat(frames), Pen(None, start, 0);
    var visual := Coming(es, points, pen, curve);
    FlatClimbs(frames, 0);
    LeadComesFirst(es, points, pen, curve, false);
    assert visual[0..] == visual;
    MergeSmooth(frames, points, pen, curve, false, visual, 0, start);
    MergeErases(frames, visual);
    MergeOrdered(frames, visual);
  }

  // ---------------------------------------------------------------- the program

  function Clicks(es: seq<Timed>, points: Points): seq<Point> {
    if es == [] then []
    else (if PointerDown(points, es[0].event) then [PointOf(points, es[0].event).value] else []) + Clicks(es[1..], points)
  }

  predicate InRange(frames: seq<Frame>, points: Points) {
    forall k, j :: 0 <= k < |frames| && 0 <= j < |frames[k].events| ==>
      frames[k].events[j].Move? || frames[k].events[j].index < |points|
  }

  lemma NextIsFirstClick(es: seq<Timed>, points: Points)
    ensures NextClick(es, points) == (if Clicks(es, points) == [] then None else Some(Clicks(es, points)[0]))
  {
  }

  lemma FlatSuffix(frames: seq<Frame>, k: nat, j: nat)
    requires k < |frames| && j <= |frames[k].events|
    ensures j < |frames[k].events| ==>
              Stamp(frames[k].at, frames[k].events[j..]) + Flat(frames[k + 1..]) ==
              [Timed(frames[k].at, frames[k].events[j])] + (Stamp(frames[k].at, frames[k].events[j + 1..]) + Flat(frames[k + 1..]))
    ensures Stamp(frames[k].at, frames[k].events[0..]) + Flat(frames[k + 1..]) == Flat(frames[k..])
    ensures Stamp(frames[k].at, frames[k].events[|frames[k].events|..]) + Flat(frames[k + 1..]) == Flat(frames[k + 1..])
  {
    hide Stamp, Flat;
    assert frames[k].events[0..] == frames[k].events;
    assert frames[k].events[|frames[k].events|..] == [];
    FlatAt(frames, k);
    StampNone(frames[k].at);
    assert [] + Flat(frames[k + 1..]) == Flat(frames[k + 1..]);
    if j < |frames[k].events| {
      StampFirst(frames[k].at, frames[k].events, j);
      assert [Timed(frames[k].at, frames[k].events[j])] + Stamp(frames[k].at, frames[k].events[j + 1..]) + Flat(frames[k + 1..]) ==
             [Timed(frames[k].at, frames[k].events[j])] + (Stamp(frames[k].at, frames[k].events[j + 1..]) + Flat(frames[k + 1..]));
    }
  }

  lemma FlatAt(frames: seq<Frame>, k: nat)
    requires k < |frames|
    ensures Flat(frames[k..]) == Stamp(frames[k].at, frames[k].events) + Flat(frames[k + 1..])
  {
    assert frames[k..][1..] == frames[k + 1..];
  }

  lemma StampNone(at: nat)
    ensures Stamp(at, []) == []
  {
  }

  lemma StampFirst(at: nat, events: seq<Transition>, j: nat)
    requires j < |events|
    ensures Stamp(at, events[j..]) == [Timed(at, events[j])] + Stamp(at, events[j + 1..])
  {
  }

  method CollectClicks(frames: seq<Frame>, points: Points) returns (clicks: seq<Point>)
    requires InRange(frames, points)
    ensures clicks == Clicks(Flat(frames), points)
  {
    clicks := [];
    assert frames[0..] == frames;
    for k := 0 to |frames|
      invariant clicks + Clicks(Flat(frames[k..]), points) == Clicks(Flat(frames), points)
    {
      var f := frames[k];
      FlatSuffix(frames, k, 0);
      for j := 0 to |f.events|
        invariant clicks + Clicks(Stamp(f.at, f.events[j..]) + Flat(frames[k + 1..]), points) == Clicks(Flat(frames), points)
      {
        FlatSuffix(frames, k, j);
        ghost var rest := Stamp(f.at, f.events[j + 1..]) + Flat(frames[k + 1..]);
        assert ([Timed(f.at, f.events[j])] + rest)[1..] == rest;
        if PointerDown(points, f.events[j]) {
          clicks := clicks + [PointOf(points, f.events[j]).value];
        }
      }
      FlatSuffix(frames, k, |f.events|);
    }
  }

  /** One pass over the frames finds every button-up gap. */
  method FindSpans(frames: seq<Frame>, points: Points, start: Point) returns (spans: seq<Span>)
    requires InRange(frames, points)
    ensures spans == Spans(Flat(frames), points, Pen(None, start, 0))
  {
    var clicks := CollectClicks(frames, points);
    spans := [];
    var pen, click: nat := Pen(None, start, 0), 0;
    ghost var all := Spans(Flat(frames), points, pen);
    assert frames[0..] == frames && clicks[0..] == clicks;
    for k := 0 to |frames|
      invariant click <= |clicks| && clicks[click..] == Clicks(Flat(frames[k..]), points)
      invariant spans + Spans(Flat(frames[k..]), points, pen) == all
    {
      FlatSuffix(frames, k, 0);
      spans, pen, click := ScanFrame(frames, k, points, clicks, spans, pen, click, all);
    }
  }

  /** One event of the scan: its span, the clicks still ahead, and the point the next span bends to. */
  lemma ScanUnfolds(es: seq<Timed>, points: Points, pen: Pen, clicks: seq<Point>, click: nat)
    requires es != [] && click <= |clicks| && clicks[click..] == Clicks(es, points)
    ensures Spans(es, points, pen) == Ending(es, points, pen) + Spans(es[1..], points, Advance(pen, es[0], points))
    ensures PointerDown(points, es[0].event) ==>
              && click < |clicks| && clicks[click + 1..] == Clicks(es[1..], points)
              && NextClick(es[1..], points) == (if click + 1 < |clicks| then Some(clicks[click + 1]) else None)
    ensures !PointerDown(points, es[0].event) ==>
              clicks[click..] == Clicks(es[1..], points) && Ending(es, points, pen) == []
  {
    if PointerDown(points, es[0].event) {
      assert clicks[click + 1..] == clicks[click..][1..];
      NextIsFirstClick(es[1..], points);
    }
  }

  method ScanFrame(frames: seq<Frame>, k: nat, points: Points, clicks: seq<Point>,
                   before: seq<Span>, from: Pen, clicked: nat, ghost all: seq<Span>)
    returns (spans: seq<Span>, pen: Pen, click: nat)
    requires InRange(frames, points) && k < |frames|
    requires clicked <= |clicks| && clicks[clicked..] == Clicks(Flat(frames[k..]), points)
    requires before + Spans(Flat(frames[k..]), points, from) == all
    ensures click <= |clicks| && clicks[click..] == Clicks(Flat(frames[k + 1..]), points)
    ensures spans + Spans(Flat(frames[k + 1..]), points, pen) == all
  {
    hide Spans, Clicks, Flat, Stamp, NextClick, SpanTo;
    var f := frames[k];
    spans, pen, click := before, from, clicked;
    FlatSuffix(frames, k, 0);
    for j := 0 to |f.events|
      invariant click <= |clicks|
      invariant clicks[click..] == Clicks(Stamp(f.at, f.events[j..]) + Flat(frames[k + 1..]), points)
      invariant spans + Spans(Stamp(f.at, f.events[j..]) + Flat(frames[k + 1..]), points, pen) == all
    {
      FlatSuffix(frames, k, j);
      ghost var es, rest := Stamp(f.at, f.events[j..]) + Flat(frames[k + 1..]), Stamp(f.at, f.events[j + 1..]) + Flat(frames[k + 1..]);
      assert es[0] == Timed(f.at, f.events[j]) && es[1..] == rest;
      ScanUnfolds(es, points, pen, clicks, click);
      var event := f.events[j];
      if PointerUp(points, event) {
        pen := pen.(released := f.at);
      } else if PointerDown(points, event) {
        var end := PointOf(points, event).value;
        var next := if click + 1 < |clicks| then Some(clicks[click + 1]) else None;
        spans := spans + SpanTo(pen.previous, pen.cursor, end, next, pen.released, f.at);
        pen := pen.(previous := Some(pen.cursor), cursor := end);
        click := click + 1;
      }
    }
    FlatSuffix(frames, k, |f.events|);
  }

  /** Samples are drawn one at a time and merged by time into the frames. */
  method MergeByTime(frames: seq<Frame>, samples: seq<Sample>) returns (out: seq<Frame>)
    ensures out == Merge(frames, samples)
  {
    hide Merge;
    var visual, k := samples, 0;
    ghost var all := Merge(frames, visual);
    out := [];
    assert frames[0..] == frames;
    while k < |frames| || visual != []
      invariant k <= |frames| && Joined(out, Merge(frames[k..], visual), all)
      decreases |frames| - k + |visual|
    {
      MergeUnfolds(frames, k, visual);
      if visual != [] && (k == |frames| || visual[0].at <= frames[k].at) {
        var f := Frame(visual[0].at, [Move(visual[0].point)]);
        JoinOne(out, f, Merge(frames[k..], visual[1..]), all);
        out := out + [f];
        visual := visual[1..];
      } else {
        JoinOne(out, frames[k], Merge(frames[k + 1..], visual), all);
        out := out + [frames[k]];
        k := k + 1;
      }
    }
    MergeUnfolds(frames, k, visual);
  }

  predicate Joined(out: seq<Frame>, rest: seq<Frame>, all: seq<Frame>) {
    out + rest == all
  }

  lemma JoinOne(out: seq<Frame>, f: Frame, rest: seq<Frame>, all: seq<Frame>)
    requires Joined(out, [f] + rest, all)
    ensures Joined(out + [f], rest, all)
  {
    assert out + ([f] + rest) == out + [f] + rest;
  }

  method WithPointerTravel(frames: seq<Frame>, points: Points, start: Point, curve: Curve) returns (out: seq<Frame>)
    requires InRange(frames, points)
    ensures out == Travelled(frames, points, start, curve)
  {
    hide Visual, Merge, Spans, Flat, Coming, Travelled, InRange;
    TravelledIs(frames, points, start, curve);
    var spans := FindSpans(frames, points, start);
    out := MergeByTime(frames, Visual(spans, curve));
  }

  lemma TravelledIs(frames: seq<Frame>, points: Points, start: Point, curve: Curve)
    ensures Travelled(frames, points, start, curve) == Merge(frames, Visual(Spans(Flat(frames), points, Pen(None, start, 0)), curve))
  {
  }

  lemma MergeUnfolds(frames: seq<Frame>, k: nat, visual: seq<Sample>)
    requires k <= |frames|
    ensures Merge(frames[k..], visual) ==
            if visual != [] && (k == |frames| || visual[0].at <= frames[k].at)
            then [Frame(visual[0].at, [Move(visual[0].point)])] + Merge(frames[k..], visual[1..])
            else if k == |frames| then []
            else [frames[k]] + Merge(frames[k + 1..], visual)
  {
    assert k < |frames| ==> frames[k..][0] == frames[k] && frames[k..][1..] == frames[k + 1..];
  }
}
