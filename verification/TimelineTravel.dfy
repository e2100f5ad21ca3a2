/** Validated timelines of keys and pointer, indexed and played with pointer travel: travel never changes what
    they mean, and playing them leaves nothing held. */
module TimelineTravel {
  import opened Common
  import opened Timeline
  import opened Gesture
  import opened Travel
  import Schedule

  /** Whether the pointer is down after these events. */
  function DownAfter(es: seq<Timed>, points: Points, down: bool): bool {
    if es == [] then down
    else if PointerDown(points, es[0].event) then DownAfter(es[1..], points, true)
    else if PointerUp(points, es[0].event) then DownAfter(es[1..], points, false)
    else DownAfter(es[1..], points, down)
  }

  lemma {:induction false} AlternatesAppend(a: seq<Timed>, b: seq<Timed>, points: Points, down: bool)
    requires Alternates(a, points, down) && Alternates(b, points, DownAfter(a, points, down))
    ensures Alternates(a + b, points, down)
    ensures DownAfter(a + b, points, down) == DownAfter(b, points, DownAfter(a, points, down))
    decreases |a|
  {
    if a == [] {
      assert a + b == b;
    } else {
      assert (a + b)[1..] == a[1..] + b;
      var down' := if PointerDown(points, a[0].event) then true else if PointerUp(points, a[0].event) then false else down;
      AlternatesAppend(a[1..], b, points, down');
    }
  }

  lemma {:induction false} FlatAppend(frames: seq<Schedule.Frame>, f: Schedule.Frame)
    ensures Flat(frames + [f]) == Flat(frames) + Stamp(f.at, f.events)
  {
    if frames == [] {
      assert [] + [f] == [f];
      assert [f][1..] == [];
    } else {
      assert (frames + [f])[1..] == frames[1..] + [f];
      FlatAppend(frames[1..], f);
    }
  }

  /** Where each prepared press is shown: pointer presses at their place, keys nowhere. */
  function PointsOf(pairs: seq<Pair>, shown: Place -> Schedule.Point): (points: Points)
    ensures |points| == |pairs|
    ensures forall i :: 0 <= i < |pairs| ==>
              points[i] == if pairs[i].PointerPair? then Some(shown(pairs[i].place)) else None
  {
    seq(|pairs|, i requires 0 <= i < |pairs| =>
      if pairs[i].PointerPair? then Some(shown(pairs[i].place)) else None)
  }

  lemma OneAlternates(pairs: seq<Pair>, shown: Place -> Schedule.Point, h: Hand, x: Touch, t: Timed)
    requires Names(pairs, x, t.event) && Allowed(h, x)
    ensures var points := PointsOf(pairs, shown);
            && Alternates([t], points, h.pointer)
            && DownAfter([t], points, h.pointer) == (x.PressPointer? || (h.pointer && !x.LiftPointer?))
  {
    var points := PointsOf(pairs, shown);
    assert [t][1..] == [];
    forall down ensures Alternates([], points, down) && DownAfter([], points, down) == down {
    }
  }

  lemma HandPointer(xs: seq<Touch>)
    requires xs != [] && Hands(xs).Some?
    ensures Hands(xs[..|xs| - 1]).Some? && Allowed(Hands(xs[..|xs| - 1]).value, xs[|xs| - 1])
    ensures var x := xs[|xs| - 1];
            Hands(xs).value.pointer == (x.PressPointer? || (Hands(xs[..|xs| - 1]).value.pointer && !x.LiftPointer?))
  {
  }

  /** Rightly named transitions of allowed touches alternate for the pointer, whatever the keys do. */
  lemma {:induction false} NamedAlternates(pairs: seq<Pair>, shown: Place -> Schedule.Point, xs: seq<Touch>, es: seq<Timed>)
    requires Hands(xs).Some? && |es| == |xs| && forall j :: 0 <= j < |xs| ==> Names(pairs, xs[j], es[j].event)
    ensures var points := PointsOf(pairs, shown);
            Alternates(es, points, false) && DownAfter(es, points, false) == Hands(xs).value.pointer
  {
    hide Alternates, DownAfter, Names, Hands, Allowed, PointsOf;
    if xs == [] {
      assert es == [];
      NothingAlternates(PointsOf(pairs, shown));
      NoHands();
    } else {
      var front, last := es[..|es| - 1], es[|es| - 1];
      HandPointer(xs);
      NamedAlternates(pairs, shown, xs[..|xs| - 1], front);
      OneAlternates(pairs, shown, Hands(xs[..|xs| - 1]).value, xs[|xs| - 1], last);
      AlternatesAppend(front, [last], PointsOf(pairs, shown), false);
      assert es == front + [last];
    }
  }

  lemma NothingAlternates(points: Points)
    ensures Flat([]) == [] && Alternates([], points, false) && !DownAfter([], points, false)
  {
  }

  lemma NoHands()
    ensures Hands([]) == Some(Hand({}, false))
  {
  }

  lemma {:induction false} FlatIsEvents(frames: seq<Schedule.Frame>)
    ensures |Flat(frames)| == |Events(frames)| && forall i :: 0 <= i < |Events(frames)| ==> Flat(frames)[i].event == Events(frames)[i]
  {
    if frames == [] {
      assert Flat(frames) == [];
    } else {
      hide Flat;
      var front, f := frames[..|frames| - 1], frames[|frames| - 1];
      FlatIsEvents(front);
      FlatAppend(front, f);
      assert frames == front + [f];
    }
  }

  /** What holds of every event holds of every event of every frame. */
  lemma {:induction false} EventsCover(frames: seq<Schedule.Frame>, n: nat)
    requires forall i :: 0 <= i < |Events(frames)| ==> !Events(frames)[i].Move? && Events(frames)[i].index < n
    ensures forall k, j :: 0 <= k < |frames| && 0 <= j < |frames[k].events| ==>
              !frames[k].events[j].Move? && frames[k].events[j].index < n
  {
    if frames != [] {
      var front, f := frames[..|frames| - 1], frames[|frames| - 1];
      forall i | 0 <= i < |Events(front)| ensures !Events(front)[i].Move? && Events(front)[i].index < n {
        assert Events(frames)[i] == Events(front)[i];
      }
      EventsCover(front, n);
      forall j | 0 <= j < |f.events| ensures !f.events[j].Move? && f.events[j].index < n {
        assert Events(frames)[|Events(front)| + j] == f.events[j];
      }
      forall k, j | 0 <= k < |frames| && 0 <= j < |frames[k].events|
        ensures !frames[k].events[j].Move? && frames[k].events[j].index < n
      {
        if k < |front| {
          assert front[k] == frames[k];
        }
      }
    }
  }

  lemma {:induction false} BoardTimes(frames: seq<InputFrame>)
    requires BoardOf(frames).Some?
    ensures var b := BoardOf(frames).value;
            |b.frames| == |frames| && forall i :: 0 <= i < |frames| ==> b.frames[i].at == frames[i].at * MILLISECOND
  {
    hide Index, Touches;
    if frames != [] {
      BoardTimes(frames[..|frames| - 1]);
    }
  }

  lemma {:induction false} TimesClimb(frames: seq<InputFrame>, i: nat, j: nat)
    requires i <= j < |frames| && forall k :: 1 <= k < |frames| ==> frames[k - 1].at <= frames[k].at
    ensures frames[i].at <= frames[j].at
    decreases j
  {
    if i < j {
      TimesClimb(frames, i, j - 1);
    }
  }

  lemma BoardOrdered(frames: seq<InputFrame>)
    requires BoardOf(frames).Some? && forall k :: 1 <= k < |frames| ==> frames[k - 1].at <= frames[k].at
    ensures Travel.Ordered(BoardOf(frames).value.frames)
  {
    hide BoardOf;
    BoardTimes(frames);
    var b := BoardOf(frames).value;
    forall i, j | 0 <= i < j < |b.frames| ensures b.frames[i].at <= b.frames[j].at {
      TimesClimb(frames, i, j);
    }
  }

  /** The plan of an accepted timeline meets every premise of travel. */
  lemma BoardTravels(frames: seq<InputFrame>, supported: Key -> bool, shown: Place -> Schedule.Point)
    requires Accepts(frames, supported)
    ensures BoardOf(frames).Some?
    ensures var b := BoardOf(frames).value;
            var points := PointsOf(b.table.pairs, shown);
            NoMoves(b.frames) && Travel.Ordered(b.frames) && Alternates(Flat(b.frames), points, false) && InRange(b.frames, points)
  {
    hide BoardOf, Alternates, Flat, Hands, Index, Numbered, Events, Travel.Ordered;
    AcceptedIsIndexed(frames, supported);
    AcceptedClimbs(frames, supported);
    BoardOrdered(frames);
    var b, xs := BoardOf(frames).value, AllTouches(frames);
    FlatIsEvents(b.frames);
    NamedAlternates(b.table.pairs, shown, xs, Flat(b.frames));
    forall i | 0 <= i < |Events(b.frames)| ensures !Events(b.frames)[i].Move? && Events(b.frames)[i].index < |b.table.pairs| {
      assert Names(b.table.pairs, xs[i], Events(b.frames)[i]);
    }
    EventsCover(b.frames, |b.table.pairs|);
  }

  lemma AcceptedClimbs(frames: seq<InputFrame>, supported: Key -> bool)
    requires Accepts(frames, supported)
    ensures forall k :: 1 <= k < |frames| ==> frames[k - 1].at <= frames[k].at
  {
  }

  /** Every accepted timeline, keys and pointer together, keeps its meaning under travel, wherever its places
      are shown and whatever the curve. */
  lemma AcceptedTimelinesTravel(frames: seq<InputFrame>, supported: Key -> bool, shown: Place -> Schedule.Point,
                                start: Schedule.Point, curve: Curve)
    requires Accepts(frames, supported)
    ensures BoardOf(frames).Some?
    ensures var b := BoardOf(frames).value;
            var points := PointsOf(b.table.pairs, shown);
            var out := Travelled(b.frames, points, start, curve);
            && Erase(out) == b.frames && Travel.Ordered(out) && Smooth(Flat(out), points, false, start, 0)
  {
    hide BoardOf, Alternates, Flat, Travelled, Travel.Ordered, Accepts, NoMoves, InRange;
    BoardTravels(frames, supported, shown);
    var b := BoardOf(frames).value;
    TravelPreservesMeaning(b.frames, PointsOf(b.table.pairs, shown), start, curve);
  }

  // ---------------------------------------------------------------- playing it

  /** The native input of a record. */
  function Natives(log: seq<Schedule.Transition>): seq<Schedule.Transition> {
    if log == [] then []
    else
      var e := log[|log| - 1];
      Natives(log[..|log| - 1]) + (if e.Move? then [] else [e])
  }

  lemma {:induction false} NativesConcat(a: seq<Schedule.Transition>, b: seq<Schedule.Transition>)
    ensures Natives(a + b) == Natives(a) + Natives(b)
  {
    if b == [] {
      assert a + b == a;
    } else {
      assert (a + b)[..|a + b| - 1] == a + b[..|b| - 1];
      NativesConcat(a, b[..|b| - 1]);
    }
  }

  lemma {:induction false} NativesKept(events: seq<Schedule.Transition>, late: bool)
    ensures Natives(Schedule.Kept(events, late)) == Natives(events)
  {
    if events != [] {
      var front, e := events[..|events| - 1], events[|events| - 1];
      NativesKept(front, late);
      var last := if late && e.Move? then [] else [e];
      NativesConcat(Schedule.Kept(front, late), last);
      assert last != [] ==> last[..0] == [];
      assert Natives(last) == if e.Move? then [] else [e];
    }
  }

  /** Late or not, playing drops no native event. */
  lemma {:induction false} NativesScore(frames: seq<Schedule.Frame>, env: Schedule.Env)
    ensures Natives(Schedule.Score(frames, env)) == Natives(Events(frames))
  {
    hide Natives, Schedule.Kept;
    if frames != [] {
      var k := |frames| - 1;
      NativesScore(frames[..k], env);
      var late := Schedule.LateVisual(env, k, frames[k].at);
      NativesKept(frames[k].events, late);
      NativesConcat(Schedule.Score(frames[..k], env), Schedule.Kept(frames[k].events, late));
      NativesConcat(Events(frames[..k]), frames[k].events);
    }
  }

  lemma {:induction false} NativesOfNatives(log: seq<Schedule.Transition>)
    requires forall i :: 0 <= i < |log| ==> !log[i].Move?
    ensures Natives(log) == log
  {
    if log != [] {
      NativesOfNatives(log[..|log| - 1]);
    }
  }

  lemma {:induction false} HeldNatives(log: seq<Schedule.Transition>)
    ensures Schedule.HeldAfter(Natives(log)) == Schedule.HeldAfter(log)
  {
    if log != [] {
      var front, e := log[..|log| - 1], log[|log| - 1];
      HeldNatives(front);
      if !e.Move? {
        Schedule.HeldOne(Natives(front), e);
      } else {
        assert Natives(front) + [] == Natives(front);
      }
    }
  }

  lemma {:induction false} EventsFirst(f: Schedule.Frame, rest: seq<Schedule.Frame>)
    ensures Events([f] + rest) == f.events + Events(rest)
  {
    if rest == [] {
      assert [f] + rest == [f] && [f][..0] == [];
      assert Events([f]) == Events([f][..0]) + f.events;
    } else {
      var last := |rest| - 1;
      assert ([f] + rest)[..|[f] + rest| - 1] == [f] + rest[..last];
      EventsFirst(f, rest[..last]);
    }
  }

  /** Inserted moves are not native. */
  lemma {:induction false} NativesErased(frames: seq<Schedule.Frame>)
    ensures Natives(Events(frames)) == Natives(Events(Erase(frames)))
  {
    if frames != [] {
      hide Natives, Events;
      var f, rest := frames[0], frames[1..];
      NativesErased(rest);
      assert frames == [f] + rest;
      EventsFirst(f, rest);
      NativesConcat(f.events, Events(rest));
      if Inserted(f) {
        OneMove(f.events);
        assert Erase(frames) == Erase(rest);
      } else {
        EventsFirst(f, Erase(rest));
        NativesConcat(f.events, Events(Erase(rest)));
      }
    }
  }

  lemma OneMove(events: seq<Schedule.Transition>)
    requires |events| == 1 && events[0].Move?
    ensures Natives(events) == []
  {
    assert events[..0] == [];
  }

  /** A played prefix of the travelled timeline is, moves aside, a prefix of the plan's events. */
  lemma PlayedIsPlanned(out: seq<Schedule.Frame>, plan: seq<Schedule.Frame>, count: nat, env: Schedule.Env, n: nat)
    requires Erase(out) == plan && n <= |Schedule.Score(out, env)|
    requires forall i :: 0 <= i < |Events(plan)| ==> !Events(plan)[i].Move? && Events(plan)[i].index < count
    ensures var played := Schedule.Score(out, env)[..n];
            && Natives(played) <= Events(plan) && Schedule.HeldAfter(Natives(played)) == Schedule.HeldAfter(played)
            && (n == |Schedule.Score(out, env)| ==> Natives(played) == Events(plan))
  {
    hide Natives, Events, Schedule.Score, Erase, Schedule.HeldAfter;
    var score := Schedule.Score(out, env);
    NativesScore(out, env);
    NativesErased(out);
    NativesOfNatives(Events(plan));
    NativesConcat(score[..n], score[n..]);
    assert score == score[..n] + score[n..];
    HeldNatives(score[..n]);
    if n == |score| {
      assert score[..n] == score;
    }
  }

  /** Cleanup is native. */
  lemma NativesWithCleanup(played: seq<Schedule.Transition>, held: set<nat>, count: nat, env: Schedule.Env, spare: nat)
    ensures Natives(played + Schedule.Cleanup(held, count, env, spare)) == Natives(played) + Schedule.Cleanup(held, count, env, spare)
  {
    hide Natives;
    CleanupIsUps(held, count, env, spare);
    NativesConcat(played, Schedule.Cleanup(held, count, env, spare));
    NativesOfNatives(Schedule.Cleanup(held, count, env, spare));
  }

  lemma {:induction false} CleanupIsUps(held: set<nat>, n: nat, env: Schedule.Env, spare: nat)
    ensures forall i :: 0 <= i < |Schedule.Cleanup(held, n, env, spare)| ==> Schedule.Cleanup(held, n, env, spare)[i].Up?
  {
    if n > 0 {
      CleanupIsUps(held, n - 1, env, spare);
      if spare > 0 {
        CleanupIsUps(held, n - 1, env, spare - 1);
      }
    }
  }

  lemma PlannedIsNative(frames: seq<InputFrame>, supported: Key -> bool)
    requires Accepts(frames, supported) && BoardOf(frames).Some?
    ensures var b := BoardOf(frames).value;
            forall i :: 0 <= i < |Events(b.frames)| ==> !Events(b.frames)[i].Move? && Events(b.frames)[i].index < |b.table.pairs|
  {
    hide BoardOf, Hands, Index, Numbered, Events, Accepts;
    AcceptedIsIndexed(frames, supported);
    var b, xs := BoardOf(frames).value, AllTouches(frames);
    forall i | 0 <= i < |Events(b.frames)| ensures !Events(b.frames)[i].Move? && Events(b.frames)[i].index < |b.table.pairs| {
      assert Names(b.table.pairs, xs[i], Events(b.frames)[i]);
    }
  }

  /** The plan with its travel. */
  ghost function Shown(b: Board, shown: Place -> Schedule.Point, start: Schedule.Point, curve: Curve): seq<Schedule.Frame> {
    Travelled(b.frames, PointsOf(b.table.pairs, shown), start, curve)
  }

  /** Validate, index, insert travel, play. Moves aside, what is posted is a prefix of the plan's presses and
      releases followed by a cleanup of whatever that prefix leaves held; if every callback succeeds it is
      the whole plan. How far it gets, how it ends and what it leaves held are functions of what the
      callbacks do; unless the run aborts, nothing stays held. */
  method PlayTimeline(frames: seq<InputFrame>, supported: Key -> bool, shown: Place -> Schedule.Point, start: Schedule.Point,
                      curve: Curve, prepares: nat -> bool, cancelled: nat -> bool, env: Schedule.Env)
    returns (board: Option<Board>, log: seq<Schedule.Transition>, outcome: Schedule.Outcome)
    ensures board.None? ==> log == []
    ensures Accepts(frames, supported) ==> BoardOf(frames).Some?
    ensures board.Some? <==>
              && Accepts(frames, supported) && (forall n :: 0 <= n < |frames| ==> !cancelled(n))
              && (forall i :: 0 <= i < |BoardOf(frames).value.table.pairs| ==> prepares(i))
    ensures board.Some? ==>
              var plan, count := Events(board.value.frames), |board.value.table.pairs|;
              var h := Schedule.Play(Shown(board.value, shown, start, curve), count, env);
              var held, spare := Schedule.HeldAfter(h.log), if h.answer == Schedule.Unwinds then 0 else 1;
              && Accepts(frames, supported) && BoardOf(frames) == board
              && Natives(h.log) <= plan && Schedule.HeldAfter(Natives(h.log)) == held
              && Natives(log) == Natives(h.log) + Schedule.Cleanup(held, count, env, spare)
              && outcome == Schedule.Ending(h.answer, held, count, env, Schedule.HasNative(h.log))
              && (forall i :: i in Schedule.HeldAfter(log) <==> Schedule.StaysHeld(held, count, env, spare, i))
              && (outcome != Schedule.Aborted ==> Schedule.HeldAfter(log) == {})
              && (outcome == Schedule.Completed ==> Natives(log) == plan)
              && (Schedule.Cooperative(env, Shown(board.value, shown, start, curve), count) ==> outcome == Schedule.Completed)
  {
    hide Accepts, BoardOf, Natives, Events, Travelled, PointsOf, Smooth, Travel.Ordered, Erase, Alternates, Flat, InRange, NoMoves,
         Schedule.Cooperative, Schedule.HeldAfter, Schedule.Score, Schedule.Dues, Schedule.Play, Schedule.Cleanup, Schedule.Unwinding,
         Schedule.Failing, Schedule.Releases, Schedule.HasNative, Schedule.StaysHeld;
    board := MakeBoard(frames, supported, prepares, cancelled);
    log, outcome := [], Schedule.Failed(false);
    if board.None? {
      return;
    }
    var plan, count := board.value.frames, |board.value.table.pairs|;
    var points := PointsOf(board.value.table.pairs, shown);
    BoardTravels(frames, supported, shown);
    AcceptedTimelinesTravel(frames, supported, shown, start, curve);
    var out := WithPointerTravel(plan, points, start, curve);
    var due;
    log, due, outcome := Schedule.DispatchFallible(out, count, env);
    ghost var h := Schedule.Play(out, count, env);
    assert Schedule.Score(out, env)[..|h.log|] == h.log;
    PlannedIsNative(frames, supported);
    PlayedIsPlanned(out, plan, count, env, |h.log|);
    NativesWithCleanup(h.log, Schedule.HeldAfter(h.log), count, env, if h.answer == Schedule.Unwinds then 0 else 1);
    if outcome == Schedule.Completed {
      PlanReleasesAll(frames, supported);
      Schedule.ReleasesNone(count);
      assert h.log + [] == h.log;
    }
  }

  lemma PlanReleasesAll(frames: seq<InputFrame>, supported: Key -> bool)
    requires Accepts(frames, supported) && BoardOf(frames).Some?
    ensures Schedule.HeldAfter(Events(BoardOf(frames).value.frames)) == {}
  {
    hide Events, BoardOf, Accepts, Schedule.HeldAfter, Index, Hands, Numbered;
    AcceptedIsIndexed(frames, supported);
    NumberedHolds(Events(BoardOf(frames).value.frames));
  }

  /** What a numbered record leaves held is what it counts as held. */
  lemma {:induction false} NumberedHolds(log: seq<Schedule.Transition>)
    requires Numbered(log).Some?
    ensures Schedule.HeldAfter(log) == Numbered(log).value.held
  {
    if log != [] {
      NumberedHolds(log[..|log| - 1]);
    }
  }
}
