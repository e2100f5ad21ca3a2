/** What the compiled board says of each frame, in the frame's own terms. */
module GestureBoard {
  import opened Common
  import opened Timeline
  import opened Gesture
  import ClickScore
  import Schedule

  /** The transitions of one frame: each key it releases, then the pointer's release, each key it presses with
      the frame's key modifiers, then the pointer's press with its place, button and modifiers. */
  predicate Plays(f: InputFrame, events: seq<Schedule.Transition>, pairs: seq<Pair>) {
    var a := |f.keyUp| + if f.pointerUp then 1 else 0;
    var b := a + |f.keyDown|;
    && |events| == b + (if f.pointerDown.Some? then 1 else 0)
    && (forall j :: 0 <= j < |events| ==> !events[j].Move? && events[j].index < |pairs| && (events[j].Up? <==> j < a))
    && (forall j :: 0 <= j < |f.keyUp| ==> pairs[events[j].index].KeyPair? && pairs[events[j].index].key == f.keyUp[j])
    && (f.pointerUp ==> pairs[events[|f.keyUp|].index].PointerPair?)
    && (forall j :: 0 <= j < |f.keyDown| ==> pairs[events[a + j].index] == KeyPair(f.keyDown[j], f.keyModifiers))
    && (f.pointerDown.Some? ==>
          pairs[events[b].index] == PointerPair(f.pointerDown.value,
                                                if f.pointerButton.Some? then f.pointerButton.value else Left, f.pointerModifiers))
  }

  lemma NamedPlays(f: InputFrame, events: seq<Schedule.Transition>, pairs: seq<Pair>)
    requires AllNamed(pairs, Touches(f), events)
    ensures Plays(f, events, pairs)
  {
    hide Touches, PointerPress;
    var xs := Touches(f);
    var a := |f.keyUp| + if f.pointerUp then 1 else 0;
    TouchAt(f, 0);
    if f.pointerDown.Some? {
      PressOf(f);
      assert Names(pairs, xs[a + |f.keyDown|], events[a + |f.keyDown|]);
    }
    forall j | 0 <= j < |f.keyUp| ensures Names(pairs, Lift(f.keyUp[j]), events[j]) {
      TouchAt(f, j);
      assert Names(pairs, xs[j], events[j]);
    }
    forall j | 0 <= j < |f.keyDown| ensures Names(pairs, Press(f.keyDown[j], f.keyModifiers), events[a + j]) {
      TouchAt(f, j);
      assert Names(pairs, xs[a + j], events[a + j]);
    }
    assert f.pointerUp ==> Names(pairs, xs[|f.keyUp|], events[|f.keyUp|]);
    forall j | 0 <= j < |events| ensures !events[j].Move? && events[j].index < |pairs| && (events[j].Up? <==> j < a) {
      assert Names(pairs, xs[j], events[j]);
      if a <= j < a + |f.keyDown| {
        assert Names(pairs, Press(f.keyDown[j - a], f.keyModifiers), events[a + (j - a)]);
      }
    }
  }

  lemma {:induction false} TouchesPrefix(frames: seq<InputFrame>, n: nat)
    requires n < |frames|
    ensures AllTouches(frames[..n]) + Touches(frames[n]) <= AllTouches(frames)
  {
    hide Touches;
    if n < |frames| - 1 {
      assert frames[..|frames| - 1][..n] == frames[..n];
      TouchesPrefix(frames[..|frames| - 1], n);
    }
  }

  lemma {:induction false} EventsPrefix(frames: seq<Schedule.Frame>, n: nat)
    requires n < |frames|
    ensures Events(frames[..n]) + frames[n].events <= Events(frames)
  {
    if n < |frames| - 1 {
      assert frames[..|frames| - 1][..n] == frames[..n];
      EventsPrefix(frames[..|frames| - 1], n);
    }
  }

  lemma {:induction false} IndexLength(t: Table, xs: seq<Touch>)
    requires Index(t, xs).Some?
    ensures |Index(t, xs).value.events| == |xs|
  {
    if xs != [] {
      IndexLength(t, xs[..|xs| - 1]);
    }
  }

  /** Board and timeline keep step. */
  lemma {:induction false} BoardStep(frames: seq<InputFrame>, n: nat)
    requires BoardOf(frames).Some? && n < |frames|
    ensures var b := BoardOf(frames).value.frames;
            && |b| == |frames| && b[n].at == frames[n].at * MILLISECOND && |b[n].events| == |Touches(frames[n])|
            && |Events(b[..n])| == |AllTouches(frames[..n])|
  {
    hide Index, Touches, AllTouches, Events;
    var front, f := frames[..|frames| - 1], frames[|frames| - 1];
    var before := BoardOf(front).value;
    IndexLength(before.table, Touches(f));
    SameLength(front);
    if n < |front| {
      BoardStep(front, n);
      assert front[..n] == frames[..n] && front[n] == frames[n];
      assert BoardOf(frames).value.frames[..n] == before.frames[..n];
    } else {
      BoardIsIndex(front);
      IndexLength(EMPTY, AllTouches(front));
      assert BoardOf(frames).value.frames[..n] == before.frames;
    }
  }

  lemma {:induction false} SameLength(frames: seq<InputFrame>)
    requires BoardOf(frames).Some?
    ensures |BoardOf(frames).value.frames| == |frames|
  {
    hide Index, Touches;
    if frames != [] {
      SameLength(frames[..|frames| - 1]);
    }
  }

  lemma PartIsNamed(pairs: seq<Pair>, xs: seq<Touch>, events: seq<Schedule.Transition>, ys: seq<Touch>, part: seq<Schedule.Transition>,
                    before: seq<Touch>, earlier: seq<Schedule.Transition>)
    requires AllNamed(pairs, xs, events) && before + ys <= xs && earlier + part <= events
    requires |before| == |earlier| && |ys| == |part|
    ensures AllNamed(pairs, ys, part)
  {
    hide Names;
    forall j | 0 <= j < |ys| ensures Names(pairs, ys[j], part[j]) {
      assert ys[j] == (before + ys)[|before| + j] == xs[|before| + j];
      assert part[j] == (earlier + part)[|earlier| + j] == events[|earlier| + j];
    }
  }

  /** Every frame of an accepted timeline is played at its own time, and does exactly what it asks for. */
  lemma BoardPlaysFrames(frames: seq<InputFrame>, supported: Key -> bool, n: nat)
    requires Accepts(frames, supported) && n < |frames|
    ensures BoardOf(frames).Some? && |BoardOf(frames).value.frames| == |frames|
    ensures var b := BoardOf(frames).value;
            b.frames[n].at == frames[n].at * MILLISECOND && Plays(frames[n], b.frames[n].events, b.table.pairs)
  {
    hide Accepts, BoardOf, Touches, AllTouches, Events, Index, Numbered, Hands, AllNamed, Plays;
    AcceptedIsIndexed(frames, supported);
    var b := BoardOf(frames).value;
    BoardStep(frames, n);
    TouchesPrefix(frames, n);
    EventsPrefix(b.frames, n);
    PartIsNamed(b.table.pairs, AllTouches(frames), Events(b.frames), Touches(frames[n]), b.frames[n].events,
                AllTouches(frames[..n]), Events(b.frames[..n]));
    NamedPlays(frames[n], b.frames[n].events, b.table.pairs);
  }

  /** A compiled score asks, click by click, for one press at the click's place with the score's button and
      modifiers, and for its release. */
  lemma ScoreAsks(clicks: seq<ClickScore.Click>, o: ClickScore.Options, i: nat)
    requires i < |clicks|
    ensures var frames := ClickScore.Compiled(clicks, o);
            && Touches(frames[2 * i]) == [PressPointer(Place(clicks[i].x, clicks[i].y), o.button, o.modifiers)]
            && Touches(frames[2 * i + 1]) == [LiftPointer]
            && frames[2 * i].at == clicks[i].at
            && frames[2 * i + 1].at == clicks[i].at + (if clicks[i].hold.Some? then clicks[i].hold.value else o.hold)
  {
    ClickScore.CompiledAt(clicks, o, i);
  }
}
