/** Timelines of keys and pointer compiled to indexed transitions: every press gets the next index, and a
    release names the press it ends. */
module Gesture {
  import opened Common
  import opened Timeline
  import Schedule

  /** One touch of a key or of the pointer. */
  datatype Touch =
    | Lift(key: Key)
    | LiftPointer
    | Press(key: Key, modifiers: seq<Modifier>)
    | PressPointer(place: Place, button: Button, modifiers: seq<Modifier>)

  function Lifts(keys: seq<Key>): (xs: seq<Touch>)
    ensures |xs| == |keys|
  {
    seq(|keys|, i requires 0 <= i < |keys| => Lift(keys[i]))
  }

  function Presses(keys: seq<Key>, modifiers: seq<Modifier>): (xs: seq<Touch>)
    ensures |xs| == |keys|
  {
    seq(|keys|, i requires 0 <= i < |keys| => Press(keys[i], modifiers))
  }

  function PointerLift(f: InputFrame): seq<Touch> {
    if f.pointerUp then [LiftPointer] else []
  }

  function PointerPress(f: InputFrame): seq<Touch> {
    if f.pointerDown.Some?
    then [PressPointer(f.pointerDown.value, if f.pointerButton.Some? then f.pointerButton.value else Left, f.pointerModifiers)]
    else []
  }

  /** A frame's touches in the order they are played: releases before presses, keys before the pointer. */
  function Touches(f: InputFrame): seq<Touch> {
    Lifts(f.keyUp) + PointerLift(f) + Presses(f.keyDown, f.keyModifiers) + PointerPress(f)
  }

  function AllTouches(frames: seq<InputFrame>): seq<Touch> {
    if frames == [] then [] else AllTouches(frames[..|frames| - 1]) + Touches(frames[|frames| - 1])
  }

  // ---------------------------------------------------------------- what the hands hold

  datatype Hand = Hand(keys: set<Key>, pointer: bool)

  /** What is held after these touches; `None` after a release of something not held or a second press. */
  function Hands(xs: seq<Touch>): Option<Hand> {
    if xs == [] then Some(Hand({}, false))
    else
      var before, x := Hands(xs[..|xs| - 1]), xs[|xs| - 1];
      if before.None? then None
      else
        var h := before.value;
        match x
        case Lift(k) => if k in h.keys then Some(h.(keys := h.keys - {k})) else None
        case Press(k, _) => if k in h.keys then None else Some(h.(keys := h.keys + {k}))
        case LiftPointer => if h.pointer then Some(h.(pointer := false)) else None
        case PressPointer(_, _, _) => if h.pointer then None else Some(h.(pointer := true))
  }

  function KeyHistory(xs: seq<Touch>): seq<KeyEvent> {
    if xs == [] then []
    else
      var before, x := KeyHistory(xs[..|xs| - 1]), xs[|xs| - 1];
      match x
      case Lift(k) => before + [KeyEvent(k, false)]
      case Press(k, _) => before + [KeyEvent(k, true)]
      case _ => before
  }

  function PointerHistory(xs: seq<Touch>): Option<bool> {
    if xs == [] then Some(false)
    else
      var before, x := PointerHistory(xs[..|xs| - 1]), xs[|xs| - 1];
      if before.None? || x.Lift? || x.Press? then before
      else if before.value == x.PressPointer? then None
      else Some(x.PressPointer?)
  }

  lemma {:induction false} KeyHistoryConcat(a: seq<Touch>, b: seq<Touch>)
    ensures KeyHistory(a + b) == KeyHistory(a) + KeyHistory(b)
  {
    if b == [] {
      assert a + b == a;
    } else {
      assert (a + b)[..|a + b| - 1] == a + b[..|b| - 1];
      KeyHistoryConcat(a, b[..|b| - 1]);
    }
  }

  lemma {:induction false} KeyHistoryStrokes(keys: seq<Key>, modifiers: seq<Modifier>)
    ensures KeyHistory(Lifts(keys)) == Stroke(keys, false) && KeyHistory(Presses(keys, modifiers)) == Stroke(keys, true)
  {
    if keys != [] {
      var front := keys[..|keys| - 1];
      KeyHistoryStrokes(front, modifiers);
      assert Lifts(keys)[..|keys| - 1] == Lifts(front) && Presses(keys, modifiers)[..|keys| - 1] == Presses(front, modifiers);
      assert Stroke(keys, false) == Stroke(front, false) + [KeyEvent(keys[|keys| - 1], false)];
      assert Stroke(keys, true) == Stroke(front, true) + [KeyEvent(keys[|keys| - 1], true)];
    }
  }

  lemma KeyHistoryFrame(f: InputFrame)
    ensures KeyHistory(Touches(f)) == Stroke(f.keyUp, false) + Stroke(f.keyDown, true)
  {
    hide KeyHistory, Lifts, Presses, PointerLift, PointerPress, Stroke;
    KeyHistoryConcat(Lifts(f.keyUp) + PointerLift(f) + Presses(f.keyDown, f.keyModifiers), PointerPress(f));
    KeyHistoryConcat(Lifts(f.keyUp) + PointerLift(f), Presses(f.keyDown, f.keyModifiers));
    KeyHistoryConcat(Lifts(f.keyUp), PointerLift(f));
    KeyHistoryStrokes(f.keyUp, f.keyModifiers);
    KeyHistoryStrokes(f.keyDown, f.keyModifiers);
    PointerTouchesHaveNoKeys(f);
  }

  lemma {:induction false} KeyHistoryIsKeyEvents(frames: seq<InputFrame>)
    ensures KeyHistory(AllTouches(frames)) == KeyEvents(frames)
  {
    if frames != [] {
      hide KeyHistory, Touches, Stroke;
      var front, f := frames[..|frames| - 1], frames[|frames| - 1];
      KeyHistoryIsKeyEvents(front);
      KeyHistoryConcat(AllTouches(front), Touches(f));
      KeyHistoryFrame(f);
      assert KeyEvents(front) + (Stroke(f.keyUp, false) + Stroke(f.keyDown, true)) == KeyEvents(frames);
    }
  }

  lemma PointerTouchesHaveNoKeys(f: InputFrame)
    ensures KeyHistory(PointerLift(f)) == [] && KeyHistory(PointerPress(f)) == []
  {
    assert PointerLift(f) != [] ==> PointerLift(f)[..0] == [];
    assert PointerPress(f) != [] ==> PointerPress(f)[..0] == [];
  }

  lemma {:induction false} KeysLeaveThePointer(a: seq<Touch>, b: seq<Touch>)
    requires forall i :: 0 <= i < |b| ==> b[i].Lift? || b[i].Press?
    ensures PointerHistory(a + b) == PointerHistory(a)
  {
    if b == [] {
      assert a + b == a;
    } else {
      assert (a + b)[..|a + b| - 1] == a + b[..|b| - 1];
      KeysLeaveThePointer(a, b[..|b| - 1]);
    }
  }

  lemma PointerOne(a: seq<Touch>, x: Touch)
    requires x.LiftPointer? || x.PressPointer?
    ensures PointerHistory(a + [x]) ==
            var before := PointerHistory(a);
            if before.None? || before.value == x.PressPointer? then None else Some(x.PressPointer?)
  {
    assert (a + [x])[..|a|] == a;
  }

  lemma {:induction false} PointerHistoryIsPointerState(frames: seq<InputFrame>)
    ensures PointerHistory(AllTouches(frames)) == PointerState(frames)
  {
    hide PointerHistory;
    if frames == [] {
      NoPointer();
    } else {
      var front, f := frames[..|frames| - 1], frames[|frames| - 1];
      PointerHistoryIsPointerState(front);
      var all := AllTouches(front);
      var a := all + Lifts(f.keyUp);
      var b := a + PointerLift(f);
      var c := b + Presses(f.keyDown, f.keyModifiers);
      assert all + Touches(f) == c + PointerPress(f);
      KeysLeaveThePointer(all, Lifts(f.keyUp));
      KeysLeaveThePointer(b, Presses(f.keyDown, f.keyModifiers));
      if f.pointerUp {
        PointerOne(a, LiftPointer);
      } else {
        assert b == a;
      }
      if f.pointerDown.Some? {
        PointerOne(c, PointerPress(f)[0]);
      } else {
        assert c + PointerPress(f) == c;
      }
    }
  }

  lemma NoPointer()
    ensures PointerHistory([]) == Some(false)
  {
  }

  lemma FineBefore(es: seq<KeyEvent>, more: seq<KeyEvent>, k: Key)
    requires KeyState(es + more, k).Some?
    ensures KeyState(es, k).Some?
  {
    if KeyState(es, k).None? {
      KeyStateSticks(es, more, k);
    }
  }

  /** If no key and not the pointer has gone wrong, the hands hold exactly what the histories say. */
  lemma {:induction false} HandsFollow(xs: seq<Touch>)
    requires PointerHistory(xs).Some? && forall k :: KeyState(KeyHistory(xs), k).Some?
    ensures Hands(xs).Some? && Follows(Hands(xs).value.keys, KeyHistory(xs)) && PointerHistory(xs) == Some(Hands(xs).value.pointer)
  {
    if xs != [] {
      var front, x := xs[..|xs| - 1], xs[|xs| - 1];
      var es := KeyHistory(front);
      forall k ensures KeyState(es, k).Some? {
        assert es + KeyHistory(xs)[|es|..] == KeyHistory(xs);
        FineBefore(es, KeyHistory(xs)[|es|..], k);
      }
      HandsFollow(front);
      if x.Lift? || x.Press? {
        assert KeyHistory(xs) == es + [KeyEvent(x.key, x.Press?)];
        assert KeyState(KeyHistory(xs), x.key).Some?;
        FollowsOne(Hands(front).value.keys, es, KeyEvent(x.key, x.Press?));
      }
    }
  }

  // ---------------------------------------------------------------- indexing

  /** A prepared press. */
  datatype Pair = KeyPair(key: Key, modifiers: seq<Modifier>)
                | PointerPair(place: Place, button: Button, modifiers: seq<Modifier>)

  datatype Table = Table(pairs: seq<Pair>, keys: map<Key, nat>, pointer: Option<nat>)

  const EMPTY: Table := Table([], map[], None)

  datatype Indexed = Indexed(table: Table, events: seq<Schedule.Transition>)

  /** One touch; `None` when a release finds no press. */
  function IndexOne(t: Table, x: Touch): Option<(Table, Schedule.Transition)> {
    match x
    case Lift(k) => if k in t.keys then Some((t.(keys := t.keys - {k}), Schedule.Up(t.keys[k]))) else None
    case LiftPointer => if t.pointer.Some? then Some((t.(pointer := None), Schedule.Up(t.pointer.value))) else None
    case Press(k, m) =>
      Some((t.(pairs := t.pairs + [KeyPair(k, m)], keys := t.keys[k := |t.pairs|]), Schedule.Down(|t.pairs|)))
    case PressPointer(place, button, m) =>
      Some((t.(pairs := t.pairs + [PointerPair(place, button, m)], pointer := Some(|t.pairs|)), Schedule.Down(|t.pairs|)))
  }

  function Index(t: Table, xs: seq<Touch>): Option<Indexed> {
    if xs == [] then Some(Indexed(t, []))
    else
      var before := Index(t, xs[..|xs| - 1]);
      if before.None? then None
      else
        var one := IndexOne(before.value.table, xs[|xs| - 1]);
        if one.None? then None else Some(Indexed(one.value.0, before.value.events + [one.value.1]))
  }

  datatype Board = Board(table: Table, frames: seq<Schedule.Frame>)

  /** The whole timeline, frame by frame. */
  function BoardOf(frames: seq<InputFrame>): Option<Board> {
    if frames == [] then Some(Board(EMPTY, []))
    else
      var before, f := BoardOf(frames[..|frames| - 1]), frames[|frames| - 1];
      if before.None? then None
      else
        var next := Index(before.value.table, Touches(f));
        if next.None? then None
        else Some(Board(next.value.table, before.value.frames + [Schedule.Frame(f.at * MILLISECOND, next.value.events)]))
  }

  function Events(frames: seq<Schedule.Frame>): seq<Schedule.Transition> {
    if frames == [] then [] else Events(frames[..|frames| - 1]) + frames[|frames| - 1].events
  }

  lemma {:induction false} IndexConcat(t: Table, a: seq<Touch>, b: seq<Touch>)
    ensures var first := Index(t, a);
            if first.None? then Index(t, a + b).None?
            else
              var second := Index(first.value.table, b);
              Index(t, a + b) == if second.None? then None
                                 else Some(Indexed(second.value.table, first.value.events + second.value.events))
    decreases |b|
  {
    if b == [] {
      assert a + b == a;
      if Index(t, a).Some? {
        assert Index(t, a).value.events + [] == Index(t, a).value.events;
      }
    } else {
      assert (a + b)[..|a + b| - 1] == a + b[..|b| - 1];
      IndexConcat(t, a, b[..|b| - 1]);
      var first := Index(t, a);
      if first.Some? && Index(first.value.table, b).Some? {
        var second := Index(first.value.table, b[..|b| - 1]).value;
        var e := IndexOne(second.table, b[|b| - 1]).value.1;
        assert first.value.events + second.events + [e] == first.value.events + (second.events + [e]);
      }
    }
  }

  /** Frame by frame is touch by touch. */
  lemma {:induction false} BoardIsIndex(frames: seq<InputFrame>)
    ensures var board, all := BoardOf(frames), Index(EMPTY, AllTouches(frames));
            && (board.Some? <==> all.Some?)
            && (board.Some? ==> board.value.table == all.value.table && Events(board.value.frames) == all.value.events)
  {
    if frames != [] {
      var front, f := frames[..|frames| - 1], frames[|frames| - 1];
      BoardIsIndex(front);
      IndexConcat(EMPTY, AllTouches(front), Touches(f));
      var board := BoardOf(frames);
      if board.Some? {
        assert board.value.frames[..|board.value.frames| - 1] == BoardOf(front).value.frames;
      }
    }
  }

  // ---------------------------------------------------------------- what an indexing must be

  /** The transition does to the prepared press at its index what the touch asks for. */
  predicate Names(pairs: seq<Pair>, x: Touch, e: Schedule.Transition) {
    !e.Move? && e.index < |pairs| &&
    match x
    case Lift(k) => e.Up? && pairs[e.index].KeyPair? && pairs[e.index].key == k
    case LiftPointer => e.Up? && pairs[e.index].PointerPair?
    case Press(k, m) => e.Down? && pairs[e.index] == KeyPair(k, m)
    case PressPointer(place, button, m) => e.Down? && pairs[e.index] == PointerPair(place, button, m)
  }

  /** Presses are numbered in order and a release ends a press that is still held: the indices held and
      the next number, or `None`. */
  datatype Count = Count(held: set<nat>, next: nat)

  function Numbered(log: seq<Schedule.Transition>): Option<Count> {
    if log == [] then Some(Count({}, 0))
    else
      var before, e := Numbered(log[..|log| - 1]), log[|log| - 1];
      if before.None? then None
      else
        var c := before.value;
        match e
        case Down(i) => if i == c.next then Some(Count(c.held + {i}, i + 1)) else None
        case Up(i) => if i in c.held then Some(Count(c.held - {i}, c.next)) else None
        case Move(_) => None
  }

  lemma NumberedOne(log: seq<Schedule.Transition>, e: Schedule.Transition)
    requires Numbered(log).Some?
    ensures var c := Numbered(log).value;
            && (e.Down? && e.index == c.next ==> Numbered(log + [e]) == Some(Count(c.held + {e.index}, c.next + 1)))
            && (e.Up? && e.index in c.held ==> Numbered(log + [e]) == Some(Count(c.held - {e.index}, c.next)))
  {
    assert (log + [e])[..|log|] == log;
  }

  /** In such a record every number below `next` has exactly one Down and, unless still held, exactly one
      later Up; nothing else bears it. */
  lemma {:induction false} OnceDownOnceUp(log: seq<Schedule.Transition>, i: nat) returns (down: nat, up: Option<nat>)
    requires Numbered(log).Some? && i < Numbered(log).value.next
    ensures down < |log| && log[down] == Schedule.Down(i)
    ensures up.None? <==> i in Numbered(log).value.held
    ensures up.Some? ==> down < up.value < |log| && log[up.value] == Schedule.Up(i)
    ensures forall j :: 0 <= j < |log| && j != down && (up.Some? ==> j != up.value) ==> !log[j].Move? && log[j].index != i
  {
    var front, e := log[..|log| - 1], log[|log| - 1];
    HeldBelow(front);
    if e == Schedule.Down(i) {
      down, up := |log| - 1, None;
      forall j | 0 <= j < |front| ensures !front[j].Move? && front[j].index != i {
        BelowNext(front, j);
      }
    } else {
      down, up := OnceDownOnceUp(front, i);
      if e == Schedule.Up(i) {
        up := Some(|log| - 1);
      }
    }
  }

  lemma {:induction false} BelowNext(log: seq<Schedule.Transition>, j: nat)
    requires Numbered(log).Some? && j < |log|
    ensures !log[j].Move? && log[j].index < Numbered(log).value.next
  {
    HeldBelow(log[..|log| - 1]);
    if j < |log| - 1 {
      BelowNext(log[..|log| - 1], j);
    }
  }

  lemma {:induction false} HeldBelow(log: seq<Schedule.Transition>)
    requires Numbered(log).Some?
    ensures forall i :: i in Numbered(log).value.held ==> i < Numbered(log).value.next
  {
    if log != [] {
      HeldBelow(log[..|log| - 1]);
    }
  }

  /** The indices the table holds. */
  function Busy(t: Table): set<nat> {
    (set k | k in t.keys :: t.keys[k]) + (if t.pointer.Some? then {t.pointer.value} else {})
  }

  /** Each held key and the held pointer stand for a prepared press of their own. */
  predicate Filed(t: Table) {
    && (forall k :: k in t.keys ==> t.keys[k] < |t.pairs| && t.pairs[t.keys[k]].KeyPair? && t.pairs[t.keys[k]].key == k)
    && (t.pointer.Some? ==> t.pointer.value < |t.pairs| && t.pairs[t.pointer.value].PointerPair?)
  }

  predicate AllNamed(pairs: seq<Pair>, xs: seq<Touch>, events: seq<Schedule.Transition>) {
    |events| == |xs| && forall j :: 0 <= j < |xs| ==> Names(pairs, xs[j], events[j])
  }

  ghost predicate Sound(xs: seq<Touch>, h: Hand, a: Indexed) {
    && Filed(a.table) && Matches(a.table, h)
    && AllNamed(a.table.pairs, xs, a.events)
    && Numbered(a.events) == Some(Count(Busy(a.table), |a.table.pairs|))
  }

  lemma BusyLift(t: Table, k: Key)
    requires Filed(t) && k in t.keys
    ensures t.keys[k] in Busy(t) && Busy(t.(keys := t.keys - {k})) == Busy(t) - {t.keys[k]}
  {
    var t', gone := t.(keys := t.keys - {k}), t.keys[k];
    forall i ensures i in Busy(t') <==> i in Busy(t) && i != gone {
      if i in Busy(t) && i != gone && !(t.pointer.Some? && i == t.pointer.value) {
        var l :| l in t.keys && t.keys[l] == i;
        assert l in t'.keys && t'.keys[l] == i;
      }
    }
  }

  lemma BusyLiftPointer(t: Table)
    requires Filed(t) && t.pointer.Some?
    ensures t.pointer.value in Busy(t) && Busy(t.(pointer := None)) == Busy(t) - {t.pointer.value}
  {
  }

  lemma BusyPress(t: Table, k: Key, p: Pair)
    requires k !in t.keys
    ensures Busy(t.(pairs := t.pairs + [p], keys := t.keys[k := |t.pairs|])) == Busy(t) + {|t.pairs|}
  {
    var t' := t.(pairs := t.pairs + [p], keys := t.keys[k := |t.pairs|]);
    forall i ensures i in Busy(t') <==> i in Busy(t) || i == |t.pairs| {
      assert t'.keys[k] == |t.pairs|;
      if i in Busy(t) && !(t.pointer.Some? && i == t.pointer.value) {
        var l :| l in t.keys && t.keys[l] == i;
        assert l in t'.keys && t'.keys[l] == i;
      }
    }
  }

  lemma BusyPressPointer(t: Table, p: Pair)
    requires t.pointer.None?
    ensures Busy(t.(pairs := t.pairs + [p], pointer := Some(|t.pairs|))) == Busy(t) + {|t.pairs|}
  {
  }

  predicate Allowed(h: Hand, x: Touch) {
    match x
    case Lift(k) => k in h.keys
    case LiftPointer => h.pointer
    case Press(k, _) => k !in h.keys
    case PressPointer(_, _, _) => !h.pointer
  }

  predicate Matches(t: Table, h: Hand) {
    t.keys.Keys == h.keys && (t.pointer.Some? <==> h.pointer)
  }

  /** One touch the hands allow keeps the table filed and posts the right transition. */
  lemma IndexOneSound(t: Table, h: Hand, x: Touch)
    requires Filed(t) && Matches(t, h) && Allowed(h, x)
    ensures IndexOne(t, x).Some?
    ensures var (t', e) := IndexOne(t, x).value;
            && Filed(t') && t.pairs <= t'.pairs && Names(t'.pairs, x, e) && !e.Move?
            && (e.Down? ==> e.index == |t.pairs| && |t'.pairs| == |t.pairs| + 1 && Busy(t') == Busy(t) + {e.index})
            && (e.Up? ==> e.index in Busy(t) && t'.pairs == t.pairs && Busy(t') == Busy(t) - {e.index})
  {
    hide Busy;
    match x {
      case Lift(k) => BusyLift(t, k);
      case LiftPointer => BusyLiftPointer(t);
      case Press(k, m) => BusyPress(t, k, KeyPair(k, m));
      case PressPointer(place, button, m) => BusyPressPointer(t, PointerPair(place, button, m));
    }
  }

  lemma HandsNext(xs: seq<Touch>)
    requires xs != [] && Hands(xs).Some?
    ensures Hands(xs[..|xs| - 1]).Some? && Allowed(Hands(xs[..|xs| - 1]).value, xs[|xs| - 1])
  {
  }

  lemma MatchesNext(xs: seq<Touch>, t: Table)
    requires xs != [] && Hands(xs).Some? && Hands(xs[..|xs| - 1]).Some?
    requires Matches(t, Hands(xs[..|xs| - 1]).value) && IndexOne(t, xs[|xs| - 1]).Some?
    ensures Matches(IndexOne(t, xs[|xs| - 1]).value.0, Hands(xs).value)
  {
  }

  lemma NamesGrow(a: seq<Pair>, b: seq<Pair>, x: Touch, e: Schedule.Transition)
    requires a <= b && Names(a, x, e)
    ensures Names(b, x, e)
  {
  }

  lemma AllNamedNext(a: seq<Pair>, b: seq<Pair>, xs: seq<Touch>, events: seq<Schedule.Transition>, x: Touch, e: Schedule.Transition)
    requires AllNamed(a, xs, events) && a <= b && Names(b, x, e)
    ensures AllNamed(b, xs + [x], events + [e])
  {
    hide Names;
    forall j | 0 <= j < |xs| ensures Names(b, xs[j], events[j]) {
      NamesGrow(a, b, xs[j], events[j]);
    }
  }

  lemma SoundNext(xs: seq<Touch>, a: Indexed)
    requires xs != [] && Hands(xs).Some? && Hands(xs[..|xs| - 1]).Some?
    requires Index(EMPTY, xs[..|xs| - 1]) == Some(a) && Sound(xs[..|xs| - 1], Hands(xs[..|xs| - 1]).value, a)
    ensures Index(EMPTY, xs).Some? && Sound(xs, Hands(xs).value, Index(EMPTY, xs).value)
  {
    hide Busy, Filed, Numbered, Index, IndexOne, Names, AllNamed, Hands, Allowed, Matches;
    var front, x := xs[..|xs| - 1], xs[|xs| - 1];
    HandsNext(xs);
    IndexOneSound(a.table, Hands(front).value, x);
    MatchesNext(xs, a.table);
    IndexNext(EMPTY, xs);
    var (t', e) := IndexOne(a.table, x).value;
    NumberedOne(a.events, e);
    AllNamedNext(a.table.pairs, t'.pairs, front, a.events, x, e);
    assert xs == front + [x];
  }

  /** Touches the hands allow are indexed soundly. */
  lemma {:induction false} IndexSound(xs: seq<Touch>)
    requires Hands(xs).Some?
    ensures Index(EMPTY, xs).Some? && Sound(xs, Hands(xs).value, Index(EMPTY, xs).value)
  {
    hide Sound, Index;
    if xs == [] {
      EmptySound();
    } else {
      IndexSound(xs[..|xs| - 1]);
      SoundNext(xs, Index(EMPTY, xs[..|xs| - 1]).value);
    }
  }

  lemma EmptySound()
    ensures Hands([]).Some? && Index(EMPTY, []).Some? && Sound([], Hands([]).value, Index(EMPTY, []).value)
  {
    assert Busy(EMPTY) == {};
  }

  lemma IndexNext(t: Table, xs: seq<Touch>)
    requires xs != [] && Index(t, xs[..|xs| - 1]).Some?
    ensures var before := Index(t, xs[..|xs| - 1]).value;
            var one := IndexOne(before.table, xs[|xs| - 1]);
            Index(t, xs) == if one.None? then None else Some(Indexed(one.value.0, before.events + [one.value.1]))
  {
  }

  /** Every accepted timeline is indexed: no release fails to find its press, every transition does what its
      touch asks for, presses are numbered in order, each press is released once, and all end released. */
  lemma AcceptedIsIndexed(frames: seq<InputFrame>, supported: Key -> bool)
    requires Accepts(frames, supported)
    ensures BoardOf(frames).Some?
    ensures var b, xs := BoardOf(frames).value, AllTouches(frames);
            && b.table.keys == map[] && b.table.pointer.None?
            && Index(EMPTY, xs) == Some(Indexed(b.table, Events(b.frames)))
            && Hands(xs) == Some(Hand({}, false))
            && AllNamed(b.table.pairs, xs, Events(b.frames))
            && Numbered(Events(b.frames)) == Some(Count({}, |b.table.pairs|))
  {
    hide Numbered, Filed, AllNamed, WellFormed, Index, KeyEvents, PointerState, HeldKeys, BoardOf, Events, KeyState;
    var xs := AllTouches(frames);
    KeyHistoryIsKeyEvents(frames);
    PointerHistoryIsPointerState(frames);
    HandsFollow(xs);
    var h := Hands(xs).value;
    assert forall k :: KeyState(KeyHistory(xs), k) == Some(k in h.keys);
    assert h.keys == {} by {
      forall k ensures k !in h.keys {
        assert KeyState(KeyHistory(xs), k) == Some(false);
      }
    }
    IndexSound(xs);
    BoardIsIndex(frames);
    var a := Index(EMPTY, xs).value;
    assert a.table.keys == map[];
    assert Busy(a.table) == {};
  }

  // ---------------------------------------------------------------- the program

  lemma {:induction false} IndexPrefix(t: Table, xs: seq<Touch>, n: nat)
    requires Index(t, xs).Some? && n <= |xs|
    ensures Index(t, xs[..n]).Some?
  {
    if n < |xs| {
      assert xs[..|xs| - 1][..n] == xs[..n];
      IndexPrefix(t, xs[..|xs| - 1], n);
    } else {
      assert xs[..n] == xs;
    }
  }

  lemma TakeTouch(t: Table, xs: seq<Touch>, n: nat)
    requires Index(t, xs).Some? && n < |xs|
    ensures Index(t, xs[..n]).Some? && IndexOne(Index(t, xs[..n]).value.table, xs[n]).Some?
    ensures var before := Index(t, xs[..n]).value;
            var one := IndexOne(before.table, xs[n]).value;
            Index(t, xs[..n + 1]) == Some(Indexed(one.0, before.events + [one.1]))
  {
    hide IndexOne;
    IndexPrefix(t, xs, n + 1);
    assert xs[..n + 1][..n] == xs[..n];
  }

  lemma TouchAt(f: InputFrame, j: nat)
    ensures var xs, a := Touches(f), |f.keyUp| + (if f.pointerUp then 1 else 0);
            && |xs| == a + |f.keyDown| + (if f.pointerDown.Some? then 1 else 0)
            && (j < |f.keyUp| ==> xs[j] == Lift(f.keyUp[j]))
            && (f.pointerUp ==> xs[|f.keyUp|] == LiftPointer)
            && (j < |f.keyDown| ==> xs[a + j] == Press(f.keyDown[j], f.keyModifiers))
            && (f.pointerDown.Some? ==> xs[a + |f.keyDown|] == PointerPress(f)[0])
  {
  }

  /** How many presses a frame prepares. */
  function Pressed(f: InputFrame): nat {
    |f.keyDown| + if f.pointerDown.Some? then 1 else 0
  }

  lemma {:induction false} PairsGrow(t: Table, xs: seq<Touch>)
    requires Index(t, xs).Some?
    ensures |Index(t, xs).value.table.pairs| == |t.pairs| + Downs(xs)
  {
    if xs != [] {
      PairsGrow(t, xs[..|xs| - 1]);
    }
  }

  function Downs(xs: seq<Touch>): nat {
    if xs == [] then 0 else Downs(xs[..|xs| - 1]) + if xs[|xs| - 1].Press? || xs[|xs| - 1].PressPointer? then 1 else 0
  }

  lemma {:induction false} DownsConcat(a: seq<Touch>, b: seq<Touch>)
    ensures Downs(a + b) == Downs(a) + Downs(b)
  {
    if b == [] {
      assert a + b == a;
    } else {
      assert (a + b)[..|a + b| - 1] == a + b[..|b| - 1];
      DownsConcat(a, b[..|b| - 1]);
    }
  }

  lemma {:induction false} DownsOf(keys: seq<Key>, modifiers: seq<Modifier>)
    ensures Downs(Lifts(keys)) == 0 && Downs(Presses(keys, modifiers)) == |keys|
  {
    if keys != [] {
      var n := |keys| - 1;
      DownsOf(keys[..n], modifiers);
      assert Lifts(keys)[..n] == Lifts(keys[..n]) && Presses(keys, modifiers)[..n] == Presses(keys[..n], modifiers);
    }
  }

  lemma DownsPointer(f: InputFrame)
    ensures Downs(PointerLift(f)) == 0 && Downs(PointerPress(f)) == if f.pointerDown.Some? then 1 else 0
  {
    assert PointerLift(f) != [] ==> PointerLift(f)[..0] == [];
    assert PointerPress(f) != [] ==> PointerPress(f)[..0] == [];
  }

  lemma FramePairs(t: Table, f: InputFrame)
    requires Index(t, Touches(f)).Some?
    ensures |Index(t, Touches(f)).value.table.pairs| == |t.pairs| + Pressed(f)
  {
    hide Index, Downs, Lifts, Presses, PointerLift, PointerPress;
    PairsGrow(t, Touches(f));
    DownsConcat(Lifts(f.keyUp) + PointerLift(f) + Presses(f.keyDown, f.keyModifiers), PointerPress(f));
    DownsConcat(Lifts(f.keyUp) + PointerLift(f), Presses(f.keyDown, f.keyModifiers));
    DownsConcat(Lifts(f.keyUp), PointerLift(f));
    DownsOf(f.keyUp, f.keyModifiers);
    DownsOf(f.keyDown, f.keyModifiers);
    DownsPointer(f);
  }

  method LiftKeys(t: Table, f: InputFrame) returns (keys: map<Key, nat>, events: seq<Schedule.Transition>)
    requires Index(t, Touches(f)).Some? && |f.keyUp| <= |Touches(f)|
    ensures Index(t, Touches(f)[..|f.keyUp|]) == Some(Indexed(t.(keys := keys), events))
  {
    hide Touches, Index, PointerPress;
    ghost var xs := Touches(f);
    keys, events := t.keys, [];
    IndexNothing(t, xs);
    for j := 0 to |f.keyUp|
      invariant Index(t, xs[..j]) == Some(Indexed(t.(keys := keys), events))
    {
      TakeTouch(t, xs, j);
      TouchAt(f, j);
      var key := f.keyUp[j];
      events := events + [Schedule.Up(keys[key])];
      keys := keys - {key};
    }
  }

  /** A press is prepared before it is numbered; a failed preparation ends the compilation. */
  method PressKeys(t: Table, f: InputFrame, prepares: nat -> bool, from: Table, before: seq<Schedule.Transition>)
    returns (ok: bool, next: Table, events: seq<Schedule.Transition>)
    requires Index(t, Touches(f)).Some?
    requires var n := |f.keyUp| + (if f.pointerUp then 1 else 0);
             n + |f.keyDown| <= |Touches(f)| && Index(t, Touches(f)[..n]) == Some(Indexed(from, before))
    ensures var n := |f.keyUp| + (if f.pointerUp then 1 else 0);
            ok ==> Index(t, Touches(f)[..n + |f.keyDown|]) == Some(Indexed(next, events)) && |next.pairs| == |from.pairs| + |f.keyDown|
    ensures ok <==> forall i :: |from.pairs| <= i < |from.pairs| + |f.keyDown| ==> prepares(i)
  {
    hide Touches, Index, PointerPress;
    ghost var xs, n := Touches(f), |f.keyUp| + (if f.pointerUp then 1 else 0);
    next, events := from, before;
    for j := 0 to |f.keyDown|
      invariant Index(t, xs[..n + j]) == Some(Indexed(next, events)) && |next.pairs| == |from.pairs| + j
      invariant forall i :: |from.pairs| <= i < |from.pairs| + j ==> prepares(i)
    {
      TakeTouch(t, xs, n + j);
      TouchAt(f, j);
      var i := |next.pairs|;
      if !prepares(i) {
        return false, t, [];
      }
      next := next.(pairs := next.pairs + [KeyPair(f.keyDown[j], f.keyModifiers)], keys := next.keys[f.keyDown[j] := i]);
      events := events + [Schedule.Down(i)];
    }
    ok := true;
  }

  /** One frame: key releases, pointer release, key presses, pointer press. */
  method IndexFrame(t: Table, f: InputFrame, prepares: nat -> bool)
    returns (ok: bool, next: Table, events: seq<Schedule.Transition>)
    requires Index(t, Touches(f)).Some?
    ensures ok ==> Index(t, Touches(f)) == Some(Indexed(next, events))
    ensures ok <==> forall i :: |t.pairs| <= i < |t.pairs| + Pressed(f) ==> prepares(i)
  {
    hide Touches, Index, PointerPress;
    ghost var xs := Touches(f);
    TouchAt(f, 0);
    var keys;
    keys, events := LiftKeys(t, f);
    next := t.(keys := keys);
    if f.pointerUp {
      TakeTouch(t, xs, |f.keyUp|);
      events := events + [Schedule.Up(next.pointer.value)];
      next := next.(pointer := None);
    }
    ok, next, events := PressKeys(t, f, prepares, next, events);
    if !ok {
      return;
    }
    if f.pointerDown.Some? {
      TakeTouch(t, xs, |xs| - 1);
      PressOf(f);
      var i := |next.pairs|;
      if !prepares(i) {
        return false, t, [];
      }
      var button := if f.pointerButton.Some? then f.pointerButton.value else Left;
      next := next.(pairs := next.pairs + [PointerPair(f.pointerDown.value, button, f.pointerModifiers)], pointer := Some(i));
      events := events + [Schedule.Down(i)];
    }
    assert xs[..|xs|] == xs;
  }

  lemma IndexNothing(t: Table, xs: seq<Touch>)
    ensures Index(t, xs[..0]) == Some(Indexed(t, []))
  {
  }

  lemma PressOf(f: InputFrame)
    requires f.pointerDown.Some?
    ensures |PointerPress(f)| == 1
    ensures PointerPress(f)[0] ==
            PressPointer(f.pointerDown.value, if f.pointerButton.Some? then f.pointerButton.value else Left, f.pointerModifiers)
  {
  }

  lemma {:induction false} BoardPrefix(frames: seq<InputFrame>, n: nat)
    requires BoardOf(frames).Some? && n < |frames|
    ensures BoardOf(frames[..n]).Some? && Index(BoardOf(frames[..n]).value.table, Touches(frames[n])).Some?
    ensures var before := BoardOf(frames[..n]).value;
            var next := Index(before.table, Touches(frames[n])).value;
            BoardOf(frames[..n + 1]) ==
            Some(Board(next.table, before.frames + [Schedule.Frame(frames[n].at * MILLISECOND, next.events)]))
  {
    hide Index, Touches;
    if n < |frames| - 1 {
      var front := frames[..|frames| - 1];
      assert front[..n] == frames[..n] && front[..n + 1] == frames[..n + 1];
      BoardPrefix(front, n);
    } else {
      assert frames[..n + 1] == frames;
    }
  }

  lemma NoBoard(frames: seq<InputFrame>)
    ensures BoardOf(frames[..0]) == Some(Board(EMPTY, []))
  {
  }

  lemma {:induction false} BoardGrows(frames: seq<InputFrame>, n: nat)
    requires BoardOf(frames).Some? && n <= |frames|
    ensures BoardOf(frames[..n]).Some? && |BoardOf(frames[..n]).value.table.pairs| <= |BoardOf(frames).value.table.pairs|
  {
    hide Index, Touches;
    if n < |frames| {
      var front := frames[..|frames| - 1];
      assert front[..n] == frames[..n];
      BoardGrows(front, n);
      FramePairs(BoardOf(front).value.table, frames[|frames| - 1]);
    } else {
      assert frames[..n] == frames;
    }
  }

  /** Validates and compiles a timeline. An accepted one is compiled exactly when no frame finds the request
      cancelled and every press can be prepared. */
  method MakeBoard(frames: seq<InputFrame>, supported: Key -> bool, prepares: nat -> bool, cancelled: nat -> bool)
    returns (r: Option<Board>)
    ensures r.Some? ==> Accepts(frames, supported) && BoardOf(frames) == r
    ensures Accepts(frames, supported) ==> BoardOf(frames).Some?
    ensures r.Some? <==>
              && Accepts(frames, supported) && (forall n :: 0 <= n < |frames| ==> !cancelled(n))
              && (forall i :: 0 <= i < |BoardOf(frames).value.table.pairs| ==> prepares(i))
  {
    hide Accepts, BoardOf, Index, Touches, Names, Numbered, Hands;
    var ok := Validate(frames, supported);
    if !ok {
      return None;
    }
    AcceptedIsIndexed(frames, supported);
    NoBoard(frames);
    var table, planned: seq<Schedule.Frame> := EMPTY, [];
    for n := 0 to |frames|
      invariant BoardOf(frames[..n]) == Some(Board(table, planned))
      invariant (forall m :: 0 <= m < n ==> !cancelled(m)) && forall i :: 0 <= i < |table.pairs| ==> prepares(i)
    {
      if cancelled(n) {
        return None;
      }
      BoardPrefix(frames, n);
      BoardGrows(frames, n + 1);
      FramePairs(table, frames[n]);
      var events;
      ok, table, events := IndexFrame(table, frames[n], prepares);
      if !ok {
        return None;
      }
      planned := planned + [Schedule.Frame(frames[n].at * MILLISECOND, events)];
    }
    assert frames[..|frames|] == frames;
    return Some(Board(table, planned));
  }
}
