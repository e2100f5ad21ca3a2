/** Input timelines: what the validator accepts, said without its bookkeeping, and the validator. */
module Timeline {
  import opened Common

  const MAX_FRAMES: nat := 131072
  const MAX_KEYS: nat := 16

  type Key = string
  datatype Modifier = Shift | Control | Alt | Meta
  datatype Button = Left | Right | Middle | Back | Forward
  /** A wire number is finite or not; only finite, nonnegative ones are window positions. */
  datatype Coordinate = Finite(value: real) | NotFinite
  datatype Place = Place(x: Coordinate, y: Coordinate)

  datatype InputFrame = InputFrame(at: nat, keyDown: seq<Key>, keyUp: seq<Key>,
                                   pointerDown: Option<Place>, pointerUp: bool,
                                   pointerModifiers: seq<Modifier>, pointerButton: Option<Button>,
                                   keyModifiers: seq<Modifier>)

  predicate ValidPlace(p: Place) {
    p.x.Finite? && p.y.Finite? && p.x.value >= 0.0 && p.y.value >= 0.0
  }

  predicate ValidModifiers(m: seq<Modifier>) {
    |m| <= 4 && forall i, j :: 0 <= i < j < |m| ==> m[i] != m[j]
  }

  /** What one frame must satisfy on its own. */
  predicate WellFormed(f: InputFrame) {
    && f.at <= MAX_SAFE_INTEGER && |f.keyDown| <= MAX_KEYS && |f.keyUp| <= MAX_KEYS
    && (f.pointerButton.Some? ==> f.pointerDown.Some?)
    && (f.keyModifiers != [] ==> f.keyDown != []) && ValidModifiers(f.keyModifiers)
    && (f.pointerModifiers != [] ==> f.pointerDown.Some?) && ValidModifiers(f.pointerModifiers)
    && (f.pointerDown.Some? ==> ValidPlace(f.pointerDown.value))
  }

  // ---------------------------------------------------------------- balance, key by key

  datatype KeyEvent = KeyEvent(key: Key, down: bool)

  function Stroke(keys: seq<Key>, down: bool): (es: seq<KeyEvent>)
    ensures |es| == |keys|
  {
    seq(|keys|, i requires 0 <= i < |keys| => KeyEvent(keys[i], down))
  }

  /** Within a frame releases come before presses. */
  function KeyEvents(frames: seq<InputFrame>): seq<KeyEvent> {
    if frames == [] then []
    else
      var f := frames[|frames| - 1];
      KeyEvents(frames[..|frames| - 1]) + Stroke(f.keyUp, false) + Stroke(f.keyDown, true)
  }

  /** Follow one key alone: held or not, or `None` after a press while held or a release while not. */
  function KeyState(es: seq<KeyEvent>, k: Key): Option<bool> {
    if es == [] then Some(false)
    else
      var before, e := KeyState(es[..|es| - 1], k), es[|es| - 1];
      if before.None? || e.key != k then before
      else if before.value == e.down then None
      else Some(e.down)
  }

  /** Follow the pointer alone, release before press within a frame. */
  function PointerState(frames: seq<InputFrame>): Option<bool> {
    if frames == [] then Some(false)
    else
      var before, f := PointerState(frames[..|frames| - 1]), frames[|frames| - 1];
      if before.None? || (f.pointerUp && !before.value) then None
      else
        var down := before.value && !f.pointerUp;
        if f.pointerDown.Some? then (if down then None else Some(true)) else Some(down)
  }

  function HeldKeys(es: seq<KeyEvent>): set<Key> {
    set e | e in es && KeyState(es, e.key) == Some(true) :: e.key
  }

  /** A timeline is accepted exactly when every frame is well formed, times do not go back, every
      pressed key is known, each key and the pointer alternate press and release and end released, and
      no frame leaves more than sixteen keys held. */
  ghost predicate Accepts(frames: seq<InputFrame>, supported: Key -> bool) {
    && 1 <= |frames| <= MAX_FRAMES
    && (forall i :: 0 <= i < |frames| ==> WellFormed(frames[i]))
    && (forall i :: 1 <= i < |frames| ==> frames[i - 1].at <= frames[i].at)
    && (forall i, j :: 0 <= i < |frames| && 0 <= j < |frames[i].keyDown| ==> supported(frames[i].keyDown[j]))
    && (forall k :: KeyState(KeyEvents(frames), k) == Some(false))
    && PointerState(frames) == Some(false)
    && (forall n :: 0 <= n <= |frames| ==> |HeldKeys(KeyEvents(frames[..n]))| <= MAX_KEYS)
  }

  // ---------------------------------------------------------------- lemmas

  lemma KeyStateOne(es: seq<KeyEvent>, e: KeyEvent, k: Key)
    ensures KeyState(es + [e], k) ==
            var before := KeyState(es, k);
            if before.None? || e.key != k then before else if before.value == e.down then None else Some(e.down)
  {
    assert (es + [e])[..|es|] == es;
  }

  /** A key that has gone wrong stays wrong. */
  lemma {:induction false} KeyStateSticks(es: seq<KeyEvent>, more: seq<KeyEvent>, k: Key)
    requires KeyState(es, k).None?
    ensures KeyState(es + more, k).None?
  {
    if more == [] {
      assert es + more == es;
    } else {
      KeyStateSticks(es, more[..|more| - 1], k);
      assert (es + more)[..|es + more| - 1] == es + more[..|more| - 1];
    }
  }

  lemma {:induction false} PointerStateSticks(frames: seq<InputFrame>, n: nat)
    requires n <= |frames| && PointerState(frames[..n]).None?
    ensures PointerState(frames).None?
  {
    if n < |frames| {
      assert frames[..|frames| - 1][..n] == frames[..n];
      PointerStateSticks(frames[..|frames| - 1], n);
    } else {
      assert frames[..n] == frames;
    }
  }

  lemma {:induction false} KeyEventsPrefix(frames: seq<InputFrame>, n: nat)
    requires n < |frames|
    ensures KeyEvents(frames[..n]) + Stroke(frames[n].keyUp, false) + Stroke(frames[n].keyDown, true) <= KeyEvents(frames)
  {
    if n < |frames| - 1 {
      assert frames[..|frames| - 1][..n] == frames[..n];
      KeyEventsPrefix(frames[..|frames| - 1], n);
    }
  }

  lemma {:induction false} HeldIsMentioned(es: seq<KeyEvent>, k: Key)
    requires KeyState(es, k) == Some(true)
    ensures exists e :: e in es && e.key == k
  {
    var e := es[|es| - 1];
    if e.key != k {
      HeldIsMentioned(es[..|es| - 1], k);
      var x :| x in es[..|es| - 1] && x.key == k;
      assert x in es;
    } else {
      assert e in es;
    }
  }

  /** `held` is exactly the set of keys that are down, and no key has gone wrong. */
  ghost predicate Follows(held: set<Key>, es: seq<KeyEvent>) {
    forall k :: KeyState(es, k) == Some(k in held)
  }

  lemma FollowsHeld(held: set<Key>, es: seq<KeyEvent>)
    requires Follows(held, es)
    ensures HeldKeys(es) == held
  {
    forall k | k in held ensures k in HeldKeys(es) {
      assert KeyState(es, k) == Some(true);
      HeldIsMentioned(es, k);
    }
  }

  // ---------------------------------------------------------------- the validator

  lemma FollowsOne(held: set<Key>, es: seq<KeyEvent>, e: KeyEvent)
    requires Follows(held, es)
    ensures (e.key in held) == e.down ==> KeyState(es + [e], e.key).None?
    ensures (e.key in held) != e.down ==> Follows(if e.down then held + {e.key} else held - {e.key}, es + [e])
  {
    forall k ensures KeyState(es + [e], k) ==
        (if e.key != k then Some(k in held) else if (k in held) == e.down then None else Some(e.down))
    {
      KeyStateOne(es, e, k);
    }
  }

  lemma StrokeSplit(es: seq<KeyEvent>, keys: seq<Key>, down: bool, i: nat)
    requires i < |keys|
    ensures es + Stroke(keys[..i + 1], down) == es + Stroke(keys[..i], down) + [KeyEvent(keys[i], down)]
    ensures es + Stroke(keys, down) == (es + Stroke(keys[..i + 1], down)) + Stroke(keys[i + 1..], down)
  {
  }

  /** Apply presses or releases to the held set; false as soon as one does not fit. */
  method Strike(before: set<Key>, keys: seq<Key>, down: bool, ghost es: seq<KeyEvent>) returns (ok: bool, held: set<Key>)
    requires Follows(before, es)
    ensures ok ==> Follows(held, es + Stroke(keys, down))
    ensures !ok ==> exists k :: KeyState(es + Stroke(keys, down), k).None?
  {
    hide Follows, KeyState;
    held := before;
    assert es + Stroke(keys[..0], down) == es;
    for i := 0 to |keys|
      invariant Follows(held, es + Stroke(keys[..i], down))
    {
      FollowsOne(held, es + Stroke(keys[..i], down), KeyEvent(keys[i], down));
      StrokeSplit(es, keys, down, i);
      if (keys[i] in held) == down {
        KeyStateSticks(es + Stroke(keys[..i + 1], down), Stroke(keys[i + 1..], down), keys[i]);
        return false, held;
      }
      held := if down then held + {keys[i]} else held - {keys[i]};
    }
    assert keys[..|keys|] == keys;
    ok := true;
  }

  method AllSupported(keys: seq<Key>, supported: Key -> bool) returns (ok: bool)
    ensures ok <==> forall j :: 0 <= j < |keys| ==> supported(keys[j])
  {
    for i := 0 to |keys|
      invariant forall j :: 0 <= j < i ==> supported(keys[j])
    {
      if !supported(keys[i]) {
        return false;
      }
    }
    return true;
  }

  /** What the frames read so far have passed. */
  ghost predicate Passed(frames: seq<InputFrame>, supported: Key -> bool, n: nat, held: set<Key>, pointer: bool)
    requires n <= |frames|
  {
    && (forall i :: 0 <= i < n ==> WellFormed(frames[i]))
    && (forall i :: 1 <= i < n ==> frames[i - 1].at <= frames[i].at)
    && (forall i, j :: 0 <= i < n && 0 <= j < |frames[i].keyDown| ==> supported(frames[i].keyDown[j]))
    && Follows(held, KeyEvents(frames[..n]))
    && PointerState(frames[..n]) == Some(pointer)
    && (forall m :: 0 <= m <= n ==> |HeldKeys(KeyEvents(frames[..m]))| <= MAX_KEYS)
  }

  lemma KeysGoneWrong(frames: seq<InputFrame>, n: nat, es: seq<KeyEvent>, supported: Key -> bool)
    requires n < |frames| && (exists k :: KeyState(es, k).None?)
    requires es <= KeyEvents(frames[..n]) + Stroke(frames[n].keyUp, false) + Stroke(frames[n].keyDown, true)
    ensures !Accepts(frames, supported)
  {
    var k :| KeyState(es, k).None?;
    KeyEventsPrefix(frames, n);
    var all := KeyEvents(frames);
    KeyStateSticks(es, all[|es|..], k);
    assert all == es + all[|es|..];
    assert KeyState(all, k).None?;
  }

  lemma PointerGoneWrong(frames: seq<InputFrame>, n: nat, supported: Key -> bool)
    requires n <= |frames| && PointerState(frames[..n]).None?
    ensures !Accepts(frames, supported)
  {
    PointerStateSticks(frames, n);
  }

  lemma PassedNext(frames: seq<InputFrame>, supported: Key -> bool, n: nat, before: set<Key>, was: bool, held: set<Key>)
    requires n < |frames| && Passed(frames, supported, n, before, was)
    requires WellFormed(frames[n]) && (n > 0 ==> frames[n - 1].at <= frames[n].at)
    requires forall j :: 0 <= j < |frames[n].keyDown| ==> supported(frames[n].keyDown[j])
    requires Follows(held, KeyEvents(frames[..n + 1])) && |held| <= MAX_KEYS
    ensures PointerState(frames[..n + 1]).Some? ==> Passed(frames, supported, n + 1, held, PointerState(frames[..n + 1]).value)
  {
    hide KeyState, Follows, WellFormed, HeldKeys, KeyEvents, PointerState;
    FollowsHeld(held, KeyEvents(frames[..n + 1]));
  }

  lemma PointerNext(frames: seq<InputFrame>, n: nat)
    requires n < |frames| && PointerState(frames[..n]).Some?
    ensures PointerState(frames[..n + 1]) ==
            var was, f := PointerState(frames[..n]).value, frames[n];
            if f.pointerUp && !was then None
            else if f.pointerDown.Some? then (if was && !f.pointerUp then None else Some(true))
            else Some(was && !f.pointerUp)
  {
    assert frames[..n + 1][..n] == frames[..n];
  }

  method Validate(frames: seq<InputFrame>, supported: Key -> bool) returns (ok: bool)
    ensures ok <==> Accepts(frames, supported)
  {
    if frames == [] || |frames| > MAX_FRAMES {
      return false;
    }
    var held, pointer, at := {}, false, 0;
    NothingYet(frames, supported);
    for n := 0 to |frames|
      invariant Passed(frames, supported, n, held, pointer)
      invariant at == if n == 0 then 0 else frames[n - 1].at
    {
      var f := frames[n];
      if f.at < at || !WellFormed(f) {
        return false;
      }
      at := f.at;
      ok, held, pointer := ValidateFrame(frames, n, supported, held, pointer);
      if !ok {
        return false;
      }
    }
    assert frames[..|frames|] == frames;
    if held != {} || pointer {
      Unreleased(frames, supported, held, pointer);
      return false;
    }
    Released(frames, supported);
    return true;
  }

  lemma NothingYet(frames: seq<InputFrame>, supported: Key -> bool)
    ensures Passed(frames, supported, 0, {}, false)
  {
    assert frames[..0] == [];
    assert HeldKeys([]) == {};
  }

  lemma Unreleased(frames: seq<InputFrame>, supported: Key -> bool, held: set<Key>, pointer: bool)
    requires Passed(frames, supported, |frames|, held, pointer) && (held != {} || pointer)
    ensures !Accepts(frames, supported)
  {
    assert frames[..|frames|] == frames;
    if held != {} {
      var k :| k in held;
      assert KeyState(KeyEvents(frames), k) == Some(true);
    }
  }

  lemma Released(frames: seq<InputFrame>, supported: Key -> bool)
    requires Passed(frames, supported, |frames|, {}, false) && 1 <= |frames| <= MAX_FRAMES
    ensures Accepts(frames, supported)
  {
    assert frames[..|frames|] == frames;
  }

  /** Keys up, keys down, the limit, then the pointer, in that order. */
  method ValidateFrame(frames: seq<InputFrame>, n: nat, supported: Key -> bool, before: set<Key>, was: bool)
    returns (ok: bool, held: set<Key>, pointer: bool)
    requires n < |frames| && Passed(frames, supported, n, before, was)
    requires WellFormed(frames[n]) && (n > 0 ==> frames[n - 1].at <= frames[n].at)
    ensures if ok then Passed(frames, supported, n + 1, held, pointer) else !Accepts(frames, supported)
  {
    hide KeyState, Accepts, Follows, HeldKeys;
    var f := frames[n];
    ghost var es := KeyEvents(frames[..n]);
    held, pointer := before, was;
    ok, held := Strike(before, f.keyUp, false, es);
    if !ok {
      KeysGoneWrong(frames, n, es + Stroke(f.keyUp, false), supported);
      return;
    }
    var known := AllSupported(f.keyDown, supported);
    if !known {
      Unsupported(frames, supported, n);
      return false, held, pointer;
    }
    ok, held := Strike(held, f.keyDown, true, es + Stroke(f.keyUp, false));
    if !ok {
      KeysGoneWrong(frames, n, es + Stroke(f.keyUp, false) + Stroke(f.keyDown, true), supported);
      return;
    }
    assert KeyEvents(frames[..n + 1]) == es + Stroke(f.keyUp, false) + Stroke(f.keyDown, true) by {
      assert frames[..n + 1][..n] == frames[..n];
    }
    if |held| > MAX_KEYS {
      TooMany(frames, supported, n, held);
      return false, held, pointer;
    }
    PointerNext(frames, n);
    PassedNext(frames, supported, n, before, was, held);
    if f.pointerUp {
      if !pointer {
        PointerGoneWrong(frames, n + 1, supported);
        return false, held, pointer;
      }
      pointer := false;
    }
    if f.pointerDown.Some? {
      if pointer {
        PointerGoneWrong(frames, n + 1, supported);
        return false, held, pointer;
      }
      pointer := true;
    }
  }

  lemma Unsupported(frames: seq<InputFrame>, supported: Key -> bool, n: nat)
    requires n < |frames| && exists j :: 0 <= j < |frames[n].keyDown| && !supported(frames[n].keyDown[j])
    ensures !Accepts(frames, supported)
  {
  }

  lemma TooMany(frames: seq<InputFrame>, supported: Key -> bool, n: nat, held: set<Key>)
    requires n < |frames| && Follows(held, KeyEvents(frames[..n + 1])) && |held| > MAX_KEYS
    ensures !Accepts(frames, supported)
  {
    FollowsHeld(held, KeyEvents(frames[..n + 1]));
  }
}
