/** The held-key executor: it plays a timeline of Down/Up/Move transitions through a backend that may
    refuse, fail or unwind at any call, and always releases what it still holds. */
module Schedule {
  import opened Common

  type Point(==, !new)

  /** `Move` only presents a cursor; it is never native input. */
  datatype Transition = Down(index: nat) | Up(index: nat) | Move(point: Point)
  /** Times are nanoseconds from the start of the timeline. */
  datatype Frame = Frame(at: nat, events: seq<Transition>)

  const LATE: nat := 16_000_000

  datatype Answer = Fine | Fails | Unwinds
  datatype Waited = Elapsed(elapsed: nat) | WaitFails | WaitUnwinds

  /** What the callbacks do: `wait` and `checkFrame` once per frame, the others once per event, and
      `release` at most once per index during cleanup. */
  datatype Env = Env(wait: nat -> Waited, checkFrame: nat -> Answer,
                     checkEvent: (nat, nat) -> Answer, prepare: (nat, nat) -> Answer, post: (nat, nat) -> Answer,
                     release: nat -> Answer)

  /** A second unwinding while the first is under way aborts the process. */
  datatype Outcome = Completed | Failed(inputBegan: bool) | Unwound | Aborted

  // ---------------------------------------------------------------- reading a record

  /** Indices whose last transition was a Down. */
  function HeldAfter(log: seq<Transition>): set<nat> {
    if log == [] then {} else HeldStep(HeldAfter(log[..|log| - 1]), log[|log| - 1])
  }

  function HeldStep(held: set<nat>, e: Transition): set<nat> {
    match e
    case Down(i) => held + {i}
    case Up(i) => held - {i}
    case Move(_) => held
  }

  predicate Native(e: Transition) {
    !e.Move?
  }

  predicate HasNative(log: seq<Transition>) {
    exists k :: 0 <= k < |log| && Native(log[k])
  }

  /** One Up for each held index below `n`, in descending order. */
  function Releases(held: set<nat>, n: nat): seq<Transition> {
    if n == 0 then []
    else (if n - 1 in held then [Up(n - 1)] else []) + Releases(held, n - 1)
  }

  /** How many of these releases unwind, and how many report an error. */
  function Unwinding(held: set<nat>, n: nat, env: Env): nat {
    if n == 0 then 0
    else (if n - 1 in held && env.release(n - 1) == Unwinds then 1 else 0) + Unwinding(held, n - 1, env)
  }

  function Failing(held: set<nat>, n: nat, env: Env): nat {
    if n == 0 then 0
    else (if n - 1 in held && env.release(n - 1) == Fails then 1 else 0) + Failing(held, n - 1, env)
  }

  /** The releases of a cleanup that survives `spare` unwindings and ends with the next one. */
  function Cleanup(held: set<nat>, n: nat, env: Env, spare: nat): seq<Transition> {
    if n == 0 then []
    else if n - 1 !in held then Cleanup(held, n - 1, env, spare)
    else if env.release(n - 1) != Unwinds then [Up(n - 1)] + Cleanup(held, n - 1, env, spare)
    else if spare == 0 then [Up(n - 1)]
    else [Up(n - 1)] + Cleanup(held, n - 1, env, spare - 1)
  }

  /** What such a cleanup leaves held: the indices below more unwinding releases than it can spare. */
  predicate StaysHeld(held: set<nat>, n: nat, env: Env, spare: nat, i: nat) {
    i in held && i < n && Unwinding(held, n, env) - Unwinding(held, i + 1, env) > spare
  }

  /** How a run ends: the answer that stopped the playing, then the releases of what it left held. */
  function Ending(answer: Answer, held: set<nat>, n: nat, env: Env, began: bool): Outcome {
    var unwound := Unwinding(held, n, env) + (if answer == Unwinds then 1 else 0);
    if unwound >= 2 then Aborted
    else if unwound == 1 then Unwound
    else if answer == Fine && Failing(held, n, env) == 0 then Completed
    else Failed(began)
  }

  // ---------------------------------------------------------------- the events a run attempts

  predicate LateVisual(env: Env, k: nat, at: nat) {
    env.wait(k).Elapsed? && env.wait(k).elapsed > at + LATE
  }

  /** A late frame drops its cosmetic moves and nothing else. */
  function Kept(events: seq<Transition>, late: bool): seq<Transition> {
    if events == [] then []
    else
      var e := events[|events| - 1];
      Kept(events[..|events| - 1], late) + (if late && e.Move? then [] else [e])
  }

  function Score(frames: seq<Frame>, env: Env): seq<Transition> {
    if frames == [] then []
    else
      var k := |frames| - 1;
      Score(frames[..k], env) + Kept(frames[k].events, LateVisual(env, k, frames[k].at))
  }

  /** When each of these events is due: the time of its frame. */
  function Dues(frames: seq<Frame>, env: Env): (due: seq<nat>)
    ensures |due| == |Score(frames, env)|
  {
    if frames == [] then []
    else
      var k := |frames| - 1;
      Dues(frames[..k], env) + Same(frames[k].at, |Kept(frames[k].events, LateVisual(env, k, frames[k].at))|)
  }

  function Same(at: nat, n: nat): (s: seq<nat>)
    ensures |s| == n && forall i :: 0 <= i < n ==> s[i] == at
  {
    seq(n, i => at)
  }

  // ---------------------------------------------------------------- where playing stops

  /** The events posted, and the answer that stopped the playing (`Fine` at the end). */
  datatype Halt = Halt(log: seq<Transition>, answer: Answer)

  function RunEvent(h: Halt, e: Transition, k: nat, j: nat, late: bool, count: nat, env: Env): Halt {
    if h.answer != Fine || (late && e.Move?) then h
    else if env.checkEvent(k, j) != Fine then Halt(h.log, env.checkEvent(k, j))
    else if env.prepare(k, j) != Fine then Halt(h.log, env.prepare(k, j))
    else if Native(e) && e.index >= count then Halt(h.log, Unwinds)
    else Halt(h.log + [e], env.post(k, j))
  }

  function RunEvents(events: seq<Transition>, k: nat, late: bool, count: nat, env: Env): Halt {
    if events == [] then Halt([], Fine)
    else
      var j := |events| - 1;
      RunEvent(RunEvents(events[..j], k, late, count, env), events[j], k, j, late, count, env)
  }

  function RunFrame(h: Halt, f: Frame, k: nat, count: nat, env: Env): Halt {
    if h.answer != Fine then h
    else if env.wait(k).WaitFails? then Halt(h.log, Fails)
    else if env.wait(k).WaitUnwinds? then Halt(h.log, Unwinds)
    else if env.checkFrame(k) != Fine then Halt(h.log, env.checkFrame(k))
    else
      var r := RunEvents(f.events, k, LateVisual(env, k, f.at), count, env);
      Halt(h.log + r.log, r.answer)
  }

  function Play(frames: seq<Frame>, count: nat, env: Env): Halt {
    if frames == [] then Halt([], Fine)
    else
      var k := |frames| - 1;
      RunFrame(Play(frames[..k], count, env), frames[k], k, count, env)
  }

  // ---- the same, read off the list of questions

  /** One question put to a callback: its answer, and how many events are posted once it has been answered. */
  datatype Ask = Ask(answer: Answer, posted: nat)

  function WaitAnswer(w: Waited): Answer {
    match w
    case Elapsed(_) => Fine
    case WaitFails => Fails
    case WaitUnwinds => Unwinds
  }

  /** A kept event is checked, prepared, looked up and posted, in this order. */
  function EventAsks(e: Transition, k: nat, j: nat, count: nat, env: Env, n: nat): (asks: seq<Ask>)
    ensures |asks| == 4
  {
    [Ask(env.checkEvent(k, j), n), Ask(env.prepare(k, j), n),
     Ask(if Native(e) && e.index >= count then Unwinds else Fine, n), Ask(env.post(k, j), n + 1)]
  }

  /** The questions of one frame's events, `n` events having been posted before it. */
  function FrameAsks(events: seq<Transition>, k: nat, late: bool, count: nat, env: Env, n: nat): seq<Ask> {
    if events == [] then []
    else
      var j := |events| - 1;
      FrameAsks(events[..j], k, late, count, env, n)
      + if late && events[j].Move? then [] else EventAsks(events[j], k, j, count, env, n + |Kept(events[..j], late)|)
  }

  /** Every question a run that nothing stops would ask, in order. */
  function Asks(frames: seq<Frame>, count: nat, env: Env): seq<Ask> {
    if frames == [] then []
    else
      var k := |frames| - 1;
      var n := |Score(frames[..k], env)|;
      Asks(frames[..k], count, env) + [Ask(WaitAnswer(env.wait(k)), n), Ask(env.checkFrame(k), n)]
      + FrameAsks(frames[k].events, k, LateVisual(env, k, frames[k].at), count, env, n)
  }

  predicate AllFine(asks: seq<Ask>) {
    forall i :: 0 <= i < |asks| ==> asks[i].answer == Fine
  }

  predicate FirstBad(asks: seq<Ask>, i: nat) {
    i < |asks| && asks[i].answer != Fine && forall j :: 0 <= j < i ==> asks[j].answer == Fine
  }

  /** The playing goes to the end if every answer is fine; otherwise the first that is not decides how far it
      got and how it ended. */
  ghost predicate StopsAtFirst(asks: seq<Ask>, score: seq<Transition>, h: Halt) {
    PartStops(asks, 0, score, h)
  }

  /** The same of one part of a run, from the point on where `n` events have been posted. */
  ghost predicate PartStops(asks: seq<Ask>, n: nat, kept: seq<Transition>, h: Halt) {
    && (AllFine(asks) ==> h == Halt(kept, Fine))
    && (forall i: nat :: FirstBad(asks, i) ==>
          n <= asks[i].posted <= n + |kept| && h == Halt(kept[..asks[i].posted - n], asks[i].answer))
    && (AllFine(asks) || exists i: nat :: FirstBad(asks, i))
  }

  /** No callback but those of a skipped move has anything but a fine answer, and no index is out of range. */
  predicate Untroubled(frames: seq<Frame>, count: nat, env: Env) {
    && (forall k :: 0 <= k < |frames| ==> env.wait(k).Elapsed? && env.checkFrame(k) == Fine)
    && (forall k, j :: 0 <= k < |frames| && 0 <= j < |frames[k].events|
                       && !(LateVisual(env, k, frames[k].at) && frames[k].events[j].Move?) ==>
          && env.checkEvent(k, j) == Fine && env.prepare(k, j) == Fine && env.post(k, j) == Fine
          && (frames[k].events[j].Move? || frames[k].events[j].index < count))
  }

  predicate Cooperative(env: Env, frames: seq<Frame>, count: nat) {
    && (forall k :: 0 <= k < |frames| ==> env.wait(k).Elapsed? && env.checkFrame(k) == Fine)
    && (forall k, j :: 0 <= k < |frames| && 0 <= j < |frames[k].events| ==>
          env.checkEvent(k, j) == Fine && env.prepare(k, j) == Fine && env.post(k, j) == Fine)
    && (forall k, j :: 0 <= k < |frames| && 0 <= j < |frames[k].events| ==>
          frames[k].events[j].Move? || frames[k].events[j].index < count)
    && (forall i :: 0 <= i < count ==> env.release(i) == Fine)
  }

  // ---------------------------------------------------------------- lemmas about records

  lemma HeldOne(log: seq<Transition>, e: Transition)
    ensures HeldAfter(log + [e]) == HeldStep(HeldAfter(log), e)
  {
    assert (log + [e])[..|log|] == log;
  }

  /** Releasing every held index below `n` leaves only the held indices from `n` up. */
  lemma {:induction false} ReleasesClear(log: seq<Transition>, held: set<nat>, n: nat)
    requires HeldAfter(log) <= held
    ensures forall i :: i in HeldAfter(log + Releases(held, n)) <==> i in HeldAfter(log) && i >= n
    decreases n
  {
    hide HeldAfter, Releases;
    if n == 0 {
      ReleaseFirst(log, held, 0);
    } else {
      ReleaseFirst(log, held, n);
      ReleasesClear(if n - 1 in held then log + [Up(n - 1)] else log, held, n - 1);
    }
  }

  /** The first release of a cleanup, and the rest of it. */
  lemma ReleaseFirst(log: seq<Transition>, held: set<nat>, n: nat)
    ensures n == 0 ==> log + Releases(held, n) == log
    ensures n > 0 && n - 1 !in held ==> Releases(held, n) == Releases(held, n - 1)
    ensures n > 0 && n - 1 in held ==>
              && log + Releases(held, n) == (log + [Up(n - 1)]) + Releases(held, n - 1)
              && HeldAfter(log + [Up(n - 1)]) == HeldAfter(log) - {n - 1}
  {
    hide HeldAfter;
    if n > 0 {
      HeldOne(log, Up(n - 1));
    }
  }

  /** Without a later Up, a Down stays held. */
  lemma {:induction false} HeldUntilUp(log: seq<Transition>, k: nat)
    requires k < |log| && log[k].Down? && forall j :: k < j < |log| ==> log[j] != Up(log[k].index)
    ensures log[k].index in HeldAfter(log)
  {
    if k < |log| - 1 {
      HeldUntilUp(log[..|log| - 1], k);
    }
  }

  /** A record of the promised form leaves nothing held, and gives every attempted Down a later Up. */
  lemma NothingStaysHeld(played: seq<Transition>, count: nat)
    requires forall i :: i in HeldAfter(played) ==> i < count
    ensures var log := played + Releases(HeldAfter(played), count);
            && HeldAfter(log) == {}
            && forall k :: 0 <= k < |log| && log[k].Down? ==> exists j :: k < j < |log| && log[j] == Up(log[k].index)
  {
    var log := played + Releases(HeldAfter(played), count);
    ReleasesClear(played, HeldAfter(played), count);
    forall k | 0 <= k < |log| && log[k].Down? ensures exists j :: k < j < |log| && log[j] == Up(log[k].index) {
      if forall j :: k < j < |log| ==> log[j] != Up(log[k].index) {
        HeldUntilUp(log, k);
      }
    }
  }

  /** Cleanup posts exactly one Up per held index, and nothing else. */
  lemma {:induction false} ReleasesAreUps(held: set<nat>, n: nat)
    ensures var r := Releases(held, n);
            && (forall k :: 0 <= k < |r| ==> r[k].Up? && r[k].index in held && r[k].index < n)
            && (forall j, k :: 0 <= j < k < |r| ==> r[j].index > r[k].index)
            && (forall i :: 0 <= i < n && i in held ==> Up(i) in r)
  {
    if n > 0 {
      ReleasesAreUps(held, n - 1);
    }
  }

  lemma {:induction false} ReleasesNone(n: nat)
    ensures Releases({}, n) == []
  {
    if n > 0 {
      ReleasesNone(n - 1);
    }
  }

  /** A frame on time keeps everything, moves included; a late one keeps no move and every native event. */
  lemma {:induction false} KeptAre(events: seq<Transition>, late: bool)
    ensures !late ==> Kept(events, late) == events
    ensures late ==> forall i :: 0 <= i < |Kept(events, late)| ==> Native(Kept(events, late)[i])
    ensures forall e :: Native(e) ==> multiset(Kept(events, late))[e] == multiset(events)[e]
  {
    if events != [] {
      var j := |events| - 1;
      KeptAre(events[..j], late);
      assert events == events[..j] + [events[j]];
    }
  }

  lemma {:induction false} ScorePrefix(frames: seq<Frame>, env: Env, k: nat)
    requires k < |frames|
    ensures Score(frames[..k], env) + Kept(frames[k].events, LateVisual(env, k, frames[k].at)) <= Score(frames, env)
  {
    if k < |frames| - 1 {
      assert frames[..|frames| - 1][..k] == frames[..k];
      ScorePrefix(frames[..|frames| - 1], env, k);
    }
  }

  lemma {:induction false} DuesPrefix(frames: seq<Frame>, env: Env, k: nat)
    requires k < |frames|
    ensures Dues(frames[..k], env) + Same(frames[k].at, |Kept(frames[k].events, LateVisual(env, k, frames[k].at))|)
            <= Dues(frames, env)
  {
    hide Kept, LateVisual, Score;
    if k < |frames| - 1 {
      assert frames[..|frames| - 1][..k] == frames[..k];
      DuesPrefix(frames[..|frames| - 1], env, k);
    }
  }

  // ---------------------------------------------------------------- the executor

  /** The key array shows exactly what the record leaves held. */
  ghost predicate Shows(keys: seq<bool>, log: seq<Transition>) {
    forall i :: i in HeldAfter(log) <==> 0 <= i < |keys| && keys[i]
  }

  lemma HasNativeOne(log: seq<Transition>, e: Transition)
    ensures HasNative(log + [e]) <==> HasNative(log) || Native(e)
  {
    assert (log + [e])[|log|] == e;
    if HasNative(log) {
      var k :| 0 <= k < |log| && Native(log[k]);
      assert (log + [e])[k] == log[k];
    }
  }

  lemma ShowsStep(keys: seq<bool>, log: seq<Transition>, e: Transition)
    requires Shows(keys, log) && (Native(e) ==> e.index < |keys|)
    ensures Shows(if e.Move? then keys else keys[e.index := e.Down?], log + [e])
  {
    HeldOne(log, e);
  }

  // ---- playing, against the functions above

  lemma RunNext(events: seq<Transition>, k: nat, late: bool, count: nat, env: Env, j: nat)
    requires j < |events|
    ensures RunEvents(events[..j + 1], k, late, count, env) ==
            RunEvent(RunEvents(events[..j], k, late, count, env), events[j], k, j, late, count, env)
    ensures RunEvents(events[..0], k, late, count, env) == Halt([], Fine)
  {
    hide RunEvent;
    assert events[..j + 1][..j] == events[..j];
  }

  /** A stopped frame stays stopped. */
  lemma {:induction false} RunSticks(events: seq<Transition>, k: nat, late: bool, count: nat, env: Env, j: nat)
    requires j <= |events| && RunEvents(events[..j], k, late, count, env).answer != Fine
    ensures RunEvents(events, k, late, count, env) == RunEvents(events[..j], k, late, count, env)
  {
    if j < |events| {
      assert events[..|events| - 1][..j] == events[..j];
      RunSticks(events[..|events| - 1], k, late, count, env, j);
    } else {
      assert events[..j] == events;
    }
  }

  /** What a frame posts is a prefix of what it would keep, and all of it unless something stops it. */
  lemma {:induction false} RunIsKept(events: seq<Transition>, k: nat, late: bool, count: nat, env: Env)
    ensures var r := RunEvents(events, k, late, count, env);
            r.log <= Kept(events, late) && (r.answer == Fine ==> r.log == Kept(events, late))
  {
    if events != [] {
      RunIsKept(events[..|events| - 1], k, late, count, env);
    }
  }

  /** A frame stops only with an answer some callback gave, or by unwinding on an index out of range. */
  lemma {:induction false} RunAnswers(events: seq<Transition>, k: nat, late: bool, count: nat, env: Env, bad: Answer)
    requires bad != Fine
    requires forall j :: 0 <= j < |events| ==> env.checkEvent(k, j) != bad && env.prepare(k, j) != bad && env.post(k, j) != bad
    requires forall j :: 0 <= j < |events| ==> events[j].Move? || events[j].index < count
    ensures RunEvents(events, k, late, count, env).answer != bad
  {
    if events != [] {
      RunAnswers(events[..|events| - 1], k, late, count, env, bad);
    }
  }

  lemma PlayNext(frames: seq<Frame>, count: nat, env: Env, k: nat)
    requires k < |frames|
    ensures Play(frames[..k + 1], count, env) == RunFrame(Play(frames[..k], count, env), frames[k], k, count, env)
    ensures Play(frames[..0], count, env) == Halt([], Fine)
  {
    hide RunFrame;
    assert frames[..k + 1][..k] == frames[..k];
  }

  lemma {:induction false} PlaySticks(frames: seq<Frame>, count: nat, env: Env, k: nat)
    requires k <= |frames| && Play(frames[..k], count, env).answer != Fine
    ensures Play(frames, count, env) == Play(frames[..k], count, env)
  {
    if k < |frames| {
      assert frames[..|frames| - 1][..k] == frames[..k];
      PlaySticks(frames[..|frames| - 1], count, env, k);
    } else {
      assert frames[..k] == frames;
    }
  }

  /** What is played is a prefix of the score, and all of it unless something stops it. */
  lemma {:induction false} PlayIsScore(frames: seq<Frame>, count: nat, env: Env)
    ensures var h := Play(frames, count, env);
            h.log <= Score(frames, env) && (h.answer == Fine ==> h.log == Score(frames, env))
  {
    hide RunEvents, Kept, LateVisual;
    if frames != [] {
      var k := |frames| - 1;
      PlayIsScore(frames[..k], count, env);
      RunIsKept(frames[k].events, k, LateVisual(env, k, frames[k].at), count, env);
    }
  }

  lemma FirstOf(a: seq<Ask>, b: seq<Ask>)
    ensures AllFine(a + b) <==> AllFine(a) && AllFine(b)
    ensures forall i: nat :: FirstBad(a + b, i) <==> FirstBad(a, i) || (AllFine(a) && i >= |a| && FirstBad(b, i - |a|))
  {
    var c := a + b;
    assert forall i :: 0 <= i < |a| ==> c[i] == a[i];
    assert forall i :: 0 <= i < |b| ==> b[i] == c[|a| + i];
    forall i: nat | FirstBad(c, i) ensures FirstBad(a, i) || (AllFine(a) && i >= |a| && FirstBad(b, i - |a|)) {
      if i >= |a| {
        assert forall j :: 0 <= j < i - |a| ==> b[j] == c[|a| + j];
      }
    }
  }

  lemma FirstIsBad(asks: seq<Ask>)
    ensures forall i: nat :: FirstBad(asks, i) ==> asks[i].answer != Fine && !AllFine(asks)
  {
  }

  /** One part after another: a stopped part stays stopped, a finished part goes on with the next. */
  function Then(a: Halt, b: Halt): Halt {
    if a.answer != Fine then a else Halt(a.log + b.log, b.answer)
  }

  lemma JoinStops(asks: seq<Ask>, more: seq<Ask>, n: nat, kept: seq<Transition>, next: seq<Transition>, a: Halt, b: Halt)
    requires PartStops(asks, n, kept, a) && PartStops(more, n + |kept|, next, b)
    ensures PartStops(asks + more, n, kept + next, Then(a, b))
  {
    hide AllFine;
    FirstOf(asks, more);
    FirstIsBad(asks);
    var all := asks + more;
    forall i: nat | FirstBad(all, i)
      ensures n <= all[i].posted <= n + |kept + next| && Then(a, b) == Halt((kept + next)[..all[i].posted - n], all[i].answer)
    {
      if FirstBad(asks, i) {
        assert all[i] == asks[i];
        assert (kept + next)[..asks[i].posted - n] == kept[..asks[i].posted - n];
      } else {
        assert all[i] == more[i - |asks|];
        var m := more[i - |asks|].posted - (n + |kept|);
        assert kept + next[..m] == (kept + next)[..|kept| + m];
      }
    }
    if !AllFine(all) {
      if !AllFine(asks) {
        var i: nat :| FirstBad(asks, i);
        assert FirstBad(all, i);
      } else {
        var i: nat :| FirstBad(more, i);
        assert FirstBad(all, |asks| + i);
      }
    }
  }

  lemma OneStops(answer: Answer, n: nat, posted: seq<Transition>)
    ensures PartStops([Ask(answer, n + |posted|)], n, posted, Halt(posted, answer))
  {
    var asks := [Ask(answer, n + |posted|)];
    assert posted[..|posted|] == posted;
    assert AllFine(asks) <==> asks[0].answer == Fine;
    if answer != Fine {
      assert FirstBad(asks, 0);
    }
  }

  lemma EventStops(e: Transition, k: nat, j: nat, count: nat, env: Env, n: nat)
    ensures PartStops(EventAsks(e, k, j, count, env, n), n, [e], RunEvent(Halt([], Fine), e, k, j, false, count, env))
  {
    hide PartStops;
    var a, b, c, d := env.checkEvent(k, j), env.prepare(k, j), if Native(e) && e.index >= count then Unwinds else Fine, env.post(k, j);
    OneStops(a, n, []);
    OneStops(b, n, []);
    OneStops(c, n, []);
    OneStops(d, n, [e]);
    var none: seq<Transition> := [];
    assert none + none == none && none + [e] == [e];
    JoinStops([Ask(a, n)], [Ask(b, n)], n, [], [], Halt([], a), Halt([], b));
    JoinStops([Ask(a, n)] + [Ask(b, n)], [Ask(c, n)], n, [], [], Then(Halt([], a), Halt([], b)), Halt([], c));
    JoinStops([Ask(a, n)] + [Ask(b, n)] + [Ask(c, n)], [Ask(d, n + 1)], n, [], [e],
              Then(Then(Halt([], a), Halt([], b)), Halt([], c)), Halt([e], d));
    assert [Ask(a, n)] + [Ask(b, n)] + [Ask(c, n)] + [Ask(d, n + 1)] == EventAsks(e, k, j, count, env, n);
  }

  lemma EventThen(h: Halt, e: Transition, k: nat, j: nat, late: bool, count: nat, env: Env)
    requires !(late && e.Move?)
    ensures RunEvent(h, e, k, j, late, count, env) == Then(h, RunEvent(Halt([], Fine), e, k, j, false, count, env))
  {
    assert [] + [e] == [e] && h.log + [] == h.log;
  }

  lemma {:induction false} FrameStops(events: seq<Transition>, k: nat, late: bool, count: nat, env: Env, n: nat)
    ensures PartStops(FrameAsks(events, k, late, count, env, n), n, Kept(events, late), RunEvents(events, k, late, count, env))
  {
    hide PartStops, RunEvent, EventAsks;
    if events == [] {
      NothingStops(n);
    } else {
      var j := |events| - 1;
      var e, front := events[j], events[..j];
      FrameStops(front, k, late, count, env, n);
      var asks, kept, r := FrameAsks(front, k, late, count, env, n), Kept(front, late), RunEvents(front, k, late, count, env);
      if late && e.Move? {
        assert asks + [] == asks && kept + [] == kept;
        MoveSkipped(r, e, k, j, count, env);
      } else {
        EventStops(e, k, j, count, env, n + |kept|);
        EventThen(r, e, k, j, late, count, env);
        JoinStops(asks, EventAsks(e, k, j, count, env, n + |kept|), n, kept, [e], r,
                  RunEvent(Halt([], Fine), e, k, j, false, count, env));
      }
    }
  }

  lemma MoveSkipped(h: Halt, e: Transition, k: nat, j: nat, count: nat, env: Env)
    requires e.Move?
    ensures RunEvent(h, e, k, j, true, count, env) == h
  {
  }

  lemma NothingStops(n: nat)
    ensures PartStops([], n, [], Halt([], Fine))
  {
  }

  /** The wait and the check that open a frame. */
  function Entry(k: nat, env: Env): Halt {
    Halt([], if env.wait(k).Elapsed? then env.checkFrame(k) else WaitAnswer(env.wait(k)))
  }

  lemma EntryStops(k: nat, env: Env, n: nat)
    ensures PartStops([Ask(WaitAnswer(env.wait(k)), n), Ask(env.checkFrame(k), n)], n, [], Entry(k, env))
  {
    hide PartStops;
    OneStops(WaitAnswer(env.wait(k)), n, []);
    OneStops(env.checkFrame(k), n, []);
    var none: seq<Transition> := [];
    assert none + none == none;
    JoinStops([Ask(WaitAnswer(env.wait(k)), n)], [Ask(env.checkFrame(k), n)], n, [], [],
              Halt([], WaitAnswer(env.wait(k))), Halt([], env.checkFrame(k)));
    assert [Ask(WaitAnswer(env.wait(k)), n)] + [Ask(env.checkFrame(k), n)] == [Ask(WaitAnswer(env.wait(k)), n), Ask(env.checkFrame(k), n)];
  }

  lemma FrameThen(h: Halt, f: Frame, k: nat, count: nat, env: Env)
    ensures RunFrame(h, f, k, count, env) ==
            Then(Then(h, Entry(k, env)), RunEvents(f.events, k, LateVisual(env, k, f.at), count, env))
  {
    hide RunEvents;
    assert h.log + [] == h.log;
  }

  /** The first callback in order that is not fine fixes both where the played part ends and which answer ends
      it; if there is none, the whole score is played. */
  lemma {:induction false} PlayStopsAtFirst(frames: seq<Frame>, count: nat, env: Env)
    ensures StopsAtFirst(Asks(frames, count, env), Score(frames, env), Play(frames, count, env))
  {
    hide PartStops, RunFrame, FrameAsks, Kept, LateVisual;
    if frames == [] {
      NothingStops(0);
    } else {
      var k := |frames| - 1;
      var front, f := frames[..k], frames[k];
      var n, late := |Score(front, env)|, LateVisual(env, k, f.at);
      var entry := [Ask(WaitAnswer(env.wait(k)), n), Ask(env.checkFrame(k), n)];
      var events := FrameAsks(f.events, k, late, count, env, n);
      PlayStopsAtFirst(front, count, env);
      EntryStops(k, env, n);
      FrameStops(f.events, k, late, count, env, n);
      FrameThen(Play(front, count, env), f, k, count, env);
      JoinStops(Asks(front, count, env), entry, 0, Score(front, env), [], Play(front, count, env), Entry(k, env));
      assert Score(front, env) + [] == Score(front, env);
      JoinStops(Asks(front, count, env) + entry, events, 0, Score(front, env), Kept(f.events, late),
                Then(Play(front, count, env), Entry(k, env)), RunEvents(f.events, k, late, count, env));
    }
  }

  lemma {:induction false} FrameAsksFine(events: seq<Transition>, k: nat, late: bool, count: nat, env: Env, n: nat)
    ensures AllFine(FrameAsks(events, k, late, count, env, n)) <==>
            forall j :: 0 <= j < |events| && !(late && events[j].Move?) ==>
              && env.checkEvent(k, j) == Fine && env.prepare(k, j) == Fine && env.post(k, j) == Fine
              && (events[j].Move? || events[j].index < count)
  {
    hide AllFine, EventAsks, FirstBad;
    if events == [] {
      NoAsks();
    } else {
      var j := |events| - 1;
      FrameAsksFine(events[..j], k, late, count, env, n);
      if !(late && events[j].Move?) {
        var more := EventAsks(events[j], k, j, count, env, n + |Kept(events[..j], late)|);
        FirstOf(FrameAsks(events[..j], k, late, count, env, n), more);
        EventAsksFine(events[j], k, j, count, env, n + |Kept(events[..j], late)|);
      } else {
        assert FrameAsks(events[..j], k, late, count, env, n) + [] == FrameAsks(events[..j], k, late, count, env, n);
      }
    }
  }

  lemma EventAsksFine(e: Transition, k: nat, j: nat, count: nat, env: Env, n: nat)
    ensures AllFine(EventAsks(e, k, j, count, env, n)) <==>
            && env.checkEvent(k, j) == Fine && env.prepare(k, j) == Fine && env.post(k, j) == Fine
            && (e.Move? || e.index < count)
  {
    var asks := EventAsks(e, k, j, count, env, n);
    assert AllFine(asks) ==> asks[0].answer == Fine && asks[1].answer == Fine && asks[2].answer == Fine && asks[3].answer == Fine;
  }

  lemma {:induction false} AsksFine(frames: seq<Frame>, count: nat, env: Env)
    ensures AllFine(Asks(frames, count, env)) <==> Untroubled(frames, count, env)
  {
    hide FrameAsks, AllFine, LateVisual, FirstBad;
    if frames == [] {
      NoAsks();
    } else {
      var k := |frames| - 1;
      var front, f := frames[..k], frames[k];
      var n, late := |Score(front, env)|, LateVisual(env, k, f.at);
      var entry := [Ask(WaitAnswer(env.wait(k)), n), Ask(env.checkFrame(k), n)];
      AsksFine(front, count, env);
      FrameAsksFine(f.events, k, late, count, env, n);
      EntryFine(k, env, n);
      FirstOf(Asks(front, count, env), entry);
      FirstOf(Asks(front, count, env) + entry, FrameAsks(f.events, k, late, count, env, n));
      assert forall i :: 0 <= i < k ==> front[i] == frames[i];
      UntroubledNext(frames, count, env);
    }
  }

  lemma NoAsks()
    ensures AllFine([])
  {
  }

  lemma EntryFine(k: nat, env: Env, n: nat)
    ensures AllFine([Ask(WaitAnswer(env.wait(k)), n), Ask(env.checkFrame(k), n)]) <==>
            env.wait(k).Elapsed? && env.checkFrame(k) == Fine
  {
    var asks := [Ask(WaitAnswer(env.wait(k)), n), Ask(env.checkFrame(k), n)];
    assert AllFine(asks) ==> asks[0].answer == Fine && asks[1].answer == Fine;
  }

  lemma UntroubledNext(frames: seq<Frame>, count: nat, env: Env)
    requires frames != []
    ensures var k := |frames| - 1;
            Untroubled(frames, count, env) <==>
            && Untroubled(frames[..k], count, env) && env.wait(k).Elapsed? && env.checkFrame(k) == Fine
            && forall j :: 0 <= j < |frames[k].events| && !(LateVisual(env, k, frames[k].at) && frames[k].events[j].Move?) ==>
                 && env.checkEvent(k, j) == Fine && env.prepare(k, j) == Fine && env.post(k, j) == Fine
                 && (frames[k].events[j].Move? || frames[k].events[j].index < count)
  {
    hide LateVisual;
    var k := |frames| - 1;
    assert forall i :: 0 <= i < k ==> frames[..k][i] == frames[i];
  }

  /** The playing ends well exactly when nothing troubles it. */
  lemma FineIsUntroubled(frames: seq<Frame>, count: nat, env: Env)
    ensures Play(frames, count, env).answer == Fine <==> Untroubled(frames, count, env)
  {
    hide Play, Asks, Untroubled, Score;
    PlayStopsAtFirst(frames, count, env);
    AsksFine(frames, count, env);
    FirstIsBad(Asks(frames, count, env));
  }

  /** No callback gives this answer while the frames are played, and no index is out of range. */
  predicate Never(env: Env, frames: seq<Frame>, count: nat, bad: Answer) {
    && (forall k :: 0 <= k < |frames| ==>
          !(env.wait(k).WaitUnwinds? && bad == Unwinds) && !(env.wait(k).WaitFails? && bad == Fails) && env.checkFrame(k) != bad)
    && (forall k, j :: 0 <= k < |frames| && 0 <= j < |frames[k].events| ==>
          env.checkEvent(k, j) != bad && env.prepare(k, j) != bad && env.post(k, j) != bad)
    && (forall k, j :: 0 <= k < |frames| && 0 <= j < |frames[k].events| ==>
          frames[k].events[j].Move? || frames[k].events[j].index < count)
  }

  /** Playing stops only with an answer some callback gave. */
  lemma {:induction false} PlayAnswers(frames: seq<Frame>, count: nat, env: Env, bad: Answer)
    requires bad != Fine && Never(env, frames, count, bad)
    ensures Play(frames, count, env).answer != bad
  {
    hide RunEvents, LateVisual;
    if frames != [] {
      var k := |frames| - 1;
      assert forall i :: 0 <= i < k ==> frames[..k][i] == frames[i];
      PlayAnswers(frames[..k], count, env, bad);
      RunAnswers(frames[k].events, k, LateVisual(env, k, frames[k].at), count, env, bad);
    }
  }

  lemma CooperativePlays(frames: seq<Frame>, count: nat, env: Env)
    requires Cooperative(env, frames, count)
    ensures Play(frames, count, env).answer == Fine
  {
    hide Play;
    PlayAnswers(frames, count, env, Fails);
    PlayAnswers(frames, count, env, Unwinds);
  }

  /** The events of one frame, in order, until something refuses. */
  method PlayFrame(frame: Frame, k: nat, late: bool, keys: array<bool>, env: Env, before: seq<Transition>, begun: bool)
    returns (log: seq<Transition>, began: bool, stopped: Answer)
    requires Shows(keys[..], before) && begun == HasNative(before)
    modifies keys
    ensures Shows(keys[..], log) && began == HasNative(log)
    ensures var r := RunEvents(frame.events, k, late, keys.Length, env);
            log == before + r.log && stopped == r.answer
  {
    hide Shows, HasNative, RunEvents;
    log, began, stopped := before, begun, Fine;
    if frame.events == [] {
      RunNothing(frame.events, k, late, keys.Length, env);
      return;
    }
    RunNext(frame.events, k, late, keys.Length, env, 0);
    for j := 0 to |frame.events|
      invariant Shows(keys[..], log) && began == HasNative(log)
      invariant RunEvents(frame.events[..j], k, late, keys.Length, env).answer == Fine
      invariant log == before + RunEvents(frame.events[..j], k, late, keys.Length, env).log
    {
      var event := frame.events[j];
      RunNext(frame.events, k, late, keys.Length, env, j);
      if RunEvents(frame.events[..j + 1], k, late, keys.Length, env).answer != Fine {
        RunSticks(frame.events, k, late, keys.Length, env, j + 1);
      }
      if late && event.Move? {
        continue;
      }
      if env.checkEvent(k, j) != Fine {
        return log, began, env.checkEvent(k, j);
      }
      if env.prepare(k, j) != Fine {
        return log, began, env.prepare(k, j);
      }
      if Native(event) && event.index >= keys.Length {
        // an index outside the prepared table unwinds before anything is armed or posted
        return log, began, Unwinds;
      }
      ShowsStep(keys[..], log, event);
      HasNativeOne(log, event);
      match event {
        case Down(i) =>
          ghost var armed := keys[..][i := true];
          keys[i], began := true, true;
          assert keys[..] == armed;
        case Up(i) =>
          ghost var disarmed := keys[..][i := false];
          keys[i], began := false, true;
          assert keys[..] == disarmed;
        case Move(_) =>
      }
      log := log + [event];
      if env.post(k, j) != Fine {
        return log, began, env.post(k, j);
      }
    }
    assert frame.events[..|frame.events|] == frame.events;
  }

  lemma RunNothing(events: seq<Transition>, k: nat, late: bool, count: nat, env: Env)
    requires events == []
    ensures RunEvents(events, k, late, count, env) == Halt([], Fine)
  {
  }

  // ---- cleanup

  /** Cleanup looks only at the held indices below its bound. */
  lemma {:induction false} CleanupAgrees(a: set<nat>, b: set<nat>, n: nat, m: nat, env: Env, spare: nat)
    requires m <= n && forall i :: 0 <= i < n ==> (i in a <==> i in b && i < m)
    ensures Cleanup(a, n, env, spare) == Cleanup(b, m, env, spare)
    ensures Unwinding(a, n, env) == Unwinding(b, m, env) && Failing(a, n, env) == Failing(b, m, env)
    decreases n, spare
  {
    if n > m {
      CleanupAgrees(a, b, n - 1, m, env, spare);
    } else if n > 0 {
      CleanupAgrees(a, b, n - 1, m - 1, env, spare);
      if spare > 0 {
        CleanupAgrees(a, b, n - 1, m - 1, env, spare - 1);
      }
    }
  }

  /** A cleanup with no more unwindings than it can spare is the whole cleanup. */
  lemma {:induction false} CleanupIsWhole(held: set<nat>, n: nat, env: Env, spare: nat)
    requires Unwinding(held, n, env) <= spare
    ensures Cleanup(held, n, env, spare) == Releases(held, n)
  {
    if n > 0 {
      if n - 1 in held && env.release(n - 1) == Unwinds {
        CleanupIsWhole(held, n - 1, env, spare - 1);
      } else {
        CleanupIsWhole(held, n - 1, env, spare);
      }
    }
  }

  /** A cleanup struck at its first unwinding release, at `at`, is taken up again right below. */
  lemma {:induction false} CleanupResumes(held: set<nat>, n: nat, env: Env, at: nat)
    requires at < n && at in held && env.release(at) == Unwinds
    requires forall j :: at < j < n && j in held ==> env.release(j) != Unwinds
    ensures Cleanup(held, n, env, 1) == Cleanup(held, n, env, 0) + Cleanup(held, at, env, 0)
    ensures Unwinding(held, n, env) == 1 + Unwinding(held, at, env)
  {
    if n - 1 > at {
      CleanupResumes(held, n - 1, env, at);
    }
  }

  lemma {:induction false} UnwindingGrows(held: set<nat>, m: nat, n: nat, env: Env)
    requires m <= n
    ensures Unwinding(held, m, env) <= Unwinding(held, n, env)
    decreases n
  {
    if m < n {
      UnwindingGrows(held, m, n - 1, env);
    }
  }

  /** After a cleanup an index is held exactly if it lies below more unwinding releases than can be spared. */
  lemma {:induction false} CleanupLeaves(log: seq<Transition>, held: set<nat>, n: nat, env: Env, spare: nat, i: nat)
    requires forall j :: j in HeldAfter(log) <==> j in held && j < n
    ensures i in HeldAfter(log + Cleanup(held, n, env, spare)) <==> StaysHeld(held, n, env, spare, i)
    decreases n
  {
    hide HeldAfter;
    if n == 0 {
      assert log + [] == log;
    } else {
      if i < n {
        UnwindingGrows(held, i + 1, n, env);
      }
      if i < n - 1 {
        UnwindingGrows(held, i + 1, n - 1, env);
      }
      if n - 1 !in held {
        CleanupLeaves(log, held, n - 1, env, spare, i);
      } else {
        HeldOne(log, Up(n - 1));
        var next := log + [Up(n - 1)];
        if env.release(n - 1) != Unwinds || spare > 0 {
          var left := if env.release(n - 1) != Unwinds then spare else spare - 1;
          CleanupLeaves(next, held, n - 1, env, left, i);
          assert log + ([Up(n - 1)] + Cleanup(held, n - 1, env, left)) == next + Cleanup(held, n - 1, env, left);
        }
      }
    }
  }

  lemma CleanupNext(held: set<nat>, i: nat, env: Env)
    ensures Cleanup(held, 0, env, 0) == []
    ensures i !in held ==> Cleanup(held, i + 1, env, 0) == Cleanup(held, i, env, 0)
    ensures i in held && env.release(i) != Unwinds ==> Cleanup(held, i + 1, env, 0) == [Up(i)] + Cleanup(held, i, env, 0)
    ensures i in held && env.release(i) == Unwinds ==> Cleanup(held, i + 1, env, 0) == [Up(i)]
    ensures Unwinding(held, 0, env) == 0 && Failing(held, 0, env) == 0
    ensures Unwinding(held, i + 1, env) == Unwinding(held, i, env) + (if i in held && env.release(i) == Unwinds then 1 else 0)
    ensures Failing(held, i + 1, env) == Failing(held, i, env) + (if i in held && env.release(i) == Fails then 1 else 0)
  {
  }

  /** Release every held key, highest index first, until a release unwinds. A reported error does not stop
      the others. */
  method ReleaseAll(keys: array<bool>, env: Env, before: seq<Transition>)
    returns (log: seq<Transition>, answer: Answer, ghost at: nat)
    requires Shows(keys[..], before)
    modifies keys
    ensures Shows(keys[..], log) && log == before + Cleanup(HeldAfter(before), keys.Length, env, 0)
    ensures answer != Unwinds ==>
              && HeldAfter(log) == {} && Unwinding(HeldAfter(before), keys.Length, env) == 0
              && (answer == Fine <==> Failing(HeldAfter(before), keys.Length, env) == 0)
    ensures answer == Unwinds ==>
              && at < keys.Length && at in HeldAfter(before) && env.release(at) == Unwinds
              && (forall j :: at < j < keys.Length && j in HeldAfter(before) ==> env.release(j) != Unwinds)
              && (forall i :: i in HeldAfter(log) <==> i in HeldAfter(before) && i < at)
  {
    hide Cleanup, Unwinding, Failing, HeldAfter;
    log, answer, at := before, Fine, 0;
    var i := keys.Length;
    ghost var held, all := HeldAfter(before), Cleanup(HeldAfter(before), keys.Length, env, 0);
    CleanupNext(held, 0, env);
    while i > 0
      invariant 0 <= i <= keys.Length && Shows(keys[..], log)
      invariant log + Cleanup(held, i, env, 0) == before + all
      invariant forall j :: 0 <= j < keys.Length ==> (keys[j] <==> j in held && j < i)
      invariant answer != Unwinds && forall j :: i <= j < keys.Length && j in held ==> env.release(j) != Unwinds
      invariant Unwinding(held, i, env) == Unwinding(held, keys.Length, env)
      invariant Failing(held, i, env) <= Failing(held, keys.Length, env)
      invariant answer == Fine <==> Failing(held, i, env) == Failing(held, keys.Length, env)
    {
      i := i - 1;
      CleanupNext(held, i, env);
      if keys[i] {
        ghost var disarmed := keys[..][i := false];
        ShowsStep(keys[..], log, Up(i));
        keys[i] := false;
        assert keys[..] == disarmed;
        assert log + ([Up(i)] + Cleanup(held, i, env, 0)) == log + [Up(i)] + Cleanup(held, i, env, 0);
        log := log + [Up(i)];
        if env.release(i) == Unwinds {
          HeldIsShown(keys[..], log);
          return log, Unwinds, i;
        }
        if env.release(i) == Fails {
          answer := Fails;
        }
      }
    }
    HeldIsShown(keys[..], log);
    assert log + [] == log;
  }

  lemma HeldIsShown(keys: seq<bool>, log: seq<Transition>)
    requires Shows(keys, log)
    ensures forall i :: i in HeldAfter(log) <==> 0 <= i < |keys| && keys[i]
  {
  }

  lemma NoneYet()
    ensures !HasNative([])
  {
  }

  lemma FrameNext(frames: seq<Frame>, env: Env, k: nat)
    requires k < |frames|
    ensures var kept := Kept(frames[k].events, LateVisual(env, k, frames[k].at));
            && Score(frames[..k + 1], env) == Score(frames[..k], env) + kept <= Score(frames, env)
            && Dues(frames[..k + 1], env) == Dues(frames[..k], env) + Same(frames[k].at, |kept|) <= Dues(frames, env)
  {
    hide Kept, LateVisual;
    assert frames[..k + 1][..k] == frames[..k];
    ScorePrefix(frames, env, k);
    DuesPrefix(frames, env, k);
  }

  lemma NoFrames(frames: seq<Frame>, env: Env)
    ensures Score(frames[..0], env) == [] && Dues(frames[..0], env) == []
  {
  }

  /** The frames in order, until something refuses. */
  method PlayAll(frames: seq<Frame>, keys: array<bool>, env: Env)
    returns (log: seq<Transition>, due: seq<nat>, began: bool, stopped: Answer)
    requires forall i :: 0 <= i < keys.Length ==> !keys[i]
    modifies keys
    ensures Shows(keys[..], log) && began == HasNative(log)
    ensures Halt(log, stopped) == Play(frames, keys.Length, env)
    ensures |log| <= |Dues(frames, env)| && due == Dues(frames, env)[..|log|]
  {
    hide HasNative, Kept, HeldAfter, Shows, Score, Dues, Play, RunEvents;
    NoneYet();
    ShowsNone(keys[..]);
    NoFrames(frames, env);
    NoPlay(frames, keys.Length, env);
    began, stopped := false, Fine;
    log, due := [], [];
    for k := 0 to |frames|
      invariant Shows(keys[..], log) && began == HasNative(log)
      invariant stopped == Fine && Play(frames[..k], keys.Length, env) == Halt(log, Fine)
      invariant log == Score(frames[..k], env)
      invariant due == Dues(frames[..k], env) && due <= Dues(frames, env)
    {
      FrameNext(frames, env, k);
      PlayNext(frames, keys.Length, env, k);
      var late := LateVisual(env, k, frames[k].at);
      RunIsKept(frames[k].events, k, late, keys.Length, env);
      if Play(frames[..k + 1], keys.Length, env).answer != Fine {
        PlaySticks(frames, keys.Length, env, k + 1);
      }
      var waited := env.wait(k);
      if waited.WaitFails? || waited.WaitUnwinds? {
        stopped := if waited.WaitFails? then Fails else Unwinds;
        break;
      }
      stopped := env.checkFrame(k);
      if stopped != Fine {
        break;
      }
      var before := |log|;
      log, began, stopped := PlayFrame(frames[k], k, waited.elapsed > frames[k].at + LATE, keys, env, log, began);
      due := due + Same(frames[k].at, |log| - before);
      if stopped != Fine {
        break;
      }
    }
    assert frames[..|frames|] == frames;
  }

  lemma NoPlay(frames: seq<Frame>, count: nat, env: Env)
    ensures Play(frames[..0], count, env) == Halt([], Fine)
  {
  }

  /** Plays the timeline, then cleans up. Where playing stops and with which answer, what is posted and how
      the run ends are functions of the frames and of what the callbacks do. What is played is a prefix of
      the score, each event in its own frame's time; cleanup posts one Up for each index still held, highest
      first, all of them unless the run aborts. */
  method DispatchFallible(frames: seq<Frame>, count: nat, env: Env)
    returns (log: seq<Transition>, due: seq<nat>, outcome: Outcome)
    ensures var h := Play(frames, count, env);
            var held := HeldAfter(h.log);
            && h.log <= Score(frames, env) && due == Dues(frames, env)[..|h.log|]
            && (forall i :: i in held ==> i < count)
            && log == h.log + Cleanup(held, count, env, if h.answer == Unwinds then 0 else 1)
            && (forall i :: i in HeldAfter(log) <==> StaysHeld(held, count, env, if h.answer == Unwinds then 0 else 1, i))
            && outcome == Ending(h.answer, held, count, env, HasNative(h.log))
            && (outcome != Aborted ==> HeldAfter(log) == {} && log == h.log + Releases(held, count))
            && (outcome == Completed ==> h.log == Score(frames, env))
    ensures StopsAtFirst(Asks(frames, count, env), Score(frames, env), Play(frames, count, env))
    ensures outcome == Completed <==>
              Untroubled(frames, count, env) && forall i :: i in HeldAfter(Score(frames, env)) ==> env.release(i) == Fine
    ensures Cooperative(env, frames, count) ==> outcome == Completed
  {
    hide HasNative, Unwinding, Failing, HeldAfter, Shows, Releases, Score, Dues, Play, Cleanup, Asks, Untroubled, StopsAtFirst;
    var keys := new bool[count](_ => false);
    var began, stopped;
    log, due, began, stopped := PlayAll(frames, keys, env);
    PlayIsScore(frames, count, env);
    if Cooperative(env, frames, count) {
      CooperativePlays(frames, count, env);
    }
    ghost var played := log;
    ShowsBounds(keys[..], played);
    ReleasesFine(HeldAfter(played), count, env);
    PlayStopsAtFirst(frames, count, env);
    FineIsUntroubled(frames, count, env);
    log, outcome := Conclude(keys, env, log, stopped, began);
    forall i ensures i in HeldAfter(log) <==> StaysHeld(HeldAfter(played), count, env, if stopped == Unwinds then 0 else 1, i) {
      CleanupLeaves(played, HeldAfter(played), count, env, if stopped == Unwinds then 0 else 1, i);
    }
    if outcome != Aborted {
      assert forall i :: i !in HeldAfter(log);
      CleanupIsWhole(HeldAfter(played), count, env, if stopped == Unwinds then 0 else 1);
    }
  }

  lemma {:induction false} ReleasesFine(held: set<nat>, n: nat, env: Env)
    ensures Unwinding(held, n, env) == 0 && Failing(held, n, env) == 0 <==>
            forall i :: i in held && i < n ==> env.release(i) == Fine
  {
    if n > 0 {
      ReleasesFine(held, n - 1, env);
    }
  }

  /** When no callback unwinds while playing and no index is out of range, the run aborts exactly if two
      releases of held indices unwind. */
  lemma CalmRunsEnd(frames: seq<Frame>, count: nat, env: Env)
    requires Never(env, frames, count, Unwinds)
    ensures var h := Play(frames, count, env);
            Ending(h.answer, HeldAfter(h.log), count, env, HasNative(h.log)) == Aborted <==>
              Unwinding(HeldAfter(h.log), count, env) >= 2
  {
    hide Play, Unwinding, Failing, HeldAfter, HasNative, Never;
    PlayAnswers(frames, count, env, Unwinds);
  }

  /** A run that aborts with an index still held: three presses, and the first two releases unwind. */
  method AbortLeavesHeld() returns (log: seq<Transition>, outcome: Outcome)
    ensures outcome == Aborted && HeldAfter(log) == {0} && log == [Down(0), Down(1), Down(2), Up(2), Up(1)]
  {
    hide Play, HeldAfter, Cleanup, Unwinding, Failing, HasNative, Score, Dues, Releases, Cooperative;
    var env := Env(k => Elapsed(0), k => Fine, (k, j) => Fine, (k, j) => Fine, (k, j) => Fine, i => if i >= 1 then Unwinds else Fine);
    var frames := [Frame(0, [Down(0), Down(1), Down(2)])];
    PlaysThree(frames, env);
    CleansTwo(env);
    var due;
    log, due, outcome := DispatchFallible(frames, 3, env);
    assert [Down(0), Down(1), Down(2)] + [Up(2), Up(1)] == [Down(0), Down(1), Down(2), Up(2), Up(1)];
    assert log == [Down(0), Down(1), Down(2), Up(2), Up(1)];
    HeldOfFive();
  }

  lemma PlaysThree(frames: seq<Frame>, env: Env)
    requires frames == [Frame(0, [Down(0), Down(1), Down(2)])]
    requires env.wait(0) == Elapsed(0) && env.checkFrame(0) == Fine
    requires forall j :: 0 <= j < 3 ==> env.checkEvent(0, j) == Fine && env.prepare(0, j) == Fine && env.post(0, j) == Fine
    ensures Play(frames, 3, env) == Halt([Down(0), Down(1), Down(2)], Fine) && HeldAfter([Down(0), Down(1), Down(2)]) == {0, 1, 2}
  {
    var es := frames[0].events;
    RunNext(es, 0, false, 3, env, 0);
    RunNext(es, 0, false, 3, env, 1);
    RunNext(es, 0, false, 3, env, 2);
    assert es[..3] == es;
    assert RunEvents(es, 0, false, 3, env) == Halt([Down(0), Down(1), Down(2)], Fine);
    PlayNext(frames, 3, env, 0);
    assert frames[..1] == frames;
    ThreeHeld();
  }

  lemma ThreeHeld()
    ensures HeldAfter([Down(0), Down(1), Down(2)]) == {0, 1, 2}
  {
    HeldOne([], Down(0));
    HeldOne([Down(0)], Down(1));
    HeldOne([Down(0), Down(1)], Down(2));
    assert [] + [Down(0)] == [Down(0)] && [Down(0)] + [Down(1)] == [Down(0), Down(1)]
        && [Down(0), Down(1)] + [Down(2)] == [Down(0), Down(1), Down(2)];
  }

  lemma CleansTwo(env: Env)
    requires env.release(2) == Unwinds && env.release(1) == Unwinds && env.release(0) == Fine
    ensures Cleanup({0, 1, 2}, 3, env, 1) == [Up(2), Up(1)] && Unwinding({0, 1, 2}, 3, env) == 2
  {
    assert Cleanup({0, 1, 2}, 2, env, 0) == [Up(1)];
    assert Unwinding({0, 1, 2}, 1, env) == 0;
    assert Unwinding({0, 1, 2}, 2, env) == 1;
  }

  lemma HeldOfFive()
    ensures HeldAfter([Down(0), Down(1), Down(2), Up(2), Up(1)]) == {0}
  {
    ThreeHeld();
    var three, four := [Down(0), Down(1), Down(2)], [Down(0), Down(1), Down(2), Up(2)];
    HeldOne(three, Up(2));
    HeldOne(four, Up(1));
    assert three + [Up(2)] == four && four + [Up(1)] == [Down(0), Down(1), Down(2), Up(2), Up(1)];
  }

  lemma ShowsNone(keys: seq<bool>)
    requires forall i :: 0 <= i < |keys| ==> !keys[i]
    ensures Shows(keys, [])
  {
  }

  lemma ShowsBounds(keys: seq<bool>, log: seq<Transition>)
    requires Shows(keys, log)
    ensures forall i :: i in HeldAfter(log) ==> i < |keys|
  {
  }

  /** Explicit cleanup unless unwinding, then the key table's own cleanup when it is dropped: one unwinding
      release is recovered from, a second aborts. */
  method Conclude(keys: array<bool>, env: Env, before: seq<Transition>, stopped: Answer, began: bool)
    returns (log: seq<Transition>, outcome: Outcome)
    requires Shows(keys[..], before)
    modifies keys
    ensures log == before + Cleanup(HeldAfter(before), keys.Length, env, if stopped == Unwinds then 0 else 1)
    ensures outcome == Ending(stopped, HeldAfter(before), keys.Length, env, began)
  {
    hide HeldAfter, Unwinding, Failing, Shows, Cleanup;
    log := before;
    ghost var held, n := HeldAfter(before), keys.Length;
    ghost var first, second := 0, 0;
    var released, again := Fine, Fine;
    if stopped != Unwinds {
      log, released, first := ReleaseAll(keys, env, log);
    }
    ghost var cleaned := log;
    log, again, second := ReleaseAll(keys, env, log);
    ghost var rest := HeldAfter(cleaned);
    if stopped == Unwinds {
      FirstUnwinding(held, n, env, again, second);
    } else if released == Unwinds {
      CleanupResumes(held, n, env, first);
      CleanupAgrees(rest, held, n, first, env, 0);
      FirstUnwinding(rest, n, env, again, second);
      assert before + Cleanup(held, n, env, 0) + Cleanup(held, first, env, 0) ==
             before + (Cleanup(held, n, env, 0) + Cleanup(held, first, env, 0));
    } else {
      CleanupIsWhole(held, n, env, 0);
      CleanupIsWhole(held, n, env, 1);
      NothingHeld(n, env);
    }
    outcome := if again == Unwinds then Aborted
               else if stopped == Unwinds || released == Unwinds then Unwound
               else if stopped == Fine && released == Fine then Completed
               else Failed(began);
  }

  lemma FirstUnwinding(held: set<nat>, n: nat, env: Env, answer: Answer, at: nat)
    requires answer == Unwinds ==> at < n && at in held && env.release(at) == Unwinds
    requires answer == Unwinds ==> forall j :: at < j < n && j in held ==> env.release(j) != Unwinds
    ensures answer == Unwinds ==> Unwinding(held, n, env) >= 1
  {
    if answer == Unwinds {
      CleanupResumes(held, n, env, at);
    }
  }

  lemma {:induction false} NothingHeld(n: nat, env: Env)
    ensures Cleanup({}, n, env, 0) == [] && Unwinding({}, n, env) == 0 && Failing({}, n, env) == 0
  {
    if n > 0 {
      NothingHeld(n - 1, env);
    }
  }
}
