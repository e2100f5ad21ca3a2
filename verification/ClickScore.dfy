/** From a compact click score to native transitions: the compiler of clicks to timeline frames, the
    compiler of validated frames to indexed Down/Up transitions, and what a whole score does when played. */
module ClickScore {
  import opened Common
  import opened Timeline
  import Schedule

  const MAX_CLICKS: nat := 65536

  datatype Click = Click(at: nat, x: Coordinate, y: Coordinate, hold: Option<nat>)
  datatype Options = Options(hold: nat, button: Button, modifiers: seq<Modifier>)

  function ReleaseTime(c: Click, o: Options): nat {
    c.at + (if c.hold.Some? then c.hold.value else o.hold)
  }

  /** Clicks the compiler accepts: bounded, on safe timestamps, at real positions, never overlapping. */
  predicate Playable(clicks: seq<Click>, o: Options) {
    && 1 <= |clicks| <= MAX_CLICKS && ValidModifiers(o.modifiers)
    && (forall i :: 0 <= i < |clicks| ==>
          ReleaseTime(clicks[i], o) <= MAX_SAFE_INTEGER && ValidPlace(Place(clicks[i].x, clicks[i].y)))
    && (forall i :: 1 <= i < |clicks| ==> ReleaseTime(clicks[i - 1], o) <= clicks[i].at)
  }

  function DownFrame(c: Click, o: Options): InputFrame {
    InputFrame(c.at, [], [], Some(Place(c.x, c.y)), false, o.modifiers, if o.button == Left then None else Some(o.button), [])
  }

  function UpFrame(c: Click, o: Options): InputFrame {
    InputFrame(ReleaseTime(c, o), [], [], None, true, [], None, [])
  }

  function Compiled(clicks: seq<Click>, o: Options): (frames: seq<InputFrame>)
    ensures |frames| == 2 * |clicks|
  {
    if clicks == [] then []
    else
      var c := clicks[|clicks| - 1];
      Compiled(clicks[..|clicks| - 1], o) + [DownFrame(c, o), UpFrame(c, o)]
  }

  lemma {:induction false} CompiledAt(clicks: seq<Click>, o: Options, i: nat)
    requires i < |clicks|
    ensures Compiled(clicks, o)[2 * i] == DownFrame(clicks[i], o) && Compiled(clicks, o)[2 * i + 1] == UpFrame(clicks[i], o)
  {
    if i < |clicks| - 1 {
      CompiledAt(clicks[..|clicks| - 1], o, i);
    }
  }

  method Compile(clicks: seq<Click>, o: Options) returns (r: Option<seq<InputFrame>>)
    ensures r == if Playable(clicks, o) then Some(Compiled(clicks, o)) else None
  {
    if clicks == [] || |clicks| > MAX_CLICKS || !ValidModifiers(o.modifiers) {
      return None;
    }
    var frames, previous := [], 0;
    for i := 0 to |clicks|
      invariant frames == Compiled(clicks[..i], o)
      invariant previous == if i == 0 then 0 else ReleaseTime(clicks[i - 1], o)
      invariant forall j :: 0 <= j < i ==>
                  ReleaseTime(clicks[j], o) <= MAX_SAFE_INTEGER && ValidPlace(Place(clicks[j].x, clicks[j].y))
      invariant forall j :: 1 <= j < i ==> ReleaseTime(clicks[j - 1], o) <= clicks[j].at
    {
      var c := clicks[i];
      var release := ReleaseTime(c, o);
      if release > MAX_SAFE_INTEGER || c.at < previous || !ValidPlace(Place(c.x, c.y)) {
        return None;
      }
      assert clicks[..i + 1][..i] == clicks[..i];
      frames := frames + [DownFrame(c, o), UpFrame(c, o)];
      previous := release;
    }
    assert clicks[..|clicks|] == clicks;
    return Some(frames);
  }

  lemma {:induction false} CompiledPointer(clicks: seq<Click>, o: Options)
    ensures PointerState(Compiled(clicks, o)) == Some(false) && KeyEvents(Compiled(clicks, o)) == []
    decreases |clicks|
  {
    if clicks != [] {
      var c, rest := clicks[|clicks| - 1], Compiled(clicks[..|clicks| - 1], o);
      CompiledPointer(clicks[..|clicks| - 1], o);
      var one, two := rest + [DownFrame(c, o)], rest + [DownFrame(c, o), UpFrame(c, o)];
      assert one[..|one| - 1] == rest && two[..|two| - 1] == one;
      assert PointerState(one) == Some(true);
    }
  }

  lemma {:induction false} NoKeysNoEvents(frames: seq<InputFrame>)
    requires forall i :: 0 <= i < |frames| ==> frames[i].keyDown == [] && frames[i].keyUp == []
    ensures KeyEvents(frames) == []
  {
    if frames != [] {
      NoKeysNoEvents(frames[..|frames| - 1]);
    }
  }

  lemma NoEventsNoKeys()
    ensures HeldKeys([]) == {}
  {
  }

  lemma CompiledFrame(clicks: seq<Click>, o: Options, i: nat)
    requires Playable(clicks, o) && i < 2 * |clicks|
    ensures var f := Compiled(clicks, o); WellFormed(f[i]) && f[i].keyDown == [] && f[i].keyUp == []
    ensures var f := Compiled(clicks, o); i > 0 ==> f[i - 1].at <= f[i].at
  {
    hide Compiled;
    var k := i / 2;
    assert i == 2 * k || i == 2 * k + 1;
    CompiledAt(clicks, o, k);
    if i == 2 * k && k > 0 {
      CompiledAt(clicks, o, k - 1);
      assert i - 1 == 2 * (k - 1) + 1;
    }
  }

  /** Every score the compiler accepts is a timeline the validator accepts. */
  lemma CompiledIsAccepted(clicks: seq<Click>, o: Options, supported: Key -> bool)
    requires Playable(clicks, o)
    ensures Accepts(Compiled(clicks, o), supported)
  {
    hide Compiled, WellFormed, PointerState, HeldKeys;
    var frames := Compiled(clicks, o);
    CompiledPointer(clicks, o);
    forall i | 0 <= i < |frames| ensures WellFormed(frames[i]) && frames[i].keyDown == [] && frames[i].keyUp == [] {
      CompiledFrame(clicks, o, i);
    }
    forall i | 1 <= i < |frames| ensures frames[i - 1].at <= frames[i].at {
      CompiledFrame(clicks, o, i);
    }
    forall n | 0 <= n <= |frames| ensures |HeldKeys(KeyEvents(frames[..n]))| <= MAX_KEYS {
      NoKeysNoEvents(frames[..n]);
      NoEventsNoKeys();
    }
  }

  // ---------------------------------------------------------------- indexed transitions

  datatype Plan = Plan(frames: seq<Schedule.Frame>, points: seq<Place>, held: Option<nat>)

  /** Each press gets the next index; a release names the press it ends. */
  function PlanNext(p: Plan, f: InputFrame): Plan {
    var up := if f.pointerUp && p.held.Some? then [Schedule.Up(p.held.value)] else [];
    var down := if f.pointerDown.Some? then [Schedule.Down(|p.points|)] else [];
    Plan(p.frames + [Schedule.Frame(f.at * MILLISECOND, up + down)],
         if f.pointerDown.Some? then p.points + [f.pointerDown.value] else p.points,
         if f.pointerDown.Some? then Some(|p.points|) else if f.pointerUp then None else p.held)
  }

  function PlanOf(frames: seq<InputFrame>): (p: Plan)
    ensures |p.frames| == |frames|
  {
    if frames == [] then Plan([], [], None) else PlanNext(PlanOf(frames[..|frames| - 1]), frames[|frames| - 1])
  }

  /** In an accepted timeline a release always finds the press it ends. */
  lemma {:induction false} HeldMatchesPointer(frames: seq<InputFrame>)
    requires PointerState(frames).Some?
    ensures PlanOf(frames).held.Some? <==> PointerState(frames).value
  {
    if frames != [] {
      HeldMatchesPointer(frames[..|frames| - 1]);
    }
  }

  datatype PlayError = InvalidTimeline | KeysUnsupported

  method MakePlan(frames: seq<InputFrame>, supported: Key -> bool) returns (r: Option<Plan>, error: PlayError)
    ensures r.Some? <==> Accepts(frames, supported) && forall i :: 0 <= i < |frames| ==> frames[i].keyDown == [] && frames[i].keyUp == []
    ensures r.Some? ==> r.value == PlanOf(frames)
    ensures r.None? ==> (error == InvalidTimeline <==> !Accepts(frames, supported))
  {
    hide Accepts, PlanOf, PointerState;
    var valid := Validate(frames, supported);
    if !valid {
      return None, InvalidTimeline;
    }
    for i := 0 to |frames|
      invariant forall j :: 0 <= j < i ==> frames[j].keyDown == [] && frames[j].keyUp == []
    {
      if frames[i].keyDown != [] || frames[i].keyUp != [] {
        return None, KeysUnsupported;
      }
    }
    PlanNone(frames);
    var scheduled: seq<Schedule.Frame>, points: seq<Place>, held: Option<nat> := [], [], None;
    for i := 0 to |frames|
      invariant Plan(scheduled, points, held) == PlanOf(frames[..i])
    {
      var f := frames[i];
      ghost var before := Plan(scheduled, points, held);
      PlanUnfolds(frames, i);
      ReleaseIsFound(frames, i, supported);
      var events := [];
      if f.pointerUp {
        events := events + [Schedule.Up(held.value)];
        held := None;
      }
      if f.pointerDown.Some? {
        held := Some(|points|);
        events := events + [Schedule.Down(|points|)];
        points := points + [f.pointerDown.value];
      }
      assert events == (if f.pointerUp && before.held.Some? then [Schedule.Up(before.held.value)] else [])
                       + (if f.pointerDown.Some? then [Schedule.Down(|before.points|)] else []);
      scheduled := scheduled + [Schedule.Frame(f.at * MILLISECOND, events)];
      assert Plan(scheduled, points, held) == PlanNext(before, f);
    }
    assert frames[..|frames|] == frames;
    return Some(Plan(scheduled, points, held)), InvalidTimeline;
  }

  lemma PlanNone(frames: seq<InputFrame>)
    ensures PlanOf(frames[..0]) == Plan([], [], None)
  {
  }

  lemma PlanUnfolds(frames: seq<InputFrame>, i: nat)
    requires i < |frames|
    ensures PlanOf(frames[..i + 1]) == PlanNext(PlanOf(frames[..i]), frames[i])
  {
    assert frames[..i + 1][..i] == frames[..i];
  }

  lemma ReleaseIsFound(frames: seq<InputFrame>, i: nat, supported: Key -> bool)
    requires Accepts(frames, supported) && i < |frames|
    ensures frames[i].pointerUp ==> PlanOf(frames[..i]).held.Some?
  {
    var f := frames[..i + 1];
    assert f[..i] == frames[..i];
    if PointerState(f).None? {
      PointerStateSticks(frames, i + 1);
    }
    HeldMatchesPointer(frames[..i]);
  }

  // ---------------------------------------------------------------- playing a score

  /** One Down and its Up per click, in score order. */
  function Strikes(n: nat): (log: seq<Schedule.Transition>)
    ensures |log| == 2 * n
  {
    if n == 0 then [] else Strikes(n - 1) + [Schedule.Down(n - 1), Schedule.Up(n - 1)]
  }

  lemma {:induction false} StrikesAt(n: nat, i: nat)
    requires i < n
    ensures Strikes(n)[2 * i] == Schedule.Down(i) && Strikes(n)[2 * i + 1] == Schedule.Up(i)
  {
    if i < n - 1 {
      StrikesAt(n - 1, i);
    }
  }

  lemma {:induction false} StrikesReleaseAll(n: nat)
    ensures Schedule.HeldAfter(Strikes(n)) == {}
  {
    if n > 0 {
      StrikesReleaseAll(n - 1);
      var one := Strikes(n - 1) + [Schedule.Down(n - 1)];
      Schedule.HeldOne(Strikes(n - 1), Schedule.Down(n - 1));
      Schedule.HeldOne(one, Schedule.Up(n - 1));
      assert Strikes(n) == one + [Schedule.Up(n - 1)];
    }
  }

  /** Each click's Down exactly at its time and its Up exactly at its release time. */
  function Scheduled(clicks: seq<Click>, o: Options): (frames: seq<Schedule.Frame>)
    ensures |frames| == 2 * |clicks|
  {
    if clicks == [] then []
    else
      var c, n := clicks[|clicks| - 1], |clicks| - 1;
      Scheduled(clicks[..n], o)
      + [Schedule.Frame(c.at * MILLISECOND, [Schedule.Down(n)]),
         Schedule.Frame(ReleaseTime(c, o) * MILLISECOND, [Schedule.Up(n)])]
  }

  lemma {:induction false} ScheduledAt(clicks: seq<Click>, o: Options, i: nat)
    requires i < |clicks|
    ensures Scheduled(clicks, o)[2 * i] == Schedule.Frame(clicks[i].at * MILLISECOND, [Schedule.Down(i)])
    ensures Scheduled(clicks, o)[2 * i + 1] == Schedule.Frame(ReleaseTime(clicks[i], o) * MILLISECOND, [Schedule.Up(i)])
  {
    if i < |clicks| - 1 {
      ScheduledAt(clicks[..|clicks| - 1], o, i);
    }
  }

  function Positions(clicks: seq<Click>): (points: seq<Place>)
    ensures |points| == |clicks| && forall i :: 0 <= i < |clicks| ==> points[i] == Place(clicks[i].x, clicks[i].y)
  {
    if clicks == [] then [] else Positions(clicks[..|clicks| - 1]) + [Place(clicks[|clicks| - 1].x, clicks[|clicks| - 1].y)]
  }

  lemma PlanClick(p: Plan, c: Click, o: Options)
    requires p.held == None
    ensures var n := |p.points|;
            PlanNext(PlanNext(p, DownFrame(c, o)), UpFrame(c, o)) ==
            Plan(p.frames + [Schedule.Frame(c.at * MILLISECOND, [Schedule.Down(n)]),
                             Schedule.Frame(ReleaseTime(c, o) * MILLISECOND, [Schedule.Up(n)])],
                 p.points + [Place(c.x, c.y)], None)
  {
    var n, d := |p.points|, PlanNext(p, DownFrame(c, o));
    assert d.frames == p.frames + [Schedule.Frame(c.at * MILLISECOND, [Schedule.Down(n)])] by {
      assert [] + [Schedule.Down(n)] == [Schedule.Down(n)];
    }
    assert [Schedule.Up(n)] + [] == [Schedule.Up(n)];
  }

  /** The plan of a compiled score is its schedule, with nothing left held. */
  lemma {:induction false} ScorePlan(clicks: seq<Click>, o: Options)
    ensures PlanOf(Compiled(clicks, o)) == Plan(Scheduled(clicks, o), Positions(clicks), None)
  {
    if clicks != [] {
      var c, n := clicks[|clicks| - 1], |clicks| - 1;
      var rest := Compiled(clicks[..n], o);
      ScorePlan(clicks[..n], o);
      var one, two := rest + [DownFrame(c, o)], rest + [DownFrame(c, o), UpFrame(c, o)];
      assert one[..|one| - 1] == rest && two[..|two| - 1] == one;
      PlanClick(PlanOf(rest), c, o);
    }
  }

  lemma ScoreOne(frames: seq<Schedule.Frame>, f: Schedule.Frame, env: Schedule.Env)
    ensures Schedule.Score(frames + [f], env) ==
            Schedule.Score(frames, env) + Schedule.Kept(f.events, Schedule.LateVisual(env, |frames|, f.at))
  {
    assert (frames + [f])[..|frames|] == frames;
  }

  lemma {:induction false} ScoreIsStrikes(clicks: seq<Click>, o: Options, env: Schedule.Env)
    ensures Schedule.Score(Scheduled(clicks, o), env) == Strikes(|clicks|)
  {
    hide Schedule.Score, Schedule.Kept, Schedule.LateVisual;
    if clicks == [] {
      NothingScores(env);
    } else {
      var c, n := clicks[|clicks| - 1], |clicks| - 1;
      ScoreIsStrikes(clicks[..n], o, env);
      var rest := Scheduled(clicks[..n], o);
      var down := Schedule.Frame(c.at * MILLISECOND, [Schedule.Down(n)]);
      var up := Schedule.Frame(ReleaseTime(c, o) * MILLISECOND, [Schedule.Up(n)]);
      ScoreOne(rest, down, env);
      ScoreOne(rest + [down], up, env);
      SingleKept(down.events, Schedule.LateVisual(env, |rest|, down.at));
      SingleKept(up.events, Schedule.LateVisual(env, |rest| + 1, up.at));
      assert Scheduled(clicks, o) == rest + [down] + [up];
    }
  }

  lemma NothingScores(env: Schedule.Env)
    ensures Schedule.Score([], env) == []
  {
  }

  lemma SingleKept(events: seq<Schedule.Transition>, late: bool)
    requires |events| == 1 && !events[0].Move?
    ensures Schedule.Kept(events, late) == events
  {
    assert events[..0] == [];
  }

  /** When each Down and Up of a score is due. */
  function Times(clicks: seq<Click>, o: Options): (times: seq<nat>)
    ensures |times| == 2 * |clicks|
  {
    if clicks == [] then []
    else
      var c := clicks[|clicks| - 1];
      Times(clicks[..|clicks| - 1], o) + [c.at * MILLISECOND, ReleaseTime(c, o) * MILLISECOND]
  }

  lemma {:induction false} TimesAt(clicks: seq<Click>, o: Options, i: nat)
    requires i < |clicks|
    ensures Times(clicks, o)[2 * i] == clicks[i].at * MILLISECOND
    ensures Times(clicks, o)[2 * i + 1] == ReleaseTime(clicks[i], o) * MILLISECOND
  {
    if i < |clicks| - 1 {
      TimesAt(clicks[..|clicks| - 1], o, i);
    }
  }

  lemma DuesOne(frames: seq<Schedule.Frame>, f: Schedule.Frame, env: Schedule.Env)
    requires |f.events| == 1 && !f.events[0].Move?
    ensures Schedule.Dues(frames + [f], env) == Schedule.Dues(frames, env) + [f.at]
  {
    assert (frames + [f])[..|frames|] == frames;
    SingleKept(f.events, Schedule.LateVisual(env, |frames|, f.at));
  }

  lemma {:induction false} ScoreIsDue(clicks: seq<Click>, o: Options, env: Schedule.Env)
    ensures Schedule.Dues(Scheduled(clicks, o), env) == Times(clicks, o)
  {
    hide Schedule.Dues, Schedule.Score;
    if clicks == [] {
      NothingIsDue(env);
    } else {
      var front, c, n := clicks[..|clicks| - 1], clicks[|clicks| - 1], |clicks| - 1;
      ScoreIsDue(front, o, env);
      var down := Schedule.Frame(c.at * MILLISECOND, [Schedule.Down(n)]);
      var up := Schedule.Frame(ReleaseTime(c, o) * MILLISECOND, [Schedule.Up(n)]);
      DuesOne(Scheduled(front, o), down, env);
      DuesOne(Scheduled(front, o) + [down], up, env);
      assert Scheduled(clicks, o) == Scheduled(front, o) + [down] + [up];
    }
  }

  lemma NothingIsDue(env: Schedule.Env)
    ensures Schedule.Dues([], env) == []
  {
  }

  /** The whole pipeline: compile, validate, index, play. A score is refused exactly when it is not
      playable. What is posted is a prefix of one Down and one Up per click, in score order, each in the
      frame of its own time and at its own click's place, followed by releases; with callbacks that all
      succeed it is the whole of that and nothing else. How far it gets, how it ends and what it leaves held
      are functions of what the callbacks do. */
  method PlayScore(clicks: seq<Click>, o: Options, supported: Key -> bool, env: Schedule.Env)
    returns (played: bool, log: seq<Schedule.Transition>, due: seq<nat>, places: seq<Place>, outcome: Schedule.Outcome)
    ensures played <==> Playable(clicks, o)
    ensures !played ==> log == []
    ensures played ==>
              var h := Schedule.Play(Scheduled(clicks, o), |clicks|, env);
              var held, spare := Schedule.HeldAfter(h.log), if h.answer == Schedule.Unwinds then 0 else 1;
              && h.log <= Strikes(|clicks|) && places == Positions(clicks) && due == Times(clicks, o)[..|h.log|]
              && log == h.log + Schedule.Cleanup(held, |clicks|, env, spare)
              && outcome == Schedule.Ending(h.answer, held, |clicks|, env, Schedule.HasNative(h.log))
              && (forall i :: i in Schedule.HeldAfter(log) <==> Schedule.StaysHeld(held, |clicks|, env, spare, i))
              && (outcome != Schedule.Aborted ==> Schedule.HeldAfter(log) == {} && log == h.log + Schedule.Releases(held, |clicks|))
    ensures played && Schedule.Cooperative(env, Scheduled(clicks, o), |clicks|) ==>
              outcome == Schedule.Completed && log == Strikes(|clicks|) && due == Times(clicks, o)
  {
    hide Accepts, Compiled, PlanOf, Playable, Scheduled, Strikes, Positions, Times, Schedule.Cooperative, Schedule.HeldAfter,
         Schedule.Score, Schedule.Dues, Schedule.Play, Schedule.Cleanup, Schedule.Unwinding, Schedule.Failing, Schedule.Releases,
         Schedule.HasNative, Schedule.StaysHeld;
    var frames := Compile(clicks, o);
    if frames.None? {
      return false, [], [], [], Schedule.Failed(false);
    }
    CompiledIsAccepted(clicks, o, supported);
    ScorePlan(clicks, o);
    CompiledHasNoKeys(clicks, o);
    var plan, error := MakePlan(frames.value, supported);
    ScoreIsStrikes(clicks, o, env);
    ScoreIsDue(clicks, o, env);
    log, due, outcome := Schedule.DispatchFallible(plan.value.frames, |plan.value.points|, env);
    played, places := true, plan.value.points;
    if outcome == Schedule.Completed {
      assert Times(clicks, o)[..|Strikes(|clicks|)|] == Times(clicks, o);
      StrikesReleaseAll(|clicks|);
      Schedule.ReleasesNone(|clicks|);
      assert Strikes(|clicks|) + [] == Strikes(|clicks|);
    }
  }

  lemma CompiledHasNoKeys(clicks: seq<Click>, o: Options)
    requires Playable(clicks, o)
    ensures var f := Compiled(clicks, o); forall i :: 0 <= i < |f| ==> f[i].keyDown == [] && f[i].keyUp == []
  {
    hide Playable, Compiled;
    var f := Compiled(clicks, o);
    forall i | 0 <= i < |f| ensures f[i].keyDown == [] && f[i].keyUp == [] {
      CompiledFrame(clicks, o, i);
    }
  }
}
