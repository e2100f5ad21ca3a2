/** Remote participants: sequence-fenced input, closed for good by the first failed dispatch. */
module Participants {
  import opened Common
  import opened Identifiers

  const CAPACITY: nat := 16

  datatype Point = Point(x: real, y: real)
  datatype Kind = Monitor | Window
  /** `sound` is the outcome of the checks on the target's metadata. */
  datatype Target = Target(id: string, generation: nat, process: Option<nat>, kind: Kind, width: real, height: real, sound: bool)
  datatype Cursor = Cursor(position: Point, marked: bool)
  /** `valid` and `surface` are the outcomes of the event's own checks. */
  datatype Event = Event(valid: bool, surface: bool, point: Option<Point>, press: bool)

  datatype Participant = Participant(binding: Binding, target: Target, cursor: Cursor, sequence: nat,
                                     presentation: Cursor, presentationSequence: nat)

  /** A call that reached the native side. */
  datatype Effect = Posted(handle: nat, sequence: nat) | Closed(handle: nat)

  datatype Problem =
    | InvalidBinding | NotFound | WrongOwner | InvalidRequest | Cancelled | AtCapacity | Unresolved
    | Unsupported | StaleTarget | OutOfBounds | Undelivered | CleanupUncertain

  /** How the world answers one request. */
  datatype Answers = Answers(cancelled: bool, resolved: Option<Target>, monitorInput: bool, revisions: bool,
                             delivered: bool, cancelledAfter: bool)

  predicate Contains(t: Target, p: Point) {
    0.0 <= p.x < t.width && 0.0 <= p.y < t.height
  }

  predicate AcceptsInput(t: Target, monitorInput: bool) {
    t.kind == Window || monitorInput
  }

  predicate SameTarget(a: Target, b: Target) {
    a.id == b.id && a.generation == b.generation && a.process == b.process && a.kind == b.kind
  }

  // ---- The history of native calls ----

  /** Per handle: posts carry strictly increasing sequences, and nothing follows its one close. */
  ghost predicate Fenced(log: seq<Effect>) {
    forall i, j :: 0 <= i < j < |log| && log[i].handle == log[j].handle ==>
      log[i].Posted? && (log[j].Posted? ==> log[i].sequence < log[j].sequence)
  }

  /** The live table agrees with the history: live handles are open and at or past every sequence posted
      for them; handles handed out and no longer live were closed. */
  ghost predicate Agrees(next: nat, live: map<nat, Participant>, log: seq<Effect>) {
    && (forall i :: 0 <= i < |log| ==> 1 <= log[i].handle <= next)
    && (forall i :: 0 <= i < |log| && log[i].handle in live ==>
          log[i].Posted? && log[i].sequence <= live[log[i].handle].sequence)
    && (forall h: nat :: 1 <= h <= next && h !in live ==> Closed(h) in log)
    && (forall h :: h in live ==> 1 <= h <= next)
  }

  ghost predicate Good(next: nat, live: map<nat, Participant>, log: seq<Effect>) {
    Fenced(log) && Agrees(next, live, log) && |live| <= CAPACITY && next <= MAX_SAFE_INTEGER
  }

  lemma OpenGood(next: nat, live: map<nat, Participant>, log: seq<Effect>, p: Participant)
    requires Good(next, live, log) && |live| < CAPACITY && next < MAX_SAFE_INTEGER
    ensures next + 1 !in live && Good(next + 1, live[next + 1 := p], log)
  {
    var after := live[next + 1 := p];
    assert after.Keys == live.Keys + {next + 1};
    assert forall i :: 0 <= i < |log| ==> log[i].handle != next + 1;
  }

  /** Changing a live participant without lowering its sequence. */
  lemma UpdateGood(next: nat, live: map<nat, Participant>, log: seq<Effect>, h: nat, p: Participant)
    requires Good(next, live, log) && h in live && live[h].sequence <= p.sequence
    ensures Good(next, live[h := p], log)
  {
    assert live[h := p].Keys == live.Keys;
  }

  /** A post under a freshly consumed sequence. */
  lemma PostGood(next: nat, live: map<nat, Participant>, log: seq<Effect>, h: nat, p: Participant)
    requires Good(next, live, log) && h in live && live[h].sequence < p.sequence
    ensures Good(next, live[h := p], log + [Posted(h, p.sequence)])
  {
    assert live[h := p].Keys == live.Keys;
    forall k: nat | 1 <= k <= next && k !in live[h := p] ensures Closed(k) in log + [Posted(h, p.sequence)] {
      assert Closed(k) in log;
    }
  }

  lemma CloseGood(next: nat, live: map<nat, Participant>, log: seq<Effect>, h: nat)
    requires Good(next, live, log) && h in live
    ensures Good(next, live - {h}, log + [Closed(h)])
  {
    var after, log' := live - {h}, log + [Closed(h)];
    assert live.Keys == after.Keys + {h};
    assert log'[|log|] == Closed(h);
    forall k: nat | 1 <= k <= next && k !in after ensures Closed(k) in log' {
      assert k != h ==> Closed(k) in log;
    }
  }

  /** Once closed, a handle has made its last native call, and it made exactly one close. */
  lemma ClosedIsFinal(next: nat, live: map<nat, Participant>, log: seq<Effect>, h: nat) returns (at: nat)
    requires Good(next, live, log) && 1 <= h <= next && h !in live
    ensures at < |log| && log[at] == Closed(h)
    ensures forall i :: 0 <= i < |log| && i != at && log[i].handle == h ==> i < at && log[i].Posted?
  {
    assert Closed(h) in log;
    at :| 0 <= at < |log| && log[at] == Closed(h);
  }

  // ---- One dispatch ----

  datatype Dispatched = Dispatched(participant: Participant, posted: bool, problem: Option<Problem>)

  /** The input gets as far as the native side: not cancelled, for the same sound target that takes input, and
      with its point inside and on current revisions. */
  predicate Reaches(p: Participant, e: Event, a: Answers) {
    && !a.cancelled && a.resolved.Some? && a.resolved.value.sound
    && SameTarget(a.resolved.value, p.target) && AcceptsInput(a.resolved.value, a.monitorInput)
    && (e.point.Some? ==> Contains(a.resolved.value, e.point.value) && a.revisions)
  }

  /** What a delivered input makes of its participant: the fresh target and the cursor at the point; a press
      marks the cursor, and the shown cursor too if it stands at the same place. */
  predicate Moved(p: Participant, q: Participant, e: Event, a: Answers) {
    && q.binding == p.binding && q.sequence == p.sequence && q.presentationSequence == p.presentationSequence
    && a.resolved == Some(q.target)
    && q.cursor.position == (if e.point.Some? then e.point.value else p.cursor.position)
    && (q.cursor.marked <==> e.press || (e.point.None? && p.cursor.marked))
    && q.presentation.position == p.presentation.position
    && (q.presentation.marked <==> p.presentation.marked || (e.press && p.presentation.position == q.cursor.position))
  }

  /** The stages of a dispatch once the sequence has been consumed. It succeeds exactly when it reaches the
      native side, is delivered and is not cancelled meanwhile. */
  function Attempt(p: Participant, e: Event, a: Answers): (d: Dispatched)
    ensures d.posted <==> Reaches(p, e, a)
    ensures d.problem.None? <==> Reaches(p, e, a) && a.delivered && !a.cancelledAfter
    ensures d.problem.None? ==> Moved(p, d.participant, e, a)
    ensures d.participant.sequence == p.sequence && d.participant.binding == p.binding
    ensures d.participant.presentation.position == p.presentation.position
    ensures d.participant.presentationSequence == p.presentationSequence
    ensures d.posted && e.point.Some? ==> d.participant.cursor.position == e.point.value && Contains(d.participant.target, e.point.value)
  {
    if a.cancelled then Dispatched(p, false, Some(Cancelled))
    else if a.resolved.None? then Dispatched(p, false, Some(Unresolved))
    else
      var t := a.resolved.value;
      if !t.sound then Dispatched(p, false, Some(InvalidRequest))
      else if !SameTarget(t, p.target) || !AcceptsInput(t, a.monitorInput) then Dispatched(p, false, Some(StaleTarget))
      else if e.point.Some? && (!Contains(t, e.point.value) || !a.revisions) then Dispatched(p, false, Some(OutOfBounds))
      else
        var cursor := if e.point.Some? then Cursor(e.point.value, false) else p.cursor;
        var q := p.(cursor := cursor, target := t);
        if !a.delivered then Dispatched(q, true, Some(Undelivered))
        else if a.cancelledAfter then Dispatched(q, true, Some(Cancelled))
        else if !e.press then Dispatched(q, true, None)
        else
          var shown := if q.presentation.position == cursor.position then q.presentation.(marked := true) else q.presentation;
          Dispatched(q.(cursor := cursor.(marked := true), presentation := shown), true, None)
  }

  // ---- Closing a binding ----

  /** What is left of the table when, of the binding's participants, only `waiting` remain. */
  function Kept(live: map<nat, Participant>, binding: Binding, waiting: set<nat>): map<nat, Participant> {
    map h | h in live && (live[h].binding != binding || h in waiting) :: live[h]
  }

  ghost predicate AllClose(live: map<nat, Participant>, binding: Binding, waiting: set<nat>, closes: nat -> bool) {
    forall h :: h in live && live[h].binding == binding && h !in waiting ==> closes(h)
  }

  /** The history grew by closes of the binding's participants and nothing else. */
  ghost predicate OnlyCloses(before: seq<Effect>, log: seq<Effect>, live: map<nat, Participant>, binding: Binding) {
    && |before| <= |log| && log[..|before|] == before
    && forall i :: |before| <= i < |log| ==>
         log[i].Closed? && log[i].handle in live && live[log[i].handle].binding == binding
  }

  lemma StartClosing(live: map<nat, Participant>, log: seq<Effect>, binding: Binding, closes: nat -> bool)
    ensures var all := set h | h in live && live[h].binding == binding;
            Kept(live, binding, all) == live && AllClose(live, binding, all, closes)
    ensures OnlyCloses(log, log, live, binding)
  {
  }

  lemma OneFewer(live: map<nat, Participant>, binding: Binding, waiting: set<nat>, h: nat, closes: nat -> bool)
    requires h in waiting && h in live && live[h].binding == binding
    ensures Kept(live, binding, waiting) - {h} == Kept(live, binding, waiting - {h}) && h in Kept(live, binding, waiting)
    ensures AllClose(live, binding, waiting - {h}, closes) <==> AllClose(live, binding, waiting, closes) && closes(h)
  {
  }

  lemma LogsClose(before: seq<Effect>, log: seq<Effect>, live: map<nat, Participant>, binding: Binding, h: nat)
    requires OnlyCloses(before, log, live, binding) && h in live && live[h].binding == binding
    ensures OnlyCloses(before, log + [Closed(h)], live, binding)
  {
  }

  class Table {
    var nextHandle: nat
    var live: map<nat, Participant>
    ghost var log: seq<Effect>

    ghost predicate Valid()
      reads this
    {
      Good(nextHandle, live, log)
    }

    constructor ()
      ensures Valid() && nextHandle == 0 && live == map[] && log == []
    {
      nextHandle, live, log := 0, map[], [];
    }

    function Get(handle: nat, binding: Binding): (problem: Option<Problem>)
      reads this
      ensures problem.None? <==> ValidBinding(binding) && handle in live && live[handle].binding == binding
    {
      if !ValidBinding(binding) then Some(InvalidBinding)
      else if handle !in live then Some(NotFound)
      else if live[handle].binding != binding then Some(WrongOwner)
      else None
    }

    method Open(binding: Binding, targetId: string, generation: nat, a: Answers)
      returns (problem: Option<Problem>, handle: nat)
      requires Valid()
      modifies this
      ensures Valid() && log == old(log)
      ensures problem.None? <==>
                && ValidBinding(binding) && ValidId(targetId) && !a.cancelled && |old(live)| < CAPACITY
                && a.resolved.Some? && a.resolved.value.sound && AcceptsInput(a.resolved.value, a.monitorInput)
                && a.resolved.value.id == targetId && a.resolved.value.generation == generation
                && !a.cancelledAfter && old(nextHandle) < MAX_SAFE_INTEGER
      ensures problem.Some? ==> nextHandle == old(nextHandle) && live == old(live)
      ensures problem.None? ==>
                && handle == nextHandle == old(nextHandle) + 1 && handle !in old(live)
                && ValidBinding(binding) && a.resolved.Some? && |old(live)| < CAPACITY
                && a.resolved.value.id == targetId && a.resolved.value.generation == generation
                && live == old(live)[handle := Participant(binding, a.resolved.value, START, 0, START, 0)]
      ensures problem == Some(AtCapacity) ==> |live| >= CAPACITY || nextHandle >= MAX_SAFE_INTEGER
    {
      hide Good, ValidBinding, ValidId;
      if !ValidBinding(binding) {
        return Some(InvalidBinding), 0;
      }
      if !ValidId(targetId) {
        return Some(InvalidRequest), 0;
      }
      if a.cancelled {
        return Some(Cancelled), 0;
      }
      if |live| >= CAPACITY {
        return Some(AtCapacity), 0;
      }
      if a.resolved.None? {
        return Some(Unresolved), 0;
      }
      var target := a.resolved.value;
      if !target.sound {
        return Some(InvalidRequest), 0;
      }
      if !AcceptsInput(target, a.monitorInput) {
        return Some(Unsupported), 0;
      }
      if target.id != targetId || target.generation != generation {
        return Some(StaleTarget), 0;
      }
      if a.cancelledAfter {
        return Some(Cancelled), 0;
      }
      if nextHandle + 1 > MAX_SAFE_INTEGER {
        return Some(AtCapacity), 0;
      }
      var p := Participant(binding, target, START, 0, START, 0);
      OpenGood(nextHandle, live, log, p);
      nextHandle := nextHandle + 1;
      handle := nextHandle;
      live := live[handle := p];
      problem := None;
    }

    /** Forgets the participant before the native close, so no outcome can bring it back. */
    method CloseHandle(handle: nat, closes: bool) returns (ok: bool)
      requires Valid()
      modifies this`live, this`log
      ensures Valid() && live == old(live) - {handle}
      ensures log == if handle in old(live) then old(log) + [Closed(handle)] else old(log)
      ensures ok == (handle !in old(live) || closes)
    {
      if handle in live {
        CloseGood(nextHandle, live, log, handle);
        live, log := live - {handle}, log + [Closed(handle)];
        return closes;
      }
      assert live - {handle} == live;
      return true;
    }

    method Close(binding: Binding, handle: nat, closes: bool) returns (problem: Option<Problem>)
      requires Valid()
      modifies this`live, this`log
      ensures Valid()
      ensures old(Get(handle, binding)).Some? ==> problem == old(Get(handle, binding)) && live == old(live) && log == old(log)
      ensures old(Get(handle, binding)).None? ==> live == old(live) - {handle} && log == old(log) + [Closed(handle)]
      ensures problem.None? <==> old(Get(handle, binding)).None? && closes
    {
      problem := Get(handle, binding);
      if problem.Some? {
        return;
      }
      var ok := CloseHandle(handle, closes);
      return if ok then None else Some(CleanupUncertain);
    }

    /** Closes every participant of the binding, in whatever order the table yields them; a failed close
        does not stop the others. */
    method CloseBinding(binding: Binding, closes: nat -> bool) returns (problem: Option<Problem>)
      requires Valid()
      modifies this`live, this`log
      ensures Valid() && OnlyCloses(old(log), log, old(live), binding)
      ensures !ValidBinding(binding) ==> problem == Some(InvalidBinding) && live == old(live) && log == old(log)
      ensures ValidBinding(binding) ==>
                && live == Kept(old(live), binding, {})
                && (problem.None? <==> AllClose(old(live), binding, {}, closes))
    {
      hide Good, ValidBinding, OnlyCloses, Kept, AllClose;
      StartClosing(live, log, binding, closes);
      if !ValidBinding(binding) {
        return Some(InvalidBinding);
      }
      ghost var before, logged := live, log;
      var handles: set<nat> := set h | h in live && live[h].binding == binding;
      problem := None;
      while handles != {}
        invariant Valid() && OnlyCloses(logged, log, before, binding)
        invariant forall h :: h in handles ==> h in before && before[h].binding == binding
        invariant live == Kept(before, binding, handles)
        invariant problem.None? <==> AllClose(before, binding, handles, closes)
        decreases |handles|
      {
        var h: nat :| h in handles;
        OneFewer(before, binding, handles, h, closes);
        LogsClose(logged, log, before, binding, h);
        var ok := CloseHandle(h, closes(h));
        if !ok {
          problem := Some(CleanupUncertain);
        }
        handles := handles - {h};
      }
    }

    /** Consumes the sequence, dispatches, and on any failure ends this participant alone. */
    method Input(binding: Binding, handle: nat, sequence: nat, e: Event, a: Answers, closes: bool)
      returns (problem: Option<Problem>)
      requires Valid()
      modifies this`live, this`log
      ensures Valid()
      ensures !old(Ready(binding, handle, sequence, e)) ==> problem.Some? && live == old(live) && log == old(log)
      ensures old(Ready(binding, handle, sequence, e)) ==>
                var p := old(live)[handle].(sequence := sequence);
                var posts := if Reaches(p, e, a) then [Posted(handle, sequence)] else [];
                && (problem.None? <==> Reaches(p, e, a) && a.delivered && !a.cancelledAfter)
                && (problem.None? ==>
                      && handle in live && Moved(p, live[handle], e, a)
                      && live == old(live)[handle := live[handle]] && log == old(log) + posts)
                && (problem.Some? ==> live == old(live) - {handle} && log == old(log) + posts + [Closed(handle)])
                && (problem.Some? ==> problem == if closes then Attempt(p, e, a).problem else Some(CleanupUncertain))
    {
      hide Good, Attempt, ValidBinding, ValidId, Reaches, Moved;
      problem := Get(handle, binding);
      if problem.Some? {
        return;
      }
      if sequence == 0 || sequence > MAX_SAFE_INTEGER || sequence <= live[handle].sequence || !e.valid {
        return Some(InvalidRequest);
      }
      if !e.surface {
        return Some(Unsupported);
      }
      ghost var before, logged := live, log;
      var p := live[handle].(sequence := sequence);
      UpdateGood(nextHandle, live, log, handle, p);
      live := live[handle := p];
      var d := Attempt(p, e, a);
      if d.posted {
        PostGood(nextHandle, before, log, handle, d.participant);
        log := log + [Posted(handle, sequence)];
      } else {
        UpdateGood(nextHandle, before, log, handle, d.participant);
      }
      live := live[handle := d.participant];
      assert live == before[handle := d.participant];
      problem := d.problem;
      if problem.Some? {
        var ok := CloseHandle(handle, closes);
        assert live == before - {handle};
        if !ok {
          problem := Some(CleanupUncertain);
        }
      }
    }

    predicate Ready(binding: Binding, handle: nat, sequence: nat, e: Event)
      reads this
    {
      Get(handle, binding).None? && InSequence(sequence) && sequence > live[handle].sequence && e.valid && e.surface
    }

    /** Moves the shown cursor only: no native call, and the input sequence stays. */
    method Present(binding: Binding, handle: nat, sequence: nat, point: Point, a: Answers) returns (problem: Option<Problem>)
      requires Valid()
      modifies this`live
      ensures Valid()
      ensures problem.None? <==>
                && old(Get(handle, binding)).None? && InSequence(sequence) && sequence > old(live)[handle].presentationSequence
                && !a.cancelled && Contains(old(live)[handle].target, point) && a.revisions
      ensures problem.Some? ==> live == old(live)
      ensures problem.None? ==>
                && old(Get(handle, binding)).None? && old(live)[handle].presentationSequence < sequence <= MAX_SAFE_INTEGER
                && Contains(old(live)[handle].target, point)
                && live == old(live)[handle := old(live)[handle].(presentation := Cursor(point, false), presentationSequence := sequence)]
    {
      problem := Get(handle, binding);
      if problem.Some? {
        return;
      }
      var p := live[handle];
      if sequence == 0 || sequence > MAX_SAFE_INTEGER || sequence <= p.presentationSequence {
        return Some(InvalidRequest);
      }
      if a.cancelled {
        return Some(Cancelled);
      }
      if !Contains(p.target, point) || !a.revisions {
        return Some(OutOfBounds);
      }
      var q := p.(presentation := Cursor(point, false), presentationSequence := sequence);
      UpdateGood(nextHandle, live, log, handle, q);
      live := live[handle := q];
    }

    /** Any request: the history only grows, and only the participants it names are touched. */
    method Execute(r: Request, a: Answers, closes: nat -> bool) returns (problem: Option<Problem>)
      requires Valid()
      modifies this
      ensures Valid() && nextHandle >= old(nextHandle)
      ensures |old(log)| <= |log| && log[..|old(log)|] == old(log)
      ensures forall h :: h in old(live) && !Concerns(r, old(live)[h], h) ==> h in live && live[h] == old(live)[h]
      ensures forall i :: |old(log)| <= i < |log| ==>
                log[i].handle in old(live) && Concerns(r, old(live)[log[i].handle], log[i].handle)
    {
      hide Good, ValidBinding, Attempt;
      match r {
        case Open(binding, id, generation) =>
          var handle;
          problem, handle := Open(binding, id, generation, a);
        case Input(binding, handle, sequence, e) => problem := Input(binding, handle, sequence, e, a, closes(handle));
        case Present(binding, handle, sequence, point) => problem := Present(binding, handle, sequence, point, a);
        case Close(binding, handle) => problem := Close(binding, handle, closes(handle));
        case CloseBinding(binding) => problem := CloseBinding(binding, closes);
        case ClipboardRead(binding, handle) =>
          problem := Get(handle, binding);
          if problem.None? && a.cancelled {
            problem := Some(Cancelled);
          } else if problem.None? && (!a.monitorInput || live[handle].target.kind != Monitor) {
            problem := Some(Unsupported);
          } else if problem.None? && a.resolved.None? {
            problem := Some(Unresolved);
          } else if problem.None? && (a.resolved.value.id != live[handle].target.id
                                      || a.resolved.value.generation != live[handle].target.generation) {
            problem := Some(StaleTarget);
          }
      }
    }
  }

  datatype Request =
    | Open(binding: Binding, targetId: string, generation: nat)
    | Input(binding: Binding, handle: nat, sequence: nat, event: Event)
    | Present(binding: Binding, handle: nat, sequence: nat, point: Point)
    | Close(binding: Binding, handle: nat)
    | CloseBinding(binding: Binding)
    | ClipboardRead(binding: Binding, handle: nat)

  /** Whether a request may touch the participant `p` under the handle `h`. */
  predicate Concerns(r: Request, p: Participant, h: nat) {
    match r
    case Open(_, _, _) => false
    case ClipboardRead(_, _) => false
    case CloseBinding(binding) => p.binding == binding
    case Input(binding, handle, _, _) => p.binding == binding && handle == h
    case Present(binding, handle, _, _) => p.binding == binding && handle == h
    case Close(binding, handle) => p.binding == binding && handle == h
  }

  datatype Turn = Turn(request: Request, answers: Answers, closes: nat -> bool)

  /** Every run from the start: the whole history of native calls is fenced. */
  method Serve(turns: seq<Turn>) returns (table: Table)
    ensures table.Valid() && Fenced(table.log)
    ensures forall h: nat :: 1 <= h <= table.nextHandle ==> (h in table.live <==> Closed(h) !in table.log)
  {
    table := new Table();
    for i := 0 to |turns|
      invariant table.Valid() && fresh(table)
    {
      var _ := table.Execute(turns[i].request, turns[i].answers, turns[i].closes);
    }
    assert forall h :: Closed(h) in table.log ==> exists k :: 0 <= k < |table.log| && table.log[k] == Closed(h);
  }

  const START: Cursor := Cursor(Point(0.0, 0.0), false)
}
