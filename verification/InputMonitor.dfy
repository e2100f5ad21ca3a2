/** What the native backend is asked to do, and a monitor that reads only that record.

    The monitor knows nothing of registries or rollback. It follows the calls one at a time, keeps
    for every participant the releases it is still owed, and rejects a record as soon as one call
    breaks the promise "every input that may have been delivered is released, once, newest first". */
module InputMonitor {
  import opened Common
  import opened HoldLedger

  /** Result of one backend call. `NotDispatched` is the backend's certificate that nothing was sent;
      `Uncertain` covers every other reported failure, `Panics` an unwinding call. */
  datatype Outcome = Delivered | NotDispatched | Uncertain | Panics

  datatype Kind =
    | Down(control: Control, packet: Packet, release: Packet)
    | Up(control: Control, packet: Packet)
    | Retry(control: Control, packet: Packet)
    | Repeat(control: Control, packet: Packet)
    | Move(control: Control, packet: Packet, release: Packet)
    | Action(action: Option<Packet>)
    | Cleanup(packet: Packet)
    | Closed

  datatype Call = Call(owner: Participant, kind: Kind, outcome: Outcome)

  /** `owed`: holds whose Down may have been delivered and whose release was not attempted.
      `closing`: the participant whose failure or close must be finished before anything else.
      `retry`: an Up certified not dispatched, to be attempted once more. */
  datatype Watch = Watch(owed: map<Participant, seq<Hold>>, closing: Option<Participant>,
                         retry: Option<(Control, Packet)>, closed: set<Participant>)

  ghost function Owed(w: Watch, p: Participant): seq<Hold> {
    if p in w.owed then w.owed[p] else []
  }

  /** An attempt to post ordinary input, when nothing is being closed. */
  ghost function Attempt(w: Watch, call: Call): Option<Watch>
    requires !call.kind.Retry? && !call.kind.Cleanup? && !call.kind.Closed?
  {
    var p, sent, owed := call.owner, call.outcome != NotDispatched, Owed(w, call.owner);
    var w' := w.(closing := if call.outcome == Delivered then None else Some(p));
    match call.kind
    case Down(c, _, release) =>
      if Holds(owed, c) then None
      else Some(if sent then w'.(owed := w.owed[p := owed + [Hold(c, release)]]) else w')
    case Move(c, _, release) =>
      if !Holds(owed, c) then None
      else Some(if sent then w'.(owed := w.owed[p := WithRelease(owed, c, release)]) else w')
    case Repeat(c, _) => if !Holds(owed, c) then None else Some(w')
    case Action(_) => Some(w')
    case Up(c, packet) =>
      if !Holds(owed, c) then None
      else Some(w'.(owed := w.owed[p := Without(owed, c)], retry := if sent then None else Some((c, packet))))
  }

  ghost function Observe(w: Watch, call: Call): Option<Watch> {
    var p, owed := call.owner, Owed(w, call.owner);
    if p in w.closed then None
    else if w.closing.Some? && w.closing.value != p then None
    else if w.retry.Some? then
      if call.kind == Retry(w.retry.value.0, w.retry.value.1) then Some(w.(retry := None)) else None
    else
      match call.kind
      case Cleanup(packet) =>
        if owed == [] || owed[|owed| - 1].release != packet then None
        else Some(w.(owed := w.owed[p := owed[..|owed| - 1]], closing := Some(p)))
      case Closed =>
        if owed != [] then None else Some(w.(closing := None, closed := w.closed + {p}))
      case Retry(_, _) => None
      case _ => if w.closing.Some? then None else Attempt(w, call)
  }

  ghost function Watching(log: seq<Call>): Option<Watch> {
    if log == [] then Some(Watch(map[], None, None, {}))
    else
      var before := Watching(log[..|log| - 1]);
      if before.None? then None else Observe(before.value, log[|log| - 1])
  }

  lemma WatchingOne(log: seq<Call>, call: Call)
    requires Watching(log).Some?
    ensures Watching(log + [call]) == Observe(Watching(log).value, call)
  {
    assert (log + [call])[..|log|] == log;
  }

  // ---------------------------------------------------------------- what acceptance means

  /** One for a Down that may have been delivered, one for an Up certified not dispatched. */
  function DueOne(c: Call, p: Participant): nat {
    if c.owner == p && (if c.outcome == NotDispatched then c.kind.Up? else c.kind.Down?) then 1 else 0
  }

  /** An attempt to release something: an Up, its one retry, or a cleanup. */
  function AttemptOne(c: Call, p: Participant): nat {
    if c.owner == p && (c.kind.Up? || c.kind.Retry? || c.kind.Cleanup?) then 1 else 0
  }

  ghost function Due(log: seq<Call>, p: Participant): nat {
    if log == [] then 0 else Due(log[..|log| - 1], p) + DueOne(log[|log| - 1], p)
  }

  ghost function Attempts(log: seq<Call>, p: Participant): nat {
    if log == [] then 0 else Attempts(log[..|log| - 1], p) + AttemptOne(log[|log| - 1], p)
  }

  /** Releases still to be attempted for a participant. */
  ghost function Outstanding(w: Watch, p: Participant): nat {
    |Owed(w, p)| + (if w.retry.Some? && w.closing == Some(p) then 1 else 0)
  }

  lemma ObserveBalances(w: Watch, call: Call, p: Participant)
    requires Observe(w, call).Some? && (w.retry.Some? ==> w.closing.Some?)
    ensures var w' := Observe(w, call).value;
            && (w'.retry.Some? ==> w'.closing.Some?)
            && Outstanding(w', p) + AttemptOne(call, p) == Outstanding(w, p) + DueOne(call, p)
  {
    hide Holds;
  }

  /** In an accepted record every due release has been attempted exactly once, except those still owed. */
  lemma {:induction false} AttemptsMatchDue(log: seq<Call>, p: Participant)
    requires Watching(log).Some?
    ensures Watching(log).value.retry.Some? ==> Watching(log).value.closing.Some?
    ensures Due(log, p) == Attempts(log, p) + Outstanding(Watching(log).value, p)
  {
    hide Observe;
    if log != [] {
      AttemptsMatchDue(log[..|log| - 1], p);
      ObserveBalances(Watching(log[..|log| - 1]).value, log[|log| - 1], p);
    }
  }

  /** No accepted record calls the backend for a participant after its close. */
  lemma {:induction false} NothingAfterClosed(log: seq<Call>, i: nat, j: nat)
    requires Watching(log).Some? && i < j < |log| && log[i].kind == Closed
    ensures log[j].owner != log[i].owner
  {
    var front := log[..|log| - 1];
    if j < |log| - 1 {
      NothingAfterClosed(front, i, j);
    } else {
      ClosedIsRemembered(front, i);
    }
  }

  lemma {:induction false} ClosedIsRemembered(log: seq<Call>, i: nat)
    requires Watching(log).Some? && i < |log| && log[i].kind == Closed
    ensures log[i].owner in Watching(log).value.closed
  {
    if i < |log| - 1 {
      ClosedIsRemembered(log[..|log| - 1], i);
    }
  }
}
