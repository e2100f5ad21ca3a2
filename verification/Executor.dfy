/** The request executor: a reader, one executor thread, job threads and a JavaScript thread sharing a
    table of pending requests.

    Every action below is one thread's atomic step; `Choice` resolves what the model does not fix
    (service results, send failures, thread spawn failures). A run is any list of actions. */
module Executor {
  import opened Common

  const MAX_PENDING: nat := 37
  const MAX_CAPTURE_JOBS: nat := 2
  const MAX_CONTEXTS: nat := 4

  type Id = int
  type Session = string
  /** What the service stores for a session. */
  type Value(==, !new)

  datatype Binding = Binding(session: Session, scope: nat)

  /** `Perform` may become an input job; `Press` is a click or press; `Close`, `Retarget` end the input
      lifetime of their binding; `Plain` is every other operation on a session. */
  datatype Kind = Perform | Press | Close | Retarget | Plain

  datatype Operation =
    | OnSession(binding: Binding, kind: Kind)
    | CaptureFrame
    | Unbound
    | Malformed
    | Evaluate(binding: Binding)
    | Reset(binding: Binding)

  /** Where a pending request currently is. */
  datatype Place = Queued | Deferred | Running(session: Session) | Capturing
                 | ScriptQueued | ScriptRunning(context: Session) | Stranded

  datatype Work = Request(id: Id, op: Operation) | InputDone(id: Id) | CaptureDone(id: Id)
                | Wake | InputClosed(clean: bool) | OutputFailed

  datatype Waiting = Waiting(id: Id, op: Operation)

  /** A running input job, with the session value it was planned from. */
  datatype Job = Job(id: Id, binding: Binding, base: Value)

  datatype Command = RunScript(id: Id, binding: Binding) | ResetScript(id: Id, binding: Binding)
                   | CloseScript(binding: Binding) | HostReply(id: Id) | WakeScript
  datatype Context = Context(binding: Binding, running: Option<Id>)

  datatype Reader = Reading | Closed(clean: bool)

  datatype Phase = Serving | Draining(clean: bool) | Closing(clean: bool, timedOut: bool) | Finished(clean: bool)

  /** A request carried out on a session, in the order of service. */
  datatype Served = Served(id: Id, session: Session)

  datatype Exec = Exec(
    last: Id, reader: Reader, received: set<Id>,
    pending: map<Id, Place>, cancelled: set<Id>,
    jobs: seq<Work>, deferred: seq<Waiting>, active: map<Session, Job>, captures: set<Id>,
    commands: seq<Command>, contexts: map<Session, Context>, scriptStopped: bool,
    sessions: map<Session, Value>,
    answered: seq<Id>, lost: set<Id>, phase: Phase,
    served: seq<Served>)

  /** Free choices of one step. */
  datatype Choice = Choice(sent: bool, sentToo: bool, noted: bool, routed: bool, starts: bool, value: Option<Value>)

  datatype Action =
    | ReadRequest(id: Id, op: Operation, choice: Choice)
    | ReadCancel(id: Id, choice: Choice)
    | ReadReply(id: Id, choice: Choice)
    | ReadEnd(clean: bool)
    | Dispatch(choice: Choice)
    | Receive(choice: Choice)
    | JobEnds(id: Id)
    | ScriptCommand(choice: Choice)
    | ScriptEnds(session: Session, choice: Choice)
    | OutputBreaks
    | Drain(choice: Choice)
    | DrainOver
    | AnswerDeferred(choice: Choice)
    | Stop
    | ScriptShutdown(choice: Choice)

  function Initial(): Exec {
    Exec(0, Reading, {}, map[], {}, [], [], map[], {}, [], map[], false, map[], [], {}, Serving, [])
  }

  /** A response leaves the pending table whether or not it could be sent. */
  function Respond(s: Exec, id: Id, sent: bool): Exec {
    var gone := s.(pending := s.pending - {id});
    if sent then gone.(answered := s.answered + [id]) else gone.(lost := s.lost + {id})
  }

  /** The executor leaves its service loop and cancels everything pending. */
  function Leave(s: Exec, clean: bool): Exec {
    s.(phase := Draining(clean), cancelled := s.cancelled + s.pending.Keys)
  }

  /** The executor stops serving, and stops being clean, at its first response that cannot be sent, and also
      when the response went out but the event that follows it could not (`noted` false). */
  function Answer(s: Exec, id: Id, c: Choice): Exec {
    var r := Respond(s, id, c.sent);
    if c.sent && c.noted then r
    else r.(phase := Draining(false), cancelled := if s.phase.Serving? then r.cancelled + r.pending.Keys else r.cancelled)
  }

  function Move(s: Exec, id: Id, place: Place): Exec {
    s.(pending := s.pending[id := place])
  }

  // ---------------------------------------------------------------- reader

  function CloseReader(s: Exec, clean: bool): Exec {
    s.(reader := Closed(clean), cancelled := s.cancelled + s.pending.Keys, jobs := s.jobs + [InputClosed(clean)])
  }

  /** The evaluations of a binding, waiting or running. */
  function Evaluations(s: Exec, b: Binding): set<Id> {
    (set i | 0 <= i < |s.commands| && s.commands[i].RunScript? && s.commands[i].binding == b :: s.commands[i].id)
    + (set k | k in s.contexts && s.contexts[k].binding == b && s.contexts[k].running.Some? :: s.contexts[k].running.value)
  }

  /** Every evaluation, waiting or running. */
  function AllEvaluations(s: Exec): set<Id> {
    (set i | 0 <= i < |s.commands| && s.commands[i].RunScript? :: s.commands[i].id)
    + (set k | k in s.contexts && s.contexts[k].running.Some? :: s.contexts[k].running.value)
  }

  /** A reset or a close interrupts the binding's evaluations at once, ahead of the queue. */
  function Interrupt(s: Exec, op: Operation): Exec {
    if op.Reset? || (op.OnSession? && op.kind == Close) then s.(cancelled := s.cancelled + Evaluations(s, op.binding)) else s
  }

  function Read(s: Exec, id: Id, op: Operation, c: Choice): Exec {
    if !s.reader.Reading? then s
    else if id <= s.last then CloseReader(s, false)
    else
      var s1 := s.(last := id, received := s.received + {id});
      if |s1.pending| >= MAX_PENDING then
        if c.sent then s1.(answered := s1.answered + [id]) else CloseReader(s1.(lost := s1.lost + {id}), false)
      else Enqueue(Interrupt(s1, op), id, op, c)
  }

  function Enqueue(s: Exec, id: Id, op: Operation, c: Choice): Exec {
    if (op.Evaluate? || op.Reset? || (op.OnSession? && op.kind == Close)) && !c.routed then
      // the bounded script queue refused the command; the reader gives up
      CloseReader(Move(s, id, Stranded), false)
    else if op.Evaluate? then Move(s, id, ScriptQueued).(commands := s.commands + [RunScript(id, op.binding)])
    else if op.Reset? then Move(s, id, ScriptQueued).(commands := s.commands + [ResetScript(id, op.binding)])
    else
      var s1 := if op.OnSession? && op.kind == Close then s.(commands := s.commands + [CloseScript(op.binding)]) else s;
      Move(s1, id, Queued).(jobs := s1.jobs + [Request(id, op)])
  }

  // ---------------------------------------------------------------- executor

  predicate Eligible(s: Exec, w: Waiting) {
    || w.id in s.cancelled
    || ((w.op.CaptureFrame? ==> |s.captures| < MAX_CAPTURE_JOBS)
        && (w.op.OnSession? ==> w.op.binding.session !in s.active))
  }

  function FirstEligible(s: Exec, from: nat): (r: Option<nat>)
    requires from <= |s.deferred|
    ensures r.Some? ==> from <= r.value < |s.deferred| && Eligible(s, s.deferred[r.value])
    ensures r.Some? ==> forall i :: from <= i < r.value ==> !Eligible(s, s.deferred[i])
    ensures r.None? ==> forall i :: from <= i < |s.deferred| ==> !Eligible(s, s.deferred[i])
    decreases |s.deferred| - from
  {
    if from == |s.deferred| then None
    else if Eligible(s, s.deferred[from]) then Some(from)
    else FirstEligible(s, from + 1)
  }

  function Store(sessions: map<Session, Value>, session: Session, value: Option<Value>): map<Session, Value> {
    if value.Some? then sessions[session := value.value] else sessions - {session}
  }

  /** Run one eligible request. A cancelled one fails its first check before touching any session and
      never starts a job. */
  function Serve(s: Exec, i: nat, c: Choice): Exec
    requires i < |s.deferred|
  {
    var w := s.deferred[i];
    var s1 := s.(deferred := s.deferred[..i] + s.deferred[i + 1..]);
    if w.id in s.cancelled then Answer(s1, w.id, c)
    else if w.op.CaptureFrame? && c.starts then
      Move(s1, w.id, Capturing).(captures := s1.captures + {w.id})
    else if w.op.OnSession? then
      var session := w.op.binding.session;
      var s2 := s1.(sessions := Store(s1.sessions, session, c.value), served := s1.served + [Served(w.id, session)]);
      if w.op.kind == Perform && c.starts && c.value.Some? then
        Move(s2, w.id, Running(session)).(active := s2.active[session := Job(w.id, w.op.binding, c.value.value)])
      else Answer(s2, w.id, c)
    else Answer(s1, w.id, c)
  }

  /** A lifecycle change cancels the running input of its exact binding and that binding's queued input. */
  function EndInput(s: Exec, id: Id, op: Operation): set<Id> {
    if id !in s.cancelled && op.OnSession? && (op.kind == Close || op.kind == Retarget)
       && op.binding.session in s.active && s.active[op.binding.session].binding == op.binding
    then
      {s.active[op.binding.session].id} +
      (set i | 0 <= i < |s.deferred| && s.deferred[i].op.OnSession? && s.deferred[i].op.binding == op.binding
               && (s.deferred[i].op.kind == Perform || s.deferred[i].op.kind == Press) :: s.deferred[i].id)
    else {}
  }

  function FinishCapture(s: Exec, id: Id, c: Choice): Exec {
    if id !in s.captures then s else Answer(s.(captures := s.captures - {id}), id, c)
  }

  ghost function FinishInput(s: Exec, id: Id, c: Choice): Exec {
    if k :| k in s.active && s.active[k].id == id then
      Answer(s.(active := s.active - {k}, sessions := Store(s.sessions, k, c.value)), id, c)
    else s
  }

  ghost function Handle(s: Exec, w: Work, c: Choice): Exec {
    match w
    case InputClosed(clean) => Leave(s, clean)
    case OutputFailed => Leave(s, false)
    case Wake => s
    case CaptureDone(id) => FinishCapture(s, id, c)
    case InputDone(id) => FinishInput(s, id, c)
    case Request(id, op) =>
      if op.Malformed? then Answer(s, id, c)
      else Move(s, id, Deferred).(cancelled := s.cancelled + EndInput(s, id, op), deferred := s.deferred + [Waiting(id, op)])
  }

  // ---------------------------------------------------------------- scripts

  /** The script thread gives up at its first response that cannot be sent. */
  function Reply(s: Exec, id: Id, sent: bool): Exec {
    var r := Respond(s, id, sent);
    if sent then r
    else r.(scriptStopped := true, cancelled := r.cancelled + r.pending.Keys, jobs := r.jobs + [OutputFailed])
  }

  function ClearContext(s: Exec, session: Session): Exec {
    s.(contexts := s.contexts - {session})
  }

  /** The answer to a script's call: one that cannot be delivered ends the evaluation with its context. */
  ghost function AcceptReply(s: Exec, id: Id, c: Choice): Exec {
    if k :| k in s.contexts && s.contexts[k].running == Some(id) then
      if c.starts then s else Reply(ClearContext(s, k), id, c.sent)
    else s
  }

  ghost function RunCommand(s: Exec, command: Command, c: Choice): Exec {
    match command
    case WakeScript => s
    case HostReply(id) => AcceptReply(s, id, c)
    case CloseScript(b) =>
      if b.session in s.contexts && s.contexts[b.session].binding == b then
        var running := s.contexts[b.session].running;
        var s1 := ClearContext(s, b.session);
        if running.Some? then Reply(s1, running.value, c.sent) else s1
      else s
    case ResetScript(id, b) =>
      if id !in s.cancelled && b.session in s.contexts && s.contexts[b.session].binding == b then
        var running := s.contexts[b.session].running;
        var s1 := ClearContext(s, b.session);
        var s2 := if running.Some? then Respond(s1, running.value, c.sentToo) else s1;
        Reply(s2, id, c.sent)
      else Reply(s, id, c.sent)
    case RunScript(id, b) =>
      var known := b.session in s.contexts;
      var fits := if known then s.contexts[b.session].binding == b && s.contexts[b.session].running.None?
                  else |s.contexts| < MAX_CONTEXTS;
      if id !in s.cancelled && fits && c.starts then
        Move(s, id, ScriptRunning(b.session)).(contexts := s.contexts[b.session := Context(b, Some(id))])
      else
        var s1 := if known && s.contexts[b.session].binding == b && s.contexts[b.session].running.None?
                  then ClearContext(s, b.session) else s;
        Reply(s1, id, c.sent)
  }

  /** A finished, failed or misanswered evaluation. A failed one discards its context. */
  function EndScript(s: Exec, session: Session, c: Choice): Exec {
    if session !in s.contexts || s.contexts[session].running.None? then s
    else
      var context := s.contexts[session];
      var s1 := if c.starts then s.(contexts := s.contexts[session := context.(running := None)])
                else ClearContext(s, session);
      Reply(s1, context.running.value, c.sent)
  }

  // ---------------------------------------------------------------- steps and runs

  /** Waking the script thread is best effort: a full queue is already a wake-up. */
  function ReadCancellation(s: Exec, id: Id, c: Choice): Exec {
    var s1 := if c.routed then s.(commands := s.commands + [WakeScript]) else s;
    if id in s1.pending && id !in s1.cancelled
    then s1.(cancelled := s1.cancelled + {id}, jobs := s1.jobs + [Wake]) else s1
  }

  function ReadHostReply(s: Exec, id: Id, c: Choice): Exec {
    if c.routed then s.(commands := s.commands + [HostReply(id)]) else CloseReader(s, false)
  }

  /** Once the transport is known to be closed, completions only leave the pending table. */
  ghost function DrainOne(s: Exec, c: Choice): Exec
    requires s.phase.Draining? && s.jobs != []
  {
    var s1, w := s.(jobs := s.jobs[1..]), s.jobs[0];
    if w.CaptureDone? || w.InputDone? then Handle(s1, w, c.(sent := c.sent && s.phase.clean))
    else if w.Request? then Move(s1, w.id, Stranded)
    else s1
  }

  function AnswerWaiting(s: Exec, c: Choice): Exec
    requires s.phase.Closing? && s.deferred != []
  {
    var s1 := Respond(s.(deferred := s.deferred[1..]), s.deferred[0].id, c.sent);
    if c.sent then s1 else s1.(phase := Closing(false, s.phase.timedOut))
  }

  /** The script thread ends its contexts one by one, then answers the commands left in its queue. */
  ghost function ShutdownOne(s: Exec, c: Choice): Exec {
    if k :| k in s.contexts then
      var running := s.contexts[k].running;
      if running.Some? then Reply(ClearContext(s, k), running.value, c.sent) else ClearContext(s, k)
    else if s.commands != [] then
      var s1 := s.(commands := s.commands[1..]);
      match s.commands[0]
      case RunScript(id, _) => Reply(s1, id, c.sent)
      case ResetScript(id, _) => Reply(s1, id, c.sent)
      case _ => s1
    else s
  }

  ghost function Apply(s: Exec, a: Action): Exec {
    match a
    case ReadRequest(id, op, c) => Read(s, id, op, c)
    case ReadCancel(id, c) => if s.reader.Reading? then ReadCancellation(s, id, c) else s
    case ReadReply(id, c) => if s.reader.Reading? then ReadHostReply(s, id, c) else s
    case ReadEnd(clean) => if s.reader.Reading? then CloseReader(s, clean) else s
    case Dispatch(c) =>
      var i := FirstEligible(s, 0);
      if s.phase.Serving? && i.Some? then Serve(s, i.value, c) else s
    case Receive(c) =>
      if s.phase.Serving? && s.jobs != [] then Handle(s.(jobs := s.jobs[1..]), s.jobs[0], c) else s
    case JobEnds(id) =>
      if id in s.captures then s.(jobs := s.jobs + [CaptureDone(id)]) else s.(jobs := s.jobs + [InputDone(id)])
    case OutputBreaks => s.(cancelled := s.cancelled + s.pending.Keys, jobs := s.jobs + [OutputFailed])
    case ScriptCommand(c) =>
      if !s.scriptStopped && s.commands != [] then RunCommand(s.(commands := s.commands[1..]), s.commands[0], c) else s
    case ScriptEnds(session, c) => if s.scriptStopped then s else EndScript(s, session, c)
    case Drain(c) => if s.phase.Draining? && s.jobs != [] then DrainOne(s, c) else s
    case DrainOver =>
      if s.phase.Draining? then s.(phase := Closing(s.phase.clean, s.active != map[] || s.captures != {})) else s
    case AnswerDeferred(c) =>
      if s.phase.Closing? && s.phase.clean && s.deferred != [] then AnswerWaiting(s, c) else s
    case Stop =>
      if s.phase.Closing? && (s.phase.clean ==> s.deferred == [])
      then s.(phase := Finished(s.phase.clean && !s.phase.timedOut), cancelled := s.cancelled + AllEvaluations(s)) else s
    case ScriptShutdown(c) => if s.phase.Finished? && !s.scriptStopped then ShutdownOne(s, c) else s
  }

  ghost function Run(actions: seq<Action>): Exec {
    if actions == [] then Initial() else Apply(Run(actions[..|actions| - 1]), actions[|actions| - 1])
  }
}
