/** Who is cancelled, what cancellation means, and what each step may reach.

    `Cancels` tells from the state and the step alone, without the program's own helpers, whom a step
    cancels. In every run exactly those requests are cancelled, and a cancelled request never starts. */
module ExecutorCancel {
  import opened Common
  import opened Executor
  import opened ExecutorSafety
  import opened ExecutorOrder

  /** The request is accepted: its id rises and the pending table has room. */
  predicate Accepted(s: Exec, a: Action) {
    a.ReadRequest? && s.reader.Reading? && a.id > s.last && |s.pending| < MAX_PENDING
  }

  /** Operations that the reader also sends to the script thread. */
  predicate Scripted(op: Operation) {
    op.Evaluate? || op.Reset? || (op.OnSession? && op.kind == Close)
  }

  /** The reader gives up: the end of the input, an id that does not rise, an answer or a command that
      cannot be passed on. */
  predicate ReaderFails(s: Exec, a: Action) {
    s.reader.Reading? &&
    match a
    case ReadEnd(_) => true
    case ReadReply(_, c) => !c.routed
    case ReadRequest(id, op, c) =>
      if id <= s.last then true
      else if |s.pending| >= MAX_PENDING then !c.sent
      else Scripted(op) && !c.routed
    case _ => false
  }

  /** The input ended, the output failed, or the script thread or the executor gave up. */
  ghost predicate Fails(s: Exec, a: Action) {
    || ReaderFails(s, a) || a.OutputBreaks? || (!s.scriptStopped && Apply(s, a).scriptStopped)
    || Leaves(s, Apply(s, a))
  }

  predicate Leaves(s: Exec, s': Exec) {
    s.phase.Serving? && s'.phase.Draining?
  }

  /** An evaluation of exactly this binding, waiting or running. */
  ghost predicate Evaluating(s: Exec, b: Binding, id: Id) {
    || (exists i :: 0 <= i < |s.commands| && s.commands[i] == RunScript(id, b))
    || (exists k :: k in s.contexts && s.contexts[k] == Context(b, Some(id)))
  }

  /** The input of exactly this binding: its running job, or a waiting plan, click or press. */
  ghost predicate InputOf(s: Exec, b: Binding, id: Id) {
    || (b.session in s.active && s.active[b.session].id == id)
    || (exists i :: 0 <= i < |s.deferred|
          && (s.deferred[i] == Waiting(id, OnSession(b, Perform)) || s.deferred[i] == Waiting(id, OnSession(b, Press))))
  }

  /** A close or retarget, itself not cancelled, that meets a running input of exactly its binding. */
  predicate EndsInput(s: Exec, w: Work) {
    && w.Request? && w.id !in s.cancelled && w.op.OnSession? && (w.op.kind == Close || w.op.kind == Retarget)
    && w.op.binding.session in s.active && s.active[w.op.binding.session].binding == w.op.binding
  }

  ghost predicate Cancels(s: Exec, a: Action, id: Id) {
    || (a.ReadCancel? && s.reader.Reading? && a.id == id && id in s.pending)
    || (Accepted(s, a) && (a.op.Reset? || (a.op.OnSession? && a.op.kind == Close)) && Evaluating(s, a.op.binding, id))
    || (a.Receive? && s.phase.Serving? && s.jobs != [] && EndsInput(s, s.jobs[0]) && InputOf(s, s.jobs[0].op.binding, id))
    || (a.Stop? && Apply(s, a).phase.Finished? && !s.phase.Finished? && exists b :: Evaluating(s, b, id))
    || (Fails(s, a) && id in Apply(s, a).pending)
  }

  // ---------------------------------------------------------------- step by step

  /** No evaluation among `ids` starts. */
  ghost predicate StartsNone(ids: set<Id>, contexts: map<Session, Context>, contexts': map<Session, Context>) {
    forall k, id :: id in ids && IsRunning(contexts', k, id) ==> IsRunning(contexts, k, id)
  }

  lemma DropStartsNone(ids: set<Id>, contexts: map<Session, Context>, k: Session)
    ensures StartsNone(ids, contexts, contexts) && StartsNone(ids, contexts, contexts - {k})
    ensures k in contexts ==> StartsNone(ids, contexts, contexts[k := contexts[k].(running := None)])
  {
  }

  /** The script thread's steps: nobody is cancelled, or the thread gives up and everyone pending is. No
      cancelled evaluation starts, and nothing of the executor thread changes. */
  ghost predicate Gives(s: Exec, s': Exec) {
    && s'.reader == s.reader && s'.phase == s.phase && Unserved(s, s') && StartsNone(s.cancelled, s.contexts, s'.contexts)
    && (if s'.scriptStopped && !s.scriptStopped
        then s'.cancelled == s.cancelled + s'.pending.Keys && s'.pending.Keys <= s.pending.Keys
        else s'.scriptStopped == s.scriptStopped && s'.cancelled == s.cancelled)
  }

  predicate Unserved(s: Exec, s': Exec) {
    s'.served == s.served && s'.active == s.active && s'.captures == s.captures && s'.sessions == s.sessions
  }

  lemma ReplyGives(s: Exec, id: Id, sent: bool)
    requires !s.scriptStopped
    ensures Gives(s, Reply(s, id, sent)) && Gives(s, s)
    ensures sent ==> !Reply(s, id, sent).scriptStopped
  {
  }

  lemma GivesFrom(s: Exec, s1: Exec, s2: Exec)
    requires Gives(s1, s2) && s1.reader == s.reader && s1.phase == s.phase && s1.scriptStopped == s.scriptStopped && s1.cancelled == s.cancelled
    requires s1.pending.Keys <= s.pending.Keys && Unserved(s, s1) && StartsNone(s.cancelled, s.contexts, s1.contexts)
    ensures Gives(s, s2)
  {
    hide IsRunning;
  }

  lemma ContextGives(s: Exec, contexts: map<Session, Context>, id: Id, sent: bool)
    requires !s.scriptStopped && StartsNone(s.cancelled, s.contexts, contexts)
    ensures Gives(s, Reply(s.(contexts := contexts), id, sent)) && Gives(s, s.(contexts := contexts))
  {
    hide Reply, StartsNone;
    DropStartsNone(s.cancelled, contexts, "");
    ReplyGives(s.(contexts := contexts), id, sent);
    GivesFrom(s, s.(contexts := contexts), Reply(s.(contexts := contexts), id, sent));
  }

  lemma CommandGives(s: Exec, command: Command, c: Choice)
    requires !s.scriptStopped
    ensures Gives(s, RunCommand(s, command, c))
  {
    hide Reply, Gives, Respond, StartsNone;
    ReplyGives(s, 0, true);
    match command
    case WakeScript =>
    case HostReply(id) =>
      forall k ensures Gives(s, Reply(ClearContext(s, k), id, c.sent)) {
        DropStartsNone(s.cancelled, s.contexts, k);
        ContextGives(s, s.contexts - {k}, id, c.sent);
      }
    case CloseScript(b) =>
      DropStartsNone(s.cancelled, s.contexts, b.session);
      ContextGives(s, s.contexts - {b.session}, 0, c.sent);
      if b.session in s.contexts && s.contexts[b.session].running.Some? {
        ContextGives(s, s.contexts - {b.session}, s.contexts[b.session].running.value, c.sent);
      }
    case ResetScript(id, b) => ResetGives(s, id, b, c);
    case RunScript(id, b) =>
      ReplyGives(s, id, c.sent);
      DropStartsNone(s.cancelled, s.contexts, b.session);
      ContextGives(s, s.contexts - {b.session}, id, c.sent);
      if id !in s.cancelled {
        StartGives(s, id, b);
      }
  }

  lemma StartGives(s: Exec, id: Id, b: Binding)
    requires id !in s.cancelled
    ensures Gives(s, Move(s, id, ScriptRunning(b.session)).(contexts := s.contexts[b.session := Context(b, Some(id))]))
  {
  }

  lemma ResetGives(s: Exec, id: Id, b: Binding, c: Choice)
    requires !s.scriptStopped
    ensures Gives(s, RunCommand(s, ResetScript(id, b), c))
  {
    hide Reply, Gives, Respond, StartsNone;
    ReplyGives(s, id, c.sent);
    if b.session in s.contexts {
      var s1 := ClearContext(s, b.session);
      var running := s.contexts[b.session].running;
      var s2 := if running.Some? then Respond(s1, running.value, c.sentToo) else s1;
      if running.Some? {
        RespondFrame(s1, running.value, c.sentToo);
      }
      DropStartsNone(s.cancelled, s.contexts, b.session);
      ReplyGives(s2, id, c.sent);
      GivesFrom(s, s2, Reply(s2, id, c.sent));
    }
  }

  lemma RespondFrame(s: Exec, id: Id, sent: bool)
    ensures var s' := Respond(s, id, sent);
            && s'.reader == s.reader && s'.scriptStopped == s.scriptStopped && s'.cancelled == s.cancelled
            && s'.active == s.active && s'.captures == s.captures && s'.served == s.served && s'.contexts == s.contexts
            && s'.sessions == s.sessions && s'.pending.Keys <= s.pending.Keys && s'.phase == s.phase
  {
  }

  lemma EndGives(s: Exec, session: Session, c: Choice)
    requires !s.scriptStopped
    ensures Gives(s, EndScript(s, session, c))
  {
    hide Reply, Gives, StartsNone;
    ReplyGives(s, 0, true);
    if session in s.contexts && s.contexts[session].running.Some? {
      DropStartsNone(s.cancelled, s.contexts, session);
      ContextGives(s, s.contexts[session := s.contexts[session].(running := None)], s.contexts[session].running.value, c.sent);
      ContextGives(s, s.contexts - {session}, s.contexts[session].running.value, c.sent);
    }
  }

  lemma ShutdownGives(s: Exec, c: Choice)
    requires !s.scriptStopped
    ensures Gives(s, ShutdownOne(s, c))
  {
    hide Reply, Gives, StartsNone;
    ReplyGives(s, 0, true);
    if s.contexts != map[] {
      forall k | k in s.contexts
        ensures var running := s.contexts[k].running;
                Gives(s, if running.Some? then Reply(ClearContext(s, k), running.value, c.sent) else ClearContext(s, k))
      {
        var running := s.contexts[k].running;
        DropStartsNone(s.cancelled, s.contexts, k);
        ContextGives(s, s.contexts - {k}, if running.Some? then running.value else 0, c.sent);
      }
    } else if s.commands != [] {
      var s1 := s.(commands := s.commands[1..]);
      PoppedGives(s, 0, c);
      if s.commands[0].RunScript? || s.commands[0].ResetScript? {
        PoppedGives(s, s.commands[0].id, c);
      }
    }
  }

  lemma PoppedGives(s: Exec, id: Id, c: Choice)
    requires s.commands != [] && !s.scriptStopped
    ensures var s1 := s.(commands := s.commands[1..]);
            Gives(s, s1) && Gives(s, Reply(s1, id, c.sent))
  {
    hide Reply, StartsNone;
    DropStartsNone(s.cancelled, s.contexts, "");
    ReplyGives(s.(commands := s.commands[1..]), id, c.sent);
    GivesFrom(s, s.(commands := s.commands[1..]), Reply(s.(commands := s.commands[1..]), id, c.sent));
  }

  lemma ScriptGives(s: Exec, a: Action)
    requires a.ScriptCommand? || a.ScriptEnds? || a.ScriptShutdown?
    ensures Gives(s, Apply(s, a))
  {
    hide Gives, CloseReader, Read, Serve, Handle, RunCommand, EndScript, DrainOne, AnswerWaiting, ShutdownOne,
         ReadCancellation, ReadHostReply, StartsNone;
    if s.scriptStopped {
      NothingGives(s);
    } else {
      ReplyGives(s, 0, true);
      match a
      case ScriptCommand(c) =>
        if s.commands != [] {
          var s1 := s.(commands := s.commands[1..]);
          DropStartsNone(s.cancelled, s.contexts, "");
          CommandGives(s1, s.commands[0], c);
          GivesFrom(s, s1, RunCommand(s1, s.commands[0], c));
        }
      case ScriptEnds(k, c) => EndGives(s, k, c);
      case ScriptShutdown(c) => ShutdownGives(s, c);
    }
  }

  lemma NothingGives(s: Exec)
    ensures Gives(s, s)
  {
  }

  /** The executor thread's own steps cancel nobody, unless it leaves its loop and cancels everyone. */
  ghost predicate Spares(s: Exec, s': Exec) {
    && s'.reader == s.reader && s'.scriptStopped == s.scriptStopped
    && s'.cancelled == s.cancelled + (if Leaves(s, s') then s'.pending.Keys else {})
    && (Leaves(s, s') ==> s'.pending.Keys <= s.pending.Keys)
  }

  lemma AnswerSpares(s: Exec, id: Id, c: Choice)
    ensures Spares(s, Answer(s, id, c))
  {
    hide Respond;
    RespondFrame(s, id, c.sent);
  }

  lemma ServeSpares(s: Exec, i: nat, c: Choice)
    requires i < |s.deferred|
    ensures Spares(s, Serve(s, i, c))
  {
    hide Answer, Store;
    var w := s.deferred[i];
    var s1 := s.(deferred := s.deferred[..i] + s.deferred[i + 1..]);
    AnswerSpares(s1, w.id, c);
    if w.op.OnSession? {
      AnswerSpares(s1.(sessions := Store(s1.sessions, w.op.binding.session, c.value),
                       served := s1.served + [Served(w.id, w.op.binding.session)]), w.id, c);
    }
  }

  lemma FinishSpares(s: Exec, id: Id, c: Choice)
    ensures Spares(s, FinishInput(s, id, c)) && Spares(s, FinishCapture(s, id, c))
  {
    hide Answer, Store;
    AnswerSpares(s.(captures := s.captures - {id}), id, c);
    forall k ensures Spares(s, Answer(s.(active := s.active - {k}, sessions := Store(s.sessions, k, c.value)), id, c)) {
      AnswerSpares(s.(active := s.active - {k}, sessions := Store(s.sessions, k, c.value)), id, c);
    }
  }

  /** Whom the handling of a piece of work cancels: the input that a lifecycle request ends. */
  ghost function Ended(s: Exec, w: Work): set<Id> {
    if w.Request? && !w.op.Malformed? then EndInput(s, w.id, w.op) else {}
  }

  lemma NoneEnded(s: Exec, w: Work)
    requires !w.Request?
    ensures Ended(s, w) == {}
  {
  }

  lemma HandleSpares(s: Exec, w: Work, c: Choice)
    requires s.phase.Serving? || w.InputDone? || w.CaptureDone?
    ensures var s' := Handle(s, w, c);
            && s'.reader == s.reader && s'.scriptStopped == s.scriptStopped
            && s'.cancelled == s.cancelled + Ended(s, w) + (if Leaves(s, s') then s'.pending.Keys else {})
            && (Leaves(s, s') ==> s'.pending.Keys <= s.pending.Keys)
  {
    hide Answer, FinishInput, FinishCapture, EndInput;
    match w
    case CaptureDone(id) => FinishSpares(s, id, c);
    case InputDone(id) => FinishSpares(s, id, c);
    case Request(id, op) => AnswerSpares(s, id, c);
    case _ =>
  }

  lemma InputsEnded(s: Exec, w: Work, id: Id)
    requires w.Request?
    ensures id in EndInput(s, w.id, w.op) <==> EndsInput(s, w) && InputOf(s, w.op.binding, id)
  {
    if EndsInput(s, w) {
      var b := w.op.binding;
      if i :| 0 <= i < |s.deferred|
              && (s.deferred[i] == Waiting(id, OnSession(b, Perform)) || s.deferred[i] == Waiting(id, OnSession(b, Press)))
      {
        assert s.deferred[i].op.binding == b;
      }
    }
  }

  lemma EvaluationsAre(s: Exec, b: Binding, id: Id)
    ensures id in Evaluations(s, b) <==> Evaluating(s, b, id)
  {
    if id in Evaluations(s, b) {
      if i :| 0 <= i < |s.commands| && s.commands[i].RunScript? && s.commands[i].binding == b && s.commands[i].id == id {
        assert s.commands[i] == RunScript(id, b);
      } else {
        var k :| k in s.contexts && s.contexts[k].binding == b && s.contexts[k].running.Some? && s.contexts[k].running.value == id;
        assert s.contexts[k] == Context(b, Some(id));
      }
    }
  }

  lemma CloseCancels(s: Exec, clean: bool)
    ensures var s' := CloseReader(s, clean);
            && s'.scriptStopped == s.scriptStopped && s'.phase == s.phase && s'.pending == s.pending && s'.reader == Closed(clean)
            && s'.cancelled == s.cancelled + s.pending.Keys
  {
  }

  lemma EnqueueFails(s: Exec, id: Id, op: Operation, c: Choice)
    requires Scripted(op) && !c.routed
    ensures Enqueue(s, id, op, c) == CloseReader(Move(s, id, Stranded), false)
  {
    hide CloseReader, Move;
  }

  lemma EnqueueQueues(s: Exec, id: Id, op: Operation, c: Choice)
    requires !(Scripted(op) && !c.routed)
    ensures var s' := Enqueue(s, id, op, c);
            && s'.scriptStopped == s.scriptStopped && s'.pending.Keys <= s.pending.Keys + {id}
            && s'.reader == s.reader && s'.phase == s.phase && s'.cancelled == s.cancelled
  {
    hide CloseReader;
  }

  lemma EnqueueCancels(s: Exec, id: Id, op: Operation, c: Choice)
    ensures var s', fails := Enqueue(s, id, op, c), Scripted(op) && !c.routed;
            && s'.scriptStopped == s.scriptStopped && s'.phase == s.phase && s'.pending.Keys <= s.pending.Keys + {id}
            && s'.reader == (if fails then Closed(false) else s.reader)
            && s'.cancelled == s.cancelled + (if fails then s'.pending.Keys else {})
  {
    hide CloseReader, Enqueue, Scripted;
    if Scripted(op) && !c.routed {
      EnqueueFails(s, id, op, c);
      CloseCancels(Move(s, id, Stranded), false);
    } else {
      EnqueueQueues(s, id, op, c);
    }
  }

  /** Whom the reading of a request interrupts before it is queued. */
  ghost function Interrupted(s: Exec, a: Action): set<Id> {
    if Accepted(s, a) && (a.op.Reset? || (a.op.OnSession? && a.op.kind == Close)) then Evaluations(s, a.op.binding) else {}
  }

  lemma InterruptCancels(s: Exec, id: Id, op: Operation)
    ensures var s' := Interrupt(s.(last := id, received := s.received + {id}), op);
            && s'.scriptStopped == s.scriptStopped && s'.phase == s.phase && s'.pending == s.pending && s'.reader == s.reader
            && s'.cancelled
               == s.cancelled + if op.Reset? || (op.OnSession? && op.kind == Close) then Evaluations(s, op.binding) else {}
  {
    hide Evaluations;
    SameEvaluations(s, id, op);
  }

  /** Reading a request: a reset or close interrupts evaluations, and a failing reader takes everyone along. */
  ghost predicate ReadsSoundly(s: Exec, a: Action, s': Exec) {
    && s'.scriptStopped == s.scriptStopped && s'.phase == s.phase
    && (forall x :: x in s'.pending ==> x in s.pending || (a.ReadRequest? && x == a.id))
    && s'.reader == (if ReaderFails(s, a) then Closed(false) else s.reader)
    && s'.cancelled == s.cancelled + Interrupted(s, a) + (if ReaderFails(s, a) then s'.pending.Keys else {})
  }

  lemma NoInterrupt(s: Exec, a: Action)
    requires !Accepted(s, a)
    ensures Interrupted(s, a) == {}
  {
    hide Evaluations;
  }

  /** Reading that does not get as far as queueing. */
  lemma ReadRefused(s: Exec, id: Id, op: Operation, c: Choice)
    requires !Accepted(s, ReadRequest(id, op, c)) && s.reader.Reading?
    ensures var s1 := s.(last := id, received := s.received + {id});
            Read(s, id, op, c)
            == if id <= s.last then CloseReader(s, false)
               else if c.sent then s1.(answered := s1.answered + [id])
               else CloseReader(s1.(lost := s1.lost + {id}), false)
  {
    hide CloseReader, Enqueue, Interrupt;
  }

  lemma RefuseCancels(s: Exec, id: Id, op: Operation, c: Choice)
    requires !Accepted(s, ReadRequest(id, op, c))
    ensures ReadsSoundly(s, ReadRequest(id, op, c), Read(s, id, op, c))
  {
    hide Read, CloseReader, Scripted, Interrupted;
    NoInterrupt(s, ReadRequest(id, op, c));
    if s.reader.Reading? {
      ReadRefused(s, id, op, c);
      if id <= s.last {
        CloseCancels(s, false);
      } else if !c.sent {
        var s1 := s.(last := id, received := s.received + {id});
        CloseCancels(s1.(lost := s1.lost + {id}), false);
      }
    } else {
      ReadNothing(s, id, op, c);
    }
  }

  lemma ReadNothing(s: Exec, id: Id, op: Operation, c: Choice)
    requires !s.reader.Reading?
    ensures Read(s, id, op, c) == s
  {
  }

  lemma ReadAccepted(s: Exec, id: Id, op: Operation, c: Choice)
    requires Accepted(s, ReadRequest(id, op, c))
    ensures Read(s, id, op, c) == Enqueue(Interrupt(s.(last := id, received := s.received + {id}), op), id, op, c)
  {
    hide Enqueue, Interrupt, CloseReader;
  }

  lemma AcceptCancels(s: Exec, id: Id, op: Operation, c: Choice)
    requires Accepted(s, ReadRequest(id, op, c))
    ensures ReadsSoundly(s, ReadRequest(id, op, c), Read(s, id, op, c))
  {
    hide Read, Evaluations, Enqueue, Interrupt, Scripted;
    ReadAccepted(s, id, op, c);
    InterruptCancels(s, id, op);
    EnqueueCancels(Interrupt(s.(last := id, received := s.received + {id}), op), id, op, c);
  }

  lemma ReadCancels(s: Exec, id: Id, op: Operation, c: Choice)
    ensures ReadsSoundly(s, ReadRequest(id, op, c), Read(s, id, op, c))
  {
    hide Read, ReadsSoundly, Accepted;
    if Accepted(s, ReadRequest(id, op, c)) {
      AcceptCancels(s, id, op, c);
    } else {
      RefuseCancels(s, id, op, c);
    }
  }

  lemma SameEvaluations(s: Exec, id: Id, op: Operation)
    ensures op.Reset? || op.OnSession? ==>
              Evaluations(s.(last := id, received := s.received + {id}), op.binding) == Evaluations(s, op.binding)
  {
  }

  /** What the executor thread's steps come to. */
  lemma DispatchApplies(s: Exec, c: Choice)
    ensures var i := FirstEligible(s, 0);
            Apply(s, Dispatch(c)) == if s.phase.Serving? && i.Some? then Serve(s, i.value, c) else s
  {
    hide Serve, Eligible;
  }

  lemma ReceiveApplies(s: Exec, c: Choice)
    ensures Apply(s, Receive(c))
            == if s.phase.Serving? && s.jobs != [] then Handle(s.(jobs := s.jobs[1..]), s.jobs[0], c) else s
  {
    hide Handle;
  }

  lemma DrainApplies(s: Exec, c: Choice)
    ensures Apply(s, Drain(c)) == if s.phase.Draining? && s.jobs != [] then DrainOne(s, c) else s
  {
    hide DrainOne;
  }

  lemma DrainSpares(s: Exec, c: Choice)
    requires s.phase.Draining? && s.jobs != []
    ensures Spares(s, DrainOne(s, c))
  {
    hide Handle, EndInput, Ended;
    var s1, w := s.(jobs := s.jobs[1..]), s.jobs[0];
    if w.InputDone? || w.CaptureDone? {
      HandleSpares(s1, w, c.(sent := c.sent && s.phase.clean));
      NoneEnded(s1, w);
    }
  }

  /** The step's cancellations are told by `Cancels`; its other effects on the reader and on who is pending. */
  ghost predicate Tells(s: Exec, a: Action, id: Id) {
    var s' := Apply(s, a);
    && s'.reader == s.reader && s'.scriptStopped == s.scriptStopped
    && (id in s'.cancelled <==> id in s.cancelled || Cancels(s, a, id))
    && (Leaves(s, s') ==> s'.pending.Keys <= s.pending.Keys)
  }

  lemma DispatchTells(s: Exec, c: Choice, id: Id)
    ensures Tells(s, Dispatch(c), id)
  {
    hide Apply, Serve, Eligible;
    DispatchApplies(s, c);
    var i := FirstEligible(s, 0);
    if i.Some? {
      ServeSpares(s, i.value, c);
    }
  }

  lemma ReceiveTells(s: Exec, c: Choice, id: Id)
    ensures Tells(s, Receive(c), id)
  {
    hide Apply, Handle, EndInput, InputOf, EndsInput;
    ReceiveApplies(s, c);
    if s.phase.Serving? && s.jobs != [] {
      var s1 := s.(jobs := s.jobs[1..]);
      HandleSpares(s1, s.jobs[0], c);
      SameInput(s, s1, s.jobs[0], id);
      NoRequest(s, s.jobs[0]);
      if s.jobs[0].Request? {
        InputsEnded(s1, s.jobs[0], id);
      }
    }
  }

  lemma DrainTells(s: Exec, c: Choice, id: Id)
    ensures Tells(s, Drain(c), id)
  {
    hide Apply, DrainOne;
    DrainApplies(s, c);
    if s.phase.Draining? && s.jobs != [] {
      DrainSpares(s, c);
    }
  }

  lemma ExecutorCancels(s: Exec, a: Action, id: Id)
    requires a.Dispatch? || a.Receive? || a.Drain?
    ensures Tells(s, a, id)
  {
    hide Tells;
    match a
    case Dispatch(c) => DispatchTells(s, c, id);
    case Receive(c) => ReceiveTells(s, c, id);
    case Drain(c) => DrainTells(s, c, id);
  }

  lemma NoRequest(s: Exec, w: Work)
    ensures EndsInput(s, w) ==> w.Request? && !w.op.Malformed?
  {
  }

  lemma SameInput(s: Exec, s1: Exec, w: Work, id: Id)
    requires s1.active == s.active && s1.deferred == s.deferred && s1.cancelled == s.cancelled
    ensures EndsInput(s1, w) == EndsInput(s, w)
    ensures EndsInput(s, w) ==> InputOf(s1, w.op.binding, id) == InputOf(s, w.op.binding, id)
  {
  }

  lemma RequestCancels(s: Exec, a: Action, id: Id)
    requires a.ReadRequest?
    ensures var s' := Apply(s, a);
            && s'.scriptStopped == s.scriptStopped && (s'.reader.Closed? <==> s.reader.Closed? || ReaderFails(s, a))
            && (id in s'.cancelled <==> id in s.cancelled || Cancels(s, a, id))
  {
    hide Apply, Evaluating, Evaluations, Accepted;
    ReadApplies(s, a);
    ReadCancels(s, a.id, a.op, a.choice);
    if a.op.Reset? || a.op.OnSession? {
      EvaluationsAre(s, a.op.binding, id);
    }
  }

  lemma MessageFrame(s: Exec, a: Action)
    requires a.ReadCancel? || a.ReadReply? || a.ReadEnd?
    ensures var s' := Apply(s, a);
            && s'.scriptStopped == s.scriptStopped && s'.phase == s.phase && s'.pending == s.pending
            && (s'.reader.Closed? <==> s.reader.Closed? || ReaderFails(s, a))
            && s'.cancelled == s.cancelled + (if ReaderFails(s, a) then s.pending.Keys else {})
               + if a.ReadCancel? && s.reader.Reading? && a.id in s.pending then {a.id} else {}
  {
    hide Apply, CloseReader, ReadCancellation;
    MessageApplies(s, a);
    match a
    case ReadCancel(id, c) => CancellationFrame(s, id, c);
    case ReadReply(id, c) => CloseCancels(s, false);
    case ReadEnd(clean) => CloseCancels(s, clean);
  }

  lemma MessageApplies(s: Exec, a: Action)
    requires a.ReadCancel? || a.ReadReply? || a.ReadEnd?
    ensures Apply(s, a)
            == if !s.reader.Reading? then s
               else match a
                 case ReadCancel(id, c) => ReadCancellation(s, id, c)
                 case ReadReply(id, c) =>
                   if c.routed then s.(commands := s.commands + [HostReply(id)]) else CloseReader(s, false)
                 case ReadEnd(clean) => CloseReader(s, clean)
  {
    hide ReadCancellation, CloseReader;
  }

  lemma CancellationFrame(s: Exec, id: Id, c: Choice)
    ensures var s' := ReadCancellation(s, id, c);
            && s'.scriptStopped == s.scriptStopped && s'.phase == s.phase && s'.pending == s.pending && s'.reader == s.reader
            && s'.cancelled == s.cancelled + if id in s.pending then {id} else {}
  {
  }

  lemma OtherFrame(s: Exec, a: Action)
    requires a.JobEnds? || a.OutputBreaks? || a.DrainOver? || a.AnswerDeferred? || a.Stop?
    ensures var s' := Apply(s, a);
            && s'.scriptStopped == s.scriptStopped && s'.reader == s.reader && !Leaves(s, s')
            && s'.pending.Keys <= s.pending.Keys
            && s'.cancelled == s.cancelled + (if a.OutputBreaks? then s'.pending.Keys
                                              else if a.Stop? && s'.phase.Finished? && !s.phase.Finished? then AllEvaluations(s) else {})
  {
    hide Serve, Handle, Read, ReadCancellation, ReadHostReply, CloseReader, RunCommand, EndScript, ShutdownOne, DrainOne,
         AnswerWaiting, AllEvaluations;
    if a.AnswerDeferred? && s.phase.Closing? && s.deferred != [] {
      WaitingFrame(s, a.choice);
    }
  }

  lemma AllEvaluationsAre(s: Exec, id: Id)
    ensures id in AllEvaluations(s) <==> exists b :: Evaluating(s, b, id)
  {
    if id in AllEvaluations(s) {
      if i :| 0 <= i < |s.commands| && s.commands[i].RunScript? && s.commands[i].id == id {
        assert s.commands[i] == RunScript(id, s.commands[i].binding);
        assert Evaluating(s, s.commands[i].binding, id);
      } else {
        var k :| k in s.contexts && s.contexts[k].running.Some? && s.contexts[k].running.value == id;
        assert s.contexts[k] == Context(s.contexts[k].binding, Some(id));
        assert Evaluating(s, s.contexts[k].binding, id);
      }
    }
    if b :| Evaluating(s, b, id) {
      if i :| 0 <= i < |s.commands| && s.commands[i] == RunScript(id, b) {
        assert s.commands[i].RunScript? && s.commands[i].id == id;
      } else {
        var k :| k in s.contexts && s.contexts[k] == Context(b, Some(id));
        assert s.contexts[k].running.Some? && s.contexts[k].running.value == id;
      }
    }
  }

  lemma WaitingFrame(s: Exec, c: Choice)
    requires s.phase.Closing? && s.deferred != []
    ensures var s' := AnswerWaiting(s, c);
            && s'.scriptStopped == s.scriptStopped && s'.reader == s.reader && s'.pending.Keys <= s.pending.Keys
            && s'.cancelled == s.cancelled && s'.phase.Closing? && Unserved(s, s') && s'.contexts == s.contexts
  {
  }

  /** A step cancels exactly those `Cancels` names, and closes the reader exactly when it fails. */
  lemma CancelStep(s: Exec, a: Action, id: Id)
    ensures id in Apply(s, a).cancelled <==> id in s.cancelled || Cancels(s, a, id)
    ensures Apply(s, a).reader.Closed? <==> s.reader.Closed? || ReaderFails(s, a)
  {
    hide Apply, InputOf, Evaluating, EndsInput;
    if a.Dispatch? || a.Receive? || a.Drain? {
      ExecutorCancels(s, a, id);
    } else if a.ReadRequest? {
      RequestCancels(s, a, id);
    } else if a.ReadCancel? || a.ReadReply? || a.ReadEnd? {
      MessageFrame(s, a);
    } else if a.ScriptCommand? || a.ScriptEnds? || a.ScriptShutdown? {
      ScriptGives(s, a);
    } else {
      OtherFrame(s, a);
      AllEvaluationsAre(s, id);
    }
  }

  /** Step `i` of a run cancels the request. */
  ghost predicate CancelsAt(actions: seq<Action>, i: int, id: Id) {
    0 <= i < |actions| && Cancels(Run(actions[..i]), actions[i], id)
  }

  lemma SameAt(actions: seq<Action>, n: nat, i: int, id: Id)
    requires i < n <= |actions|
    ensures CancelsAt(actions, i, id) <==> CancelsAt(actions[..n], i, id)
  {
    hide Run, Cancels;
    if 0 <= i {
      assert actions[..n][..i] == actions[..i];
    }
  }

  /** In every run a request is cancelled exactly when some step of it named it: a cancellation read while it
      was pending, a lifecycle change that reached its input, a reset or close that reached its evaluation, the
      failure of the reader, the output, the script thread or the executor, or the final stop of scripts. */
  lemma {:induction false} CancelledExactly(actions: seq<Action>, id: Id)
    ensures id in Run(actions).cancelled
            <==> exists i :: 0 <= i < |actions| && Cancels(Run(actions[..i]), actions[i], id)
  {
    hide Apply, Cancels;
    CancelledAt(actions, id);
    if i :| CancelsAt(actions, i, id) {
      assert Cancels(Run(actions[..i]), actions[i], id);
    }
    if i :| 0 <= i < |actions| && Cancels(Run(actions[..i]), actions[i], id) {
      assert CancelsAt(actions, i, id);
    }
  }

  lemma {:induction false} CancelledAt(actions: seq<Action>, id: Id)
    ensures id in Run(actions).cancelled <==> exists i :: CancelsAt(actions, i, id)
  {
    if actions != [] {
      hide Apply, CancelsAt;
      var n := |actions| - 1;
      CancelledAt(actions[..n], id);
      CancelStep(Run(actions[..n]), actions[n], id);
      LastAt(actions, id);
      forall i ensures CancelsAt(actions, i, id) <==> CancelsAt(actions[..n], i, id) || (i == n && CancelsAt(actions, n, id)) {
        if i < n {
          SameAt(actions, n, i, id);
        } else {
          Outside(actions, n, i, id);
        }
      }
    }
  }

  lemma LastAt(actions: seq<Action>, id: Id)
    requires actions != []
    ensures var n := |actions| - 1; CancelsAt(actions, n, id) <==> Cancels(Run(actions[..n]), actions[n], id)
  {
  }

  lemma Outside(actions: seq<Action>, n: nat, i: int, id: Id)
    requires n + 1 == |actions| && n <= i
    ensures !CancelsAt(actions[..n], i, id) && (i != n ==> !CancelsAt(actions, i, id))
  {
  }

  // ---------------------------------------------------------------- nobody else is hit

  /** A failing step adds nobody to the pending table but the request it was reading. */
  lemma FailingAddsNobody(s: Exec, a: Action, id: Id)
    requires Fails(s, a) && id in Apply(s, a).pending
    ensures id in s.pending || (a.ReadRequest? && a.id == id)
  {
    hide Apply;
    if a.ReadRequest? {
      ReadApplies(s, a);
      ReadCancels(s, a.id, a.op, a.choice);
    } else if a.ReadCancel? || a.ReadReply? || a.ReadEnd? {
      MessageFrame(s, a);
    } else if a.ScriptCommand? || a.ScriptEnds? || a.ScriptShutdown? {
      ScriptGives(s, a);
    } else if a.Dispatch? || a.Receive? || a.Drain? {
      ExecutorCancels(s, a, id);
    } else {
      OtherFrame(s, a);
    }
  }

  /** Only pending requests are ever cancelled; the one exception is a request whose own reading fails. */
  lemma OnlyPending(actions: seq<Action>, a: Action, id: Id)
    requires Cancels(Run(actions), a, id)
    ensures var s := Run(actions); id in s.pending || (a.ReadRequest? && a.id == id && id in Apply(s, a).pending)
  {
    hide Run, Apply, Mid, Evaluating, InputOf;
    var s := Run(actions);
    RunKeeps(actions);
    PendingPlaces(s, {});
    if Accepted(s, a) && (a.op.Reset? || a.op.OnSession?) && Evaluating(s, a.op.binding, id) {
      EvaluatingListed(s, a.op.binding, id);
    } else if a.Receive? && s.jobs != [] && EndsInput(s, s.jobs[0]) && InputOf(s, s.jobs[0].op.binding, id) {
      InputListed(s, s.jobs[0].op.binding, id);
    } else if b :| a.Stop? && Evaluating(s, b, id) {
      EvaluatingListed(s, b, id);
    } else if Fails(s, a) && id in Apply(s, a).pending {
      FailingAddsNobody(s, a, id);
    }
  }

  lemma EvaluatingListed(s: Exec, b: Binding, id: Id)
    requires Evaluating(s, b, id)
    ensures HasCommand(s.commands, id) || exists k :: IsRunning(s.contexts, k, id)
  {
    if i :| 0 <= i < |s.commands| && s.commands[i] == RunScript(id, b) {
      assert IsScript(s.commands[i]);
    } else {
      var k :| k in s.contexts && s.contexts[k] == Context(b, Some(id));
      assert IsRunning(s.contexts, k, id);
    }
  }

  lemma InputListed(s: Exec, b: Binding, id: Id)
    requires InputOf(s, b, id)
    ensures IsDeferred(s.deferred, id) || exists k :: IsActive(s.active, k, id)
  {
    if b.session in s.active && s.active[b.session].id == id {
      assert IsActive(s.active, b.session, id);
    }
  }

  // ---------------------------------------------------------------- what cancellation means

  /** The request starts nothing between two states: no service on a session, no input job, no capture job,
      no evaluation. */
  ghost predicate StaysOut(s: Exec, s': Exec, id: Id) {
    && |s.served| <= |s'.served| && s'.served[..|s.served|] == s.served
    && (forall n :: |s.served| <= n < |s'.served| ==> s'.served[n].id != id)
    && (forall k :: IsActive(s'.active, k, id) ==> IsActive(s.active, k, id))
    && (id in s'.captures ==> id in s.captures)
    && (forall k :: IsRunning(s'.contexts, k, id) ==> IsRunning(s.contexts, k, id))
  }

  lemma UnservedOut(s: Exec, s': Exec, id: Id)
    requires Unserved(s, s') && id in s.cancelled && StartsNone(s.cancelled, s.contexts, s'.contexts)
    ensures StaysOut(s, s', id)
  {
  }

  lemma AnswerOut(s: Exec, id: Id, c: Choice)
    ensures Unserved(s, Answer(s, id, c)) && Answer(s, id, c).contexts == s.contexts
  {
  }

  lemma ServeOut(s: Exec, i: nat, c: Choice, id: Id)
    requires i < |s.deferred| && id in s.cancelled
    ensures StaysOut(s, Serve(s, i, c), id)
  {
    hide Answer, Store;
    var w := s.deferred[i];
    var s1 := s.(deferred := s.deferred[..i] + s.deferred[i + 1..]);
    AnswerOut(s1, w.id, c);
    if w.op.OnSession? {
      AnswerOut(s1.(sessions := Store(s1.sessions, w.op.binding.session, c.value),
                    served := s1.served + [Served(w.id, w.op.binding.session)]), w.id, c);
    }
  }

  lemma FinishOut(s: Exec, x: Id, c: Choice, id: Id)
    ensures StaysOut(s, FinishInput(s, x, c), id) && StaysOut(s, FinishCapture(s, x, c), id)
  {
    hide Answer, Store;
    AnswerOut(s.(captures := s.captures - {x}), x, c);
    forall k ensures StaysOut(s, Answer(s.(active := s.active - {k}, sessions := Store(s.sessions, k, c.value)), x, c), id) {
      AnswerOut(s.(active := s.active - {k}, sessions := Store(s.sessions, k, c.value)), x, c);
    }
  }

  lemma HandleOut(s: Exec, w: Work, c: Choice, id: Id)
    ensures StaysOut(s, Handle(s, w, c), id)
  {
    hide Answer, FinishInput, FinishCapture, EndInput;
    match w
    case CaptureDone(x) => FinishOut(s, x, c, id);
    case InputDone(x) => FinishOut(s, x, c, id);
    case Request(x, op) => AnswerOut(s, x, c);
    case _ =>
  }

  lemma ExecutorOut(s: Exec, a: Action, id: Id)
    requires id in s.cancelled && (a.Dispatch? || a.Receive? || a.Drain?)
    ensures StaysOut(s, Apply(s, a), id)
  {
    hide Apply, Serve, Handle, DrainOne, StaysOut;
    SelfOut(s, id);
    match a
    case Dispatch(c) =>
      DispatchApplies(s, c);
      var i := FirstEligible(s, 0);
      if i.Some? {
        ServeOut(s, i.value, c, id);
      }
    case Receive(c) =>
      ReceiveApplies(s, c);
      if s.jobs != [] {
        HandleOut(s.(jobs := s.jobs[1..]), s.jobs[0], c, id);
        OutFrom(s, s.jobs[1..], Handle(s.(jobs := s.jobs[1..]), s.jobs[0], c), id);
      }
    case Drain(c) =>
      DrainApplies(s, c);
      if s.phase.Draining? && s.jobs != [] {
        DrainOut(s, c, id);
      }
  }

  lemma SelfOut(s: Exec, id: Id)
    ensures StaysOut(s, s, id)
  {
  }

  lemma OutFrom(s: Exec, jobs: seq<Work>, s': Exec, id: Id)
    requires StaysOut(s.(jobs := jobs), s', id)
    ensures StaysOut(s, s', id)
  {
  }

  lemma DrainOut(s: Exec, c: Choice, id: Id)
    requires s.phase.Draining? && s.jobs != []
    ensures StaysOut(s, DrainOne(s, c), id)
  {
    hide Handle;
    HandleOut(s.(jobs := s.jobs[1..]), s.jobs[0], c.(sent := c.sent && s.phase.clean), id);
  }

  lemma ReadOut(s: Exec, id: Id, op: Operation, c: Choice)
    ensures var s' := Read(s, id, op, c); Unserved(s, s') && s'.contexts == s.contexts
  {
    hide CloseReader, Enqueue, Interrupt;
    var s1 := s.(last := id, received := s.received + {id});
    CloseOut(s, false);
    CloseOut(s1.(lost := s1.lost + {id}), false);
    EnqueueOut(s1, id, op, c);
  }

  lemma CloseOut(s: Exec, clean: bool)
    ensures var s' := CloseReader(s, clean); Unserved(s, s') && s'.contexts == s.contexts
  {
  }

  lemma EnqueueOut(s: Exec, id: Id, op: Operation, c: Choice)
    ensures var s' := Enqueue(Interrupt(s, op), id, op, c); Unserved(s, s') && s'.contexts == s.contexts
  {
    hide CloseReader, Evaluations;
    CloseOut(Move(Interrupt(s, op), id, Stranded), false);
  }

  lemma OtherOut(s: Exec, a: Action)
    requires !a.Dispatch? && !a.Receive? && !a.Drain? && !a.ScriptCommand? && !a.ScriptEnds? && !a.ScriptShutdown?
    ensures Unserved(s, Apply(s, a)) && Apply(s, a).contexts == s.contexts
  {
    hide Apply, Read, Unserved;
    if a.ReadRequest? {
      ReadApplies(s, a);
      ReadOut(s, a.id, a.op, a.choice);
    } else if a.ReadCancel? || a.ReadReply? || a.ReadEnd? {
      MessageOut(s, a);
    } else {
      RestOut(s, a);
    }
  }

  lemma MessageOut(s: Exec, a: Action)
    requires a.ReadCancel? || a.ReadReply? || a.ReadEnd?
    ensures Unserved(s, Apply(s, a)) && Apply(s, a).contexts == s.contexts
  {
    hide Apply, CloseReader;
    MessageApplies(s, a);
    CloseOut(s, false);
    if a.ReadEnd? {
      CloseOut(s, a.clean);
    }
  }

  lemma RestOut(s: Exec, a: Action)
    requires a.JobEnds? || a.OutputBreaks? || a.DrainOver? || a.AnswerDeferred? || a.Stop?
    ensures Unserved(s, Apply(s, a)) && Apply(s, a).contexts == s.contexts
  {
    hide Apply, AnswerWaiting, AllEvaluations;
    RestApplies(s, a);
    if a.AnswerDeferred? && s.phase.Closing? && s.deferred != [] {
      WaitingFrame(s, a.choice);
    }
  }

  lemma RestApplies(s: Exec, a: Action)
    requires a.JobEnds? || a.OutputBreaks? || a.DrainOver? || a.AnswerDeferred? || a.Stop?
    ensures var s' := Apply(s, a);
            if a.AnswerDeferred? then
              s' == if s.phase.Closing? && s.phase.clean && s.deferred != [] then AnswerWaiting(s, a.choice) else s
            else s' == s.(phase := s'.phase, jobs := s'.jobs, cancelled := s'.cancelled)
  {
    hide Serve, Handle, Read, RunCommand, EndScript, ShutdownOne, CloseReader, DrainOne, ReadCancellation, ReadHostReply,
         AnswerWaiting, AllEvaluations;
  }

  lemma CancelledStaysOut(s: Exec, a: Action, id: Id)
    requires id in s.cancelled
    ensures StaysOut(s, Apply(s, a), id) && id in Apply(s, a).cancelled
  {
    hide Apply, StaysOut, Unserved, Cancels;
    CancelStep(s, a, id);
    if a.Dispatch? || a.Receive? || a.Drain? {
      ExecutorOut(s, a, id);
    } else {
      if a.ScriptCommand? || a.ScriptEnds? || a.ScriptShutdown? {
        ScriptGives(s, a);
      } else {
        OtherOut(s, a);
      }
      UnservedOut(s, Apply(s, a), id);
    }
  }

  lemma OutChains(s: Exec, s1: Exec, s2: Exec, id: Id)
    requires StaysOut(s, s1, id) && StaysOut(s1, s2, id)
    ensures StaysOut(s, s2, id)
  {
    hide IsActive, IsRunning;
    assert s2.served[..|s.served|] == s2.served[..|s1.served|][..|s.served|];
    forall n | |s.served| <= n < |s2.served| ensures s2.served[n].id != id {
      assert n < |s1.served| ==> s2.served[n] == s2.served[..|s1.served|][n];
    }
  }

  /** Once cancelled, a request never starts: whatever follows, it is not served on a session, becomes no
      input or capture job and starts no evaluation. */
  lemma {:induction false} CancelledNeverStarts(actions: seq<Action>, more: seq<Action>, id: Id)
    requires id in Run(actions).cancelled
    ensures StaysOut(Run(actions), Run(actions + more), id) && id in Run(actions + more).cancelled
    decreases |more|
  {
    if more == [] {
      assert actions + more == actions;
    } else {
      hide Apply, StaysOut;
      var all := actions + more;
      var before := all[..|all| - 1];
      assert before == actions + more[..|more| - 1];
      CancelledNeverStarts(actions, more[..|more| - 1], id);
      CancelledStaysOut(Run(before), all[|all| - 1], id);
      OutChains(Run(actions), Run(before), Run(all), id);
    }
  }

  // ---------------------------------------------------------------- sessions and contexts are their own

  predicate SameAtKey<T(==)>(m: map<Session, T>, m': map<Session, T>, k: Session) {
    (k in m <==> k in m') && (k in m ==> m[k] == m'[k])
  }

  /** Serving stores a value in the session of the request, and only if the request is not cancelled. */
  lemma ServeStores(s: Exec, i: nat, c: Choice, k: Session)
    requires i < |s.deferred| && !SameAtKey(s.sessions, Serve(s, i, c).sessions, k)
    ensures var s', w := Serve(s, i, c), s.deferred[i];
            w.id !in s.cancelled && On(w.op, k) && s'.served == s.served + [Served(w.id, k)]
  {
    hide Answer;
    var w := s.deferred[i];
    var s1 := s.(deferred := s.deferred[..i] + s.deferred[i + 1..]);
    AnswerOut(s1, w.id, c);
    if w.op.OnSession? {
      AnswerOut(s1.(sessions := Store(s1.sessions, w.op.binding.session, c.value),
                    served := s1.served + [Served(w.id, w.op.binding.session)]), w.id, c);
    }
  }

  lemma FinishStores(s: Exec, id: Id, c: Choice, k: Session)
    requires !SameAtKey(s.sessions, FinishInput(s, id, c).sessions, k)
    ensures k in s.active && k !in FinishInput(s, id, c).active
  {
    hide Answer;
    forall j ensures Unserved(s.(active := s.active - {j}, sessions := Store(s.sessions, j, c.value)),
        Answer(s.(active := s.active - {j}, sessions := Store(s.sessions, j, c.value)), id, c))
    {
      AnswerOut(s.(active := s.active - {j}, sessions := Store(s.sessions, j, c.value)), id, c);
    }
  }

  lemma HandleStores(s: Exec, w: Work, c: Choice, k: Session)
    requires !SameAtKey(s.sessions, Handle(s, w, c).sessions, k)
    ensures k in s.active && k !in Handle(s, w, c).active
  {
    hide Answer, FinishInput, EndInput;
    match w
    case CaptureDone(id) => AnswerOut(s.(captures := s.captures - {id}), id, c);
    case InputDone(id) => FinishStores(s, id, c, k);
    case Request(id, op) => AnswerOut(s, id, c);
    case _ =>
  }

  /** A session changes only when a request of that session that nobody cancelled is served, or when the input
      job running on it completes. */
  lemma SessionsChangeByService(s: Exec, a: Action, k: Session)
    requires !SameAtKey(s.sessions, Apply(s, a).sessions, k)
    ensures var s' := Apply(s, a);
            || (k in s.active && k !in s'.active)
            || (exists i :: 0 <= i < |s.deferred| && On(s.deferred[i].op, k) && s.deferred[i].id !in s.cancelled
                  && s'.served == s.served + [Served(s.deferred[i].id, k)])
  {
    hide Apply, Serve, Handle;
    match a
    case Dispatch(c) =>
      DispatchApplies(s, c);
      ServeStores(s, FirstEligible(s, 0).value, c, k);
    case Receive(c) =>
      ReceiveApplies(s, c);
      HandleStores(s.(jobs := s.jobs[1..]), s.jobs[0], c, k);
    case Drain(c) =>
      DrainApplies(s, c);
      HandleStores(s.(jobs := s.jobs[1..]), s.jobs[0], c.(sent := c.sent && s.phase.clean), k);
    case ScriptCommand(_) => ScriptGives(s, a);
    case ScriptEnds(_, _) => ScriptGives(s, a);
    case ScriptShutdown(_) => ScriptGives(s, a);
    case _ => OtherOut(s, a);
  }

  /** A command that concerns the context: of its exact binding, or an answer to its running evaluation. */
  predicate Concerns(command: Command, context: Context) {
    match command
    case RunScript(_, b) => b == context.binding
    case ResetScript(_, b) => b == context.binding
    case CloseScript(b) => b == context.binding
    case HostReply(id) => context.running == Some(id)
    case WakeScript => false
  }

  lemma ReplyContexts(s: Exec, id: Id, sent: bool)
    ensures Reply(s, id, sent).contexts == s.contexts && Respond(s, id, sent).contexts == s.contexts
  {
  }

  lemma CommandContexts(s: Exec, command: Command, c: Choice, k: Session)
    requires !SameAtKey(s.contexts, RunCommand(s, command, c).contexts, k)
    ensures if k in s.contexts then Concerns(command, s.contexts[k])
            else command.RunScript? && command.binding.session == k && command.id !in s.cancelled
  {
    hide Reply, Respond;
    match command
    case WakeScript =>
    case HostReply(id) =>
      forall j ensures Reply(ClearContext(s, j), id, c.sent).contexts == s.contexts - {j} {
        ReplyContexts(ClearContext(s, j), id, c.sent);
      }
    case CloseScript(b) =>
      if b.session in s.contexts && s.contexts[b.session].running.Some? {
        ReplyContexts(ClearContext(s, b.session), s.contexts[b.session].running.value, c.sent);
      }
    case ResetScript(id, b) => ResetContexts(s, id, b, c, k);
    case RunScript(id, b) =>
      ReplyContexts(s, id, c.sent);
      ReplyContexts(ClearContext(s, b.session), id, c.sent);
  }

  lemma ResetContexts(s: Exec, id: Id, b: Binding, c: Choice, k: Session)
    requires !SameAtKey(s.contexts, RunCommand(s, ResetScript(id, b), c).contexts, k)
    ensures k in s.contexts && s.contexts[k].binding == b
  {
    hide Reply, Respond;
    ReplyContexts(s, id, c.sent);
    if b.session in s.contexts {
      var s1, running := ClearContext(s, b.session), s.contexts[b.session].running;
      ReplyContexts(s1, id, c.sent);
      if running.Some? {
        ReplyContexts(s1, running.value, c.sentToo);
        ReplyContexts(Respond(s1, running.value, c.sentToo), id, c.sent);
      }
    }
  }

  /** A script context changes only by a command that concerns it, by the end of its own evaluation, or when
      the script thread shuts down; a context appears only for an uncancelled evaluation of its session. */
  lemma ScriptsAreSeparate(s: Exec, a: Action, k: Session)
    requires !SameAtKey(s.contexts, Apply(s, a).contexts, k)
    ensures || (a.ScriptEnds? && a.session == k) || a.ScriptShutdown?
            || (a.ScriptCommand? && s.commands != []
                && if k in s.contexts then Concerns(s.commands[0], s.contexts[k])
                   else s.commands[0].RunScript? && s.commands[0].binding.session == k && s.commands[0].id !in s.cancelled)
  {
    hide Apply, RunCommand;
    match a
    case Dispatch(c) => ExecutorContexts(s, a);
    case Receive(c) => ExecutorContexts(s, a);
    case Drain(c) => ExecutorContexts(s, a);
    case ScriptCommand(c) =>
      CommandApplies(s, c);
      CommandContexts(s.(commands := s.commands[1..]), s.commands[0], c, k);
    case ScriptEnds(session, c) => EndContexts(s, session, c, k);
    case ScriptShutdown(_) =>
    case _ => OtherOut(s, a);
  }

  lemma CommandApplies(s: Exec, c: Choice)
    ensures Apply(s, ScriptCommand(c))
            == if !s.scriptStopped && s.commands != [] then RunCommand(s.(commands := s.commands[1..]), s.commands[0], c) else s
  {
    hide RunCommand;
  }

  lemma EndContexts(s: Exec, session: Session, c: Choice, k: Session)
    requires !SameAtKey(s.contexts, Apply(s, ScriptEnds(session, c)).contexts, k)
    ensures session == k
  {
    hide Reply, Read, Serve, Handle, RunCommand, DrainOne, AnswerWaiting, ShutdownOne, CloseReader;
    forall x: Exec, id, sent ensures Reply(x, id, sent).contexts == x.contexts {
      ReplyContexts(x, id, sent);
    }
  }

  /** What serving a request that nobody cancelled comes to: its session holds what the service left there, and
      the request runs as an input job on its session or is answered. */
  lemma ServiceMeans(s: Exec, c: Choice, i: nat)
    requires s.phase.Serving? && FirstEligible(s, 0) == Some(i) && s.deferred[i].op.OnSession? && s.deferred[i].id !in s.cancelled
    ensures var s', w := Apply(s, Dispatch(c)), s.deferred[i];
            var k := w.op.binding.session;
            && s'.served == s.served + [Served(w.id, k)]
            && (k in s'.sessions <==> c.value.Some?) && (k in s'.sessions ==> Some(s'.sessions[k]) == c.value)
            && (if w.op.kind == Perform && c.starts && c.value.Some?
                then k in s'.active && s'.active[k] == Job(w.id, w.op.binding, c.value.value) && w.id in s'.pending
                else s'.active == s.active && w.id !in s'.pending)
  {
    hide Apply, FirstEligible;
    DispatchApplies(s, c);
    ServedMeans(s, i, c);
  }

  lemma ServedMeans(s: Exec, i: nat, c: Choice)
    requires i < |s.deferred| && s.deferred[i].op.OnSession? && s.deferred[i].id !in s.cancelled
    ensures var s', w := Serve(s, i, c), s.deferred[i];
            var k := w.op.binding.session;
            && s'.served == s.served + [Served(w.id, k)]
            && (k in s'.sessions <==> c.value.Some?) && (k in s'.sessions ==> Some(s'.sessions[k]) == c.value)
            && (if w.op.kind == Perform && c.starts && c.value.Some?
                then k in s'.active && s'.active[k] == Job(w.id, w.op.binding, c.value.value) && w.id in s'.pending
                else s'.active == s.active && w.id !in s'.pending)
  {
    hide Answer;
    var w := s.deferred[i];
    var s1 := s.(deferred := s.deferred[..i] + s.deferred[i + 1..]);
    AnswerLeaves(s1.(sessions := Store(s1.sessions, w.op.binding.session, c.value),
                     served := s1.served + [Served(w.id, w.op.binding.session)]), w.id, c);
  }

  lemma AnswerLeaves(s: Exec, id: Id, c: Choice)
    ensures Unserved(s, Answer(s, id, c)) && id !in Answer(s, id, c).pending
  {
  }

  /** A context with an idle place for an evaluation of this binding, or room for a new one. */
  predicate HasRoom(contexts: map<Session, Context>, b: Binding) {
    if b.session in contexts then contexts[b.session] == Context(b, None) else |contexts| < MAX_CONTEXTS
  }

  /** What the script thread makes of a command: an evaluation starts exactly when it is not cancelled, has room
      and can be started, and is answered otherwise; a close, and a reset that is not cancelled, leave no
      context of their binding and no evaluation of it unanswered. */
  lemma CommandMeans(s: Exec, c: Choice)
    requires !s.scriptStopped && s.commands != []
    ensures var s' := Apply(s, ScriptCommand(c));
            match s.commands[0]
            case RunScript(id, b) =>
              if id !in s.cancelled && HasRoom(s.contexts, b) && c.starts
              then b.session in s'.contexts && s'.contexts[b.session] == Context(b, Some(id)) && id in s'.pending
              else id !in s'.pending
            case CloseScript(b) => Cleared(s, s', b)
            case ResetScript(id, b) => id !in s'.pending && (id !in s.cancelled ==> Cleared(s, s', b))
            case HostReply(_) => true
            case WakeScript => s' == s.(commands := s.commands[1..])
  {
    hide Apply, RunCommand;
    CommandApplies(s, c);
    var s1 := s.(commands := s.commands[1..]);
    match s.commands[0]
    case RunScript(id, b) => EvaluationMeans(s1, id, b, c);
    case CloseScript(b) => CloseMeans(s1, b, c);
    case ResetScript(id, b) => ResetMeans(s1, id, b, c);
    case HostReply(_) =>
    case WakeScript => WakeMeans(s1, c);
  }

  predicate Cleared(s: Exec, s': Exec, b: Binding) {
    && (b.session in s'.contexts ==> s'.contexts[b.session].binding != b)
    && (b.session in s.contexts && s.contexts[b.session].binding == b && s.contexts[b.session].running.Some? ==>
          s.contexts[b.session].running.value !in s'.pending)
  }

  lemma WakeMeans(s: Exec, c: Choice)
    ensures RunCommand(s, WakeScript, c) == s
  {
  }

  lemma EvaluationMeans(s: Exec, id: Id, b: Binding, c: Choice)
    ensures var s' := RunCommand(s, RunScript(id, b), c);
            if id !in s.cancelled && HasRoom(s.contexts, b) && c.starts
            then b.session in s'.contexts && s'.contexts[b.session] == Context(b, Some(id)) && id in s'.pending
            else id !in s'.pending
  {
    hide Reply;
    ReplyLeaves(s, id, c.sent);
    ReplyLeaves(ClearContext(s, b.session), id, c.sent);
  }

  lemma ReplyLeaves(s: Exec, id: Id, sent: bool)
    ensures var s' := Reply(s, id, sent); s'.contexts == s.contexts && id !in s'.pending && s'.pending.Keys <= s.pending.Keys
    ensures var s' := Respond(s, id, sent); s'.contexts == s.contexts && id !in s'.pending && s'.pending.Keys <= s.pending.Keys
  {
  }

  lemma CloseMeans(s: Exec, b: Binding, c: Choice)
    ensures Cleared(s, RunCommand(s, CloseScript(b), c), b)
  {
    hide Reply;
    if b.session in s.contexts && s.contexts[b.session].running.Some? {
      ReplyLeaves(ClearContext(s, b.session), s.contexts[b.session].running.value, c.sent);
    }
  }

  lemma ResetMeans(s: Exec, id: Id, b: Binding, c: Choice)
    ensures var s' := RunCommand(s, ResetScript(id, b), c);
            id !in s'.pending && (id !in s.cancelled ==> Cleared(s, s', b))
  {
    hide Reply, Respond;
    ReplyLeaves(s, id, c.sent);
    if b.session in s.contexts {
      var s1, running := ClearContext(s, b.session), s.contexts[b.session].running;
      ReplyLeaves(s1, id, c.sent);
      if running.Some? {
        ReplyLeaves(s1, running.value, c.sentToo);
        ReplyLeaves(Respond(s1, running.value, c.sentToo), id, c.sent);
      }
    }
  }
}
