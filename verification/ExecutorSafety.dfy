/** What every run of the executor keeps. */
module ExecutorSafety {
  import opened Common
  import opened Executor

  predicate HasRequest(jobs: seq<Work>, id: Id) {
    exists i :: 0 <= i < |jobs| && jobs[i].Request? && jobs[i].id == id
  }

  predicate IsDeferred(deferred: seq<Waiting>, id: Id) {
    exists i :: 0 <= i < |deferred| && deferred[i].id == id
  }

  predicate IsScript(c: Command) {
    c.RunScript? || c.ResetScript?
  }

  predicate HasCommand(commands: seq<Command>, id: Id) {
    exists i :: 0 <= i < |commands| && IsScript(commands[i]) && commands[i].id == id
  }

  predicate IsActive(active: map<Session, Job>, k: Session, id: Id) {
    k in active && active[k].id == id
  }

  predicate IsRunning(contexts: map<Session, Context>, k: Session, id: Id) {
    k in contexts && contexts[k].running == Some(id)
  }

  function PlaceOf(pending: map<Id, Place>, id: Id): Option<Place> {
    if id in pending then Some(pending[id]) else None
  }

  /** The input ended with an error, or the executor stopped because it could not answer. */
  predicate Broken(reader: Reader, phase: Phase) {
    reader == Closed(false) || (!phase.Serving? && !phase.clean)
  }

  /** A pending request is in exactly the one place the table says, and nowhere else. */
  ghost predicate Placed(s: Exec, id: Id) {
    var place := PlaceOf(s.pending, id);
    && (place == Some(Queued) <==> HasRequest(s.jobs, id))
    && (place == Some(Deferred) <==> IsDeferred(s.deferred, id))
    && (place == Some(Capturing) <==> id in s.captures)
    && (place == Some(ScriptQueued) <==> HasCommand(s.commands, id))
    && (forall k :: IsActive(s.active, k, id) <==> place == Some(Running(k)))
    && (forall k :: IsRunning(s.contexts, k, id) <==> place == Some(ScriptRunning(k)))
    && (place == Some(Stranded) ==> Broken(s.reader, s.phase))
  }

  /** Listed nowhere: a request the current step has taken up and not yet put back. */
  ghost predicate Held(s: Exec, id: Id) {
    && id in s.pending && !HasRequest(s.jobs, id) && !IsDeferred(s.deferred, id) && id !in s.captures
    && !HasCommand(s.commands, id)
    && (forall k :: !IsActive(s.active, k, id)) && (forall k :: !IsRunning(s.contexts, k, id))
  }

  /** No queue lists a request twice. */
  predicate OnceQueued(jobs: seq<Work>) {
    forall i, j :: 0 <= i < j < |jobs| && jobs[i].Request? && jobs[j].Request? ==> jobs[i].id != jobs[j].id
  }

  predicate OnceDeferred(deferred: seq<Waiting>) {
    forall i, j :: 0 <= i < j < |deferred| ==> deferred[i].id != deferred[j].id
  }

  predicate OnceCommanded(commands: seq<Command>) {
    forall i, j :: 0 <= i < j < |commands| && IsScript(commands[i]) && IsScript(commands[j]) ==> commands[i].id != commands[j].id
  }

  /** Every request read is pending, answered or lost, only one of these, and answered at most once. */
  ghost predicate Books(received: set<Id>, pending: set<Id>, answered: seq<Id>, lost: set<Id>, last: Id) {
    && (forall id :: id in received <==> id in pending || id in answered || id in lost)
    && (forall id :: id in pending ==> id !in answered && id !in lost)
    && (forall id :: id in answered ==> id !in lost)
    && (forall id :: id in received ==> id <= last)
    && Distinct(answered)
  }

  /** The reader's last message follows all its requests; a clean finish starts from a clean end of input. */
  predicate Ending(jobs: seq<Work>, reader: Reader, phase: Phase) {
    && (forall i, j :: 0 <= i < j < |jobs| && jobs[i].InputClosed? ==> !jobs[j].Request?)
    && (forall i :: 0 <= i < |jobs| && jobs[i].InputClosed? ==> reader == Closed(jobs[i].clean))
    && (!phase.Serving? && phase.clean ==> reader == Closed(true) && forall i :: 0 <= i < |jobs| ==> !jobs[i].Request?)
  }

  /** A clean shutdown has waited for every job, and answered every deferred request. */
  predicate Emptied(phase: Phase, active: map<Session, Job>, captures: set<Id>, deferred: seq<Waiting>) {
    && (phase == Finished(true) ==> active == map[] && captures == {} && deferred == [])
    && (phase == Closing(true, false) ==> active == map[] && captures == {})
  }

  /** While an input job runs, its session still holds the value the job was planned from. */
  predicate Undisturbed(active: map<Session, Job>, sessions: map<Session, Value>) {
    forall k :: k in active ==> k in sessions && sessions[k] == active[k].base && active[k].binding.session == k
  }

  predicate Bounded(pending: map<Id, Place>, captures: set<Id>) {
    |pending| <= MAX_PENDING && |captures| <= MAX_CAPTURE_JOBS
  }

  /** The invariant in the middle of a step, while the requests of `taken` are in hand. */
  ghost predicate Mid(s: Exec, taken: set<Id>) {
    && (forall id :: if id in taken then Held(s, id) else Placed(s, id))
    && Books(s.received, s.pending.Keys, s.answered, s.lost, s.last)
    && OnceQueued(s.jobs) && OnceDeferred(s.deferred) && OnceCommanded(s.commands)
    && Ending(s.jobs, s.reader, s.phase) && Emptied(s.phase, s.active, s.captures, s.deferred)
    && Undisturbed(s.active, s.sessions) && Bounded(s.pending, s.captures)
  }

  ghost predicate Inv(s: Exec) {
    Mid(s, {})
  }

  // ---------------------------------------------------------------- lists

  lemma PushJob(jobs: seq<Work>, w: Work)
    ensures forall id :: HasRequest(jobs + [w], id) <==> HasRequest(jobs, id) || (w.Request? && w.id == id)
    ensures OnceQueued(jobs) && (w.Request? ==> !HasRequest(jobs, w.id)) ==> OnceQueued(jobs + [w])
  {
    var all := jobs + [w];
    assert all[|jobs|] == w;
    forall id | HasRequest(jobs, id) ensures HasRequest(all, id) {
      var i :| 0 <= i < |jobs| && jobs[i].Request? && jobs[i].id == id;
      assert all[i] == jobs[i];
    }
  }

  lemma PopJob(jobs: seq<Work>)
    requires jobs != [] && OnceQueued(jobs)
    ensures OnceQueued(jobs[1..])
    ensures forall id :: HasRequest(jobs[1..], id) <==> HasRequest(jobs, id) && !(jobs[0].Request? && jobs[0].id == id)
  {
    forall id | HasRequest(jobs, id) && !(jobs[0].Request? && jobs[0].id == id) ensures HasRequest(jobs[1..], id) {
      var i :| 0 <= i < |jobs| && jobs[i].Request? && jobs[i].id == id;
      assert jobs[1..][i - 1] == jobs[i];
    }
    forall id | HasRequest(jobs[1..], id) ensures HasRequest(jobs, id) && !(jobs[0].Request? && jobs[0].id == id) {
      var i :| 0 <= i < |jobs[1..]| && jobs[1..][i].Request? && jobs[1..][i].id == id;
      assert jobs[i + 1] == jobs[1..][i];
    }
  }

  lemma PushDeferred(deferred: seq<Waiting>, w: Waiting)
    ensures forall id :: IsDeferred(deferred + [w], id) <==> IsDeferred(deferred, id) || w.id == id
    ensures OnceDeferred(deferred) && !IsDeferred(deferred, w.id) ==> OnceDeferred(deferred + [w])
  {
    var all := deferred + [w];
    assert all[|deferred|] == w;
    forall id | IsDeferred(deferred, id) ensures IsDeferred(all, id) {
      var i :| 0 <= i < |deferred| && deferred[i].id == id;
      assert all[i] == deferred[i];
    }
  }

  lemma TakeDeferred(deferred: seq<Waiting>, k: nat)
    requires k < |deferred| && OnceDeferred(deferred)
    ensures OnceDeferred(deferred[..k] + deferred[k + 1..])
    ensures forall id :: IsDeferred(deferred[..k] + deferred[k + 1..], id) <==> IsDeferred(deferred, id) && id != deferred[k].id
  {
    var rest := deferred[..k] + deferred[k + 1..];
    assert forall i :: 0 <= i < |rest| ==> rest[i] == deferred[if i < k then i else i + 1];
    forall id | IsDeferred(deferred, id) && id != deferred[k].id ensures IsDeferred(rest, id) {
      var i :| 0 <= i < |deferred| && deferred[i].id == id;
      assert rest[if i < k then i else i - 1] == deferred[i];
    }
    forall id | IsDeferred(rest, id) ensures IsDeferred(deferred, id) && id != deferred[k].id {
      var i :| 0 <= i < |rest| && rest[i].id == id;
      assert deferred[if i < k then i else i + 1] == rest[i];
    }
  }

  lemma PushCommand(commands: seq<Command>, c: Command)
    ensures forall id :: HasCommand(commands + [c], id) <==> HasCommand(commands, id) || (IsScript(c) && c.id == id)
    ensures OnceCommanded(commands) && (IsScript(c) ==> !HasCommand(commands, c.id)) ==> OnceCommanded(commands + [c])
  {
    var all := commands + [c];
    assert all[|commands|] == c;
    forall id | HasCommand(commands, id) ensures HasCommand(all, id) {
      var i :| 0 <= i < |commands| && IsScript(commands[i]) && commands[i].id == id;
      assert all[i] == commands[i];
    }
  }

  lemma PopCommand(commands: seq<Command>)
    requires commands != [] && OnceCommanded(commands)
    ensures OnceCommanded(commands[1..])
    ensures forall id :: HasCommand(commands[1..], id) <==> HasCommand(commands, id) && !(IsScript(commands[0]) && commands[0].id == id)
  {
    var rest := commands[1..];
    forall id | HasCommand(commands, id) && !(IsScript(commands[0]) && commands[0].id == id) ensures HasCommand(rest, id) {
      var i :| 0 <= i < |commands| && IsScript(commands[i]) && commands[i].id == id;
      assert rest[i - 1] == commands[i];
    }
    forall id | HasCommand(rest, id) ensures HasCommand(commands, id) && !(IsScript(commands[0]) && commands[0].id == id) {
      var i :| 0 <= i < |rest| && IsScript(rest[i]) && rest[i].id == id;
      assert commands[i + 1] == rest[i];
    }
  }

  // ---------------------------------------------------------------- taking requests up

  lemma TakeJob(s: Exec, taken: set<Id>)
    requires Mid(s, taken) && s.jobs != []
    ensures Mid(s.(jobs := s.jobs[1..]), if s.jobs[0].Request? then taken + {s.jobs[0].id} else taken)
  {
    hide HasRequest, IsDeferred, HasCommand, IsActive, IsRunning, PlaceOf, Broken, Books, OnceQueued,
         OnceDeferred, OnceCommanded, Ending, Emptied, Undisturbed, Bounded;
    PopJob(s.jobs);
    PopEnding(s.jobs, s.reader, s.phase);
    PendingPlaces(s, taken);
  }

  lemma PopEnding(jobs: seq<Work>, reader: Reader, phase: Phase)
    requires jobs != [] && Ending(jobs, reader, phase)
    ensures Ending(jobs[1..], reader, phase)
    ensures jobs[0].Request? ==> HasRequest(jobs, jobs[0].id)
  {
  }

  lemma TakeWaiting(s: Exec, taken: set<Id>, i: nat)
    requires Mid(s, taken) && i < |s.deferred| && s.phase != Finished(true)
    ensures Mid(s.(deferred := s.deferred[..i] + s.deferred[i + 1..]), taken + {s.deferred[i].id})
  {
    hide HasRequest, IsDeferred, HasCommand, IsActive, IsRunning, PlaceOf, Broken, Books, OnceQueued,
         OnceDeferred, OnceCommanded, Ending, Undisturbed, Bounded;
    TakeDeferred(s.deferred, i);
    DeferredAt(s.deferred, i);
    PendingPlaces(s, taken);
  }

  lemma DeferredAt(deferred: seq<Waiting>, i: nat)
    requires i < |deferred|
    ensures IsDeferred(deferred, deferred[i].id)
  {
  }

  lemma CaptureLess(s: Exec, id: Id)
    requires Emptied(s.phase, s.active, s.captures, s.deferred) && Bounded(s.pending, s.captures)
    ensures Emptied(s.phase, s.active, s.captures - {id}, s.deferred) && Bounded(s.pending, s.captures - {id})
  {
    assert |s.captures - {id}| <= |s.captures|;
  }

  lemma TakeCapture(s: Exec, taken: set<Id>, id: Id)
    requires Mid(s, taken) && id in s.captures
    ensures Mid(s.(captures := s.captures - {id}), taken + {id})
  {
    hide HasRequest, IsDeferred, HasCommand, IsActive, IsRunning, PlaceOf, Broken, Books, OnceQueued,
         OnceDeferred, OnceCommanded, Ending, Emptied, Undisturbed, Bounded;
    CaptureLess(s, id);
    PendingPlaces(s, taken);
  }

  /** Every listed request is pending. */
  lemma PendingPlaces(s: Exec, taken: set<Id>)
    requires Mid(s, taken)
    ensures forall id :: HasRequest(s.jobs, id) || IsDeferred(s.deferred, id) || id in s.captures || HasCommand(s.commands, id)
              ==> id in s.pending && id !in taken
    ensures forall id, k :: IsActive(s.active, k, id) ==> id in s.pending && id !in taken
    ensures forall id, k :: IsRunning(s.contexts, k, id) ==> id in s.pending && id !in taken
  {
    hide HasRequest, IsDeferred, HasCommand, IsActive, IsRunning, Broken, Books, OnceQueued, OnceDeferred,
         OnceCommanded, Ending, Emptied, Undisturbed, Bounded;
    forall id | HasRequest(s.jobs, id) || IsDeferred(s.deferred, id) || id in s.captures || HasCommand(s.commands, id)
      ensures id in s.pending && id !in taken
    {
      assert if id in taken then Held(s, id) else Placed(s, id);
    }
    forall id, k | IsActive(s.active, k, id) ensures id in s.pending && id !in taken {
      assert if id in taken then Held(s, id) else Placed(s, id);
    }
    forall id, k | IsRunning(s.contexts, k, id) ensures id in s.pending && id !in taken {
      assert if id in taken then Held(s, id) else Placed(s, id);
    }
  }

  lemma TakeActive(s: Exec, taken: set<Id>, k: Session)
    requires Mid(s, taken) && k in s.active
    ensures Mid(s.(active := s.active - {k}), taken + {s.active[k].id})
  {
    hide HasRequest, IsDeferred, HasCommand, IsActive, IsRunning, PlaceOf, Broken, Books, OnceQueued,
         OnceDeferred, OnceCommanded, Ending, Emptied, Undisturbed, Bounded;
    ActiveLess(s, k);
    PendingPlaces(s, taken);
  }

  lemma ActiveLess(s: Exec, k: Session)
    requires k in s.active && Undisturbed(s.active, s.sessions) && Emptied(s.phase, s.active, s.captures, s.deferred)
    ensures Undisturbed(s.active - {k}, s.sessions) && Emptied(s.phase, s.active - {k}, s.captures, s.deferred)
    ensures IsActive(s.active, k, s.active[k].id)
    ensures forall x: Id, j :: IsActive(s.active - {k}, j, x) <==> IsActive(s.active, j, x) && j != k
    ensures forall x: Id :: IsActive(s.active, k, x) ==> x == s.active[k].id
  {
  }

  /** Dropping a script context, or only its evaluation, takes up that evaluation's request. */
  lemma TakeContext(s: Exec, taken: set<Id>, k: Session, contexts: map<Session, Context>)
    requires Mid(s, taken) && k in s.contexts
    requires contexts == s.contexts - {k} || contexts == s.contexts[k := s.contexts[k].(running := None)]
    ensures var running := s.contexts[k].running;
            Mid(s.(contexts := contexts), if running.Some? then taken + {running.value} else taken)
  {
    hide HasRequest, IsDeferred, HasCommand, IsActive, IsRunning, PlaceOf, Broken, Books, OnceQueued,
         OnceDeferred, OnceCommanded, Ending, Emptied, Undisturbed, Bounded;
    ContextLess(s.contexts, k, contexts);
    PendingPlaces(s, taken);
  }

  lemma ContextLess(contexts: map<Session, Context>, k: Session, less: map<Session, Context>)
    requires k in contexts
    requires less == contexts - {k} || less == contexts[k := contexts[k].(running := None)]
    ensures contexts[k].running.Some? ==> IsRunning(contexts, k, contexts[k].running.value)
    ensures forall x, j :: IsRunning(less, j, x) <==> IsRunning(contexts, j, x) && j != k
    ensures forall x: Id :: IsRunning(contexts, k, x) ==> contexts[k].running == Some(x)
  {
  }

  lemma FirstCommand(commands: seq<Command>)
    ensures commands != [] && IsScript(commands[0]) ==> HasCommand(commands, commands[0].id)
  {
  }

  lemma TakeCommand(s: Exec, taken: set<Id>)
    requires Mid(s, taken) && s.commands != []
    ensures Mid(s.(commands := s.commands[1..]), if IsScript(s.commands[0]) then taken + {s.commands[0].id} else taken)
  {
    hide HasRequest, IsDeferred, HasCommand, IsActive, IsRunning, PlaceOf, Broken, Books, OnceQueued,
         OnceDeferred, OnceCommanded, Ending, Emptied, Undisturbed, Bounded;
    PopCommand(s.commands);
    FirstCommand(s.commands);
    PendingPlaces(s, taken);
  }

  // ---------------------------------------------------------------- putting requests back

  lemma ResponseBooks(s: Exec, id: Id, sent: bool)
    requires Books(s.received, s.pending.Keys, s.answered, s.lost, s.last) && id in s.pending && Bounded(s.pending, s.captures)
    ensures var s' := Respond(s, id, sent);
            && Books(s'.received, s'.pending.Keys, s'.answered, s'.lost, s'.last)
            && Bounded(s'.pending, s.captures)
            && (forall x :: x != id ==> PlaceOf(s'.pending, x) == PlaceOf(s.pending, x) && (x in s'.pending <==> x in s.pending))
            && PlaceOf(s'.pending, id) == None
            && s' == s.(pending := s'.pending, answered := s'.answered, lost := s'.lost)
  {
    var s' := Respond(s, id, sent);
    assert s'.pending.Keys == s.pending.Keys - {id};
    assert |s'.pending.Keys| <= |s.pending.Keys|;
  }

  lemma GiveResponse(s: Exec, taken: set<Id>, id: Id, sent: bool)
    requires Mid(s, taken) && id in taken
    ensures Mid(Respond(s, id, sent), taken - {id})
  {
    hide HasRequest, IsDeferred, HasCommand, IsActive, IsRunning, PlaceOf, Broken, Books, OnceQueued,
         OnceDeferred, OnceCommanded, Ending, Emptied, Undisturbed, Bounded;
    hide Respond;
    assert Held(s, id);
    ResponseBooks(s, id, sent);
    var s' := Respond(s, id, sent);
    forall x ensures if x in taken - {id} then Held(s', x) else Placed(s', x) {
      assert if x in taken then Held(s, x) else Placed(s, x);
    }
  }

  lemma Unclean(s: Exec)
    requires Ending(s.jobs, s.reader, s.phase)
    ensures Ending(s.jobs, s.reader, Draining(false)) && Emptied(Draining(false), s.active, s.captures, s.deferred)
    ensures Broken(s.reader, Draining(false))
  {
  }

  lemma GiveAnswer(s: Exec, taken: set<Id>, id: Id, c: Choice)
    requires Mid(s, taken) && id in taken
    ensures Mid(Answer(s, id, c), taken - {id})
  {
    hide HasRequest, IsDeferred, HasCommand, IsActive, IsRunning, PlaceOf, Broken, Books, OnceQueued,
         OnceDeferred, OnceCommanded, Ending, Emptied, Undisturbed, Bounded, Respond;
    GiveResponse(s, taken, id, c.sent);
    var r := Respond(s, id, c.sent);
    Unclean(r);
    var s' := Answer(s, id, c);
    forall x ensures if x in taken - {id} then Held(s', x) else Placed(s', x) {
      assert if x in taken - {id} then Held(r, x) else Placed(r, x);
    }
  }

  lemma PushEnding(jobs: seq<Work>, w: Work, reader: Reader, phase: Phase)
    requires Ending(jobs, reader, phase) && !w.InputClosed? && (w.Request? ==> reader.Reading?)
    ensures Ending(jobs + [w], reader, phase)
  {
  }

  lemma PushPlain(s: Exec, taken: set<Id>, w: Work)
    requires Mid(s, taken) && !w.Request? && !w.InputClosed?
    ensures Mid(s.(jobs := s.jobs + [w]), taken)
  {
    hide HasRequest, IsDeferred, HasCommand, IsActive, IsRunning, PlaceOf, Broken, Books, OnceQueued,
         OnceDeferred, OnceCommanded, Ending, Emptied, Undisturbed, Bounded;
    PushJob(s.jobs, w);
    PushEnding(s.jobs, w, s.reader, s.phase);
  }

  /** Cancellation marks and the script thread's flag matter to no part of the invariant. */
  lemma Unaffected(s: Exec, taken: set<Id>, cancelled: set<Id>, stopped: bool)
    requires Mid(s, taken)
    ensures Mid(s.(cancelled := cancelled, scriptStopped := stopped), taken)
  {
    hide HasRequest, IsDeferred, HasCommand, IsActive, IsRunning, PlaceOf, Broken, Books, OnceQueued,
         OnceDeferred, OnceCommanded, Ending, Emptied, Undisturbed, Bounded;
  }

  lemma GiveReply(s: Exec, taken: set<Id>, id: Id, sent: bool)
    requires Mid(s, taken) && id in taken
    ensures Mid(Reply(s, id, sent), taken - {id})
  {
    hide Mid;
    GiveResponse(s, taken, id, sent);
    var r := Respond(s, id, sent);
    if !sent {
      PushPlain(r, taken - {id}, OutputFailed);
      var p := r.(jobs := r.jobs + [OutputFailed]);
      Unaffected(p, taken - {id}, r.cancelled + r.pending.Keys, true);
    }
  }

  /** Only the place of `id` changes. */
  lemma MoveFrame(s: Exec, id: Id, place: Place)
    requires id in s.pending && Bounded(s.pending, s.captures)
    ensures var s' := Move(s, id, place);
            && s'.pending.Keys == s.pending.Keys && Bounded(s'.pending, s.captures)
            && (forall x :: x != id ==> PlaceOf(s'.pending, x) == PlaceOf(s.pending, x))
            && PlaceOf(s'.pending, id) == Some(place)
  {
    var s' := Move(s, id, place);
    assert s'.pending.Keys == s.pending.Keys;
    assert |s'.pending.Keys| == |s.pending.Keys|;
  }

  lemma StillServing(active: map<Session, Job>, captures: set<Id>, deferred: seq<Waiting>)
    ensures Emptied(Serving, active, captures, deferred)
  {
  }

  lemma GiveDeferred(s: Exec, taken: set<Id>, w: Waiting, cancelled: set<Id>)
    requires Mid(s, taken) && w.id in taken && s.phase.Serving?
    ensures Mid(Move(s, w.id, Deferred).(cancelled := cancelled, deferred := s.deferred + [w]), taken - {w.id})
  {
    hide HasRequest, IsDeferred, HasCommand, IsActive, IsRunning, PlaceOf, Broken, Books, OnceQueued,
         OnceDeferred, OnceCommanded, Ending, Emptied, Undisturbed, Bounded;
    assert Held(s, w.id);
    MoveFrame(s, w.id, Deferred);
    PushDeferred(s.deferred, w);
    StillServing(s.active, s.captures, s.deferred + [w]);
  }

  lemma CaptureMore(pending: map<Id, Place>, captures: set<Id>, id: Id)
    requires Bounded(pending, captures) && |captures| < MAX_CAPTURE_JOBS
    ensures Bounded(pending, captures + {id})
  {
  }

  lemma GiveCapture(s: Exec, taken: set<Id>, id: Id)
    requires Mid(s, taken) && id in taken && s.phase.Serving? && |s.captures| < MAX_CAPTURE_JOBS
    ensures Mid(Move(s, id, Capturing).(captures := s.captures + {id}), taken - {id})
  {
    hide HasRequest, IsDeferred, HasCommand, IsActive, IsRunning, PlaceOf, Broken, Books, OnceQueued,
         OnceDeferred, OnceCommanded, Ending, Emptied, Undisturbed, Bounded;
    assert Held(s, id);
    MoveFrame(s, id, Capturing);
    StillServing(s.active, s.captures + {id}, s.deferred);
    CaptureMore(Move(s, id, Capturing).pending, s.captures, id);
  }

  lemma ActiveMore(s: Exec, id: Id, b: Binding)
    requires Undisturbed(s.active, s.sessions) && b.session !in s.active && b.session in s.sessions
    ensures var active := s.active[b.session := Job(id, b, s.sessions[b.session])];
            && Undisturbed(active, s.sessions)
            && forall x: Id, j :: IsActive(active, j, x) <==> IsActive(s.active, j, x) || (j == b.session && x == id)
  {
  }

  lemma GiveActive(s: Exec, taken: set<Id>, id: Id, b: Binding)
    requires Mid(s, taken) && id in taken && s.phase.Serving? && b.session !in s.active && b.session in s.sessions
    ensures var job := Job(id, b, s.sessions[b.session]);
            Mid(Move(s, id, Running(b.session)).(active := s.active[b.session := job]), taken - {id})
  {
    hide HasRequest, IsDeferred, HasCommand, IsActive, IsRunning, PlaceOf, Broken, Books, OnceQueued,
         OnceDeferred, OnceCommanded, Ending, Emptied, Undisturbed, Bounded;
    assert Held(s, id);
    MoveFrame(s, id, Running(b.session));
    ActiveMore(s, id, b);
    StillServing(s.active[b.session := Job(id, b, s.sessions[b.session])], s.captures, s.deferred);
  }

  lemma ContextMore(contexts: map<Session, Context>, id: Id, b: Binding)
    requires b.session in contexts ==> contexts[b.session].running.None?
    ensures var more := contexts[b.session := Context(b, Some(id))];
            forall x: Id, j :: IsRunning(more, j, x) <==> IsRunning(contexts, j, x) || (j == b.session && x == id)
  {
  }

  lemma GiveScript(s: Exec, taken: set<Id>, id: Id, b: Binding)
    requires Mid(s, taken) && id in taken
    requires b.session in s.contexts ==> s.contexts[b.session].running.None?
    ensures Mid(Move(s, id, ScriptRunning(b.session)).(contexts := s.contexts[b.session := Context(b, Some(id))]), taken - {id})
  {
    hide HasRequest, IsDeferred, HasCommand, IsActive, IsRunning, PlaceOf, Broken, Books, OnceQueued,
         OnceDeferred, OnceCommanded, Ending, Emptied, Undisturbed, Bounded;
    assert Held(s, id);
    MoveFrame(s, id, ScriptRunning(b.session));
    ContextMore(s.contexts, id, b);
  }

  lemma GiveQueued(s: Exec, taken: set<Id>, id: Id, op: Operation)
    requires Mid(s, taken) && id in taken && s.reader.Reading?
    ensures Mid(Move(s, id, Queued).(jobs := s.jobs + [Request(id, op)]), taken - {id})
  {
    hide HasRequest, IsDeferred, HasCommand, IsActive, IsRunning, PlaceOf, Broken, Books, OnceQueued,
         OnceDeferred, OnceCommanded, Ending, Emptied, Undisturbed, Bounded;
    assert Held(s, id);
    MoveFrame(s, id, Queued);
    PushJob(s.jobs, Request(id, op));
    PushEnding(s.jobs, Request(id, op), s.reader, s.phase);
  }

  lemma GiveCommand(s: Exec, taken: set<Id>, c: Command)
    requires Mid(s, taken) && IsScript(c) && c.id in taken
    ensures Mid(Move(s, c.id, ScriptQueued).(commands := s.commands + [c]), taken - {c.id})
  {
    hide HasRequest, IsDeferred, HasCommand, IsActive, IsRunning, PlaceOf, Broken, Books, OnceQueued,
         OnceDeferred, OnceCommanded, Ending, Emptied, Undisturbed, Bounded;
    assert Held(s, c.id);
    MoveFrame(s, c.id, ScriptQueued);
    PushCommand(s.commands, c);
  }

  lemma PushOther(s: Exec, taken: set<Id>, c: Command)
    requires Mid(s, taken) && !IsScript(c)
    ensures Mid(s.(commands := s.commands + [c]), taken)
  {
    hide HasRequest, IsDeferred, HasCommand, IsActive, IsRunning, PlaceOf, Broken, Books, OnceQueued,
         OnceDeferred, OnceCommanded, Ending, Emptied, Undisturbed, Bounded;
    PushCommand(s.commands, c);
  }

  lemma StoreElsewhere(s: Exec, k: Session, value: Option<Value>)
    requires Undisturbed(s.active, s.sessions) && k !in s.active
    ensures Undisturbed(s.active, Store(s.sessions, k, value))
  {
  }

  lemma StoreKeeps(s: Exec, taken: set<Id>, k: Session, value: Option<Value>, served: seq<Served>)
    requires Mid(s, taken) && k !in s.active
    ensures Mid(s.(sessions := Store(s.sessions, k, value), served := served), taken)
  {
    hide HasRequest, IsDeferred, HasCommand, IsActive, IsRunning, PlaceOf, Broken, Books, OnceQueued,
         OnceDeferred, OnceCommanded, Ending, Emptied, Undisturbed, Bounded;
    StoreElsewhere(s, k, value);
  }

  lemma AcceptBooks(s: Exec, id: Id)
    requires Books(s.received, s.pending.Keys, s.answered, s.lost, s.last) && id > s.last
    requires |s.pending| < MAX_PENDING && Bounded(s.pending, s.captures)
    ensures id !in s.pending
    ensures var s' := s.(last := id, received := s.received + {id}, pending := s.pending[id := Queued]);
            && Books(s'.received, s'.pending.Keys, s'.answered, s'.lost, s'.last) && Bounded(s'.pending, s'.captures)
            && (forall x :: x != id ==> PlaceOf(s'.pending, x) == PlaceOf(s.pending, x))
            && PlaceOf(s.pending, id) == None
  {
    var s' := s.(last := id, received := s.received + {id}, pending := s.pending[id := Queued]);
    assert s'.pending.Keys == s.pending.Keys + {id};
    assert |s'.pending.Keys| == |s.pending.Keys| + 1;
  }

  lemma Accept(s: Exec, id: Id)
    requires Mid(s, {}) && id > s.last && |s.pending| < MAX_PENDING
    ensures Mid(s.(last := id, received := s.received + {id}, pending := s.pending[id := Queued]), {id})
  {
    hide HasRequest, IsDeferred, HasCommand, IsActive, IsRunning, PlaceOf, Broken, Books, OnceQueued,
         OnceDeferred, OnceCommanded, Ending, Emptied, Undisturbed, Bounded;
    AcceptBooks(s, id);
    var s' := s.(last := id, received := s.received + {id}, pending := s.pending[id := Queued]);
    forall x ensures if x == id then Held(s', x) else Placed(s', x) {
      assert Placed(s, x);
    }
  }

  lemma RejectBooks(s: Exec, id: Id, sent: bool)
    requires Books(s.received, s.pending.Keys, s.answered, s.lost, s.last) && id > s.last
    ensures Books(s.received + {id}, s.pending.Keys, if sent then s.answered + [id] else s.answered,
                  if sent then s.lost else s.lost + {id}, id)
  {
  }

  lemma Reject(s: Exec, id: Id, sent: bool)
    requires Mid(s, {}) && id > s.last
    ensures var s1 := s.(last := id, received := s.received + {id});
            Mid(if sent then s1.(answered := s1.answered + [id]) else s1.(lost := s1.lost + {id}), {})
  {
    hide HasRequest, IsDeferred, HasCommand, IsActive, IsRunning, PlaceOf, Broken, Books, OnceQueued,
         OnceDeferred, OnceCommanded, Ending, Emptied, Undisturbed, Bounded;
    RejectBooks(s, id, sent);
  }

  lemma CloseEnding(jobs: seq<Work>, reader: Reader, phase: Phase, clean: bool)
    requires Ending(jobs, reader, phase) && reader.Reading?
    ensures Ending(jobs + [InputClosed(clean)], Closed(clean), phase)
    ensures (Broken(reader, phase) || !clean) ==> Broken(Closed(clean), phase)
  {
  }

  lemma CloseReaderKeeps(s: Exec, clean: bool)
    requires Mid(s, {}) && s.reader.Reading?
    ensures Mid(CloseReader(s, clean), {})
  {
    hide HasRequest, IsDeferred, HasCommand, IsActive, IsRunning, PlaceOf, Broken, Books, OnceQueued,
         OnceDeferred, OnceCommanded, Ending, Emptied, Undisturbed, Bounded;
    CloseEnding(s.jobs, s.reader, s.phase, clean);
    PushJob(s.jobs, InputClosed(clean));
    forall x ensures Placed(CloseReader(s, clean), x) {
      assert Placed(s, x);
    }
  }

  lemma StrandKeeps(s: Exec, id: Id)
    requires Mid(s, {id}) && s.reader.Reading?
    ensures Mid(CloseReader(Move(s, id, Stranded), false), {})
  {
    hide HasRequest, IsDeferred, HasCommand, IsActive, IsRunning, PlaceOf, Broken, Books, OnceQueued,
         OnceDeferred, OnceCommanded, Ending, Emptied, Undisturbed, Bounded;
    assert Held(s, id);
    MoveFrame(s, id, Stranded);
    PushJob(s.jobs, InputClosed(false));
    CloseEnding(s.jobs, s.reader, s.phase, false);
    forall x ensures Placed(CloseReader(Move(s, id, Stranded), false), x) {
      assert if x == id then Held(s, x) else Placed(s, x);
    }
  }

  // ---------------------------------------------------------------- every action

  lemma EnqueueKeeps(s: Exec, id: Id, op: Operation, c: Choice)
    requires Mid(s.(pending := s.pending[id := Queued]), {id}) && s.reader.Reading?
    ensures Inv(Enqueue(s, id, op, c))
  {
    hide Mid, CloseReader;
    var s1 := s.(pending := s.pending[id := Queued]);
    MoveTwice(s, id, Stranded);
    MoveTwice(s, id, ScriptQueued);
    MoveTwice(s, id, Queued);
    assert {id} - {id} == {};
    if (op.Evaluate? || op.Reset? || (op.OnSession? && op.kind == Close)) && !c.routed {
      StrandKeeps(s1, id);
    } else if op.Evaluate? {
      GiveCommand(s1, {id}, RunScript(id, op.binding));
    } else if op.Reset? {
      GiveCommand(s1, {id}, ResetScript(id, op.binding));
    } else {
      var s2 := s1;
      if op.OnSession? && op.kind == Close {
        PushOther(s1, {id}, CloseScript(op.binding));
        s2 := s1.(commands := s1.commands + [CloseScript(op.binding)]);
      }
      GiveQueued(s2, {id}, id, op);
    }
  }

  lemma ReadKeeps(s: Exec, id: Id, op: Operation, c: Choice)
    requires Inv(s)
    ensures Inv(Read(s, id, op, c))
  {
    hide Mid, Enqueue, Interrupt, CloseReader;
    if s.reader.Reading? {
      if id <= s.last {
        CloseReaderKeeps(s, false);
      } else if |s.pending| >= MAX_PENDING {
        Reject(s, id, c.sent);
        var s1 := s.(last := id, received := s.received + {id});
        if !c.sent {
          CloseReaderKeeps(s1.(lost := s1.lost + {id}), false);
        }
      } else {
        AdmitKeeps(s, id, op, c);
      }
    }
  }

  lemma AdmitKeeps(s: Exec, id: Id, op: Operation, c: Choice)
    requires Inv(s) && s.reader.Reading? && id > s.last && |s.pending| < MAX_PENDING
    ensures Inv(Enqueue(Interrupt(s.(last := id, received := s.received + {id}), op), id, op, c))
  {
    hide Mid, Enqueue, Evaluations, CloseReader;
    Accept(s, id);
    var s1 := s.(last := id, received := s.received + {id});
    var s2 := s1.(pending := s1.pending[id := Queued]);
    var s3 := Interrupt(s1, op);
    Unaffected(s2, {id}, s3.cancelled, s2.scriptStopped);
    assert s3.(pending := s3.pending[id := Queued]) == s2.(cancelled := s3.cancelled, scriptStopped := s2.scriptStopped);
    EnqueueKeeps(s3, id, op, c);
  }

  lemma MoveTwice(s: Exec, id: Id, place: Place)
    ensures s.pending[id := Queued][id := place] == s.pending[id := place]
  {
  }

  lemma ServeKeeps(s: Exec, i: nat, c: Choice)
    requires Inv(s) && s.phase.Serving? && i < |s.deferred| && Eligible(s, s.deferred[i])
    ensures Inv(Serve(s, i, c))
  {
    hide Mid;
    var w := s.deferred[i];
    var s1 := s.(deferred := s.deferred[..i] + s.deferred[i + 1..]);
    TakeWaiting(s, {}, i);
    assert {} + {w.id} == {w.id} && {w.id} - {w.id} == {};
    GiveAnswer(s1, {w.id}, w.id, c);
    if w.id !in s.cancelled {
      if w.op.CaptureFrame? && c.starts {
        GiveCapture(s1, {w.id}, w.id);
      } else if w.op.OnSession? {
        var k := w.op.binding.session;
        var served := s1.served + [Served(w.id, k)];
        StoreKeeps(s1, {w.id}, k, c.value, served);
        var s2 := s1.(sessions := Store(s1.sessions, k, c.value), served := served);
        GiveAnswer(s2, {w.id}, w.id, c);
        if c.value.Some? {
          GiveActive(s2, {w.id}, w.id, w.op.binding);
        }
      }
    }
  }

  /** After the reader's last message no request is left behind it. */
  lemma ClosedIsLast(s: Exec)
    requires Mid(s, {}) && s.jobs != [] && s.jobs[0].InputClosed?
    ensures s.reader == Closed(s.jobs[0].clean)
    ensures forall i :: 0 <= i < |s.jobs[1..]| ==> !s.jobs[1..][i].Request?
  {
    hide HasRequest, IsDeferred, HasCommand, IsActive, IsRunning, PlaceOf, Broken, Books, OnceQueued,
         OnceDeferred, OnceCommanded, Emptied, Undisturbed, Bounded;
  }

  lemma HandleKeeps(s: Exec, c: Choice)
    requires Inv(s) && s.jobs != [] && (s.phase.Serving? || (s.phase.Draining? && !s.jobs[0].Request? && !s.jobs[0].InputClosed?))
    ensures Inv(Handle(s.(jobs := s.jobs[1..]), s.jobs[0], c))
  {
    hide Mid, EndInput, FinishInput, FinishCapture;
    var s1, w := s.(jobs := s.jobs[1..]), s.jobs[0];
    TakeJob(s, {});
    match w
    case InputClosed(clean) =>
      ClosedIsLast(s);
      PhaseKeeps(s1, clean);
    case OutputFailed =>
      PhaseKeeps(s1, false);
    case Wake =>
    case CaptureDone(id) =>
      FinishCaptureKeeps(s1, id, c);
    case InputDone(id) =>
      FinishInputKeeps(s1, id, c);
    case Request(id, op) =>
      assert {} + {id} == {id} && {id} - {id} == {};
      GiveAnswer(s1, {id}, id, c);
      GiveDeferred(s1, {id}, Waiting(id, op), s1.cancelled + EndInput(s1, id, op));
  }

  lemma FinishCaptureKeeps(s: Exec, id: Id, c: Choice)
    requires Inv(s)
    ensures Inv(FinishCapture(s, id, c))
  {
    hide Mid;
    if id in s.captures {
      TakeCapture(s, {}, id);
      assert {} + {id} == {id} && {id} - {id} == {};
      GiveAnswer(s.(captures := s.captures - {id}), {id}, id, c);
    }
  }

  lemma FinishInputKeeps(s: Exec, id: Id, c: Choice)
    requires Inv(s)
    ensures Inv(FinishInput(s, id, c))
  {
    hide Mid;
    if exists k :: k in s.active && s.active[k].id == id {
      forall k | k in s.active && s.active[k].id == id
        ensures Inv(Answer(s.(active := s.active - {k}, sessions := Store(s.sessions, k, c.value)), id, c))
      {
        TakeActive(s, {}, k);
        var s1 := s.(active := s.active - {k});
        assert {} + {id} == {id} && {id} - {id} == {};
        StoreKeeps(s1, {id}, k, c.value, s1.served);
        GiveAnswer(s1.(sessions := Store(s1.sessions, k, c.value), served := s1.served), {id}, id, c);
      }
    }
  }

  /** A phase change keeps everything that does not speak of phases. */
  lemma PhaseFrame(s: Exec, phase: Phase, cancelled: set<Id>)
    requires Mid(s, {}) && Ending(s.jobs, s.reader, phase) && Emptied(phase, s.active, s.captures, s.deferred)
    requires Broken(s.reader, s.phase) ==> Broken(s.reader, phase)
    ensures Mid(s.(phase := phase, cancelled := cancelled), {})
  {
    hide HasRequest, IsDeferred, HasCommand, IsActive, IsRunning, PlaceOf, Broken, Books, OnceQueued,
         OnceDeferred, OnceCommanded, Ending, Emptied, Undisturbed, Bounded;
    forall x ensures Placed(s.(phase := phase, cancelled := cancelled), x) {
      assert Placed(s, x);
    }
  }

  lemma PhaseKeeps(s: Exec, clean: bool)
    requires Mid(s, {}) && (s.phase.Serving? || !clean)
    requires clean ==> s.reader == Closed(true) && forall i :: 0 <= i < |s.jobs| ==> !s.jobs[i].Request?
    ensures Mid(Leave(s, clean), {})
  {
    PhaseFrame(s, Draining(clean), s.cancelled + s.pending.Keys);
  }

  lemma RunCommandKeeps(s: Exec, c: Choice)
    requires Inv(s) && s.commands != []
    ensures Inv(RunCommand(s.(commands := s.commands[1..]), s.commands[0], c))
  {
    hide Mid, Reply, AcceptReply;
    var s1, command := s.(commands := s.commands[1..]), s.commands[0];
    TakeCommand(s, {});
    match command
    case WakeScript =>
    case HostReply(id) =>
      ReplyKeeps(s1, id, c);
    case CloseScript(b) =>
      if b.session in s1.contexts && s1.contexts[b.session].binding == b {
        EndContext(s1, {}, b.session, c.sent);
      }
    case ResetScript(id, b) =>
      assert {} + {id} == {id};
      ResetKeeps(s1, id, b, c);
    case RunScript(id, b) =>
      assert {} + {id} == {id};
      RunScriptKeeps(s1, id, b, c);
  }

  lemma ReplyKeeps(s: Exec, id: Id, c: Choice)
    requires Inv(s)
    ensures Inv(AcceptReply(s, id, c))
  {
    hide Mid, Reply;
    forall k | k in s.contexts && s.contexts[k].running == Some(id)
      ensures Inv(Reply(ClearContext(s, k), id, c.sent))
    {
      EndContext(s, {}, k, c.sent);
    }
  }

  lemma ResetKeeps(s: Exec, id: Id, b: Binding, c: Choice)
    requires Mid(s, {id})
    ensures Inv(RunCommand(s, ResetScript(id, b), c))
  {
    hide Mid, Reply, Respond;
    assert {id} - {id} == {};
    GiveReply(s, {id}, id, c.sent);
    if b.session in s.contexts && s.contexts[b.session].binding == b {
      var running := s.contexts[b.session].running;
      TakeContext(s, {id}, b.session, s.contexts - {b.session});
      var s2 := ClearContext(s, b.session);
      if running.Some? {
        RunningIsListed(s, {id}, b.session);
        assert {id} + {running.value} == {id, running.value} && {id, running.value} - {running.value} == {id};
        GiveResponse(s2, {id, running.value}, running.value, c.sentToo);
        GiveReply(Respond(s2, running.value, c.sentToo), {id}, id, c.sent);
      } else {
        GiveReply(s2, {id}, id, c.sent);
      }
    }
  }

  lemma RunScriptKeeps(s: Exec, id: Id, b: Binding, c: Choice)
    requires Mid(s, {id})
    ensures Inv(RunCommand(s, RunScript(id, b), c))
  {
    hide Mid, Reply;
    assert {id} - {id} == {};
    GiveReply(s, {id}, id, c.sent);
    var idle := b.session in s.contexts && s.contexts[b.session].running.None?;
    if idle || b.session !in s.contexts {
      GiveScript(s, {id}, id, b);
    }
    if idle {
      TakeContext(s, {id}, b.session, s.contexts - {b.session});
      GiveReply(ClearContext(s, b.session), {id}, id, c.sent);
    }
  }

  /** A request in hand is not also an evaluation still listed. */
  lemma RunningIsListed(s: Exec, taken: set<Id>, k: Session)
    requires Mid(s, taken) && k in s.contexts && s.contexts[k].running.Some?
    ensures s.contexts[k].running.value !in taken
  {
    PendingPlaces(s, taken);
    assert IsRunning(s.contexts, k, s.contexts[k].running.value);
  }

  lemma EndContext(s: Exec, taken: set<Id>, k: Session, sent: bool)
    requires Mid(s, taken) && k in s.contexts
    ensures var running := s.contexts[k].running;
            Mid(if running.Some? then Reply(ClearContext(s, k), running.value, sent) else ClearContext(s, k), taken)
  {
    hide Mid;
    var running := s.contexts[k].running;
    TakeContext(s, taken, k, s.contexts - {k});
    if running.Some? {
      RunningIsListed(s, taken, k);
      assert taken + {running.value} - {running.value} == taken;
      GiveReply(ClearContext(s, k), taken + {running.value}, running.value, sent);
    }
  }

  lemma EndScriptKeeps(s: Exec, k: Session, c: Choice)
    requires Inv(s)
    ensures Inv(EndScript(s, k, c))
  {
    hide Mid;
    if k in s.contexts && s.contexts[k].running.Some? {
      EndContext(s, {}, k, c.sent);
      var id := s.contexts[k].running.value;
      TakeContext(s, {}, k, s.contexts[k := s.contexts[k].(running := None)]);
      assert {} + {id} == {id} && {id} - {id} == {};
      GiveReply(s.(contexts := s.contexts[k := s.contexts[k].(running := None)]), {id}, id, c.sent);
    }
  }

  lemma AnswerDeferredKeeps(s: Exec, c: Choice)
    requires Inv(s) && s.phase.Closing? && s.phase.clean && s.deferred != []
    ensures Inv(AnswerWaiting(s, c))
  {
    hide Mid;
    var id := s.deferred[0].id;
    TakeWaiting(s, {}, 0);
    assert s.deferred[..0] + s.deferred[0 + 1..] == s.deferred[1..];
    assert {} + {id} == {id} && {id} - {id} == {};
    var s1 := s.(deferred := s.deferred[1..]);
    GiveResponse(s1, {id}, id, c.sent);
    if !c.sent {
      NotClean(Respond(s1, id, c.sent), Closing(false, s.phase.timedOut));
    }
  }

  lemma NotClean(s: Exec, phase: Phase)
    requires Inv(s) && !phase.Serving? && !phase.clean
    ensures Inv(s.(phase := phase))
  {
    PhaseFrame(s, phase, s.cancelled);
  }

  lemma EndPhases(s: Exec, a: Action)
    requires Inv(s) && (a.DrainOver? || a.Stop?)
    ensures Inv(Apply(s, a))
  {
    hide Placed, Held, Books, Read, Handle, Serve, ReadCancellation, ReadHostReply, CloseReader, RunCommand, EndScript, DrainOne,
         AnswerWaiting, ShutdownOne, AllEvaluations;
    var s' := Apply(s, a);
    assert s' == s.(phase := s'.phase, cancelled := s'.cancelled);
    PhaseFrame(s, s'.phase, s'.cancelled);
  }

  lemma ShutdownKeeps(s: Exec, c: Choice)
    requires Inv(s)
    ensures Inv(ShutdownOne(s, c))
  {
    hide Mid, Reply;
    forall k | k in s.contexts
      ensures var running := s.contexts[k].running;
              Inv(if running.Some? then Reply(ClearContext(s, k), running.value, c.sent) else ClearContext(s, k))
    {
      EndContext(s, {}, k, c.sent);
    }
    if s.contexts == map[] && s.commands != [] {
      TakeCommand(s, {});
      if IsScript(s.commands[0]) {
        var id := s.commands[0].id;
        assert {} + {id} == {id} && {id} - {id} == {};
        GiveReply(s.(commands := s.commands[1..]), {id}, id, c.sent);
      }
    }
  }

  lemma DrainKeeps(s: Exec, c: Choice)
    requires Inv(s) && s.phase.Draining? && s.jobs != []
    ensures Inv(DrainOne(s, c))
  {
    hide Mid, Handle;
    if s.jobs[0].CaptureDone? || s.jobs[0].InputDone? {
      HandleKeeps(s, c.(sent := c.sent && s.phase.clean));
    } else {
      DropKeeps(s);
    }
  }

  lemma CancellationKeeps(s: Exec, id: Id, c: Choice)
    requires Inv(s)
    ensures Inv(ReadCancellation(s, id, c))
  {
    hide Mid;
    PushOther(s, {}, WakeScript);
    var s1 := if c.routed then s.(commands := s.commands + [WakeScript]) else s;
    Unaffected(s1, {}, s1.cancelled + {id}, s1.scriptStopped);
    PushPlain(s1.(cancelled := s1.cancelled + {id}), {}, Wake);
  }

  lemma DroppedIsUnclean(jobs: seq<Work>, reader: Reader, phase: Phase)
    requires Ending(jobs, reader, phase) && !phase.Serving? && jobs != [] && jobs[0].Request?
    ensures Broken(reader, phase)
  {
  }

  /** Work that arrives while an unclean shutdown drains is dropped; a dropped request is never answered. */
  lemma DropKeeps(s: Exec)
    requires Inv(s) && s.phase.Draining? && s.jobs != []
    ensures var s1 := s.(jobs := s.jobs[1..]);
            Inv(if s.jobs[0].Request? then Move(s1, s.jobs[0].id, Stranded) else s1)
  {
    hide HasRequest, IsDeferred, HasCommand, IsActive, IsRunning, PlaceOf, Broken, Books, OnceQueued,
         OnceDeferred, OnceCommanded, Ending, Emptied, Undisturbed, Bounded;
    TakeJob(s, {});
    if s.jobs[0].Request? {
      var s1, id := s.(jobs := s.jobs[1..]), s.jobs[0].id;
      assert {} + {id} == {id};
      assert Held(s1, id);
      MoveFrame(s1, id, Stranded);
      DroppedIsUnclean(s.jobs, s.reader, s.phase);
      forall x ensures Placed(Move(s1, id, Stranded), x) {
        assert if x == id then Held(s1, x) else Placed(s1, x);
      }
    }
  }

  lemma ApplyKeeps(s: Exec, a: Action)
    requires Inv(s)
    ensures Inv(Apply(s, a))
  {
    hide Mid, Serve, Handle, RunCommand, EndScript, Read, CloseReader, ReadCancellation, DrainOne, AnswerWaiting, ShutdownOne;
    match a
    case ReadRequest(id, op, c) => ReadKeeps(s, id, op, c);
    case ReadCancel(id, c) => CancellationKeeps(s, id, c);
    case ReadReply(id, c) =>
      PushOther(s, {}, HostReply(id));
      if s.reader.Reading? {
        CloseReaderKeeps(s, false);
      }
    case ReadEnd(clean) =>
      if s.reader.Reading? {
        CloseReaderKeeps(s, clean);
      }
    case Dispatch(c) =>
      var i := FirstEligible(s, 0);
      if s.phase.Serving? && i.Some? {
        ServeKeeps(s, i.value, c);
      }
    case Receive(c) =>
      if s.phase.Serving? && s.jobs != [] {
        HandleKeeps(s, c);
      }
    case JobEnds(id) =>
      PushPlain(s, {}, CaptureDone(id));
      PushPlain(s, {}, InputDone(id));
    case OutputBreaks =>
      Unaffected(s, {}, s.cancelled + s.pending.Keys, s.scriptStopped);
      PushPlain(s.(cancelled := s.cancelled + s.pending.Keys), {}, OutputFailed);
    case ScriptCommand(c) =>
      if s.commands != [] {
        RunCommandKeeps(s, c);
      }
    case ScriptEnds(k, c) => EndScriptKeeps(s, k, c);
    case Drain(c) =>
      if s.phase.Draining? && s.jobs != [] {
        DrainKeeps(s, c);
      }
    case DrainOver => EndPhases(s, a);
    case AnswerDeferred(c) =>
      if s.phase.Closing? && s.phase.clean && s.deferred != [] {
        AnswerDeferredKeeps(s, c);
      }
    case Stop => EndPhases(s, a);
    case ScriptShutdown(c) => ShutdownKeeps(s, c);
  }

  lemma {:induction false} RunKeeps(actions: seq<Action>)
    ensures Inv(Run(actions))
  {
    hide Apply;
    if actions == [] {
      InitialHolds();
    } else {
      hide Inv;
      RunKeeps(actions[..|actions| - 1]);
      ApplyKeeps(Run(actions[..|actions| - 1]), actions[|actions| - 1]);
    }
  }

  lemma InitialHolds()
    ensures Inv(Initial())
  {
  }

  // ---------------------------------------------------------------- what clients are promised

  function QueuedIds(s: Exec): set<Id> {
    set i | 0 <= i < |s.jobs| && s.jobs[i].Request? :: s.jobs[i].id
  }
  function DeferredIds(s: Exec): set<Id> {
    set i | 0 <= i < |s.deferred| :: s.deferred[i].id
  }
  function InputIds(s: Exec): set<Id> {
    set k | k in s.active :: s.active[k].id
  }
  function ScriptIds(s: Exec): set<Id> {
    (set i | 0 <= i < |s.commands| && IsScript(s.commands[i]) :: s.commands[i].id)
    + (set k | k in s.contexts && s.contexts[k].running.Some? :: s.contexts[k].running.value)
  }
  function StrandedIds(s: Exec): set<Id> {
    set id | id in s.pending && s.pending[id] == Stranded
  }

  function Bit(b: bool): nat {
    if b then 1 else 0
  }

  /** In how many places a request is. */
  function Homes(s: Exec, id: Id): nat {
    Bit(id in QueuedIds(s)) + Bit(id in DeferredIds(s)) + Bit(id in InputIds(s)) + Bit(id in s.captures)
    + Bit(id in ScriptIds(s)) + Bit(id in StrandedIds(s))
  }

  /** Pending requests are in exactly one place, all others in none. */
  ghost predicate Partitioned(s: Exec) {
    && (forall id :: Homes(s, id) == Bit(id in s.pending))
    && (!Broken(s.reader, s.phase) ==> StrandedIds(s) == {})
    && |s.pending| <= MAX_PENDING && |s.captures| <= MAX_CAPTURE_JOBS && |s.contexts| <= MAX_CONTEXTS
  }

  /** In every reachable state the pending requests are the disjoint union of the queued, deferred,
      running, capturing and script-owned ones. Until the transport breaks nothing else is pending,
      there are never more than 37, and the captures and the script contexts stay within their limits. */
  lemma PendingIsPartitioned(actions: seq<Action>)
    ensures Partitioned(Run(actions))
  {
    hide Run;
    RunKeeps(actions);
    ContextsFit(actions);
    Partition(Run(actions));
  }

  /** The sets above, read off the pending table. */
  lemma IdsByPlace(s: Exec, id: Id)
    requires Inv(s)
    ensures id in QueuedIds(s) <==> PlaceOf(s.pending, id) == Some(Queued)
    ensures id in DeferredIds(s) <==> PlaceOf(s.pending, id) == Some(Deferred)
    ensures id in s.captures <==> PlaceOf(s.pending, id) == Some(Capturing)
    ensures id in StrandedIds(s) ==> Broken(s.reader, s.phase)
  {
    hide HasCommand, IsActive, IsRunning, Broken, Books, OnceQueued, OnceDeferred, OnceCommanded, Ending,
         Emptied, Undisturbed, Bounded;
    assert Placed(s, id);
  }

  lemma InOneSet(s: Exec, id: Id)
    requires Inv(s)
    ensures Homes(s, id) == Bit(id in s.pending)
    ensures id in StrandedIds(s) ==> Broken(s.reader, s.phase)
  {
    hide Inv, QueuedIds, DeferredIds, InputIds, ScriptIds, Broken;
    IdsByPlace(s, id);
    ActivePlace(s, id);
    ScriptPlace(s, id);
  }

  lemma Partition(s: Exec)
    requires Inv(s) && |s.contexts| <= MAX_CONTEXTS
    ensures Partitioned(s)
  {
    hide Homes;
    forall id ensures Homes(s, id) == Bit(id in s.pending) {
      InOneSet(s, id);
    }
    forall id | id in StrandedIds(s) ensures Broken(s.reader, s.phase) {
      InOneSet(s, id);
    }
  }

  lemma ActivePlace(s: Exec, id: Id)
    requires Inv(s)
    ensures id in InputIds(s) <==> id in s.pending && s.pending[id].Running?
  {
    hide HasRequest, IsDeferred, HasCommand, IsRunning, Broken, Books, OnceQueued, OnceDeferred, OnceCommanded,
         Ending, Emptied, Undisturbed, Bounded;
    assert Placed(s, id);
    if id in s.pending && s.pending[id].Running? {
      assert IsActive(s.active, s.pending[id].session, id);
    }
    if k :| k in s.active && s.active[k].id == id {
      assert IsActive(s.active, k, id);
    }
  }

  lemma ScriptPlace(s: Exec, id: Id)
    requires Inv(s)
    ensures id in ScriptIds(s) <==> id in s.pending && (s.pending[id].ScriptQueued? || s.pending[id].ScriptRunning?)
  {
    hide HasRequest, IsDeferred, IsActive, Broken, Books, OnceQueued, OnceDeferred, OnceCommanded, Ending,
         Emptied, Undisturbed, Bounded;
    assert Placed(s, id);
    if id in s.pending && s.pending[id].ScriptRunning? {
      assert IsRunning(s.contexts, s.pending[id].context, id);
    }
    if k :| k in s.contexts && s.contexts[k].running == Some(id) {
      assert IsRunning(s.contexts, k, id);
    }
  }

  /** No request is ever answered twice, in any run. */
  lemma AnsweredAtMostOnce(actions: seq<Action>)
    ensures var s := Run(actions);
            && Distinct(s.answered)
            && (forall id :: id in s.answered ==> id in s.received && id !in s.pending)
  {
    hide Run;
    RunKeeps(actions);
  }

  /** After a clean end of input whose shutdown neither failed nor timed out, once the script thread has
      drained, every request read has been answered exactly once unless its response could not be sent. */
  lemma CleanShutdownAnswersAll(actions: seq<Action>)
    requires var s := Run(actions);
             s.phase == Finished(true) && s.contexts == map[] && s.commands == []
    ensures var s := Run(actions);
            && s.pending == map[] && Distinct(s.answered)
            && (forall id :: id in s.received <==> id in s.answered || id in s.lost)
            && (s.lost == {} ==> forall id :: id in s.received <==> id in s.answered)
  {
    hide Run;
    RunKeeps(actions);
    NothingPending(Run(actions));
  }

  lemma RunOne(actions: seq<Action>, a: Action)
    ensures Run(actions + [a]) == Apply(Run(actions), a)
  {
    hide Apply;
    assert (actions + [a])[..|actions|] == actions;
  }

  lemma ServedOnce(c: Choice)
    requires c.sent && c.noted
    ensures var s := Apply(Apply(Apply(Initial(), ReadRequest(1, Unbound, c)), Receive(c)), Dispatch(c));
            && s.phase == Serving && s.reader == Reading && s.received == {1} && s.answered == [1]
            && s.jobs == [] && s.deferred == [] && s.active == map[] && s.captures == {}
            && s.contexts == map[] && s.commands == []
  {
    hide Apply, Handle, Serve;
    var s1 := Apply(Initial(), ReadRequest(1, Unbound, c));
    ReadsOne(c);
    var s2 := Apply(s1, Receive(c));
    DefersOne(s1, c);
    AnswersOne(s2, c);
  }

  /** One request stands in this line and nothing else is going on. */
  predicate OneRequest(s: Exec, jobs: seq<Work>, deferred: seq<Waiting>) {
    && s.phase == Serving && s.reader == Reading && s.received == {1} && s.answered == [] && s.cancelled == {}
    && s.jobs == jobs && s.deferred == deferred && s.active == map[] && s.captures == {}
    && s.contexts == map[] && s.commands == []
  }

  lemma ReadsOne(c: Choice)
    ensures OneRequest(Apply(Initial(), ReadRequest(1, Unbound, c)), [Request(1, Unbound)], [])
  {
    hide Handle, Serve, RunCommand, EndScript, DrainOne, AnswerWaiting, ShutdownOne, CloseReader, ReadCancellation, ReadHostReply;
  }

  lemma DefersOne(s: Exec, c: Choice)
    requires OneRequest(s, [Request(1, Unbound)], [])
    ensures OneRequest(Apply(s, Receive(c)), [], [Waiting(1, Unbound)])
  {
    hide Read, Serve, RunCommand, EndScript, DrainOne, AnswerWaiting, ShutdownOne, CloseReader, ReadCancellation, ReadHostReply,
         FinishCapture, FinishInput, Answer;
    assert EndInput(s, 1, Unbound) == {};
  }

  lemma AnswersOne(s: Exec, c: Choice)
    requires OneRequest(s, [], [Waiting(1, Unbound)]) && c.sent && c.noted
    ensures var s' := Apply(s, Dispatch(c));
            && s'.phase == Serving && s'.reader == Reading && s'.received == {1} && s'.answered == [1]
            && s'.jobs == [] && s'.deferred == [] && s'.active == map[] && s'.captures == {}
            && s'.contexts == map[] && s'.commands == []
  {
    hide Read, Handle, RunCommand, EndScript, DrainOne, AnswerWaiting, ShutdownOne, CloseReader, ReadCancellation, ReadHostReply, Store;
    assert FirstEligible(s, 0) == Some(0);
  }

  lemma EndsCleanly(s: Exec, c: Choice)
    requires s.phase == Serving && s.reader == Reading
    requires s.jobs == [] && s.deferred == [] && s.active == map[] && s.captures == {}
    ensures var s' := Apply(Apply(Apply(Apply(s, ReadEnd(true)), Receive(c)), DrainOver), Stop);
            && s'.phase == Finished(true) && s'.contexts == s.contexts && s'.commands == s.commands
            && s'.received == s.received && s'.answered == s.answered
  {
    hide Read, Serve, RunCommand, EndScript, DrainOne, AnswerWaiting, ShutdownOne, ReadCancellation, ReadHostReply, FinishCapture,
         FinishInput, Answer, EndInput;
    assert Apply(s, ReadEnd(true)).jobs == [InputClosed(true)];
  }

  /** Such shutdowns happen: one request read, served and answered before the input ends. */
  lemma CleanShutdownHappens(value: Option<Value>) returns (actions: seq<Action>)
    ensures var s := Run(actions);
            && s.phase == Finished(true) && s.contexts == map[] && s.commands == []
            && s.received == {1} && s.answered == [1]
  {
    hide Apply, Run;
    var c := Choice(true, true, true, true, true, value);
    var served := [ReadRequest(1, Unbound, c)] + [Receive(c)] + [Dispatch(c)];
    actions := served + [ReadEnd(true)] + [Receive(c)] + [DrainOver] + [Stop];
    NoActions();
    assert [] + [ReadRequest(1, Unbound, c)] == [ReadRequest(1, Unbound, c)];
    RunOne([], ReadRequest(1, Unbound, c));
    RunOne([ReadRequest(1, Unbound, c)], Receive(c));
    RunOne([ReadRequest(1, Unbound, c)] + [Receive(c)], Dispatch(c));
    ServedOnce(c);
    EndsCleanly(Run(served), c);
    RunOne(served, ReadEnd(true));
    RunOne(served + [ReadEnd(true)], Receive(c));
    RunOne(served + [ReadEnd(true)] + [Receive(c)], DrainOver);
    RunOne(served + [ReadEnd(true)] + [Receive(c)] + [DrainOver], Stop);
  }

  lemma NoActions()
    ensures Run([]) == Initial()
  {
  }

  lemma NothingPending(s: Exec)
    requires Inv(s) && s.phase == Finished(true) && s.contexts == map[] && s.commands == []
    ensures s.pending == map[]
  {
    Partition(s);
    assert Ending(s.jobs, s.reader, s.phase) && Emptied(s.phase, s.active, s.captures, s.deferred);
    hide Mid;
    assert QueuedIds(s) == {} && DeferredIds(s) == {} && InputIds(s) == {} && ScriptIds(s) == {} && StrandedIds(s) == {};
    forall id ensures id !in s.pending {
      assert Homes(s, id) == 0;
    }
  }

  /** While a session's input job runs, its stored value is the one the job was planned from, whatever
      else the executor does meanwhile, cancelled requests that overtake the queue included. */
  lemma RunningInputIsUndisturbed(actions: seq<Action>, k: Session)
    requires k in Run(actions).active
    ensures var s := Run(actions); k in s.sessions && s.sessions[k] == s.active[k].base
  {
    hide Run;
    RunKeeps(actions);
  }

  /** One step either leaves a session's running job in place or is the completion of exactly that job. */
  lemma ActiveIsNeverOverwritten(actions: seq<Action>, a: Action, k: Session)
    requires k in Run(actions).active
    ensures var s, s' := Run(actions), Apply(Run(actions), a);
            || (k in s'.active && s'.active[k] == s.active[k])
            || (k !in s'.active && s.jobs != [] && s.jobs[0] == InputDone(s.active[k].id) && (a.Receive? || a.Drain?))
  {
    hide Run, Apply;
    RunKeeps(actions);
    var s := Run(actions);
    assert forall j :: j in s.active && s.active[j].id == s.active[k].id ==> j == k by {
      OneSessionPerJob(s, k);
    }
    if a.Receive? || a.Drain? || a.Dispatch? {
      ExecutorActive(s, a, k);
    } else {
      OthersActive(s, a);
    }
  }

  lemma OneSessionPerJob(s: Exec, k: Session)
    requires Inv(s) && k in s.active
    ensures forall j :: j in s.active && s.active[j].id == s.active[k].id ==> j == k
  {
    hide HasRequest, IsDeferred, HasCommand, IsRunning, PlaceOf, Broken, Books, OnceQueued, OnceDeferred,
         OnceCommanded, Ending, Emptied, Undisturbed, Bounded;
    forall j | j in s.active && s.active[j].id == s.active[k].id ensures j == k {
      assert Placed(s, s.active[k].id);
      assert IsActive(s.active, j, s.active[k].id) && IsActive(s.active, k, s.active[k].id);
    }
  }

  lemma FinishInputStores(s: Exec, k: Session, c: Choice)
    requires Inv(s) && k in s.active
    ensures var id := s.active[k].id;
            FinishInput(s, id, c) == Answer(s.(active := s.active - {k}, sessions := Store(s.sessions, k, c.value)), id, c)
  {
    hide Mid, Answer;
    OneSessionPerJob(s, k);
  }

  /** A completed input job replaces exactly the value it was planned from, and no other session changes. */
  lemma CompletionLosesNothing(actions: seq<Action>, a: Action, k: Session)
    requires k in Run(actions).active && k !in Apply(Run(actions), a).active
    ensures var s, s' := Run(actions), Apply(Run(actions), a);
            && (a.Receive? || a.Drain?) && s.jobs != [] && s.jobs[0] == InputDone(s.active[k].id)
            && k in s.sessions && s.sessions[k] == s.active[k].base
            && s'.sessions == Store(s.sessions, k, a.choice.value)
  {
    hide Run, Apply;
    ActiveIsNeverOverwritten(actions, a, k);
    RunningInputIsUndisturbed(actions, k);
    RunKeeps(actions);
    CompletionStores(Run(actions), a, k);
  }

  lemma CompletionStores(s: Exec, a: Action, k: Session)
    requires Inv(s) && k in s.active && k !in Apply(s, a).active
    requires (a.Receive? || a.Drain?) && s.jobs != [] && s.jobs[0] == InputDone(s.active[k].id)
    ensures Apply(s, a).sessions == Store(s.sessions, k, a.choice.value)
  {
    hide Mid, FinishInput, Answer, Store, Read, CloseReader, RunCommand, EndScript, Serve, AnswerWaiting, ShutdownOne, ReadCancellation,
         ReadHostReply;
    TakeJob(s, {});
    var s1, id := s.(jobs := s.jobs[1..]), s.active[k].id;
    var s2 := s1.(active := s1.active - {k}, sessions := Store(s1.sessions, k, a.choice.value));
    FinishInputStores(s1, k, a.choice);
    AnswerFrame(s2, id, a.choice);
    if s.phase.Draining? {
      var c := a.choice.(sent := a.choice.sent && s.phase.clean);
      FinishInputStores(s1, k, c);
      AnswerFrame(s2, id, c);
    }
  }

  /** Nothing the executor thread owns changes, except that a message other than a request may arrive. */
  predicate Quiet(s: Exec, s': Exec) {
    && s'.active == s.active && s'.sessions == s.sessions && s'.deferred == s.deferred && s'.served == s.served
    && s'.last == s.last && Arrives(s.jobs, s'.jobs) && Room(s.contexts, s'.contexts)
  }

  /** The script contexts stay within their limit. */
  predicate Room(contexts: map<Session, Context>, contexts': map<Session, Context>) {
    |contexts| <= MAX_CONTEXTS ==> |contexts'| <= MAX_CONTEXTS
  }

  lemma RoomWithout(contexts: map<Session, Context>, k: Session)
    ensures Room(contexts, contexts) && Room(contexts, contexts - {k})
  {
    assert contexts.Keys == (contexts - {k}).Keys + (if k in contexts then {k} else {});
  }

  lemma RoomWith(contexts: map<Session, Context>, k: Session, x: Context)
    ensures k in contexts || |contexts| < MAX_CONTEXTS ==> Room(contexts, contexts[k := x])
  {
    assert contexts[k := x].Keys == contexts.Keys + {k};
    if k in contexts {
      assert contexts[k := x].Keys == contexts.Keys;
    }
  }

  predicate Arrives(jobs: seq<Work>, jobs': seq<Work>) {
    jobs' == jobs || (|jobs'| == |jobs| + 1 && jobs'[..|jobs|] == jobs && !jobs'[|jobs|].Request?)
  }

  lemma ReplyQuiet(s: Exec, id: Id, sent: bool)
    ensures Quiet(s, Reply(s, id, sent))
  {
  }

  lemma ContextQuiet(s: Exec, contexts: map<Session, Context>, id: Id, sent: bool)
    requires Room(s.contexts, contexts)
    ensures Quiet(s, Reply(s.(contexts := contexts), id, sent)) && Quiet(s, s.(contexts := contexts))
  {
    hide Reply, Room;
    RoomChain(s, contexts, id, sent);
    ReplyQuiet(s.(contexts := contexts), id, sent);
  }

  lemma RoomChain(s: Exec, contexts: map<Session, Context>, id: Id, sent: bool)
    ensures Reply(s.(contexts := contexts), id, sent).contexts == contexts
  {
  }

  lemma ResetQuiet(s: Exec, id: Id, b: Binding, c: Choice)
    ensures Quiet(s, RunCommand(s, ResetScript(id, b), c))
  {
    hide Reply, Quiet;
    ReplyQuiet(s, id, c.sent);
    if b.session in s.contexts {
      var running := s.contexts[b.session].running;
      var s1 := ClearContext(s, b.session);
      RoomWithout(s.contexts, b.session);
      ContextQuiet(s, s1.contexts, id, c.sent);
      if running.Some? {
        RespondQuiet(s, s1, running.value, c.sentToo, id, c.sent);
      }
    }
  }

  lemma RespondQuiet(s: Exec, s1: Exec, running: Id, sentToo: bool, id: Id, sent: bool)
    requires s1 == s.(contexts := s1.contexts) && Room(s.contexts, s1.contexts)
    ensures Quiet(s, Reply(Respond(s1, running, sentToo), id, sent))
  {
    hide Reply, Room;
    var s2 := Respond(s1, running, sentToo);
    RoomChain(s2, s2.contexts, id, sent);
    ReplyQuiet(s2, id, sent);
  }

  lemma CommandQuiet(s: Exec, command: Command, c: Choice)
    ensures Quiet(s, RunCommand(s, command, c))
  {
    hide Reply, Quiet, Room;
    SmallQuiet(s, s.phase, s.cancelled, s.commands, Wake);
    match command
    case WakeScript =>
    case HostReply(id) =>
      forall k ensures Quiet(s, Reply(ClearContext(s, k), id, c.sent)) {
        RoomWithout(s.contexts, k);
        ContextQuiet(s, s.contexts - {k}, id, c.sent);
      }
    case CloseScript(b) =>
      RoomWithout(s.contexts, b.session);
      ContextQuiet(s, s.contexts - {b.session}, 0, c.sent);
      if b.session in s.contexts && s.contexts[b.session].running.Some? {
        ContextQuiet(s, s.contexts - {b.session}, s.contexts[b.session].running.value, c.sent);
      }
    case ResetScript(id, b) => ResetQuiet(s, id, b, c);
    case RunScript(id, b) => RunScriptQuiet(s, id, b, c);
  }

  lemma RunScriptQuiet(s: Exec, id: Id, b: Binding, c: Choice)
    ensures Quiet(s, RunCommand(s, RunScript(id, b), c))
  {
    hide Reply, Quiet, Room;
    var context := Context(b, Some(id));
    ReplyQuiet(s, id, c.sent);
    RoomWithout(s.contexts, b.session);
    ContextQuiet(s, s.contexts - {b.session}, id, c.sent);
    RoomWith(s.contexts, b.session, context);
    if b.session in s.contexts || |s.contexts| < MAX_CONTEXTS {
      StartQuiet(s, id, b);
    }
  }

  lemma StartQuiet(s: Exec, id: Id, b: Binding)
    requires Room(s.contexts, s.contexts[b.session := Context(b, Some(id))])
    ensures Quiet(s, Move(s, id, ScriptRunning(b.session)).(contexts := s.contexts[b.session := Context(b, Some(id))]))
  {
  }

  lemma EndScriptQuiet(s: Exec, k: Session, c: Choice)
    ensures Quiet(s, EndScript(s, k, c))
  {
    hide Reply, Quiet, Room;
    SmallQuiet(s, s.phase, s.cancelled, s.commands, Wake);
    if k in s.contexts && s.contexts[k].running.Some? {
      var id := s.contexts[k].running.value;
      RoomWith(s.contexts, k, s.contexts[k].(running := None));
      RoomWithout(s.contexts, k);
      ContextQuiet(s, s.contexts[k := s.contexts[k].(running := None)], id, c.sent);
      ContextQuiet(s, s.contexts - {k}, id, c.sent);
    }
  }

  lemma CloseReaderQuiet(s: Exec, clean: bool)
    ensures Quiet(s, CloseReader(s, clean)) && CloseReader(s, clean).contexts == s.contexts
  {
  }

  lemma ShutdownQuiet(s: Exec, c: Choice)
    ensures Quiet(s, ShutdownOne(s, c))
  {
    hide Reply, Quiet, Room;
    forall k | k in s.contexts
      ensures var running := s.contexts[k].running;
              Quiet(s, if running.Some? then Reply(ClearContext(s, k), running.value, c.sent) else ClearContext(s, k))
    {
      RoomWithout(s.contexts, k);
      var running := s.contexts[k].running;
      ContextQuiet(s, s.contexts - {k}, if running.Some? then running.value else 0, c.sent);
    }
    SmallQuiet(s, s.phase, s.cancelled, if s.commands == [] then [] else s.commands[1..], Wake);
    if s.commands != [] && IsScript(s.commands[0]) {
      LastQuiet(s, s.commands[1..], s.commands[0].id, c.sent);
    }
  }

  lemma LastQuiet(s: Exec, commands: seq<Command>, id: Id, sent: bool)
    ensures Quiet(s, Reply(s.(commands := commands), id, sent))
  {
  }

  lemma SmallQuiet(s: Exec, phase: Phase, cancelled: set<Id>, commands: seq<Command>, w: Work)
    requires !w.Request?
    ensures Quiet(s, s) && Quiet(s, s.(phase := phase)) && Quiet(s, s.(phase := phase, cancelled := cancelled))
    ensures Quiet(s, s.(commands := commands))
    ensures Quiet(s, s.(jobs := s.jobs + [w])) && Quiet(s, s.(cancelled := cancelled, jobs := s.jobs + [w]))
    ensures Quiet(s, s.(commands := commands, cancelled := cancelled, jobs := s.jobs + [w]))
  {
  }

  lemma ReaderQuiet(s: Exec, a: Action)
    requires a.ReadCancel? || a.ReadReply? || a.ReadEnd?
    ensures Quiet(s, Apply(s, a))
  {
    hide Quiet, CloseReader, Read, Serve, Handle, RunCommand, EndScript, DrainOne, AnswerWaiting, ShutdownOne;
    match a
    case ReadCancel(id, c) =>
      SmallQuiet(s, s.phase, s.cancelled + {id}, s.commands + [WakeScript], Wake);
    case ReadReply(id, c) =>
      SmallQuiet(s, s.phase, s.cancelled, s.commands + [HostReply(id)], Wake);
      CloseReaderQuiet(s, false);
    case ReadEnd(clean) =>
      SmallQuiet(s, s.phase, s.cancelled, s.commands, Wake);
      CloseReaderQuiet(s, clean);
  }

  lemma ScriptQuiet(s: Exec, a: Action)
    requires a.ScriptCommand? || a.ScriptEnds? || a.ScriptShutdown?
    ensures Quiet(s, Apply(s, a))
  {
    hide Quiet, CloseReader, Read, Serve, Handle, RunCommand, EndScript, DrainOne, AnswerWaiting, ShutdownOne,
         ReadCancellation, ReadHostReply;
    SmallQuiet(s, s.phase, s.cancelled, s.commands, Wake);
    match a
    case ScriptCommand(c) =>
      if s.commands != [] {
        PopQuiet(s, c);
      }
    case ScriptEnds(k, c) => EndScriptQuiet(s, k, c);
    case ScriptShutdown(c) => ShutdownQuiet(s, c);
  }

  lemma PopQuiet(s: Exec, c: Choice)
    requires s.commands != []
    ensures Quiet(s, RunCommand(s.(commands := s.commands[1..]), s.commands[0], c))
  {
    hide RunCommand;
    CommandQuiet(s.(commands := s.commands[1..]), s.commands[0], c);
  }

  /** Only the reader's requests and the executor's own steps are not quiet. */
  lemma OthersQuiet(s: Exec, a: Action)
    requires !a.Receive? && !a.Drain? && !a.Dispatch? && !a.ReadRequest? && !a.AnswerDeferred?
    ensures Quiet(s, Apply(s, a))
  {
    hide Quiet, CloseReader, Read, Serve, Handle, RunCommand, EndScript, DrainOne, AnswerWaiting, ShutdownOne,
         ReadCancellation, ReadHostReply;
    if a.ReadCancel? || a.ReadReply? || a.ReadEnd? {
      ReaderQuiet(s, a);
    } else if a.ScriptCommand? || a.ScriptEnds? || a.ScriptShutdown? {
      ScriptQuiet(s, a);
    } else {
      var w := match a
        case JobEnds(id) => if id in s.captures then CaptureDone(id) else InputDone(id)
        case _ => OutputFailed;
      SmallQuiet(s, Apply(s, a).phase, Apply(s, a).cancelled, s.commands, w);
    }
  }

  /** Reading a request leaves everything else of the executor alone, and queues at most that request. */
  lemma ReadFrame(s: Exec, id: Id, op: Operation, c: Choice)
    ensures var s' := Read(s, id, op, c);
            && s'.active == s.active && s'.sessions == s.sessions && s'.deferred == s.deferred && s'.served == s.served && s'.contexts == s.contexts
            && ((Arrives(s.jobs, s'.jobs) && s'.last >= s.last) || (id > s.last && s'.last == id && s'.jobs == s.jobs + [Request(id, op)]))
  {
    hide CloseReader, Enqueue, Interrupt;
    CloseReaderQuiet(s, false);
    var s1 := s.(last := id, received := s.received + {id});
    CloseReaderQuiet(s1.(lost := s1.lost + {id}), false);
    InterruptFrame(s1, op);
    EnqueueFrame(Interrupt(s1, op), id, op, c);
  }

  lemma InterruptFrame(s: Exec, op: Operation)
    ensures var s' := Interrupt(s, op);
            && s'.active == s.active && s'.sessions == s.sessions && s'.deferred == s.deferred && s'.served == s.served
            && s'.contexts == s.contexts && s'.jobs == s.jobs && s'.last == s.last
  {
    hide Evaluations;
  }

  lemma EnqueueFrame(s: Exec, id: Id, op: Operation, c: Choice)
    ensures var s' := Enqueue(s, id, op, c);
            && s'.active == s.active && s'.sessions == s.sessions && s'.deferred == s.deferred && s'.served == s.served && s'.contexts == s.contexts
            && s'.last == s.last && (Arrives(s.jobs, s'.jobs) || s'.jobs == s.jobs + [Request(id, op)])
  {
    hide CloseReader;
    CloseReaderQuiet(Move(s, id, Stranded), false);
  }

  lemma HandleContexts(s: Exec, w: Work, c: Choice)
    ensures Handle(s, w, c).contexts == s.contexts
  {
    hide EndInput, Answer, Store, FinishInput;
    match w
    case CaptureDone(id) => AnswerFrame(s.(captures := s.captures - {id}), id, c);
    case InputDone(id) => FinishContexts(s, id, c);
    case Request(id, op) => AnswerFrame(s, id, c);
    case _ =>
  }

  lemma FinishContexts(s: Exec, id: Id, c: Choice)
    ensures FinishInput(s, id, c).contexts == s.contexts
  {
    hide Answer, Store;
    forall k ensures Answer(s.(active := s.active - {k}, sessions := Store(s.sessions, k, c.value)), id, c).contexts == s.contexts {
      AnswerFrame(s.(active := s.active - {k}, sessions := Store(s.sessions, k, c.value)), id, c);
    }
  }

  lemma AnswerFrame(s: Exec, id: Id, c: Choice)
    ensures var s' := Answer(s, id, c);
            && s'.contexts == s.contexts && s'.jobs == s.jobs && s'.last == s.last && s'.deferred == s.deferred
            && s'.served == s.served && s'.active == s.active && s'.sessions == s.sessions
  {
    hide Respond;
    ResponseFrame(s, id, c.sent);
  }

  lemma ResponseFrame(s: Exec, id: Id, sent: bool)
    ensures var s' := Respond(s, id, sent);
            && s'.contexts == s.contexts && s'.jobs == s.jobs && s'.last == s.last && s'.deferred == s.deferred
            && s'.served == s.served && s'.active == s.active && s'.sessions == s.sessions
  {
  }

  /** Serving takes the request out of the line and, unless it was cancelled, records the service. */
  lemma ServeFrame(s: Exec, i: nat, c: Choice)
    requires i < |s.deferred|
    ensures var s', w := Serve(s, i, c), s.deferred[i];
            && s'.contexts == s.contexts && s'.jobs == s.jobs && s'.last == s.last
            && s'.deferred == s.deferred[..i] + s.deferred[i + 1..]
            && s'.served == if w.id !in s.cancelled && w.op.OnSession? then s.served + [Served(w.id, w.op.binding.session)] else s.served
  {
    hide Answer, Store;
    var w := s.deferred[i];
    var s1 := s.(deferred := s.deferred[..i] + s.deferred[i + 1..]);
    AnswerFrame(s1, w.id, c);
    if w.op.OnSession? {
      AnswerFrame(s1.(sessions := Store(s1.sessions, w.op.binding.session, c.value),
                      served := s1.served + [Served(w.id, w.op.binding.session)]), w.id, c);
    }
  }

  lemma ExecutorContexts(s: Exec, a: Action)
    requires a.Receive? || a.Drain? || a.Dispatch? || a.AnswerDeferred?
    ensures Apply(s, a).contexts == s.contexts
  {
    hide RunCommand, Read, EndScript, CloseReader, Handle, Serve, ShutdownOne, ReadCancellation, ReadHostReply;
    if a.Dispatch? {
      var i := FirstEligible(s, 0);
      if i.Some? {
        ServeFrame(s, i.value, a.choice);
      }
    } else if !a.AnswerDeferred? && s.jobs != [] {
      HandleContexts(s.(jobs := s.jobs[1..]), s.jobs[0], a.choice);
      if s.phase.Draining? {
        HandleContexts(s.(jobs := s.jobs[1..]), s.jobs[0], a.choice.(sent := a.choice.sent && s.phase.clean));
      }
    }
  }

  lemma ContextsStep(s: Exec, a: Action)
    ensures Room(s.contexts, Apply(s, a).contexts)
  {
    hide Apply;
    if a.ReadRequest? {
      ReadApplies(s, a);
      ReadFrame(s, a.id, a.op, a.choice);
    } else if a.Receive? || a.Drain? || a.Dispatch? || a.AnswerDeferred? {
      ExecutorContexts(s, a);
    } else {
      OthersQuiet(s, a);
    }
  }

  lemma ReadApplies(s: Exec, a: Action)
    requires a.ReadRequest?
    ensures Apply(s, a) == Read(s, a.id, a.op, a.choice)
  {
  }

  lemma {:induction false} ContextsFit(actions: seq<Action>)
    ensures |Run(actions).contexts| <= MAX_CONTEXTS
  {
    hide Apply;
    if actions != [] {
      ContextsFit(actions[..|actions| - 1]);
      ContextsStep(Run(actions[..|actions| - 1]), actions[|actions| - 1]);
    }
  }

  /** Only the executor's own dispatch and completion steps touch the running jobs. */
  lemma OthersActive(s: Exec, a: Action)
    requires !a.Receive? && !a.Drain? && !a.Dispatch?
    ensures Apply(s, a).active == s.active && Apply(s, a).sessions == s.sessions
  {
    hide RunCommand, Read, EndScript, CloseReader, Serve, Handle, DrainOne, ShutdownOne, ReadCancellation, ReadHostReply;
    if a.ReadRequest? {
      ReadFrame(s, a.id, a.op, a.choice);
    } else if !a.AnswerDeferred? {
      OthersQuiet(s, a);
    }
  }

  lemma ExecutorActive(s: Exec, a: Action, k: Session)
    requires (a.Receive? || a.Drain? || a.Dispatch?) && k in s.active
    requires forall j :: j in s.active && s.active[j].id == s.active[k].id ==> j == k
    ensures var s' := Apply(s, a);
            || (k in s'.active && s'.active[k] == s.active[k])
            || (k !in s'.active && s.jobs != [] && s.jobs[0] == InputDone(s.active[k].id) && (a.Receive? || a.Drain?))
  {
    hide Handle, Serve, Read, ReadCancellation, ReadHostReply, CloseReader, RunCommand, EndScript, AnswerWaiting, ShutdownOne;
    if a.Dispatch? {
      var i := FirstEligible(s, 0);
      if s.phase.Serving? && i.Some? {
        ServeActive(s, i.value, a.choice, k);
      }
    } else if s.jobs != [] {
      HandleActive(s.(jobs := s.jobs[1..]), s.jobs[0], a.choice, k);
      if s.phase.Draining? {
        HandleActive(s.(jobs := s.jobs[1..]), s.jobs[0], a.choice.(sent := a.choice.sent && s.phase.clean), k);
      }
    }
  }

  /** A job is started only on a session that has none: a request that overtook the queue because it was
      cancelled never starts one. */
  lemma ServeActive(s: Exec, i: nat, c: Choice, k: Session)
    requires i < |s.deferred| && Eligible(s, s.deferred[i]) && k in s.active
    ensures k in Serve(s, i, c).active && Serve(s, i, c).active[k] == s.active[k]
  {
    hide Answer, Store;
    var w := s.deferred[i];
    var s1 := s.(deferred := s.deferred[..i] + s.deferred[i + 1..]);
    AnswerFrame(s1, w.id, c);
    if w.op.OnSession? {
      AnswerFrame(s1.(sessions := Store(s1.sessions, w.op.binding.session, c.value),
                      served := s1.served + [Served(w.id, w.op.binding.session)]), w.id, c);
    }
  }

  lemma HandleActive(s: Exec, w: Work, c: Choice, k: Session)
    requires k in s.active && forall j :: j in s.active && s.active[j].id == s.active[k].id ==> j == k
    ensures var s' := Handle(s, w, c);
            if w == InputDone(s.active[k].id) then k !in s'.active
            else k in s'.active && s'.active[k] == s.active[k]
  {
    hide EndInput;
  }
}
