/** Requests of one session are served in the order they were read. */
module ExecutorOrder {
  import opened Common
  import opened Executor
  import opened ExecutorSafety

  predicate On(op: Operation, session: Session) {
    op.OnSession? && op.binding.session == session
  }

  /** Waiting requests stand in the order they were read: first the deferred ones, then those still queued. */
  predicate Lined(deferred: seq<Waiting>, jobs: seq<Work>, last: Id) {
    && (forall i, j :: 0 <= i < j < |deferred| ==> deferred[i].id < deferred[j].id)
    && (forall i, j :: 0 <= i < j < |jobs| && jobs[i].Request? && jobs[j].Request? ==> jobs[i].id < jobs[j].id)
    && (forall i, j :: 0 <= i < |deferred| && 0 <= j < |jobs| && jobs[j].Request? ==> deferred[i].id < jobs[j].id)
    && (forall i :: 0 <= i < |deferred| ==> deferred[i].id <= last)
    && (forall j :: 0 <= j < |jobs| && jobs[j].Request? ==> jobs[j].id <= last)
  }

  /** Nothing that still waits was overtaken: whatever was served on a session was read before everything of
      that session that waits. */
  predicate NotOvertaken(deferred: seq<Waiting>, jobs: seq<Work>, served: seq<Served>, last: Id) {
    && (forall n :: 0 <= n < |served| ==> served[n].id <= last)
    && (forall n, i :: 0 <= n < |served| && 0 <= i < |deferred| && On(deferred[i].op, served[n].session) ==>
          served[n].id < deferred[i].id)
    && (forall n, j :: 0 <= n < |served| && 0 <= j < |jobs| && jobs[j].Request? && On(jobs[j].op, served[n].session) ==>
          served[n].id < jobs[j].id)
  }

  predicate ServedInOrder(served: seq<Served>) {
    forall m, n :: 0 <= m < n < |served| && served[m].session == served[n].session ==> served[m].id < served[n].id
  }

  predicate Ordered(deferred: seq<Waiting>, jobs: seq<Work>, served: seq<Served>, last: Id) {
    Lined(deferred, jobs, last) && NotOvertaken(deferred, jobs, served, last) && ServedInOrder(served)
  }

  lemma ArriveOrdered(deferred: seq<Waiting>, jobs: seq<Work>, jobs': seq<Work>, served: seq<Served>, last: Id, last': Id)
    requires Ordered(deferred, jobs, served, last) && Arrives(jobs, jobs') && last <= last'
    ensures Ordered(deferred, jobs', served, last')
  {
    if jobs' != jobs {
      assert forall j :: 0 <= j < |jobs| ==> jobs'[..|jobs|][j] == jobs'[j];
    }
  }

  lemma PushOrdered(deferred: seq<Waiting>, jobs: seq<Work>, served: seq<Served>, last: Id, id: Id, op: Operation)
    requires Ordered(deferred, jobs, served, last) && id > last
    ensures Ordered(deferred, jobs + [Request(id, op)], served, id)
  {
  }

  lemma PopOrdered(deferred: seq<Waiting>, jobs: seq<Work>, served: seq<Served>, last: Id)
    requires Ordered(deferred, jobs, served, last) && jobs != []
    ensures Ordered(deferred, jobs[1..], served, last)
  {
  }

  lemma DeferOrdered(deferred: seq<Waiting>, jobs: seq<Work>, served: seq<Served>, last: Id)
    requires Ordered(deferred, jobs, served, last) && jobs != [] && jobs[0].Request?
    ensures Ordered(deferred + [Waiting(jobs[0].id, jobs[0].op)], jobs[1..], served, last)
  {
    var w := jobs[0];
    assert forall j :: 1 <= j < |jobs| && jobs[j].Request? ==> w.id < jobs[j].id;
  }

  lemma LeaveOrdered(deferred: seq<Waiting>, jobs: seq<Work>, served: seq<Served>, last: Id, i: nat)
    requires Ordered(deferred, jobs, served, last) && i < |deferred|
    ensures Ordered(deferred[..i] + deferred[i + 1..], jobs, served, last)
  {
    var rest := deferred[..i] + deferred[i + 1..];
    assert forall j :: 0 <= j < |rest| ==> rest[j] == deferred[if j < i then j else j + 1];
  }

  /** Serving the first request of a session in line. */
  lemma ServeOrdered(deferred: seq<Waiting>, jobs: seq<Work>, served: seq<Served>, last: Id, i: nat)
    requires Ordered(deferred, jobs, served, last) && i < |deferred| && deferred[i].op.OnSession?
    requires forall j :: 0 <= j < i ==> !On(deferred[j].op, deferred[i].op.binding.session)
    ensures Ordered(deferred[..i] + deferred[i + 1..], jobs, served + [Served(deferred[i].id, deferred[i].op.binding.session)], last)
  {
    LeaveOrdered(deferred, jobs, served, last, i);
    var w, rest := deferred[i], deferred[..i] + deferred[i + 1..];
    assert forall j :: 0 <= j < |rest| ==> rest[j] == deferred[if j < i then j else j + 1];
    assert On(w.op, w.op.binding.session);
  }

  /** The first eligible request is the first of its session in line. */
  lemma FirstOfItsSession(s: Exec, i: nat)
    requires FirstEligible(s, 0) == Some(i) && s.deferred[i].id !in s.cancelled && s.deferred[i].op.OnSession?
    ensures forall j :: 0 <= j < i ==> !On(s.deferred[j].op, s.deferred[i].op.binding.session)
  {
    assert Eligible(s, s.deferred[i]);
    forall j | 0 <= j < i ensures !On(s.deferred[j].op, s.deferred[i].op.binding.session) {
      assert !Eligible(s, s.deferred[j]);
    }
  }

  lemma HandleFrame(s: Exec, w: Work, c: Choice)
    ensures var s' := Handle(s, w, c);
            && s'.jobs == s.jobs && s'.served == s.served && s'.last == s.last
            && s'.deferred == if w.Request? && !w.op.Malformed? then s.deferred + [Waiting(w.id, w.op)] else s.deferred
  {
    hide EndInput, Answer;
    match w
    case CaptureDone(id) => AnswerFrame(s.(captures := s.captures - {id}), id, c);
    case InputDone(id) => FinishFrame(s, id, c);
    case Request(id, op) => AnswerFrame(s, id, c);
    case _ =>
  }

  lemma FinishFrame(s: Exec, id: Id, c: Choice)
    ensures var s' := FinishInput(s, id, c);
            s'.jobs == s.jobs && s'.served == s.served && s'.last == s.last && s'.deferred == s.deferred
  {
    hide Answer, Store;
    forall k ensures var s' := Answer(s.(active := s.active - {k}, sessions := Store(s.sessions, k, c.value)), id, c);
      s'.jobs == s.jobs && s'.served == s.served && s'.last == s.last && s'.deferred == s.deferred
    {
      AnswerFrame(s.(active := s.active - {k}, sessions := Store(s.sessions, k, c.value)), id, c);
    }
  }

  lemma HandleOrdered(s: Exec, c: Choice)
    requires Ordered(s.deferred, s.jobs, s.served, s.last) && s.jobs != []
    ensures var s' := Handle(s.(jobs := s.jobs[1..]), s.jobs[0], c);
            Ordered(s'.deferred, s'.jobs, s'.served, s'.last)
  {
    hide Ordered, Handle;
    HandleFrame(s.(jobs := s.jobs[1..]), s.jobs[0], c);
    PopOrdered(s.deferred, s.jobs, s.served, s.last);
    if s.jobs[0].Request? {
      DeferOrdered(s.deferred, s.jobs, s.served, s.last);
    }
  }

  lemma DispatchOrdered(s: Exec, i: nat, c: Choice)
    requires Ordered(s.deferred, s.jobs, s.served, s.last) && FirstEligible(s, 0) == Some(i)
    ensures var s' := Serve(s, i, c); Ordered(s'.deferred, s'.jobs, s'.served, s'.last)
  {
    hide Ordered, Serve, Eligible;
    ServeFrame(s, i, c);
    if s.deferred[i].id !in s.cancelled && s.deferred[i].op.OnSession? {
      FirstOfItsSession(s, i);
      ServeOrdered(s.deferred, s.jobs, s.served, s.last, i);
    } else {
      LeaveOrdered(s.deferred, s.jobs, s.served, s.last, i);
    }
  }

  lemma DrainOrdered(s: Exec, c: Choice)
    requires Ordered(s.deferred, s.jobs, s.served, s.last) && s.phase.Draining? && s.jobs != []
    ensures var s' := DrainOne(s, c); Ordered(s'.deferred, s'.jobs, s'.served, s'.last)
  {
    hide Ordered, Handle;
    PopOrdered(s.deferred, s.jobs, s.served, s.last);
    HandleOrdered(s, c.(sent := c.sent && s.phase.clean));
  }

  lemma AnswerOrdered(s: Exec, c: Choice)
    requires Ordered(s.deferred, s.jobs, s.served, s.last) && s.phase.Closing? && s.deferred != []
    ensures var s' := AnswerWaiting(s, c); Ordered(s'.deferred, s'.jobs, s'.served, s'.last)
  {
    hide Ordered;
    LeaveOrdered(s.deferred, s.jobs, s.served, s.last, 0);
    assert s.deferred[..0] + s.deferred[0 + 1..] == s.deferred[1..];
  }

  lemma ReadOrdered(s: Exec, id: Id, op: Operation, c: Choice)
    requires Ordered(s.deferred, s.jobs, s.served, s.last)
    ensures var s' := Read(s, id, op, c); Ordered(s'.deferred, s'.jobs, s'.served, s'.last)
  {
    hide Ordered, Read;
    ReadFrame(s, id, op, c);
    var s' := Read(s, id, op, c);
    if Arrives(s.jobs, s'.jobs) && s'.last >= s.last {
      ArriveOrdered(s.deferred, s.jobs, s'.jobs, s.served, s.last, s'.last);
    } else {
      PushOrdered(s.deferred, s.jobs, s.served, s.last, id, op);
    }
  }

  lemma ApplyOrdered(s: Exec, a: Action)
    requires Ordered(s.deferred, s.jobs, s.served, s.last)
    ensures var s' := Apply(s, a); Ordered(s'.deferred, s'.jobs, s'.served, s'.last)
  {
    hide Ordered, Read, Serve, Handle, DrainOne, AnswerWaiting, RunCommand, EndScript, ShutdownOne, CloseReader, ReadCancellation,
         ReadHostReply, Quiet;
    match a
    case ReadRequest(id, op, c) => ReadOrdered(s, id, op, c);
    case Dispatch(c) =>
      var i := FirstEligible(s, 0);
      if i.Some? {
        DispatchOrdered(s, i.value, c);
      }
    case Receive(c) =>
      if s.jobs != [] {
        HandleOrdered(s, c);
      }
    case Drain(c) =>
      if s.phase.Draining? && s.jobs != [] {
        DrainOrdered(s, c);
      }
    case AnswerDeferred(c) =>
      if s.phase.Closing? && s.deferred != [] {
        AnswerOrdered(s, c);
      }
    case _ =>
      OthersQuiet(s, a);
      QuietOrdered(s, Apply(s, a));
  }

  lemma QuietOrdered(s: Exec, s': Exec)
    requires Ordered(s.deferred, s.jobs, s.served, s.last) && Quiet(s, s')
    ensures Ordered(s'.deferred, s'.jobs, s'.served, s'.last)
  {
    hide Ordered;
    ArriveOrdered(s.deferred, s.jobs, s'.jobs, s.served, s.last, s'.last);
  }

  lemma {:induction false} RunOrdered(actions: seq<Action>)
    ensures var s := Run(actions); Ordered(s.deferred, s.jobs, s.served, s.last)
  {
    hide Apply;
    if actions != [] {
      RunOrdered(actions[..|actions| - 1]);
      ApplyOrdered(Run(actions[..|actions| - 1]), actions[|actions| - 1]);
    }
  }

  /** In every run the requests carried out on one session are carried out in the order they were read, and
      none of them has overtaken a request of that session that still waits. */
  lemma SessionsStayOrdered(actions: seq<Action>)
    ensures var s := Run(actions);
            && (forall m, n :: 0 <= m < n < |s.served| && s.served[m].session == s.served[n].session ==>
                  s.served[m].id < s.served[n].id)
            && (forall n, i :: 0 <= n < |s.served| && 0 <= i < |s.deferred| && On(s.deferred[i].op, s.served[n].session) ==>
                  s.served[n].id < s.deferred[i].id)
            && (forall n, j :: 0 <= n < |s.served| && 0 <= j < |s.jobs| && s.jobs[j].Request? && On(s.jobs[j].op, s.served[n].session) ==>
                  s.served[n].id < s.jobs[j].id)
  {
    hide Run;
    RunOrdered(actions);
  }

  /** The executor takes a request that nobody cancelled out of the line only to serve it on its session. */
  lemma LeavingIsService(s: Exec, c: Choice, i: nat)
    requires i < |s.deferred| && s.deferred[i].op.OnSession? && s.deferred[i].id !in s.cancelled
    ensures var s', w := Apply(s, Dispatch(c)), s.deferred[i];
            IsDeferred(s'.deferred, w.id) || s'.served == s.served + [Served(w.id, w.op.binding.session)]
  {
    hide Serve, Read, Handle, RunCommand, EndScript, DrainOne, AnswerWaiting, ShutdownOne, CloseReader, ReadCancellation,
         ReadHostReply, Eligible;
    var first := FirstEligible(s, 0);
    if s.phase.Serving? && first.Some? {
      var j := first.value;
      ServeFrame(s, j, c);
      var rest := s.deferred[..j] + s.deferred[j + 1..];
      if i != j {
        assert rest[if i < j then i else i - 1] == s.deferred[i];
      }
    } else {
      assert IsDeferred(s.deferred, s.deferred[i].id);
    }
  }
}
