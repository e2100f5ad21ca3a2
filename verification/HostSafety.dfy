/** Safety of the input host over whole runs. */
module HostSafety {
  import opened Common
  import opened HoldLedger
  import opened InputMonitor
  import opened HostMachine

  ghost function HeldBy(l: Ledger, p: Participant): seq<Hold> {
    if p in l.live then l.live[p].held else []
  }

  ghost predicate Token(l: Ledger, p: Participant) {
    p.registry == l.registry && 1 <= p.sequence <= l.next
  }

  /** Between operations: the monitor accepts the record, nothing is half done, and what it says is
      owed to each participant is exactly what the ledger says that participant holds. */
  ghost predicate Tracks(h: Host) {
    && h.targets.Keys == h.ledger.live.Keys
    && (forall p :: p in h.ledger.live ==> Token(h.ledger, p))
    && Watching(h.log).Some?
    && Settled(h.ledger, Watching(h.log).value)
  }

  ghost predicate Settled(l: Ledger, w: Watch) {
    && w.closing.None? && w.retry.None?
    && (forall p :: Owed(w, p) == HeldBy(l, p))
    && (forall p :: p in w.closed ==> p !in l.live && Token(l, p))
  }

  /** `w'` is `w` with participant `p` owed `held` and everyone else as before. */
  ghost predicate Only(w: Watch, w': Watch, p: Participant, held: seq<Hold>) {
    && (forall q :: q != p ==> Owed(w', q) == Owed(w, q))
    && Owed(w', p) == held && w'.closed == w.closed
  }

  lemma {:induction false} ReleaseAllWatched(h: Host, p: Participant, held: seq<Hold>, env: Env)
    requires Watching(h.log).Some?
    requires var w := Watching(h.log).value;
             Owed(w, p) == held && p !in w.closed && w.retry.None? && (w.closing.Some? ==> w.closing.value == p)
    ensures Watching(ReleaseAll(h, p, held, env).log).Some?
    ensures var w, w' := Watching(h.log).value, Watching(ReleaseAll(h, p, held, env).log).value;
            Only(w, w', p, []) && w'.retry.None? && (w'.closing.Some? ==> w'.closing.value == p)
    decreases |held|
  {
    if held != [] {
      var call := Call(p, Cleanup(held[|held| - 1].release), env(|h.log|));
      WatchingOne(h.log, call);
      ReleaseAllWatched(Post(h, p, call.kind, env), p, held[..|held| - 1], env);
    }
  }

  /** Closing a participant whose owed releases are its held ones settles the whole record again. */
  lemma CloseSettles(h: Host, p: Participant, env: Env)
    requires p in h.ledger.live && Token(h.ledger, p) && Watching(h.log).Some?
    requires var w := Watching(h.log).value;
             && w.retry.None? && (w.closing.Some? ==> w.closing.value == p)
             && (forall q :: Owed(w, q) == HeldBy(h.ledger, q))
             && (forall q :: q in w.closed ==> q !in h.ledger.live && Token(h.ledger, q))
    ensures Watching(CloseHost(h, p, env).log).Some?
    ensures Settled(CloseHost(h, p, env).ledger, Watching(CloseHost(h, p, env).log).value)
    ensures p in Watching(CloseHost(h, p, env).log).value.closed
  {
    hide HostMachine.ReleaseAll, Watching;
    CloseFrame(h, p, env);
    var removed := h.(ledger := HoldLedger.Close(h.ledger, p).0, targets := h.targets - {p});
    var held := h.ledger.live[p].held;
    ReleaseAllWatched(removed, p, held, env);
    var released := ReleaseAll(removed, p, held, env);
    WatchingOne(released.log, Call(p, Closed, env(|released.log|)));
    var l', w' := CloseHost(h, p, env).ledger, Watching(CloseHost(h, p, env).log).value;
    forall q ensures Owed(w', q) == HeldBy(l', q) {
      assert Owed(w', q) == Owed(Watching(released.log).value, q);
    }
  }

  lemma CloseTracks(h: Host, p: Participant, env: Env)
    requires Tracks(h)
    ensures Tracks(CloseHost(h, p, env))
  {
    CloseFrame(h, p, env);
    if p in h.ledger.live {
      CloseSettles(h, p, env);
    }
  }

  /** What a participant has to release after an attempt with this outcome. */
  ghost function After(before: Ledger, reserved: Ledger, p: Participant, kind: Kind, outcome: Outcome): seq<Hold> {
    HeldBy(if outcome == NotDispatched && !kind.Up? then before else reserved, p)
  }

  /** Reserving touches nobody else, and the monitor accepts the attempt that follows it. */
  lemma ReserveObserved(l: Ledger, w: Watch, p: Participant, prepared: Prepared, outcome: Outcome)
    requires Settled(l, w) && p in l.live && Reserve(l, p, prepared).Ok?
    ensures var (l', kind) := Reserve(l, p, prepared).value;
            && l'.registry == l.registry && l'.next == l.next && l'.live.Keys == l.live.Keys
            && (forall q :: q != p ==> HeldBy(l', q) == HeldBy(l, q))
            && !kind.Retry? && !kind.Cleanup? && !kind.Closed?
            && var seen := Observe(w, Call(p, kind, outcome));
               && seen.Some?
               && Only(w, seen.value, p, After(l, l', p, kind, outcome))
               && seen.value.closing == (if outcome == Delivered then None else Some(p))
               && seen.value.retry == (if kind.Up? && outcome == NotDispatched
                                       then Some((kind.control, kind.packet)) else None)
  {
    hide Holds;
    assert Owed(w, p) == HeldBy(l, p);
  }

  /** After any failed attempt the participant is closed and the record settled. */
  lemma FailTracks(h: Host, l: Ledger, p: Participant, kind: Kind, outcome: Outcome, env: Env)
    requires Tracks(h) && p in h.ledger.live && outcome == env(|h.log|) && outcome != Delivered
    requires l.registry == h.ledger.registry && l.next == h.ledger.next && l.live.Keys == h.ledger.live.Keys
    requires forall q :: q != p ==> HeldBy(l, q) == HeldBy(h.ledger, q)
    requires var seen := Observe(Watching(h.log).value, Call(p, kind, outcome));
             && seen.Some?
             && Only(Watching(h.log).value, seen.value, p, After(h.ledger, l, p, kind, outcome))
             && seen.value.closing == Some(p)
             && seen.value.retry == (if kind.Up? && outcome == NotDispatched
                                     then Some((kind.control, kind.packet)) else None)
    ensures Tracks(FailPost(h, Post(h.(ledger := l), p, kind, env), p, kind, outcome, env).0)
    ensures p !in FailPost(h, Post(h.(ledger := l), p, kind, env), p, kind, outcome, env).0.ledger.live
    ensures p in Watching(FailPost(h, Post(h.(ledger := l), p, kind, env), p, kind, outcome, env).0.log).value.closed
  {
    var posted := Post(h.(ledger := l), p, kind, env);
    WatchingOne(h.log, Call(p, kind, outcome));
    var settled := if outcome == NotDispatched && !kind.Up? then posted.(ledger := h.ledger) else posted;
    var retried := settled;
    if outcome == NotDispatched && kind.Up? {
      var again := Retry(kind.control, kind.packet);
      retried := Post(settled, p, again, env);
      WatchingOne(settled.log, Call(p, again, env(|settled.log|)));
    }
    CloseSettles(retried, p, env);
    CloseFrame(retried, p, env);
  }

  lemma DispatchTracks(h: Host, p: Participant, prepared: Prepared, env: Env)
    requires Tracks(h) && p in h.ledger.live
    ensures Tracks(Dispatch(h, p, prepared, env).0)
  {
    if Reserve(h.ledger, p, prepared).Ok? {
      var (l, kind) := Reserve(h.ledger, p, prepared).value;
      var outcome := env(|h.log|);
      ReserveObserved(h.ledger, Watching(h.log).value, p, prepared, outcome);
      if outcome == Delivered {
        WatchingOne(h.log, Call(p, kind, outcome));
      } else {
        FailTracks(h, l, p, kind, outcome, env);
      }
    }
  }

  lemma OpenTracks(h: Host, identity: Identity, domain: string, target: Target, env: Env)
    requires Tracks(h)
    ensures Tracks(Step(h, Op.Open(identity, domain, target), env).0)
  {
    var h' := Step(h, Op.Open(identity, domain, target), env).0;
    assert forall q :: HeldBy(h'.ledger, q) == HeldBy(h.ledger, q);
  }

  lemma DestinationTracks(h: Host, p: Participant, target: Target)
    requires Tracks(h)
    ensures p in h.ledger.live ==> Tracks(h.(targets := h.targets[p := target]))
  {
  }

  lemma AcceptTracks(h: Host, p: Participant, target: Identity, sequence: nat)
    requires Tracks(h)
    ensures Tracks(Accept(h, p, target, sequence).0)
    ensures Accept(h, p, target, sequence).1.Ok? ==> p in Accept(h, p, target, sequence).0.ledger.live
  {
    var h' := Accept(h, p, target, sequence).0;
    assert forall q :: HeldBy(h'.ledger, q) == HeldBy(h.ledger, q);
  }

  lemma ActionTracks(h: Host, p: Participant, env: Env)
    requires Tracks(h) && p in h.ledger.live
    ensures env(|h.log|) == Delivered ==> Tracks(Post(h, p, Action(None), env))
    ensures env(|h.log|) != Delivered ==>
              Tracks(FailPost(h, Post(h, p, Action(None), env), p, Action(None), env(|h.log|), env).0)
  {
    var outcome := env(|h.log|);
    WatchingOne(h.log, Call(p, Action(None), outcome));
    assert h.(ledger := h.ledger) == h;
    if outcome != Delivered {
      FailTracks(h, h.ledger, p, Action(None), outcome, env);
    }
  }

  /** Every operation, with every outcome of every backend call, leaves the host settled. */
  lemma StepTracks(h: Host, op: Op, env: Env)
    requires Tracks(h)
    ensures Tracks(Step(h, op, env).0)
  {
    hide Tracks, FailPost, Reserve, HostMachine.CloseHost, AllAvailable;
    match op
    case Open(identity, domain, target) =>
      OpenTracks(h, identity, domain, target, env);
    case Submit(p, identity, sequence, valid, preparation) =>
      AcceptTracks(h, p, identity, sequence);
      var (h', r) := Accept(h, p, identity, sequence);
      if r.Ok? && preparation.PreparePanics? {
        CloseTracks(h', p, env);
      } else if r.Ok? && preparation.Ready? {
        DispatchTracks(h', p, preparation.prepared, env);
      }
    case SubmitPrepared(p, identity, sequence, prepared) =>
      AcceptTracks(h, p, identity, sequence);
      var (h', r) := Accept(h, p, identity, sequence);
      if r.Ok? {
        DispatchTracks(h', p, prepared, env);
      }
    case SubmitAction(p, identity, sequence, controls) =>
      AcceptTracks(h, p, identity, sequence);
      var (h', r) := Accept(h, p, identity, sequence);
      if r.Ok? {
        ActionTracks(h', p, env);
      }
    case UpdateDestination(p, identity, target, panics) =>
      CloseTracks(h, p, env);
      DestinationTracks(h, p, target);
    case Prepare(p, valid, preparation) =>
      CloseTracks(h, p, env);
    case CloseOp(p) =>
      CloseTracks(h, p, env);
  }

  /** Over every run with every backend, a control is held exactly while its Down may have been
      delivered and no release of it has been attempted. */
  lemma {:induction false} RunTracks(registry: nat, maxSessions: nat, maxHeld: nat, ops: seq<Op>, env: Env)
    ensures Tracks(Run(Initial(registry, maxSessions, maxHeld), ops, env))
  {
    if ops != [] {
      RunTracks(registry, maxSessions, maxHeld, ops[..|ops| - 1], env);
      StepTracks(Run(Initial(registry, maxSessions, maxHeld), ops[..|ops| - 1], env), ops[|ops| - 1], env);
    }
  }

  // ---------------------------------------------------------------- drop

  lemma DropTracks(h: Host, sequence: nat, env: Env)
    requires Tracks(h) && forall p :: p in h.ledger.live ==> p.sequence > sequence
    ensures Tracks(DropFrom(h, sequence, env)) && DropFrom(h, sequence, env).ledger.live == map[]
    decreases h.ledger.next - sequence
  {
    if sequence < h.ledger.next {
      var p := Participant(h.ledger.registry, sequence + 1);
      CloseTracks(h, p, env);
      CloseFrame(h, p, env);
      forall q | q in CloseHost(h, p, env).ledger.live ensures q.sequence > sequence + 1 {
        assert Token(h.ledger, q) && q != p;
      }
      DropTracks(CloseHost(h, p, env), sequence + 1, env);
    } else {
      assert forall q :: q in h.ledger.live ==> Token(h.ledger, q);
      assert h.ledger.live == map[];
    }
  }

  /** By the time the host is dropped, every Down that may have been delivered has been given exactly
      one release attempt, and every Up certified not dispatched exactly one more. */
  lemma DropReleasesEverything(registry: nat, maxSessions: nat, maxHeld: nat, ops: seq<Op>, env: Env, p: Participant)
    ensures var dropped := DropFrom(Run(Initial(registry, maxSessions, maxHeld), ops, env), 0, env);
            && Watching(dropped.log).Some?
            && Due(dropped.log, p) == Attempts(dropped.log, p)
  {
    var h := Run(Initial(registry, maxSessions, maxHeld), ops, env);
    RunTracks(registry, maxSessions, maxHeld, ops, env);
    assert forall q :: q in h.ledger.live ==> Token(h.ledger, q);
    DropTracks(h, 0, env);
    var dropped := DropFrom(h, 0, env);
    AttemptsMatchDue(dropped.log, p);
    assert Owed(Watching(dropped.log).value, p) == HeldBy(dropped.ledger, p);
  }

  // ---------------------------------------------------------------- tokens, isolation, exclusivity

  /** One operation touches at most the participant it names. */
  ghost predicate Apart(h: Host, h': Host, p: Participant) {
    && h.log <= h'.log
    && (forall q :: q in h.ledger.live && q != p ==>
          q in h'.ledger.live && h'.ledger.live[q] == h.ledger.live[q]
          && (q in h'.targets <==> q in h.targets) && (q in h.targets ==> h'.targets[q] == h.targets[q]))
    && (forall q :: q !in h.ledger.live && q != p ==> q !in h'.ledger.live)
    && (forall i :: |h.log| <= i < |h'.log| ==> h'.log[i].owner == p)
    && h'.ledger.registry == h.ledger.registry && h'.ledger.next == h.ledger.next
  }

  lemma {:induction false} ReleaseAllApart(h: Host, p: Participant, held: seq<Hold>, env: Env)
    ensures Apart(h, ReleaseAll(h, p, held, env), p)
    decreases |held|
  {
    if held != [] {
      ReleaseAllApart(Post(h, p, Cleanup(held[|held| - 1].release), env), p, held[..|held| - 1], env);
    }
  }

  lemma CloseApart(h: Host, p: Participant, env: Env)
    ensures Apart(h, CloseHost(h, p, env), p)
    ensures p !in CloseHost(h, p, env).ledger.live
  {
    CloseFrame(h, p, env);
    if p in h.ledger.live {
      var removed := h.(ledger := HoldLedger.Close(h.ledger, p).0, targets := h.targets - {p});
      ReleaseAllApart(removed, p, h.ledger.live[p].held, env);
    }
  }

  lemma FailApart(h: Host, l: Ledger, p: Participant, kind: Kind, outcome: Outcome, env: Env)
    requires Apart(h, h.(ledger := l), p)
    ensures var h' := FailPost(h, Post(h.(ledger := l), p, kind, env), p, kind, outcome, env).0;
            Apart(h, h', p) && p !in h'.ledger.live
  {
    var posted := Post(h.(ledger := l), p, kind, env);
    var settled := if outcome == NotDispatched && !kind.Up? then posted.(ledger := h.ledger) else posted;
    var retried := if outcome == NotDispatched && kind.Up?
                   then Post(settled, p, Retry(kind.control, kind.packet), env) else settled;
    CloseApart(retried, p, env);
  }

  lemma ReserveApart(h: Host, p: Participant, prepared: Prepared)
    requires Reserve(h.ledger, p, prepared).Ok?
    ensures Apart(h, h.(ledger := Reserve(h.ledger, p, prepared).value.0), p)
    ensures p in h.ledger.live || prepared.PreparedAction?
  {
    hide Holds;
  }

  lemma DispatchApart(h: Host, p: Participant, prepared: Prepared, env: Env)
    ensures Apart(h, Dispatch(h, p, prepared, env).0, p)
  {
    hide Apart;
    assert Apart(h, h, p) by { SelfApart(h, p); }
    if Reserve(h.ledger, p, prepared).Ok? {
      var (l, kind) := Reserve(h.ledger, p, prepared).value;
      ReserveApart(h, p, prepared);
      if env(|h.log|) == Delivered {
        PostApart(h, h.(ledger := l), p, kind, env);
      } else {
        FailApart(h, l, p, kind, env(|h.log|), env);
      }
    }
  }

  lemma SelfApart(h: Host, p: Participant)
    ensures Apart(h, h, p)
  {
  }

  lemma PostApart(h: Host, h': Host, p: Participant, kind: Kind, env: Env)
    requires Apart(h, h', p)
    ensures Apart(h, Post(h', p, kind, env), p)
  {
  }

  lemma ApartTrans(a: Host, b: Host, c: Host, p: Participant)
    requires Apart(a, b, p) && Apart(b, c, p)
    ensures Apart(a, c, p)
  {
  }

  /** Nothing a participant does, nor any failure it suffers, reaches another participant's holds,
      fence or destination, and every backend call it causes is made in its own name. */
  lemma StepIsolates(h: Host, op: Op, env: Env)
    requires !op.Open?
    ensures Apart(h, Step(h, op, env).0, op.owner)
  {
    hide FailPost, Reserve, HostMachine.CloseHost, AllAvailable, Dispatch, Apart, Accept;
    var p := op.owner;
    SelfApart(h, p);
    CloseApart(h, p, env);
    if op.UpdateDestination? {
      DestinationApart(h, p, op.target);
    }
    if op.Submit? || op.SubmitPrepared? || op.SubmitAction? {
      var h' := Accept(h, p, op.identity, op.sequence).0;
      AcceptApart(h, p, op.identity, op.sequence);
      CloseApart(h', p, env);
      if op.Submit? && op.preparation.Ready? {
        DispatchApart(h', p, op.preparation.prepared, env);
      } else if op.SubmitPrepared? {
        DispatchApart(h', p, op.prepared, env);
      } else if op.SubmitAction? {
        PostApart(h, h', p, Action(None), env);
        SelfApart(h', p);
        assert h'.(ledger := h'.ledger) == h';
        FailApart(h', h'.ledger, p, Action(None), env(|h'.log|), env);
      }
      var h2 := Step(h, op, env).0;
      if Apart(h', h2, p) {
        ApartTrans(h, h', h2, p);
      }
    }
  }

  lemma DestinationApart(h: Host, p: Participant, target: Target)
    ensures Apart(h, h.(targets := h.targets[p := target]), p)
  {
  }

  lemma AcceptApart(h: Host, p: Participant, identity: Identity, sequence: nat)
    ensures Apart(h, Accept(h, p, identity, sequence).0, p)
  {
  }

  lemma StepDead(h: Host, op: Op, env: Env, p: Participant)
    requires p !in h.ledger.live && p.sequence <= h.ledger.next
    ensures p !in Step(h, op, env).0.ledger.live && p.sequence <= Step(h, op, env).0.ledger.next
  {
    if !op.Open? {
      StepIsolates(h, op, env);
    }
  }

  /** A token once closed is never valid again, whatever follows. */
  lemma {:induction false} ClosedTokenStaysClosed(h: Host, ops: seq<Op>, env: Env, p: Participant)
    requires p !in h.ledger.live && p.sequence <= h.ledger.next
    ensures p !in Run(h, ops, env).ledger.live && p.sequence <= Run(h, ops, env).ledger.next
  {
    hide Step;
    if ops != [] {
      ClosedTokenStaysClosed(h, ops[..|ops| - 1], env, p);
      StepDead(Run(h, ops[..|ops| - 1], env), ops[|ops| - 1], env, p);
    }
  }

  lemma ReserveGood(l: Ledger, p: Participant, prepared: Prepared)
    requires Good(l) && Reserve(l, p, prepared).Ok?
    ensures Good(Reserve(l, p, prepared).value.0)
  {
    hide Exclusive, Bounded, Holds, Owns;
    match prepared
    case PreparedDown(c, _, release) => AcquireGood(l, p, c, release);
    case PreparedUp(c, _) => ReleaseGood(l, p, c);
    case PreparedMove(c, _, release) => ReplaceGood(l, p, c, release);
    case _ =>
  }

  lemma FailGood(h: Host, l: Ledger, p: Participant, kind: Kind, outcome: Outcome, env: Env)
    requires Good(h.ledger) && Good(l)
    ensures Good(FailPost(h, Post(h.(ledger := l), p, kind, env), p, kind, outcome, env).0.ledger)
  {
    hide Good;
    var posted := Post(h.(ledger := l), p, kind, env);
    var settled := if outcome == NotDispatched && !kind.Up? then posted.(ledger := h.ledger) else posted;
    var retried := if outcome == NotDispatched && kind.Up?
                   then Post(settled, p, Retry(kind.control, kind.packet), env) else settled;
    CloseFrame(retried, p, env);
    CloseGood(retried.ledger, p);
  }

  /** Every operation keeps one owner per control and domain, and both limits. */
  lemma StepGood(h: Host, op: Op, env: Env)
    requires Good(h.ledger)
    ensures Good(Step(h, op, env).0.ledger)
  {
    hide Good, FailPost, Reserve, HostMachine.CloseHost, AllAvailable;
    if op.Open? {
      OpenGood(h.ledger, op.identity, op.domain);
    } else {
      CloseFrame(h, op.owner, env);
      CloseGood(h.ledger, op.owner);
      if op.Submit? || op.SubmitPrepared? || op.SubmitAction? {
        SequenceGood(h.ledger, op.owner, op.sequence);
        var h' := Accept(h, op.owner, op.identity, op.sequence).0;
        CloseFrame(h', op.owner, env);
        CloseGood(h'.ledger, op.owner);
        if op.SubmitAction? {
          assert h'.(ledger := h'.ledger) == h';
          FailGood(h', h'.ledger, op.owner, Action(None), env(|h'.log|), env);
        } else if op.SubmitPrepared? || op.preparation.Ready? {
          var prepared := if op.SubmitPrepared? then op.prepared else op.preparation.prepared;
          if Reserve(h'.ledger, op.owner, prepared).Ok? {
            var (l, kind) := Reserve(h'.ledger, op.owner, prepared).value;
            ReserveGood(h'.ledger, op.owner, prepared);
            FailGood(h', l, op.owner, kind, env(|h'.log|), env);
          }
        }
      }
    }
  }

  lemma {:induction false} RunGood(registry: nat, maxSessions: nat, maxHeld: nat, ops: seq<Op>, env: Env)
    ensures Good(Run(Initial(registry, maxSessions, maxHeld), ops, env).ledger)
  {
    hide Step;
    if ops != [] {
      RunGood(registry, maxSessions, maxHeld, ops[..|ops| - 1], env);
      StepGood(Run(Initial(registry, maxSessions, maxHeld), ops[..|ops| - 1], env), ops[|ops| - 1], env);
    }
  }
}
