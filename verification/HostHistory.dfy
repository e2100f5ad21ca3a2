/** What one submitted input does, told from the record of backend calls alone.

    `Scan` reads the record backwards for the release a participant retains for a control. Every hold the
    host keeps is what `Scan` finds, and every submitted input is refused or posted as `Scan` demands. */
module HostHistory {
  import opened Common
  import opened HoldLedger
  import opened InputMonitor
  import opened HostMachine
  import opened HostSafety

  /** The release retained for a control: that of the last Down or held Move that may have been delivered,
      unless an Up of the control follows it. */
  ghost function Scan(log: seq<Call>, p: Participant, c: Control): Option<Packet> {
    if log == [] then None
    else
      var before, call := log[..|log| - 1], log[|log| - 1];
      match call.kind
      case Down(k, _, release) =>
        if call.owner == p && k == c && call.outcome != NotDispatched then Some(release) else Scan(before, p, c)
      case Move(k, _, release) =>
        if call.owner == p && k == c && call.outcome != NotDispatched then Some(release) else Scan(before, p, c)
      case Up(k, _) => if call.owner == p && k == c then None else Scan(before, p, c)
      case _ => Scan(before, p, c)
  }

  ghost predicate CleansUp(log: seq<Call>, p: Participant) {
    exists i :: 0 <= i < |log| && log[i].owner == p && log[i].kind.Cleanup?
  }

  ghost function ReleaseOf(held: seq<Hold>, c: Control): Option<Packet> {
    if Holds(held, c) then Some(held[Place(held, c)].release) else None
  }

  lemma ReleaseAt(held: seq<Hold>, i: nat)
    requires DistinctControls(held) && i < |held|
    ensures ReleaseOf(held, held[i].control) == Some(held[i].release)
  {
    PlaceIsUnique(held, held[i].control, i);
  }

  lemma AppendRelease(held: seq<Hold>, h: Hold, c: Control)
    requires DistinctControls(held) && !Holds(held, h.control)
    ensures ReleaseOf(held + [h], c) == if c == h.control then Some(h.release) else ReleaseOf(held, c)
  {
    AppendKeys(held, h);
    if c == h.control {
      ReleaseAt(held + [h], |held|);
    } else if Holds(held, c) {
      ReleaseAt(held + [h], Place(held, c));
    }
  }

  lemma WithoutRelease(held: seq<Hold>, k: Control, c: Control)
    requires DistinctControls(held) && Holds(held, k)
    ensures ReleaseOf(Without(held, k), c) == if c == k then None else ReleaseOf(held, c)
  {
    WithoutKeys(held, k);
    if c != k && Holds(held, c) {
      var i, j := Place(held, k), Place(held, c);
      ReleaseAt(Without(held, k), if j < i then j else j - 1);
    }
  }

  lemma ReplacedRelease(held: seq<Hold>, k: Control, release: Packet, c: Control)
    requires DistinctControls(held) && Holds(held, k)
    ensures ReleaseOf(WithRelease(held, k, release), c) == if c == k then Some(release) else ReleaseOf(held, c)
  {
    WithReleaseKeys(held, k, release);
    var i := Place(held, k);
    if c == k {
      ReleaseAt(WithRelease(held, k, release), i);
    } else if Holds(held, c) {
      ReleaseAt(WithRelease(held, k, release), Place(held, c));
    }
  }

  ghost predicate Agree(held: seq<Hold>, log: seq<Call>, p: Participant) {
    DistinctControls(held) && forall c :: Scan(log, p, c) == ReleaseOf(held, c)
  }

  lemma ScanOne(log: seq<Call>, call: Call, p: Participant, c: Control)
    ensures Scan(log + [call], p, c)
            == if call.owner == p && (call.kind.Down? || call.kind.Move?) && call.kind.control == c && call.outcome != NotDispatched
               then Some(call.kind.release)
               else if call.owner == p && call.kind.Up? && call.kind.control == c then None
               else Scan(log, p, c)
  {
    assert (log + [call])[..|log|] == log;
  }

  lemma ObserveAgrees(w: Watch, log: seq<Call>, call: Call, p: Participant)
    requires Agree(Owed(w, p), log, p) && Observe(w, call).Some? && !(call.owner == p && call.kind.Cleanup?)
    ensures Agree(Owed(Observe(w, call).value, p), log + [call], p)
  {
    hide Holds, DistinctControls, ReleaseOf, Scan, Without, WithRelease;
    var held, held' := Owed(w, p), Owed(Observe(w, call).value, p);
    if call.owner == p {
      match call.kind
      case Down(k, _, release) => AppendKeys(held, Hold(k, release));
      case Move(k, _, release) => WithReleaseKeys(held, k, release);
      case Up(k, _) => WithoutKeys(held, k);
      case _ =>
    }
    forall c ensures Scan(log + [call], p, c) == ReleaseOf(held', c) {
      ScanOne(log, call, p, c);
      if call.owner == p {
        match call.kind
        case Down(k, _, release) => AppendRelease(held, Hold(k, release), c);
        case Move(k, _, release) => ReplacedRelease(held, k, release, c);
        case Up(k, _) => WithoutRelease(held, k, c);
        case _ =>
      }
    }
  }

  /** For a participant not being cleaned up, what is owed is exactly what the record says. */
  lemma {:induction false} OwedIsScanned(log: seq<Call>, p: Participant)
    requires Watching(log).Some? && !CleansUp(log, p)
    ensures Agree(Owed(Watching(log).value, p), log, p)
  {
    if log == [] {
    } else {
      hide Observe, Agree;
      var before, call := log[..|log| - 1], log[|log| - 1];
      assert before + [call] == log;
      assert forall i :: 0 <= i < |before| ==> before[i] == log[i];
      OwedIsScanned(before, p);
      ObserveAgrees(Watching(before).value, before, call, p);
    }
  }

  lemma {:induction false} CleanedIsClosing(log: seq<Call>, p: Participant)
    requires Watching(log).Some? && CleansUp(log, p)
    ensures var w := Watching(log).value; w.closing == Some(p) || p in w.closed
  {
    hide Holds, Without, WithRelease, CleansUp;
    CleansUpOne(log, p);
    if CleansUp(log[..|log| - 1], p) {
      CleanedIsClosing(log[..|log| - 1], p);
    }
  }

  lemma CleansUpOne(log: seq<Call>, p: Participant)
    requires CleansUp(log, p)
    ensures log != []
    ensures CleansUp(log[..|log| - 1], p) || (log[|log| - 1].owner == p && log[|log| - 1].kind.Cleanup?)
  {
    var i :| 0 <= i < |log| && log[i].owner == p && log[i].kind.Cleanup?;
    if i < |log| - 1 {
      assert log[..|log| - 1][i] == log[i];
    }
  }

  /** What the host holds for a live participant is what the record says, control by control. */
  lemma HeldIsScanned(h: Host, p: Participant)
    requires Tracks(h) && p in h.ledger.live
    ensures !CleansUp(h.log, p) && Agree(h.ledger.live[p].held, h.log, p)
    ensures |h.ledger.live[p].held| == Due(h.log, p) - Attempts(h.log, p)
  {
    if CleansUp(h.log, p) {
      CleanedIsClosing(h.log, p);
    }
    OwedIsScanned(h.log, p);
    AttemptsMatchDue(h.log, p);
    assert Owed(Watching(h.log).value, p) == HeldBy(h.ledger, p);
  }

  // ---------------------------------------------------------------- one submitted input

  /** Another live participant of the same domain retains a release for the control. */
  ghost predicate Foreign(h: Host, p: Participant, c: Control)
    requires p in h.ledger.live
  {
    exists q :: q in h.ledger.live && q != p && h.ledger.live[q].domain == h.ledger.live[p].domain && Scan(h.log, q, c).Some?
  }

  ghost function Blocks(h: Host, p: Participant, c: Control): Option<Error>
    requires p in h.ledger.live
  {
    if Scan(h.log, p, c).Some? then Some(AlreadyHeld) else if Foreign(h, p, c) then Some(Conflict) else None
  }

  /** Why a prepared input is refused, as the record tells it. Capacity counts the releases due and not
      attempted. */
  ghost function Refusal(h: Host, p: Participant, prepared: Prepared): Option<Error>
    requires p in h.ledger.live
  {
    match prepared
    case PreparedDown(c, _, _) =>
      if Scan(h.log, p, c).Some? then Some(AlreadyHeld)
      else if Due(h.log, p) - Attempts(h.log, p) >= h.ledger.maxHeld then Some(Capacity)
      else if Foreign(h, p, c) then Some(Conflict)
      else if h.ledger.live[p].acquired >= U64_MAX then Some(Capacity)
      else None
    case PreparedUp(c, _) => if Scan(h.log, p, c).None? then Some(NotHeld) else None
    case PreparedRepeat(c, _) => if Scan(h.log, p, c).None? then Some(NotHeld) else None
    case PreparedMove(c, _, _) => if Scan(h.log, p, c).None? then Some(NotHeld) else None
    case PreparedAction(controls, _) => FirstBlock(h, p, controls)
  }

  ghost function FirstBlock(h: Host, p: Participant, controls: seq<Control>): (r: Option<Error>)
    requires p in h.ledger.live
    ensures r.None? <==> forall i :: 0 <= i < |controls| ==> Blocks(h, p, controls[i]).None?
    ensures r.Some? ==> exists i :: 0 <= i < |controls| && Blocks(h, p, controls[i]) == r
                                     && forall j :: 0 <= j < i ==> Blocks(h, p, controls[j]).None?
  {
    if controls == [] then None
    else
      var first, rest := Blocks(h, p, controls[0]), FirstBlock(h, p, controls[1..]);
      assert forall i :: 1 <= i < |controls| ==> controls[i] == controls[1..][i - 1];
      if first.Some? then first else rest
  }

  /** The call that posts a prepared input: its own control, packet and release; an Up without a packet of its
      own posts the retained release. */
  ghost predicate Carries(kind: Kind, log: seq<Call>, p: Participant, prepared: Prepared) {
    match prepared
    case PreparedDown(c, packet, release) => kind == Down(c, packet, release)
    case PreparedUp(c, Some(packet)) => kind == Up(c, packet)
    case PreparedUp(c, None) => Scan(log, p, c).Some? && kind == Up(c, Scan(log, p, c).value)
    case PreparedRepeat(c, packet) => kind == Repeat(c, packet)
    case PreparedMove(c, packet, release) => kind == Move(c, packet, release)
    case PreparedAction(_, packet) => kind == Action(Some(packet))
  }

  lemma BlocksAre(h: Host, p: Participant, c: Control)
    requires Tracks(h) && p in h.ledger.live
    ensures Available(h.ledger, p, c) == match Blocks(h, p, c) case None => Ok(()) case Some(e) => Err(e)
    ensures Scan(h.log, p, c).Some? <==> Holds(h.ledger.live[p].held, c)
    ensures !Holds(h.ledger.live[p].held, c) ==>
              (Foreign(h, p, c) <==> exists q :: Owns(h.ledger, q, h.ledger.live[p].domain, c))
  {
    hide Tracks, Holds, Scan, CleansUp;
    HeldIsScanned(h, p);
    forall q | q in h.ledger.live ensures Scan(h.log, q, c).Some? <==> Holds(h.ledger.live[q].held, c) {
      HeldIsScanned(h, q);
    }
    if Holds(h.ledger.live[p].held, c) {
      assert Available(h.ledger, p, c) == Err(AlreadyHeld);
    } else {
      var domain := h.ledger.live[p].domain;
      if q :| Owns(h.ledger, q, domain, c) {
        assert q in h.ledger.live && q != p && Scan(h.log, q, c).Some?;
      }
      if q :| q in h.ledger.live && q != p && h.ledger.live[q].domain == domain && Scan(h.log, q, c).Some? {
        assert Owns(h.ledger, q, domain, c);
      }
    }
  }

  lemma {:induction false} BlockIsFirst(h: Host, p: Participant, controls: seq<Control>)
    requires Tracks(h) && p in h.ledger.live
    ensures AllAvailable(h.ledger, p, controls) == match FirstBlock(h, p, controls) case None => Ok(()) case Some(e) => Err(e)
    decreases |controls|
  {
    hide Tracks, Available, Blocks;
    if controls != [] {
      BlocksAre(h, p, controls[0]);
      BlockIsFirst(h, p, controls[1..]);
    }
  }

  /** Reserving is refused, and the post prepared, as the record tells. */
  lemma ReserveIsScanned(h: Host, p: Participant, prepared: Prepared)
    requires Tracks(h) && p in h.ledger.live
    ensures match Refusal(h, p, prepared)
            case Some(e) => Reserve(h.ledger, p, prepared) == Err(e)
            case None =>
              Reserve(h.ledger, p, prepared).Ok? && Carries(Reserve(h.ledger, p, prepared).value.1, h.log, p, prepared)
  {
    hide Tracks, Holds, Scan, CleansUp, Foreign, FirstBlock, AllAvailable;
    HeldIsScanned(h, p);
    match prepared
    case PreparedAction(controls, _) => BlockIsFirst(h, p, controls);
    case PreparedDown(c, _, _) => BlocksAre(h, p, c);
    case PreparedUp(c, _) => BlocksAre(h, p, c);
    case PreparedRepeat(c, _) => BlocksAre(h, p, c);
    case PreparedMove(c, _, _) => BlocksAre(h, p, c);
  }

  // ---------------------------------------------------------------- what a submission comes to

  /** Operations that post input, and the input they post. `None` is the free-standing action. */
  predicate Submits(op: Op) {
    op.SubmitPrepared? || op.SubmitAction? || (op.Submit? && op.valid && op.preparation.Ready?)
  }

  predicate Fences(op: Op) {
    op.Submit? || op.SubmitPrepared? || op.SubmitAction?
  }

  /** The fence: the participant is live, the identity is its target, and the sequence rises. */
  ghost function Fence(h: Host, op: Op): Option<Error>
    requires Fences(op)
  {
    if op.owner !in h.ledger.live then Some(SessionNotFound)
    else if h.ledger.live[op.owner].target != op.identity then Some(StaleInput)
    else if h.ledger.live[op.owner].last.Some? && op.sequence <= h.ledger.live[op.owner].last.value then Some(StaleInput)
    else None
  }

  /** The refusal of a submission that passed the fence. */
  ghost function Denial(h: Host, op: Op): Option<Error>
    requires Submits(op) && op.owner in h.ledger.live
  {
    match op
    case SubmitPrepared(p, _, _, prepared) => Refusal(h, p, prepared)
    case Submit(p, _, _, _, preparation) => Refusal(h, p, preparation.prepared)
    case SubmitAction(p, _, _, controls) => FirstBlock(h, p, controls)
  }

  ghost predicate Posts(kind: Kind, h: Host, op: Op)
    requires Submits(op)
  {
    match op
    case SubmitPrepared(p, _, _, prepared) => Carries(kind, h.log, p, prepared)
    case Submit(p, _, _, _, preparation) => Carries(kind, h.log, p, preparation.prepared)
    case SubmitAction(_, _, _, _) => kind == Action(None)
  }

  /** What the first new call and the reply have to do with each other. */
  ghost predicate Answers(h: Host, p: Participant, kind: Kind, h': Host, reply: Reply, env: Env) {
    && |h.log| < |h'.log| && h.log <= h'.log && h'.log[|h.log|] == Call(p, kind, env(|h.log|))
    && var outcome := env(|h.log|);
       if outcome == Delivered then reply == Accepted && |h'.log| == |h.log| + 1 && p in h'.ledger.live
       else
         && p !in h'.ledger.live && Watching(h'.log).Some? && p in Watching(h'.log).value.closed
         && reply == if outcome == Panics || (kind.Up? && outcome == NotDispatched && env(|h.log| + 1) == Panics) then Unwound
                     else Failed(outcome, Failures(h'.log[|h.log| + 1..]))
  }

  lemma FailAnswers(h: Host, l: Ledger, p: Participant, kind: Kind, env: Env)
    requires Tracks(h) && p in h.ledger.live && env(|h.log|) != Delivered
    requires l.registry == h.ledger.registry && l.next == h.ledger.next && l.live.Keys == h.ledger.live.Keys
    requires forall q :: q != p ==> HeldBy(l, q) == HeldBy(h.ledger, q)
    requires var seen := Observe(Watching(h.log).value, Call(p, kind, env(|h.log|)));
             && seen.Some?
             && Only(Watching(h.log).value, seen.value, p, After(h.ledger, l, p, kind, env(|h.log|)))
             && seen.value.closing == Some(p)
             && seen.value.retry == (if kind.Up? && env(|h.log|) == NotDispatched
                                     then Some((kind.control, kind.packet)) else None)
    ensures var (h', reply) := FailPost(h, Post(h.(ledger := l), p, kind, env), p, kind, env(|h.log|), env);
            Answers(h, p, kind, h', reply, env)
  {
    hide Watching, Observe, HostMachine.CloseHost, Failures, HeldBy;
    var outcome, posted := env(|h.log|), Post(h.(ledger := l), p, kind, env);
    var settled := if outcome == NotDispatched && !kind.Up? then posted.(ledger := h.ledger) else posted;
    var retried := if outcome == NotDispatched && kind.Up?
                   then Post(settled, p, Retry(kind.control, kind.packet), env) else settled;
    FailTracks(h, l, p, kind, outcome, env);
    CloseFrame(retried, p, env);
  }

  lemma DispatchAnswers(h: Host, p: Participant, prepared: Prepared, env: Env)
    requires Tracks(h) && p in h.ledger.live
    ensures var (h', reply) := Dispatch(h, p, prepared, env);
            match Refusal(h, p, prepared)
            case Some(e) => h' == h && reply == Refused(e)
            case None => exists kind :: Carries(kind, h.log, p, prepared) && Answers(h, p, kind, h', reply, env)
  {
    hide Tracks, Reserve, FailPost, Answers, Carries, Refusal, Observe, Watching, HeldBy, Only;
    ReserveIsScanned(h, p, prepared);
    if Refusal(h, p, prepared).None? {
      var (l, kind) := Reserve(h.ledger, p, prepared).value;
      PostAnswers(h, p, prepared, env);
      assert Answers(h, p, kind, Dispatch(h, p, prepared, env).0, Dispatch(h, p, prepared, env).1, env);
    }
  }

  lemma PostAnswers(h: Host, p: Participant, prepared: Prepared, env: Env)
    requires Tracks(h) && p in h.ledger.live && Reserve(h.ledger, p, prepared).Ok?
    ensures var (h', reply) := Dispatch(h, p, prepared, env);
            Answers(h, p, Reserve(h.ledger, p, prepared).value.1, h', reply, env)
  {
    hide Reserve, FailPost, Observe, Watching, HeldBy, Failures;
    var (l, kind) := Reserve(h.ledger, p, prepared).value;
    ReserveObserved(h.ledger, Watching(h.log).value, p, prepared, env(|h.log|));
    if env(|h.log|) != Delivered {
      FailAnswers(h, l, p, kind, env);
    }
  }

  lemma ActionAnswers(h: Host, p: Participant, env: Env)
    requires Tracks(h) && p in h.ledger.live
    ensures var posted := Post(h, p, Action(None), env);
            if env(|h.log|) == Delivered then Answers(h, p, Action(None), posted, Accepted, env)
            else
              var (h', reply) := FailPost(h, posted, p, Action(None), env(|h.log|), env);
              Answers(h, p, Action(None), h', reply, env)
  {
    hide FailPost, Watching, HeldBy, Failures;
    if env(|h.log|) != Delivered {
      assert h.(ledger := h.ledger) == h;
      FailAnswers(h, h.ledger, p, Action(None), env);
    }
  }

  /** The state right behind the fence differs only in the sequence it remembers. */
  lemma FencePasses(h: Host, op: Op)
    requires Tracks(h) && Fences(op)
    ensures var (h', r) := Accept(h, op.owner, op.identity, op.sequence);
            && r == (match Fence(h, op) case None => Ok(()) case Some(e) => Err(e))
            && (Fence(h, op).Some? ==> h' == h)
            && (Fence(h, op).None? ==>
                  && op.owner in h.ledger.live && Tracks(h') && h'.log == h.log && h'.targets == h.targets
                  && h'.ledger == h.ledger.(live := h.ledger.live[op.owner := h.ledger.live[op.owner].(last := Some(op.sequence))]))
  {
    hide Tracks;
    AcceptTracks(h, op.owner, op.identity, op.sequence);
  }

  lemma SameRecord(h: Host, h': Host, p: Participant, op: Op)
    requires p in h.ledger.live && h'.log == h.log && Submits(op) && op.owner == p
    requires exists last :: h'.ledger == h.ledger.(live := h.ledger.live[p := h.ledger.live[p].(last := last)])
    ensures Denial(h', op) == Denial(h, op)
  {
    forall c ensures Foreign(h', p, c) == Foreign(h, p, c) {
    }
    if op.SubmitAction? {
      SameBlocks(h, h', p, op.controls);
    }
    var prepared := match op
      case SubmitPrepared(_, _, _, prepared) => Some(prepared)
      case Submit(_, _, _, _, preparation) => Some(preparation.prepared)
      case _ => None;
    if prepared.Some? && prepared.value.PreparedAction? {
      SameBlocks(h, h', p, prepared.value.controls);
    }
  }

  lemma {:induction false} SameBlocks(h: Host, h': Host, p: Participant, controls: seq<Control>)
    requires p in h.ledger.live && p in h'.ledger.live && h'.log == h.log
    requires forall c :: Foreign(h', p, c) == Foreign(h, p, c)
    ensures FirstBlock(h', p, controls) == FirstBlock(h, p, controls)
    decreases |controls|
  {
    if controls != [] {
      SameBlocks(h, h', p, controls[1..]);
    }
  }

  /** What any submission comes to, by the record alone. Behind the fence it is refused exactly when its control
      is held already, held elsewhere in its domain, not held, or one too many, and then nothing is posted.
      Otherwise its first call carries exactly the prepared control, packet and release, and the reply
      follows from the outcome of that call and of the cleanup. */
  lemma SubmissionMeans(h: Host, op: Op, env: Env)
    requires Tracks(h) && Submits(op)
    ensures var (h', reply) := Step(h, op, env);
            match Fence(h, op)
            case Some(e) => h' == h && reply == Refused(e)
            case None =>
              && op.owner in h.ledger.live
              && match Denial(h, op)
                 case Some(e) =>
                   && reply == Refused(e) && h'.log == h.log && h'.targets == h.targets
                   && h'.ledger == h.ledger.(live := h.ledger.live[op.owner := h.ledger.live[op.owner].(last := Some(op.sequence))])
                 case None => exists kind :: Posts(kind, h, op) && Answers(h, op.owner, kind, h', reply, env)
  {
    hide Tracks, FailPost, Answers, Carries, Refusal, FirstBlock, Dispatch, Accept, HostMachine.CloseHost, AllAvailable;
    FencePasses(h, op);
    if Fence(h, op).None? {
      var p, h1 := op.owner, Accept(h, op.owner, op.identity, op.sequence).0;
      SameRecord(h, h1, p, op);
      var (h', reply) := Step(h, op, env);
      if op.SubmitAction? {
        BlockIsFirst(h1, p, op.controls);
        if Denial(h, op).None? {
          ActionAnswers(h1, p, env);
          AnswersSame(h, h1, p, Action(None), h', reply, env);
        }
      } else {
        var prepared := if op.SubmitPrepared? then op.prepared else op.preparation.prepared;
        DispatchAnswers(h1, p, prepared, env);
        if Denial(h, op).None? {
          var kind :| Carries(kind, h1.log, p, prepared) && Answers(h1, p, kind, h', reply, env);
          AnswersSame(h, h1, p, kind, h', reply, env);
          assert Posts(kind, h, op);
        }
      }
    }
  }

  lemma AnswersSame(h: Host, h1: Host, p: Participant, kind: Kind, h': Host, reply: Reply, env: Env)
    requires h1.log == h.log
    ensures Answers(h1, p, kind, h', reply, env) == Answers(h, p, kind, h', reply, env)
  {
  }

  // ---------------------------------------------------------------- everything else posts no input

  lemma {:induction false} ReleasesOnly(h: Host, p: Participant, held: seq<Hold>, env: Env, i: nat)
    requires |h.log| <= i < |ReleaseAll(h, p, held, env).log|
    ensures ReleaseAll(h, p, held, env).log[i].kind.Cleanup?
    decreases |held|
  {
    if held != [] {
      var posted := Post(h, p, Cleanup(held[|held| - 1].release), env);
      ReleaseAllFrame(posted, p, held[..|held| - 1], env);
      if i > |h.log| {
        ReleasesOnly(posted, p, held[..|held| - 1], env, i);
      }
    }
  }

  ghost predicate PostsNoInput(h: Host, h': Host) {
    h.log <= h'.log && forall i :: |h.log| <= i < |h'.log| ==> h'.log[i].kind.Cleanup? || h'.log[i].kind.Closed?
  }

  lemma ClosePostsNoInput(h: Host, p: Participant, env: Env)
    ensures PostsNoInput(h, CloseHost(h, p, env))
  {
    if p in h.ledger.live {
      var removed := h.(ledger := HoldLedger.Close(h.ledger, p).0, targets := h.targets - {p});
      var held := h.ledger.live[p].held;
      ReleaseAllFrame(removed, p, held, env);
      var released := ReleaseAll(removed, p, held, env);
      forall i | |h.log| <= i < |released.log| ensures released.log[i].kind.Cleanup? {
        ReleasesOnly(removed, p, held, env, i);
      }
    }
  }

  /** No operation but a submission of prepared input posts any: the others at most close their participant. An
      input that is not valid, or whose preparation fails, consumes its sequence and nothing else. */
  lemma OnlySubmissionsPost(h: Host, op: Op, env: Env)
    requires Tracks(h) && !Submits(op)
    ensures var (h', reply) := Step(h, op, env);
            && PostsNoInput(h, h')
            && (!op.Open? && op.owner in h'.ledger.live ==> h'.log == h.log)
            && (op.Submit? ==>
                  match Fence(h, op)
                  case Some(e) => h' == h && reply == Refused(e)
                  case None =>
                    if !op.valid then reply == Invalid && op.owner in h'.ledger.live
                    else if op.preparation.PrepareFails? then reply == PrepareFailed && op.owner in h'.ledger.live
                    else reply == Unwound && op.owner !in h'.ledger.live)
  {
    hide Tracks, HostMachine.CloseHost, Accept;
    if !op.Open? {
      ClosePostsNoInput(h, op.owner, env);
      CloseApart(h, op.owner, env);
      if op.Submit? {
        FencePasses(h, op);
        var h1 := Accept(h, op.owner, op.identity, op.sequence).0;
        ClosePostsNoInput(h1, op.owner, env);
        CloseApart(h1, op.owner, env);
      }
    }
  }

  /** Only an unwinding close counts as failed. */
  predicate FailedCall(call: Call) {
    if call.kind.Closed? then call.outcome == Panics else call.outcome != Delivered
  }

  /** `failures` are the outcomes of the failed calls, all of them, in the order of the calls; `at` gives the
      place of each. */
  predicate Lists(at: seq<nat>, calls: seq<Call>, failures: seq<Outcome>) {
    && |at| == |failures|
    && (forall j :: 0 <= j < |at| ==> at[j] < |calls| && FailedCall(calls[at[j]]) && failures[j] == calls[at[j]].outcome)
    && (forall j, k :: 0 <= j < k < |at| ==> at[j] < at[k])
    && (forall i: nat :: i < |calls| && FailedCall(calls[i]) ==> i in at)
  }

  lemma ListsOne(at: seq<nat>, calls: seq<Call>, failures: seq<Outcome>, call: Call)
    requires Lists(at, calls, failures)
    ensures if FailedCall(call) then Lists(at + [|calls|], calls + [call], failures + [call.outcome])
            else Lists(at, calls + [call], failures)
  {
    hide FailedCall;
    var all := calls + [call];
    assert forall i :: 0 <= i < |calls| ==> all[i] == calls[i];
    if FailedCall(call) {
      var at' := at + [|calls|];
      assert at'[|at|] == |calls|;
      forall i: nat | i < |all| && FailedCall(all[i]) ensures i in at' {
        if i < |calls| {
          assert i in at;
        }
      }
    }
  }

  /** The failures a reply lists are exactly the failed calls of its cleanup, in order. */
  lemma {:induction false} FailuresAre(calls: seq<Call>) returns (at: seq<nat>)
    ensures Lists(at, calls, Failures(calls))
  {
    if calls == [] {
      at := [];
    } else {
      hide Lists;
      var n := |calls| - 1;
      at := FailuresAre(calls[..n]);
      ListsOne(at, calls[..n], Failures(calls[..n]), calls[n]);
      assert calls[..n] + [calls[n]] == calls;
      assert |calls[..n]| == n;
      assert Failures(calls[..n]) + [] == Failures(calls[..n]);
      if FailedCall(calls[n]) {
        at := at + [n];
      }
    }
  }

  // ---------------------------------------------------------------- leases over runs

  lemma ReserveLease(l: Ledger, p: Participant, prepared: Prepared)
    requires p in l.live && Reserve(l, p, prepared).Ok?
    ensures var l' := Reserve(l, p, prepared).value.0;
            && p in l'.live && l'.live[p].target == l.live[p].target && l'.live[p].domain == l.live[p].domain
            && l'.live[p].last == l.live[p].last
  {
    hide Holds;
  }

  /** The parts of a lease that posting input leaves alone. */
  ghost predicate SameLease(h: Host, h': Host, p: Participant) {
    && p in h.ledger.live && p in h'.ledger.live && p in h.targets && p in h'.targets
    && h'.ledger.live[p].target == h.ledger.live[p].target && h'.ledger.live[p].domain == h.ledger.live[p].domain
    && h'.ledger.live[p].last == h.ledger.live[p].last && h'.targets[p] == h.targets[p]
  }

  lemma DispatchLease(h: Host, p: Participant, prepared: Prepared, env: Env)
    requires p in h.ledger.live && p in h.targets && p in Dispatch(h, p, prepared, env).0.ledger.live
    ensures SameLease(h, Dispatch(h, p, prepared, env).0, p)
  {
    hide Reserve, FailPost, Apart;
    if Reserve(h.ledger, p, prepared).Ok? {
      var (l, kind) := Reserve(h.ledger, p, prepared).value;
      ReserveLease(h.ledger, p, prepared);
      ReserveApart(h, p, prepared);
      FailApart(h, l, p, kind, env(|h.log|), env);
    }
  }

  /** One operation and one lease: it is made by the Open that returned its token, remembers the sequences
      that passed the fence, and its destination is the one last given. */
  lemma LeaseStep(h: Host, op: Op, env: Env, p: Participant)
    requires Tracks(h) && p in Step(h, op, env).0.ledger.live
    ensures var (h', reply) := Step(h, op, env);
            && p in h'.targets
            && if reply == Opened(p) then
                 && op.Open? && h'.ledger.live[p] == Lease(op.identity, op.domain, [], 0, None) && h'.targets[p] == op.target
                 && p.sequence > h.ledger.next
               else
                 && p in h.ledger.live && p in h.targets
                 && h'.ledger.live[p].target == h.ledger.live[p].target && h'.ledger.live[p].domain == h.ledger.live[p].domain
                 && h'.ledger.live[p].last
                    == (if Fences(op) && op.owner == p && Fence(h, op).None? then Some(op.sequence) else h.ledger.live[p].last)
                 && h'.targets[p]
                    == if op.UpdateDestination? && op.owner == p && reply == Accepted then op.target else h.targets[p]
  {
    assert h.targets.Keys == h.ledger.live.Keys;
    if op.Open? {
      hide Tracks;
    } else if op.owner != p {
      hide Tracks, Step;
      StepIsolates(h, op, env);
      NotOpened(h, op, env);
    } else {
      OwnLeaseStep(h, op, env);
    }
  }

  lemma NotOpened(h: Host, op: Op, env: Env)
    requires !op.Open?
    ensures !Step(h, op, env).1.Opened?
  {
    hide HostMachine.CloseHost, Reserve, AllAvailable, Accept;
  }

  /** The same for the participant the operation names. */
  ghost predicate OwnLease(h: Host, op: Op, h': Host, reply: Reply)
    requires !op.Open?
  {
    var p := op.owner;
    && !reply.Opened? && p in h.ledger.live && p in h'.ledger.live && p in h.targets && p in h'.targets
    && h'.ledger.live[p].target == h.ledger.live[p].target && h'.ledger.live[p].domain == h.ledger.live[p].domain
    && h'.ledger.live[p].last == (if Fences(op) && Fence(h, op).None? then Some(op.sequence) else h.ledger.live[p].last)
    && h'.targets[p] == if op.UpdateDestination? && reply == Accepted then op.target else h.targets[p]
  }

  lemma OwnLeaseStep(h: Host, op: Op, env: Env)
    requires Tracks(h) && !op.Open? && op.owner in Step(h, op, env).0.ledger.live
    ensures OwnLease(h, op, Step(h, op, env).0, Step(h, op, env).1)
  {
    assert h.targets.Keys == h.ledger.live.Keys;
    hide Tracks, Step, OwnLease;
    StepIsolatesDead(h, op, env);
    NotOpened(h, op, env);
    if op.SubmitAction? {
      ActionLease(h, op, env);
    } else if Submits(op) {
      SubmitLease(h, op, env);
    } else {
      OtherLease(h, op, env);
    }
  }

  lemma OtherLease(h: Host, op: Op, env: Env)
    requires Tracks(h) && !op.Open? && !Submits(op) && op.owner in Step(h, op, env).0.ledger.live
    requires op.owner in h.ledger.live && op.owner in h.targets && !Step(h, op, env).1.Opened?
    ensures OwnLease(h, op, Step(h, op, env).0, Step(h, op, env).1)
  {
    hide Tracks, HostMachine.CloseHost, Accept, Apart;
    CloseApart(h, op.owner, env);
    if op.Submit? {
      FencePasses(h, op);
      CloseApart(Accept(h, op.owner, op.identity, op.sequence).0, op.owner, env);
    }
  }

  lemma ActionLease(h: Host, op: Op, env: Env)
    requires Tracks(h) && op.SubmitAction? && op.owner in Step(h, op, env).0.ledger.live
    requires op.owner in h.ledger.live && op.owner in h.targets && !Step(h, op, env).1.Opened?
    ensures OwnLease(h, op, Step(h, op, env).0, Step(h, op, env).1)
  {
    hide Tracks, FailPost, Accept, AllAvailable, Apart;
    FencePasses(h, op);
    var p, h1 := op.owner, Accept(h, op.owner, op.identity, op.sequence).0;
    SelfApart(h1, p);
    assert h1.(ledger := h1.ledger) == h1;
    FailApart(h1, h1.ledger, p, Action(None), env(|h1.log|), env);
  }

  lemma SubmitLease(h: Host, op: Op, env: Env)
    requires Tracks(h) && Submits(op) && !op.SubmitAction? && op.owner in Step(h, op, env).0.ledger.live
    requires op.owner in h.ledger.live && op.owner in h.targets && !Step(h, op, env).1.Opened?
    ensures OwnLease(h, op, Step(h, op, env).0, Step(h, op, env).1)
  {
    hide Tracks, Dispatch, Accept;
    FencePasses(h, op);
    if Fence(h, op).None? {
      DispatchLease(Accept(h, op.owner, op.identity, op.sequence).0, op.owner,
                    if op.SubmitPrepared? then op.prepared else op.preparation.prepared, env);
    }
  }

  lemma StepIsolatesDead(h: Host, op: Op, env: Env)
    requires Tracks(h) && !op.Open? && op.owner in Step(h, op, env).0.ledger.live
    ensures op.owner in h.ledger.live
  {
    hide HostMachine.CloseHost, Dispatch, FailPost, AllAvailable, Tracks;
    CloseApart(h, op.owner, env);
  }

  // ---------------------------------------------------------------- the fence over runs

  ghost predicate Passes(h: Host, op: Op, env: Env) {
    Fences(op) && Step(h, op, env).1 != Refused(SessionNotFound) && Step(h, op, env).1 != Refused(StaleInput)
  }

  /** Only the fence itself calls an input stale or its participant unknown. */
  lemma PassesIsFence(h: Host, op: Op, env: Env)
    requires Tracks(h) && Fences(op)
    ensures Passes(h, op, env) <==> Fence(h, op).None?
    ensures Passes(h, op, env) ==> op.owner in h.ledger.live
  {
    hide Step, Tracks, Answers;
    if Submits(op) {
      SubmissionMeans(h, op, env);
      if Fence(h, op).None? {
        DenialIsNotStale(h, op);
        if Denial(h, op).None? {
          var kind :| Posts(kind, h, op) && Answers(h, op.owner, kind, Step(h, op, env).0, Step(h, op, env).1, env);
          AnswersAreReplies(h, op.owner, kind, Step(h, op, env).0, Step(h, op, env).1, env);
        }
      }
    } else {
      OnlySubmissionsPost(h, op, env);
    }
  }

  lemma DenialIsNotStale(h: Host, op: Op)
    requires Submits(op) && op.owner in h.ledger.live
    ensures Denial(h, op) != Some(SessionNotFound) && Denial(h, op) != Some(StaleInput)
  {
    hide Scan, Foreign;
  }

  lemma AnswersAreReplies(h: Host, p: Participant, kind: Kind, h': Host, reply: Reply, env: Env)
    requires Answers(h, p, kind, h', reply, env)
    ensures !reply.Refused?
  {
  }

  /** Operation `i` of the run is an input of `p` that passed the fence. */
  ghost predicate PassedAt(h: Host, ops: seq<Op>, env: Env, p: Participant, i: nat) {
    i < |ops| && Fences(ops[i]) && ops[i].owner == p && Passes(Run(h, ops[..i], env), ops[i], env)
  }

  lemma PassedBefore(h: Host, ops: seq<Op>, env: Env, p: Participant, i: nat, n: nat)
    requires i < n <= |ops|
    ensures PassedAt(h, ops[..n], env, p, i) == PassedAt(h, ops, env, p, i)
  {
    hide Run, Passes;
    assert ops[..n][..i] == ops[..i];
  }

  lemma NextRises(h: Host, op: Op, env: Env)
    ensures h.ledger.next <= Step(h, op, env).0.ledger.next
  {
    if !op.Open? {
      StepIsolates(h, op, env);
    }
  }

  /** Inputs pass only for tokens already issued. */
  lemma {:induction false} PassedIsIssued(h: Host, ops: seq<Op>, env: Env, p: Participant, i: nat)
    requires forall k :: 0 <= k <= |ops| ==> Tracks(Run(h, ops[..k], env))
    requires PassedAt(h, ops, env, p, i)
    ensures p.sequence <= Run(h, ops, env).ledger.next
    decreases |ops|
  {
    hide Step, Passes, Fence;
    var n := |ops| - 1;
    NextRises(Run(h, ops[..n], env), ops[n], env);
    assert Tracks(Run(h, ops[..n], env));
    if i < n {
      PassedBefore(h, ops, env, p, i, n);
      assert forall k :: 0 <= k <= n ==> ops[..n][..k] == ops[..k];
      PassedIsIssued(h, ops[..n], env, p, i);
    } else {
      PassesIsFence(Run(h, ops[..n], env), ops[n], env);
      assert Token(Run(h, ops[..n], env).ledger, p);
    }
  }

  /** `last` is the highest sequence of the participant that has passed. */
  ghost predicate Highest(last: Option<nat>, h: Host, ops: seq<Op>, env: Env, p: Participant) {
    && (forall i: nat :: PassedAt(h, ops, env, p, i) ==> last.Some? && ops[i].sequence <= last.value)
    && (last.Some? ==> exists i: nat :: PassedAt(h, ops, env, p, i) && ops[i].sequence == last.value)
  }

  lemma {:induction false} LastIsHighest(h: Host, ops: seq<Op>, env: Env, p: Participant)
    requires forall k :: 0 <= k <= |ops| ==> Tracks(Run(h, ops[..k], env))
    requires p !in h.ledger.live && p in Run(h, ops, env).ledger.live
    ensures Highest(Run(h, ops, env).ledger.live[p].last, h, ops, env, p)
    decreases |ops|
  {
    hide Step, Tracks, Fence, PassedAt, Passes;
    if ops != [] {
      var n := |ops| - 1;
      var before, op := Run(h, ops[..n], env), ops[n];
      LeaseStep(before, op, env, p);
      LastPassed(h, ops, env, p);
      if Step(before, op, env).1 == Opened(p) {
        OpenPassesNothing(h, ops, env, p);
      } else {
        assert forall k :: 0 <= k <= n ==> ops[..n][..k] == ops[..k];
        LastIsHighest(h, ops[..n], env, p);
        HighestNext(h, ops, env, p);
      }
    }
  }

  /** Whether the last operation of a run passed. */
  lemma LastPassed(h: Host, ops: seq<Op>, env: Env, p: Participant)
    requires ops != [] && Tracks(Run(h, ops[..|ops| - 1], env))
    ensures var n := |ops| - 1;
            && (PassedAt(h, ops, env, p, n)
                <==> Fences(ops[n]) && ops[n].owner == p && Fence(Run(h, ops[..n], env), ops[n]).None?)
            && forall i: nat :: PassedAt(h, ops, env, p, i) ==> i <= n
  {
    hide Step, Tracks, Run, Fence, Passes;
    var n := |ops| - 1;
    if Fences(ops[n]) {
      PassesIsFence(Run(h, ops[..n], env), ops[n], env);
    }
  }

  lemma OpenPassesNothing(h: Host, ops: seq<Op>, env: Env, p: Participant)
    requires forall k :: 0 <= k <= |ops| ==> Tracks(Run(h, ops[..k], env))
    requires ops != [] && Step(Run(h, ops[..|ops| - 1], env), ops[|ops| - 1], env).1 == Opened(p)
    requires p in Run(h, ops, env).ledger.live
    ensures Highest(None, h, ops, env, p)
  {
    hide Step, Tracks, Fence, PassedAt, Passes;
    var n := |ops| - 1;
    LeaseStep(Run(h, ops[..n], env), ops[n], env, p);
    LastPassed(h, ops, env, p);
    forall i: nat ensures !PassedAt(h, ops, env, p, i) {
      if PassedAt(h, ops, env, p, i) && i < n {
        PassedBefore(h, ops, env, p, i, n);
        assert forall k :: 0 <= k <= n ==> ops[..n][..k] == ops[..k];
        PassedIsIssued(h, ops[..n], env, p, i);
      }
    }
  }

  lemma HighestNext(h: Host, ops: seq<Op>, env: Env, p: Participant)
    requires ops != [] && Tracks(Run(h, ops[..|ops| - 1], env)) && p in Run(h, ops[..|ops| - 1], env).ledger.live
    requires Highest(Run(h, ops[..|ops| - 1], env).ledger.live[p].last, h, ops[..|ops| - 1], env, p)
    ensures var n := |ops| - 1; var before := Run(h, ops[..n], env);
            Highest(if Fences(ops[n]) && ops[n].owner == p && Fence(before, ops[n]).None? then Some(ops[n].sequence)
                    else before.ledger.live[p].last, h, ops, env, p)
  {
    hide Step, Tracks, PassedAt, Passes, Run;
    var n := |ops| - 1;
    LastPassed(h, ops, env, p);
    forall i: nat | i < n ensures PassedAt(h, ops[..n], env, p, i) == PassedAt(h, ops, env, p, i) {
      PassedBefore(h, ops, env, p, i, n);
    }
    forall i: nat | PassedAt(h, ops[..n], env, p, i) ensures i < n {
      InRange(h, ops[..n], env, p, i);
    }
  }

  lemma InRange(h: Host, ops: seq<Op>, env: Env, p: Participant, i: nat)
    requires PassedAt(h, ops, env, p, i)
    ensures i < |ops| && Fences(ops[i])
  {
  }

  lemma PrefixesTrack(registry: nat, maxSessions: nat, maxHeld: nat, ops: seq<Op>, env: Env)
    ensures forall k :: 0 <= k <= |ops| ==> Tracks(Run(Initial(registry, maxSessions, maxHeld), ops[..k], env))
  {
    forall k | 0 <= k <= |ops| ensures Tracks(Run(Initial(registry, maxSessions, maxHeld), ops[..k], env)) {
      RunTracks(registry, maxSessions, maxHeld, ops[..k], env);
    }
  }

  /** In every run the sequences of one participant that pass its fence strictly increase. */
  lemma SequencesRise(registry: nat, maxSessions: nat, maxHeld: nat, ops: seq<Op>, env: Env, p: Participant, i: nat, j: nat)
    requires var h := Initial(registry, maxSessions, maxHeld);
             i < j && PassedAt(h, ops, env, p, i) && PassedAt(h, ops, env, p, j)
    ensures ops[i].sequence < ops[j].sequence
  {
    hide Step, Tracks, Passes;
    var h := Initial(registry, maxSessions, maxHeld);
    PrefixesTrack(registry, maxSessions, maxHeld, ops[..j], env);
    assert ops[..j][..j] == ops[..j];
    PassesIsFence(Run(h, ops[..j], env), ops[j], env);
    LastIsHighest(h, ops[..j], env, p);
    PassedBefore(h, ops, env, p, i, j);
  }

  /** After every run, an input for the right target of a live participant passes exactly when its sequence is
      above every one that has passed. */
  lemma RisingPasses(registry: nat, maxSessions: nat, maxHeld: nat, ops: seq<Op>, env: Env, op: Op)
    requires Fences(op)
    ensures var h0 := Initial(registry, maxSessions, maxHeld); var h := Run(h0, ops, env);
            Passes(h, op, env) <==>
              && op.owner in h.ledger.live && h.ledger.live[op.owner].target == op.identity
              && forall i: nat :: PassedAt(h0, ops, env, op.owner, i) ==> ops[i].sequence < op.sequence
  {
    hide Step, Tracks, Passes, PassedAt;
    var h0 := Initial(registry, maxSessions, maxHeld);
    PrefixesTrack(registry, maxSessions, maxHeld, ops, env);
    assert ops[..|ops|] == ops;
    PassesIsFence(Run(h0, ops, env), op, env);
    if op.owner in Run(h0, ops, env).ledger.live {
      LastIsHighest(h0, ops, env, op.owner);
      forall i: nat | PassedAt(h0, ops, env, op.owner, i) ensures i < |ops| && Fences(ops[i]) {
        InRange(h0, ops, env, op.owner, i);
      }
    }
  }


  // ---------------------------------------------------------------- destinations over runs

  /** The destination last given to a participant: by the Open that returned it, or by an accepted update. */
  ghost function Destination(h: Host, ops: seq<Op>, env: Env, p: Participant): Option<Target> {
    if ops == [] then None
    else
      var before, op := ops[..|ops| - 1], ops[|ops| - 1];
      var reply := Step(Run(h, before, env), op, env).1;
      if op.Open? && reply == Opened(p) then Some(op.target)
      else if op.UpdateDestination? && op.owner == p && reply == Accepted then Some(op.target)
      else Destination(h, before, env, p)
  }

  /** The target and domain the participant was opened for. */
  ghost function OpenedFor(h: Host, ops: seq<Op>, env: Env, p: Participant): Option<(Identity, string)> {
    if ops == [] then None
    else
      var before, op := ops[..|ops| - 1], ops[|ops| - 1];
      if op.Open? && Step(Run(h, before, env), op, env).1 == Opened(p) then Some((op.identity, op.domain))
      else OpenedFor(h, before, env, p)
  }

  /** In every run a live participant's input goes to the destination last given to it, and its identity and
      collision domain are those it was opened with. */
  lemma {:induction false} LeasesFollow(registry: nat, maxSessions: nat, maxHeld: nat, ops: seq<Op>, env: Env, p: Participant)
    requires p in Run(Initial(registry, maxSessions, maxHeld), ops, env).ledger.live
    ensures var h0 := Initial(registry, maxSessions, maxHeld); var h := Run(h0, ops, env);
            && p in h.targets && Destination(h0, ops, env, p) == Some(h.targets[p])
            && OpenedFor(h0, ops, env, p) == Some((h.ledger.live[p].target, h.ledger.live[p].domain))
    decreases |ops|
  {
    hide Step, Tracks, Fence;
    if ops != [] {
      var h0, before := Initial(registry, maxSessions, maxHeld), ops[..|ops| - 1];
      RunTracks(registry, maxSessions, maxHeld, before, env);
      LeaseStep(Run(h0, before, env), ops[|ops| - 1], env, p);
      if Step(Run(h0, before, env), ops[|ops| - 1], env).1 != Opened(p) {
        LeasesFollow(registry, maxSessions, maxHeld, before, env, p);
      }
    }
  }
}
