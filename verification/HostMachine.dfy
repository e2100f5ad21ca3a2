/** The input host as a state machine over its public operations, for every backend.

    `env` decides the outcome of the n-th backend call, so a statement over all `env` and all
    operation lists speaks about every run with every mixture of delivered, certified-undelivered,
    uncertain and panicking calls. */
module HostMachine {
  import opened Common
  import opened HoldLedger
  import opened InputMonitor

  type Target(!new)
  type Env = nat -> Outcome

  datatype Host = Host(ledger: Ledger, targets: map<Participant, Target>, log: seq<Call>)

  /** Prepared input: a Down always carries its matching release. */
  datatype Prepared =
    | PreparedDown(control: Control, packet: Packet, release: Packet)
    | PreparedUp(control: Control, own: Option<Packet>)
    | PreparedRepeat(control: Control, packet: Packet)
    | PreparedMove(control: Control, packet: Packet, release: Packet)
    | PreparedAction(controls: seq<Control>, packet: Packet)

  /** What the backend's preparation hook came to: it may also fail or unwind. */
  datatype Preparation = Ready(prepared: Prepared) | PrepareFails | PreparePanics

  datatype Reply =
    | Accepted
    | Opened(owner: Participant)
    | Refused(error: Error)
    | Invalid
    | PrepareFailed
    | Failed(failure: Outcome, cleanup: seq<Outcome>)
    | Unwound

  ghost function Post(h: Host, p: Participant, kind: Kind, env: Env): Host {
    h.(log := h.log + [Call(p, kind, env(|h.log|))])
  }

  /** Attempt every retained release, newest first. */
  ghost function ReleaseAll(h: Host, p: Participant, held: seq<Hold>, env: Env): Host
    decreases |held|
  {
    if held == [] then h
    else ReleaseAll(Post(h, p, Cleanup(held[|held| - 1].release), env), p, held[..|held| - 1], env)
  }

  ghost function CloseHost(h: Host, p: Participant, env: Env): Host {
    if p !in h.ledger.live then h
    else
      var removed := h.(ledger := HoldLedger.Close(h.ledger, p).0, targets := h.targets - {p});
      Post(ReleaseAll(removed, p, h.ledger.live[p].held, env), p, Closed, env)
  }

  /** Failures a close reports for its calls. */
  ghost function Failures(calls: seq<Call>): seq<Outcome> {
    if calls == [] then []
    else
      var c := calls[|calls| - 1];
      var failed := if c.kind.Closed? then c.outcome == Panics else c.outcome != Delivered;
      Failures(calls[..|calls| - 1]) + (if failed then [c.outcome] else [])
  }

  ghost function AllAvailable(l: Ledger, p: Participant, controls: seq<Control>): Result<()> {
    if controls == [] then Ok(())
    else
      var first := Available(l, p, controls[0]);
      if first.Err? then first else AllAvailable(l, p, controls[1..])
  }

  /** Reserve or give up ownership, before anything is posted. */
  ghost function Reserve(l: Ledger, p: Participant, prepared: Prepared): Result<(Ledger, Kind)> {
    match prepared
    case PreparedDown(c, packet, release) =>
      var (l', r) := Acquire(l, p, c, release);
      if r.Err? then Err(r.error) else Ok((l', Down(c, packet, release)))
    case PreparedUp(c, own) =>
      var (l', r) := Release(l, p, c);
      if r.Err? then Err(r.error) else Ok((l', Up(c, if own.Some? then own.value else r.value)))
    case PreparedRepeat(c, packet) =>
      var r := Held(l, p, c);
      if r.Err? then Err(r.error) else Ok((l, Repeat(c, packet)))
    case PreparedMove(c, packet, release) =>
      var (l', r) := ReplaceRelease(l, p, c, release);
      if r.Err? then Err(r.error) else Ok((l', Move(c, packet, release)))
    case PreparedAction(controls, packet) =>
      var r := AllAvailable(l, p, controls);
      if r.Err? then Err(r.error) else Ok((l, Action(Some(packet))))
  }

  /** A failed post ends the participant. What it still has to release is decided by the certificate:
      a Down or Move certified undelivered counts as never made. */
  ghost function FailPost(h: Host, posted: Host, p: Participant, kind: Kind, outcome: Outcome, env: Env): (Host, Reply) {
    var settled := if outcome == NotDispatched && !kind.Up? then posted.(ledger := h.ledger) else posted;
    var retried := if outcome == NotDispatched && kind.Up?
                   then Post(settled, p, Retry(kind.control, kind.packet), env) else settled;
    var closed := CloseHost(retried, p, env);
    var unwound := outcome == Panics || (outcome == NotDispatched && kind.Up? && env(|posted.log|) == Panics);
    (closed, if unwound then Unwound
             else
               CloseFrame(retried, p, env);
               Failed(outcome, Failures(closed.log[|posted.log|..])))
  }

  ghost function Dispatch(h: Host, p: Participant, prepared: Prepared, env: Env): (Host, Reply) {
    var reserved := Reserve(h.ledger, p, prepared);
    if reserved.Err? then (h, Refused(reserved.error))
    else
      var (l, kind) := reserved.value;
      var posted, outcome := Post(h.(ledger := l), p, kind, env), env(|h.log|);
      if outcome == Delivered then (posted, Accepted) else FailPost(h, posted, p, kind, outcome, env)
  }

  /** Target identity first, then the sequence fence; a stale call changes nothing. */
  ghost function Accept(h: Host, p: Participant, target: Identity, sequence: nat): (Host, Result<()>) {
    if p !in h.ledger.live then (h, Err(SessionNotFound))
    else if h.ledger.live[p].target != target then (h, Err(StaleInput))
    else
      var (l, r) := AcceptSequence(h.ledger, p, sequence);
      (h.(ledger := l), r)
  }

  datatype Op =
    | Open(identity: Identity, domain: string, target: Target)
    | Submit(owner: Participant, identity: Identity, sequence: nat, valid: bool, preparation: Preparation)
    | SubmitPrepared(owner: Participant, identity: Identity, sequence: nat, prepared: Prepared)
    | SubmitAction(owner: Participant, identity: Identity, sequence: nat, controls: seq<Control>)
    | UpdateDestination(owner: Participant, identity: Identity, target: Target, panics: bool)
    | Prepare(owner: Participant, valid: bool, preparation: Preparation)
    | CloseOp(owner: Participant)

  ghost function Unwind(h: Host, p: Participant, env: Env): (Host, Reply) {
    (CloseHost(h, p, env), Unwound)
  }

  ghost function Step(h: Host, op: Op, env: Env): (Host, Reply) {
    match op
    case Open(identity, domain, target) =>
      var (l, r) := HoldLedger.Open(h.ledger, identity, domain);
      if r.Err? then (h, Refused(r.error))
      else (h.(ledger := l, targets := h.targets[r.value := target]), Opened(r.value))
    case Submit(p, identity, sequence, valid, preparation) =>
      var (h', r) := Accept(h, p, identity, sequence);
      if r.Err? then (h', Refused(r.error))
      else if !valid then (h', Invalid)
      else if preparation.PrepareFails? then (h', PrepareFailed)
      else if preparation.PreparePanics? then Unwind(h', p, env)
      else Dispatch(h', p, preparation.prepared, env)
    case SubmitPrepared(p, identity, sequence, prepared) =>
      var (h', r) := Accept(h, p, identity, sequence);
      if r.Err? then (h', Refused(r.error)) else Dispatch(h', p, prepared, env)
    case SubmitAction(p, identity, sequence, controls) =>
      var (h', r) := Accept(h, p, identity, sequence);
      if r.Err? then (h', Refused(r.error))
      else
        var free := AllAvailable(h'.ledger, p, controls);
        if free.Err? then (h', Refused(free.error))
        else
          var posted, outcome := Post(h', p, Action(None), env), env(|h'.log|);
          if outcome == Delivered then (posted, Accepted) else FailPost(h', posted, p, Action(None), outcome, env)
    case UpdateDestination(p, identity, target, panics) =>
      if p !in h.ledger.live then (h, Refused(SessionNotFound))
      else if h.ledger.live[p].target != identity then (h, Refused(StaleInput))
      else if panics then Unwind(h, p, env)
      else (h.(targets := h.targets[p := target]), Accepted)
    case Prepare(p, valid, preparation) =>
      if p !in h.ledger.live then (h, Refused(SessionNotFound))
      else if !valid then (h, Invalid)
      else if preparation.PrepareFails? then (h, PrepareFailed)
      else if preparation.PreparePanics? then Unwind(h, p, env)
      else (h, Accepted)
    case CloseOp(p) => (CloseHost(h, p, env), Accepted)
  }

  ghost function Initial(registry: nat, maxSessions: nat, maxHeld: nat): Host {
    Host(Ledger(registry, 0, maxSessions, maxHeld, map[]), map[], [])
  }

  ghost function Run(h: Host, ops: seq<Op>, env: Env): Host {
    if ops == [] then h else Step(Run(h, ops[..|ops| - 1], env), ops[|ops| - 1], env).0
  }

  /** Dropping the host closes every participant still live, oldest token first. */
  ghost function DropFrom(h: Host, sequence: nat, env: Env): Host
    decreases h.ledger.next - sequence
  {
    if sequence >= h.ledger.next then h
    else
      var h' := CloseHost(h, Participant(h.ledger.registry, sequence + 1), env);
      CloseFrame(h, Participant(h.ledger.registry, sequence + 1), env);
      DropFrom(h', sequence + 1, env)
  }

  lemma CloseFrame(h: Host, p: Participant, env: Env)
    ensures var h' := CloseHost(h, p, env);
            && h'.ledger == h.ledger.(live := h.ledger.live - {p})
            && h'.targets == (if p in h.ledger.live then h.targets - {p} else h.targets)
            && h.log <= h'.log
  {
    if p in h.ledger.live {
      ReleaseAllFrame(h.(ledger := HoldLedger.Close(h.ledger, p).0, targets := h.targets - {p}),
                      p, h.ledger.live[p].held, env);
    } else {
      assert h.ledger.live - {p} == h.ledger.live;
    }
  }

  lemma {:induction false} ReleaseAllFrame(h: Host, p: Participant, held: seq<Hold>, env: Env)
    ensures ReleaseAll(h, p, held, env).ledger == h.ledger
    ensures ReleaseAll(h, p, held, env).targets == h.targets
    ensures |ReleaseAll(h, p, held, env).log| == |h.log| + |held|
    ensures h.log <= ReleaseAll(h, p, held, env).log
    decreases |held|
  {
    if held != [] {
      ReleaseAllFrame(Post(h, p, Cleanup(held[|held| - 1].release), env), p, held[..|held| - 1], env);
    }
  }
}
