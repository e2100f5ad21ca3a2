/** The input host itself: a registry object, a destination per participant and a backend that is
    called one packet at a time. Each method performs the program's own steps (reserve, post, roll
    back on a certificate, retry an undelivered Up, drain the releases) and is proved to move the
    host exactly as the state machine of `HostMachine` does. */
module InputHosts {
  import opened Common
  import opened HoldLedger
  import opened InputMonitor
  import opened HostMachine
  import Ownership

  /** Two host states that differ only in bookkeeping a close discards. */
  lemma CloseForgets(a: Host, b: Host, p: Participant, env: Env)
    requires a.targets == b.targets && a.log == b.log
    requires p in a.ledger.live && p in b.ledger.live && a.ledger.live[p].held == b.ledger.live[p].held
    requires a.ledger.(live := a.ledger.live - {p}) == b.ledger.(live := b.ledger.live - {p})
    ensures CloseHost(a, p, env) == CloseHost(b, p, env)
  {
  }

  /** Releasing what was just acquired, and restoring what was just replaced, undo the reservation. */
  lemma RollbackUndoes(l: Ledger, p: Participant, c: Control, release: Packet)
    requires Good(l)
    ensures var (taken, r) := Acquire(l, p, c, release);
            r.Ok? ==> var back := Release(taken, p, c).0;
                      && p in l.live && back.live.Keys == l.live.Keys && back.live[p].held == l.live[p].held
                      && back.(live := back.live - {p}) == l.(live := l.live - {p})
    ensures var (moved, r) := ReplaceRelease(l, p, c, release);
            r.Ok? ==> var back := ReplaceRelease(moved, p, c, r.value).0;
                      && p in l.live && back.live.Keys == l.live.Keys && back.live[p].held == l.live[p].held
                      && back.(live := back.live - {p}) == l.(live := l.live - {p})
  {
    hide Owns;
    var (taken, r) := Acquire(l, p, c, release);
    if r.Ok? {
      var held := l.live[p].held;
      AppendKeys(held, Hold(c, release));
      PlaceIsUnique(held + [Hold(c, release)], c, |held|);
      assert Without(held + [Hold(c, release)], c) == held;
      assert Release(taken, p, c).0.live - {p} == l.live - {p};
    }
    var (moved, m) := ReplaceRelease(l, p, c, release);
    if m.Ok? {
      var held := l.live[p].held;
      WithReleaseKeys(held, c, release);
      PlaceIsUnique(WithRelease(held, c, release), c, Place(held, c));
      assert WithRelease(WithRelease(held, c, release), c, m.value) == held;
      assert ReplaceRelease(moved, p, c, m.value).0.live - {p} == l.live - {p};
    }
  }

  lemma FailuresOne(calls: seq<Call>, c: Call)
    ensures Failures(calls + [c]) ==
            Failures(calls) + (if (if c.kind.Closed? then c.outcome == Panics else c.outcome != Delivered)
                               then [c.outcome] else [])
  {
    assert (calls + [c])[..|calls|] == calls;
  }

  class InputHost {
    const registry: Ownership.Registry
    /** Decides the outcome of each backend call. */
    const env: Env
    var targets: map<Participant, Target>
    /** Every backend call made so far. */
    var log: seq<Call>

    ghost predicate Valid()
      reads this, registry
    {
      registry.Valid() && targets.Keys == registry.ledger.live.Keys && Good(registry.ledger)
    }

    ghost function View(): Host
      reads this, registry
    {
      Host(registry.ledger, targets, log)
    }

    constructor (env: Env, number: nat, maxSessions: nat, maxHeld: nat)
      ensures Valid() && fresh(registry) && this.env == env
      ensures View() == Initial(number, maxSessions, maxHeld)
    {
      registry := new Ownership.Registry(number, maxSessions, maxHeld);
      this.env := env;
      targets, log := map[], [];
    }

    method Call(owner: Participant, kind: Kind) returns (outcome: Outcome)
      modifies this`log
      ensures outcome == env(|old(log)|)
      ensures View() == Post(old(View()), owner, kind, env)
    {
      outcome := env(|log|);
      log := log + [InputMonitor.Call(owner, kind, outcome)];
    }

    method Open(identity: Identity, domain: string, target: Target) returns (r: Reply)
      requires Valid()
      modifies this, registry
      ensures Valid()
      ensures (View(), r) == Step(old(View()), Op.Open(identity, domain, target), env)
    {
      hide Good, Ownership.Represents;
      OpenGood(registry.ledger, identity, domain);
      var opened' := registry.Open(identity, domain);
      if opened'.Err? {
        return Refused(opened'.error);
      }
      targets := targets[opened'.value := target];
      return Opened(opened'.value);
    }

    /** Attempt every drained release even when one fails or panics, then free the backend's own resources. */
    method Drain(owner: Participant, releases: seq<Packet>, ghost held: seq<Hold>) returns (failures: seq<Outcome>)
      requires releases == Reverse(Releases(held))
      modifies this`log
      ensures |old(log)| <= |log| && failures == Failures(log[|old(log)|..])
      ensures View() == Post(ReleaseAll(old(View()), owner, held, env), owner, Closed, env)
    {
      hide ReleaseAll, Failures;
      failures := [];
      FailuresNone();
      assert log[|old(log)|..] == [];
      assert held[..|held|] == held;
      for i := 0 to |releases|
        invariant |old(log)| <= |log|
        invariant ReleaseAll(View(), owner, held[..|held| - i], env) == ReleaseAll(old(View()), owner, held, env)
        invariant failures == Failures(log[|old(log)|..])
      {
        ghost var left := held[..|held| - i];
        assert releases[i] == left[|left| - 1].release && left[..|left| - 1] == held[..|held| - (i + 1)];
        ReleaseAllOne(View(), owner, left, env);
        ghost var calls := log[|old(log)|..];
        var outcome := Call(owner, Cleanup(releases[i]));
        FailuresOne(calls, log[|log| - 1]);
        assert log[|old(log)|..] == calls + [log[|log| - 1]];
        if outcome != Delivered {
          failures := failures + [outcome];
        }
      }
      ReleaseAllNone(View(), owner, env);
      assert held[..0] == [];
      ghost var calls := log[|old(log)|..];
      var outcome := Call(owner, Closed);
      FailuresOne(calls, log[|log| - 1]);
      assert log[|old(log)|..] == calls + [log[|log| - 1]];
      if outcome == Panics {
        failures := failures + [outcome];
      }
    }

    /** Idempotent close. */
    method Close(owner: Participant) returns (failures: seq<Outcome>)
      requires Valid()
      modifies this, registry
      ensures Valid() && |old(log)| <= |log|
      ensures View() == CloseHost(old(View()), owner, env)
      ensures failures == Failures(log[|old(log)|..])
    {
      hide Good, HoldLedger.Holds, Ownership.Represents, ReleaseAll;
      ghost var before := View();
      CloseGood(registry.ledger, owner);
      CloseFrame(before, owner, env);
      var releases := registry.Close(owner);
      if owner !in targets {
        assert log[|old(log)|..] == [];
        return [];
      }
      targets := targets - {owner};
      failures := Drain(owner, releases, before.ledger.live[owner].held);
    }

    method FirstUnavailable(owner: Participant, controls: seq<Control>) returns (r: Result<()>)
      requires Valid()
      ensures r == AllAvailable(registry.ledger, owner, controls)
    {
      hide Good, HoldLedger.Available, Ownership.Represents;
      for i := 0 to |controls|
        invariant AllAvailable(registry.ledger, owner, controls) ==
                  AllAvailable(registry.ledger, owner, controls[i..])
      {
        r := registry.Available(owner, controls[i]);
        if r.Err? {
          return;
        }
      }
      return Ok(());
    }

    /** Reserve, post, and on failure roll back only what the backend certifies it did not send. */
    method Dispatch(owner: Participant, prepared: Prepared) returns (r: Reply)
      requires Valid() && owner in registry.ledger.live
      modifies this, registry
      ensures Valid()
      ensures (View(), r) == HostMachine.Dispatch(old(View()), owner, prepared, env)
    {
      hide Good, Ownership.Represents, HoldLedger.Holds;
      var kind: Kind;
      var previous: Option<Packet> := None;
      match prepared {
        case PreparedDown(control, packet, release) =>
          AcquireGood(registry.ledger, owner, control, release);
          var held := registry.Acquire(owner, control, release);
          if held.Err? {
            return Refused(held.error);
          }
          kind := Down(control, packet, release);
        case PreparedUp(control, own) =>
          ReleaseGood(registry.ledger, owner, control);
          var release := registry.Release(owner, control);
          if release.Err? {
            return Refused(release.error);
          }
          kind := Up(control, if own.Some? then own.value else release.value);
        case PreparedRepeat(control, packet) =>
          var held := registry.Held(owner, control);
          if held.Err? {
            return Refused(held.error);
          }
          kind := Repeat(control, packet);
        case PreparedMove(control, packet, release) =>
          ReplaceGood(registry.ledger, owner, control, release);
          var replaced := registry.ReplaceRelease(owner, control, release);
          if replaced.Err? {
            return Refused(replaced.error);
          }
          previous := Some(replaced.value);
          kind := Move(control, packet, release);
        case PreparedAction(controls, packet) =>
          var free := FirstUnavailable(owner, controls);
          if free.Err? {
            return Refused(free.error);
          }
          kind := Action(Some(packet));
      }
      ghost var reserved := registry.ledger;
      var outcome := Call(owner, kind);
      if outcome == Delivered {
        return Accepted;
      }
      r := Fail(owner, kind, previous, outcome, old(View()), reserved);
    }

    /** The failure path of a post: rollback, one retry of an undelivered Up, then close. */
    method Fail(owner: Participant, kind: Kind, previous: Option<Packet>, outcome: Outcome,
                ghost before: Host, ghost reserved: Ledger) returns (r: Reply)
      requires Valid() && owner in registry.ledger.live && registry.ledger == reserved && Good(before.ledger)
      requires outcome != Delivered && reserved.live.Keys == before.ledger.live.Keys
      requires View() == Post(before.(ledger := reserved), owner, kind, env) && outcome == env(|before.log|)
      requires !kind.Retry? && !kind.Cleanup? && !kind.Closed?
      requires kind.Down? ==> (reserved, Ok(())) == Acquire(before.ledger, owner, kind.control, kind.release)
      requires kind.Move? ==>
                 && previous.Some?
                 && (reserved, Ok(previous.value)) == ReplaceRelease(before.ledger, owner, kind.control, kind.release)
      requires kind.Repeat? || kind.Action? ==> reserved == before.ledger
      modifies this, registry
      ensures Valid()
      ensures (View(), r) == FailPost(before, old(View()), owner, kind, outcome, env)
    {
      hide Good, Ownership.Represents, HoldLedger.Holds, HoldLedger.Acquire, HoldLedger.ReplaceRelease, Failures;
      ghost var posted := View();
      Rollback(owner, kind, previous, outcome, before);
      var unwound, cleanup := outcome == Panics, [];
      FailuresNone();
      assert log[|posted.log|..] == [];
      if outcome == NotDispatched && kind.Up? {
        unwound, cleanup := RetryUp(owner, kind);
      }
      ghost var retried := View();
      assert cleanup == Failures(retried.log[|posted.log|..]);
      CloseFrame(retried, owner, env);
      var failures := Close(owner);
      if unwound {
        return Unwound;
      }
      FailuresSplit(log, |posted.log|, |retried.log|);
      assert log[|posted.log|..|retried.log|] == retried.log[|posted.log|..];
      return Failed(outcome, cleanup + failures);
    }

    /** One more attempt at an Up that was certified not dispatched; never a second. */
    method RetryUp(owner: Participant, kind: Kind) returns (unwound: bool, cleanup: seq<Outcome>)
      requires kind.Up?
      modifies this`log
      ensures View() == Post(old(View()), owner, Retry(kind.control, kind.packet), env)
      ensures unwound == (env(|old(log)|) == Panics) && cleanup == Failures(log[|old(log)|..])
    {
      var again := Call(owner, Retry(kind.control, kind.packet));
      assert log[|old(log)|..] == [InputMonitor.Call(owner, Retry(kind.control, kind.packet), again)];
      return again == Panics, if again != Delivered then [again] else [];
    }

    /** Undo a reservation whose packet was certified not dispatched. */
    method Rollback(owner: Participant, kind: Kind, previous: Option<Packet>, outcome: Outcome, ghost before: Host)
      requires Valid() && owner in before.ledger.live && Good(before.ledger)
      requires !kind.Retry? && !kind.Cleanup? && !kind.Closed?
      requires registry.ledger.live.Keys == before.ledger.live.Keys
      requires kind.Down? ==> (registry.ledger, Ok(())) == Acquire(before.ledger, owner, kind.control, kind.release)
      requires kind.Move? ==>
                 && previous.Some?
                 && (registry.ledger, Ok(previous.value)) ==
                    ReplaceRelease(before.ledger, owner, kind.control, kind.release)
      requires kind.Repeat? || kind.Action? ==> registry.ledger == before.ledger
      modifies registry
      ensures Valid() && registry.ledger.live.Keys == before.ledger.live.Keys
      ensures outcome != NotDispatched || kind.Up? ==> registry.ledger == old(registry.ledger)
      ensures outcome == NotDispatched && !kind.Up? ==>
                CloseHost(View(), owner, env) == CloseHost(View().(ledger := before.ledger), owner, env)
    {
      hide Good, Ownership.Represents, HoldLedger.Holds, HoldLedger.Acquire, HoldLedger.ReplaceRelease,
           HoldLedger.Release, HostMachine.CloseHost;
      if outcome == NotDispatched && kind.Down? {
        RollbackUndoes(before.ledger, owner, kind.control, kind.release);
        ReleaseGood(registry.ledger, owner, kind.control);
        var _ := registry.Release(owner, kind.control);
        CloseForgets(View(), View().(ledger := before.ledger), owner, env);
      }
      if outcome == NotDispatched && kind.Move? {
        RollbackUndoes(before.ledger, owner, kind.control, kind.release);
        ReplaceGood(registry.ledger, owner, kind.control, previous.value);
        var _ := registry.ReplaceRelease(owner, kind.control, previous.value);
        CloseForgets(View(), View().(ledger := before.ledger), owner, env);
      }
    }

    method Accept(owner: Participant, identity: Identity, sequence: nat) returns (r: Result<()>)
      requires Valid()
      modifies registry
      ensures Valid()
      ensures (View(), r) == HostMachine.Accept(old(View()), owner, identity, sequence)
    {
      hide Good, Ownership.Represents;
      var target := registry.Target(owner);
      if target.Err? {
        return Err(target.error);
      }
      if target.value != identity {
        return Err(StaleInput);
      }
      SequenceGood(registry.ledger, owner, sequence);
      r := registry.AcceptSequence(owner, sequence);
    }

    method Submit(owner: Participant, identity: Identity, sequence: nat, valid: bool, preparation: Preparation)
      returns (r: Reply)
      requires Valid()
      modifies this, registry
      ensures Valid()
      ensures (View(), r) == Step(old(View()), Op.Submit(owner, identity, sequence, valid, preparation), env)
    {
      hide Good, Ownership.Represents, HostMachine.Dispatch, HostMachine.CloseHost;
      var fence := Accept(owner, identity, sequence);
      if fence.Err? {
        return Refused(fence.error);
      }
      if !valid {
        return Invalid;
      }
      match preparation {
        case PrepareFails => return PrepareFailed;
        case PreparePanics =>
          var _ := Close(owner);
          return Unwound;
        case Ready(prepared) =>
          r := Dispatch(owner, prepared);
      }
    }

    /** Preparing allocates without dispatching or consuming a sequence; an unwinding preparation closes. */
    method Prepare(owner: Participant, valid: bool, preparation: Preparation) returns (r: Reply)
      requires Valid()
      modifies this, registry
      ensures Valid()
      ensures (View(), r) == Step(old(View()), Op.Prepare(owner, valid, preparation), env)
    {
      hide Good, Ownership.Represents, HostMachine.Dispatch, HostMachine.CloseHost;
      var current := registry.Target(owner);
      if current.Err? {
        return Refused(current.error);
      }
      if !valid {
        return Invalid;
      }
      match preparation {
        case PrepareFails => return PrepareFailed;
        case PreparePanics =>
          var _ := Close(owner);
          return Unwound;
        case Ready(_) => return Accepted;
      }
    }

    method SubmitPrepared(owner: Participant, identity: Identity, sequence: nat, prepared: Prepared)
      returns (r: Reply)
      requires Valid()
      modifies this, registry
      ensures Valid()
      ensures (View(), r) == Step(old(View()), Op.SubmitPrepared(owner, identity, sequence, prepared), env)
    {
      hide Good, Ownership.Represents, HostMachine.Dispatch;
      var fence := Accept(owner, identity, sequence);
      if fence.Err? {
        return Refused(fence.error);
      }
      r := Dispatch(owner, prepared);
    }

    method SubmitAction(owner: Participant, identity: Identity, sequence: nat, controls: seq<Control>)
      returns (r: Reply)
      requires Valid()
      modifies this, registry
      ensures Valid()
      ensures (View(), r) == Step(old(View()), Op.SubmitAction(owner, identity, sequence, controls), env)
    {
      hide Good, Ownership.Represents, FailPost, AllAvailable;
      var fence := Accept(owner, identity, sequence);
      if fence.Err? {
        return Refused(fence.error);
      }
      var free := FirstUnavailable(owner, controls);
      if free.Err? {
        return Refused(free.error);
      }
      ghost var before := View();
      assert before.(ledger := before.ledger) == before;
      var outcome := Call(owner, Action(None));
      if outcome == Delivered {
        return Accepted;
      }
      r := Fail(owner, Action(None), None, outcome, before, before.ledger);
    }

    method UpdateDestination(owner: Participant, identity: Identity, target: Target, panics: bool)
      returns (r: Reply)
      requires Valid()
      modifies this, registry
      ensures Valid()
      ensures (View(), r) == Step(old(View()), Op.UpdateDestination(owner, identity, target, panics), env)
    {
      hide Good, Ownership.Represents, HostMachine.CloseHost;
      var current := registry.Target(owner);
      if current.Err? {
        return Refused(current.error);
      }
      if current.value != identity {
        return Refused(StaleInput);
      }
      if panics {
        var _ := Close(owner);
        return Unwound;
      }
      targets := targets[owner := target];
      return Accepted;
    }

    /** Dropping the host closes every live participant in token order. */
    method Drop()
      requires Valid()
      modifies this, registry
      ensures Valid()
      ensures View() == DropFrom(old(View()), 0, env)
    {
      hide Good, Ownership.Represents, HostMachine.CloseHost;
      for sequence := 0 to registry.next
        invariant Valid() && registry.next == old(registry.next)
        invariant DropFrom(View(), sequence, env) == DropFrom(old(View()), 0, env)
      {
        CloseFrame(View(), Participant(registry.registry, sequence + 1), env);
        var _ := Close(Participant(registry.registry, sequence + 1));
      }
    }
  }

  lemma ReleaseAllOne(h: Host, p: Participant, held: seq<Hold>, env: Env)
    requires held != []
    ensures ReleaseAll(h, p, held, env) ==
            ReleaseAll(Post(h, p, Cleanup(held[|held| - 1].release), env), p, held[..|held| - 1], env)
  {
  }

  lemma ReleaseAllNone(h: Host, p: Participant, env: Env)
    ensures ReleaseAll(h, p, [], env) == h
  {
  }

  lemma FailuresNone()
    ensures Failures([]) == []
  {
  }

  lemma FailuresSplit(log: seq<InputMonitor.Call>, i: nat, j: nat)
    requires i <= j <= |log|
    ensures Failures(log[i..]) == Failures(log[i..j]) + Failures(log[j..])
  {
    FailuresConcat(log[i..j], log[j..]);
    assert log[i..] == log[i..j] + log[j..];
  }

  lemma {:induction false} FailuresConcat(a: seq<InputMonitor.Call>, b: seq<InputMonitor.Call>)
    ensures Failures(a + b) == Failures(a) + Failures(b)
  {
    if b == [] {
      assert a + b == a;
    } else {
      FailuresConcat(a, b[..|b| - 1]);
      assert (a + b)[..|a + b| - 1] == a + b[..|b| - 1];
    }
  }
}
