/** Capture leases: one per attachment, one frame in flight each, and no late frame after a close. */
module RemoteCapture {
  import opened Common
  import opened Identifiers

  const CAPACITY: nat := 16

  /** `sound` is the outcome of the checks on the target's metadata. */
  datatype Target = Target(id: string, generation: nat, process: Option<nat>, details: string, sound: bool)

  /** Names the cancellation of one request. */
  type Token = nat

  datatype Lease = Lease(binding: Binding, target: Target, flight: Option<Token>)

  /** What a frame job carries back with it. */
  datatype Plan = Plan(binding: Binding, handle: nat, selected: Target)

  datatype Problem =
    | InvalidBinding | NotFound | WrongOwner | InvalidRequest | Cancelled | AtCapacity | Unresolved
    | StaleTarget | CaptureFailed

  datatype Capture = Capture(target: Target, raster: bool, encodes: bool)

  predicate SameTarget(a: Target, b: Target) {
    a.id == b.id && a.generation == b.generation && a.process == b.process
  }

  /** The frame's target, or why there is no frame. */
  function Encode(selected: Target, captured: Option<Capture>, cancelled: bool): (r: Option<Target>)
    ensures r.Some? ==> SameTarget(r.value, selected) && r.value.sound && !cancelled
    ensures r.Some? ==> captured == Some(Capture(r.value, true, true))
    ensures r.None? ==> cancelled || captured.None? || !captured.value.target.sound || !SameTarget(captured.value.target, selected)
                        || !captured.value.raster || !captured.value.encodes
  {
    if captured.Some? && captured.value.target.sound && SameTarget(captured.value.target, selected)
       && captured.value.raster && !cancelled && captured.value.encodes
    then Some(captured.value.target) else None
  }

  // ---- What every reachable state keeps ----

  /** Handles come from the counter; no attachment holds two leases; a lease never changes its target. */
  ghost predicate Leases(next: nat, live: map<nat, Lease>, chosen: map<nat, Target>) {
    && |live| <= CAPACITY && next <= MAX_SAFE_INTEGER
    && Aimed(next, live, chosen) && OnePerBinding(live)
  }

  ghost predicate Aimed(next: nat, live: map<nat, Lease>, chosen: map<nat, Target>) {
    && (forall h :: h in live ==> 1 <= h <= next && h in chosen && SameTarget(live[h].target, chosen[h]))
    && (forall h :: h in chosen ==> 1 <= h <= next)
  }

  lemma AimedOpen(next: nat, live: map<nat, Lease>, chosen: map<nat, Target>, lease: Lease)
    requires Aimed(next, live, chosen)
    ensures next + 1 !in live && next + 1 !in chosen
    ensures Aimed(next + 1, live[next + 1 := lease], chosen[next + 1 := lease.target])
  {
  }

  lemma OneMore(live: map<nat, Lease>, h: nat, lease: Lease)
    requires h !in live
    ensures |live[h := lease]| == |live| + 1
  {
    assert live[h := lease].Keys == live.Keys + {h};
  }

  ghost predicate OnePerBinding(live: map<nat, Lease>) {
    forall h, k :: h in live && k in live && live[h].binding == live[k].binding ==> h == k
  }

  lemma BindingsUpdate(live: map<nat, Lease>, h: nat, lease: Lease)
    requires OnePerBinding(live)
    requires if h in live then lease.binding == live[h].binding else forall k :: k in live ==> live[k].binding != lease.binding
    ensures OnePerBinding(live[h := lease])
  {
  }

  /** Jobs and flights correspond: a live lease's flight is the one job it started, and a job whose lease
      is gone has been cancelled. */
  ghost predicate Flights(live: map<nat, Lease>, chosen: map<nat, Target>, jobs: map<Token, Plan>, cancelled: set<Token>) {
    && (forall t :: t in jobs ==> JobStands(jobs[t], t, live, chosen, cancelled))
    && (forall h :: h in live && live[h].flight.Some? ==>
          live[h].flight.value in jobs && jobs[live[h].flight.value].handle == h)
  }

  ghost predicate JobStands(j: Plan, t: Token, live: map<nat, Lease>, chosen: map<nat, Target>, cancelled: set<Token>) {
    && ValidBinding(j.binding) && j.handle in chosen && SameTarget(j.selected, chosen[j.handle])
    && if j.handle in live then live[j.handle].flight == Some(t) && live[j.handle].binding == j.binding
       else t in cancelled
  }

  ghost predicate Good(next: nat, live: map<nat, Lease>, chosen: map<nat, Target>, jobs: map<Token, Plan>,
                       cancelled: set<Token>) {
    Leases(next, live, chosen) && Flights(live, chosen, jobs, cancelled)
  }

  /** At most one job per live lease. */
  lemma OneJobPerLease(next: nat, live: map<nat, Lease>, chosen: map<nat, Target>, jobs: map<Token, Plan>,
                       cancelled: set<Token>, s: Token, t: Token)
    requires Good(next, live, chosen, jobs, cancelled)
    requires s in jobs && t in jobs && jobs[s].handle == jobs[t].handle && jobs[s].handle in live
    ensures s == t
  {
    assert JobStands(jobs[s], s, live, chosen, cancelled) && JobStands(jobs[t], t, live, chosen, cancelled);
  }

  lemma LeasesOpen(next: nat, live: map<nat, Lease>, chosen: map<nat, Target>, binding: Binding, target: Target)
    requires Leases(next, live, chosen) && |live| < CAPACITY && next < MAX_SAFE_INTEGER
    requires forall h :: h in live ==> live[h].binding != binding
    ensures next + 1 !in live && next + 1 !in chosen
    ensures Leases(next + 1, live[next + 1 := Lease(binding, target, None)], chosen[next + 1 := target])
  {
    hide Aimed, OnePerBinding;
    var lease := Lease(binding, target, None);
    AimedOpen(next, live, chosen, lease);
    BindingsUpdate(live, next + 1, lease);
    OneMore(live, next + 1, lease);
  }

  /** A lease may take a new flight or a fresher view of the same target. */
  lemma LeasesUpdate(next: nat, live: map<nat, Lease>, chosen: map<nat, Target>, h: nat, lease: Lease)
    requires Leases(next, live, chosen) && h in live && lease.binding == live[h].binding
    requires SameTarget(lease.target, chosen[h])
    ensures Leases(next, live[h := lease], chosen)
  {
    hide SameTarget, OnePerBinding;
    BindingsUpdate(live, h, lease);
    assert live[h := lease].Keys == live.Keys;
  }

  lemma LeasesClose(next: nat, live: map<nat, Lease>, chosen: map<nat, Target>, h: nat)
    requires Leases(next, live, chosen) && h in live
    ensures Leases(next, live - {h}, chosen)
  {
    hide SameTarget;
    assert live.Keys == (live - {h}).Keys + {h};
  }

  lemma OpenGood(next: nat, live: map<nat, Lease>, chosen: map<nat, Target>, jobs: map<Token, Plan>,
                 cancelled: set<Token>, binding: Binding, target: Target)
    requires Good(next, live, chosen, jobs, cancelled) && |live| < CAPACITY && next < MAX_SAFE_INTEGER
    requires forall h :: h in live ==> live[h].binding != binding
    ensures next + 1 !in live && next + 1 !in chosen
    ensures Good(next + 1, live[next + 1 := Lease(binding, target, None)], chosen[next + 1 := target], jobs, cancelled)
  {
    hide Leases, ValidBinding, SameTarget;
    LeasesOpen(next, live, chosen, binding, target);
    var live', chosen' := live[next + 1 := Lease(binding, target, None)], chosen[next + 1 := target];
    forall t | t in jobs ensures JobStands(jobs[t], t, live', chosen', cancelled) {
      assert JobStands(jobs[t], t, live, chosen, cancelled);
    }
  }

  lemma StartGood(next: nat, live: map<nat, Lease>, chosen: map<nat, Target>, jobs: map<Token, Plan>,
                  cancelled: set<Token>, h: nat, t: Token)
    requires Good(next, live, chosen, jobs, cancelled) && h in live && live[h].flight.None? && t !in jobs
    requires ValidBinding(live[h].binding)
    ensures Good(next, live[h := live[h].(flight := Some(t))], chosen,
                 jobs[t := Plan(live[h].binding, h, live[h].target)], cancelled)
  {
    hide Leases, ValidBinding, SameTarget;
    LeaseIsChosen(next, live, chosen, h);
    LeasesUpdate(next, live, chosen, h, live[h].(flight := Some(t)));
    var live', jobs' := live[h := live[h].(flight := Some(t))], jobs[t := Plan(live[h].binding, h, live[h].target)];
    forall s | s in jobs' ensures JobStands(jobs'[s], s, live', chosen, cancelled) {
      if s != t {
        assert JobStands(jobs[s], s, live, chosen, cancelled);
      }
    }
  }

  lemma LeaseIsChosen(next: nat, live: map<nat, Lease>, chosen: map<nat, Target>, h: nat)
    requires Leases(next, live, chosen) && h in live
    ensures h in chosen && SameTarget(live[h].target, chosen[h])
    ensures forall t :: SameTarget(t, live[h].target) ==> SameTarget(t, chosen[h])
    ensures forall s, t :: SameTarget(s, chosen[h]) && SameTarget(t, s) ==> SameTarget(t, chosen[h])
  {
  }

  /** A finished job leaves: from its own lease if that is still live, otherwise without a trace. */
  lemma FinishGood(next: nat, live: map<nat, Lease>, chosen: map<nat, Target>, jobs: map<Token, Plan>,
                   cancelled: set<Token>, t: Token, target: Target)
    requires Good(next, live, chosen, jobs, cancelled) && t in jobs
    requires jobs[t].handle in live ==> SameTarget(target, jobs[t].selected) || target == live[jobs[t].handle].target
    ensures var h := jobs[t].handle;
            && (h !in live ==> Good(next, live, chosen, jobs - {t}, cancelled))
            && (h in live ==> live[h].binding == jobs[t].binding
                              && Good(next, live[h := Lease(live[h].binding, target, None)], chosen, jobs - {t}, cancelled))
  {
    hide Leases, ValidBinding, SameTarget;
    var h, jobs' := jobs[t].handle, jobs - {t};
    assert JobStands(jobs[t], t, live, chosen, cancelled);
    var live' := if h in live then live[h := Lease(live[h].binding, target, None)] else live;
    if h in live {
      LeaseIsChosen(next, live, chosen, h);
      LeasesUpdate(next, live, chosen, h, Lease(live[h].binding, target, None));
    }
    forall s | s in jobs' ensures JobStands(jobs'[s], s, live', chosen, cancelled) {
      assert JobStands(jobs[s], s, live, chosen, cancelled);
    }
    forall k | k in live' && live'[k].flight.Some?
      ensures live'[k].flight.value in jobs' && jobs'[live'[k].flight.value].handle == k
    {
      assert live[k].flight.value in jobs;
    }
  }

  function FlightOf(live: map<nat, Lease>, h: nat): set<Token> {
    if h in live && live[h].flight.Some? then {live[h].flight.value} else {}
  }

  lemma CloseGood(next: nat, live: map<nat, Lease>, chosen: map<nat, Target>, jobs: map<Token, Plan>,
                  cancelled: set<Token>, h: nat)
    requires Good(next, live, chosen, jobs, cancelled) && h in live
    ensures Good(next, live - {h}, chosen, jobs, cancelled + FlightOf(live, h))
  {
    hide Leases, ValidBinding, SameTarget;
    LeasesClose(next, live, chosen, h);
    var live', cancelled' := live - {h}, cancelled + FlightOf(live, h);
    forall t | t in jobs ensures JobStands(jobs[t], t, live', chosen, cancelled') {
      assert JobStands(jobs[t], t, live, chosen, cancelled);
    }
  }

  lemma RetargetGood(next: nat, live: map<nat, Lease>, chosen: map<nat, Target>, jobs: map<Token, Plan>,
                     cancelled: set<Token>, h: nat, target: Target)
    requires Good(next, live, chosen, jobs, cancelled) && h in live && SameTarget(target, live[h].target)
    ensures Good(next, live[h := live[h].(target := target)], chosen, jobs, cancelled)
  {
    hide Leases, ValidBinding, SameTarget;
    LeaseIsChosen(next, live, chosen, h);
    LeasesUpdate(next, live, chosen, h, live[h].(target := target));
    var live' := live[h := live[h].(target := target)];
    forall t | t in jobs ensures JobStands(jobs[t], t, live', chosen, cancelled) {
      assert JobStands(jobs[t], t, live, chosen, cancelled);
    }
  }

  lemma CancelGood(next: nat, live: map<nat, Lease>, chosen: map<nat, Target>, jobs: map<Token, Plan>,
                   cancelled: set<Token>, more: set<Token>)
    requires Good(next, live, chosen, jobs, cancelled)
    ensures Good(next, live, chosen, jobs, cancelled + more)
  {
    hide Leases, ValidBinding, SameTarget;
    forall t | t in jobs ensures JobStands(jobs[t], t, live, chosen, cancelled + more) {
      assert JobStands(jobs[t], t, live, chosen, cancelled);
    }
  }

  class Captures {
    var next: nat
    var live: map<nat, Lease>
    /** Cancellations raised so far, by this table or by anyone else. */
    var cancelled: set<Token>
    /** Jobs handed out and not yet finished. */
    ghost var jobs: map<Token, Plan>
    /** The target each handle was opened for. */
    ghost var chosen: map<nat, Target>

    ghost predicate Valid()
      reads this
    {
      Good(next, live, chosen, jobs, cancelled)
    }

    constructor ()
      ensures Valid() && next == 0 && live == map[] && cancelled == {} && jobs == map[] && chosen == map[]
    {
      next, live, cancelled, jobs, chosen := 0, map[], {}, map[], map[];
    }

    function Get(binding: Binding, handle: nat): (problem: Option<Problem>)
      reads this
      ensures problem.None? <==> ValidBinding(binding) && handle in live && live[handle].binding == binding
    {
      if !ValidBinding(binding) then Some(InvalidBinding)
      else if handle !in live then Some(NotFound)
      else if live[handle].binding != binding then Some(WrongOwner)
      else None
    }

    method Open(binding: Binding, targetId: string, generation: nat, resolved: Option<Target>, token: Token,
                cancelledAfter: bool) returns (problem: Option<Problem>, handle: nat)
      requires Valid()
      modifies this`next, this`live, this`chosen
      ensures Valid()
      ensures problem.None? <==>
                && ValidBinding(binding) && ValidId(targetId) && token !in cancelled && |old(live)| < CAPACITY
                && (forall h :: h in old(live) ==> old(live)[h].binding != binding)
                && resolved.Some? && resolved.value.sound && resolved.value.id == targetId && resolved.value.generation == generation
                && !cancelledAfter && old(next) < MAX_SAFE_INTEGER
      ensures problem.Some? ==> next == old(next) && live == old(live) && chosen == old(chosen)
      ensures problem.None? ==>
                && handle == next == old(next) + 1 && handle !in old(chosen) && resolved.Some?
                && resolved.value.id == targetId && resolved.value.generation == generation
                && live == old(live)[handle := Lease(binding, resolved.value, None)]
                && chosen == old(chosen)[handle := resolved.value]
                && forall h :: h in old(live) ==> old(live)[h].binding != binding
    {
      hide Good, ValidBinding, ValidId;
      if !ValidBinding(binding) {
        return Some(InvalidBinding), 0;
      }
      if !ValidId(targetId) {
        return Some(InvalidRequest), 0;
      }
      if token in cancelled {
        return Some(Cancelled), 0;
      }
      if |live| >= CAPACITY {
        return Some(AtCapacity), 0;
      }
      if exists h :: h in live && live[h].binding == binding {
        return Some(InvalidRequest), 0;
      }
      if resolved.None? {
        return Some(Unresolved), 0;
      }
      var target := resolved.value;
      if !target.sound {
        return Some(InvalidRequest), 0;
      }
      if target.id != targetId || target.generation != generation {
        return Some(StaleTarget), 0;
      }
      if cancelledAfter {
        return Some(Cancelled), 0;
      }
      if next + 1 > MAX_SAFE_INTEGER {
        return Some(AtCapacity), 0;
      }
      OpenGood(next, live, chosen, jobs, cancelled, binding, target);
      next := next + 1;
      handle := next;
      live, chosen := live[handle := Lease(binding, target, None)], chosen[handle := target];
      problem := None;
    }

    /** Starts a frame job unless one is under way; `work` tells whether the backend defers captures, `None`
        that it refused. Each request brings its own cancellation. */
    method PrepareFrame(binding: Binding, handle: nat, token: Token, work: Option<bool>)
      returns (problem: Option<Problem>, plan: Option<Plan>)
      requires Valid() && token !in jobs
      modifies this`live, this`jobs
      ensures Valid()
      ensures plan.Some? <==>
                old(Get(binding, handle)).None? && token !in cancelled && old(live)[handle].flight.None? && work == Some(true)
      ensures plan.None? ==> live == old(live) && jobs == old(jobs)
      ensures plan.Some? ==>
                && problem.None? && old(Get(binding, handle)).None? && old(live)[handle].flight.None? && token !in cancelled
                && plan.value == Plan(binding, handle, old(live)[handle].target)
                && live == old(live)[handle := old(live)[handle].(flight := Some(token))]
                && jobs == old(jobs)[token := plan.value]
      ensures old(Get(binding, handle)).None? && old(live)[handle].flight.Some? ==> problem.Some?
    {
      hide Good, ValidBinding;
      plan := None;
      problem := Get(binding, handle);
      if problem.Some? {
        return;
      }
      var lease := live[handle];
      if token in cancelled {
        return Some(Cancelled), None;
      }
      if lease.flight.Some? {
        return Some(AtCapacity), None;
      }
      if work.None? {
        return Some(CaptureFailed), None;
      }
      if !work.value {
        return None, None;
      }
      StartGood(next, live, chosen, jobs, cancelled, handle, token);
      plan := Some(Plan(binding, handle, lease.target));
      live, jobs := live[handle := lease.(flight := Some(token))], jobs[token := plan.value];
    }

    /** Takes a job's result back. A frame is published only under the lease that started the job, while
        that lease is live and not cancelled (`stopped`: the job itself saw the cancellation); no other lease changes, and a closed one stays closed. */
    method FinishFrame(plan: Plan, token: Token, captured: Option<Capture>, stopped: bool)
      returns (problem: Option<Problem>, published: Option<nat>)
      requires Valid() && token in jobs && jobs[token] == plan
      modifies this`live, this`jobs
      ensures Valid() && jobs == old(jobs) - {token}
      ensures problem.Some? <==> published.None?
      ensures published.Some? <==>
                plan.handle in old(live) && token !in cancelled && Encode(plan.selected, captured, stopped).Some?
      ensures published.Some? ==> published.value == plan.handle
      ensures plan.handle !in old(live) ==> live == old(live) && problem == Some(NotFound)
      ensures plan.handle in old(live) ==>
                && old(live)[plan.handle].flight == Some(token) && old(live)[plan.handle].binding == plan.binding
                && live == old(live)[plan.handle := Lease(plan.binding,
                     if published.Some? then captured.value.target else old(live)[plan.handle].target, None)]
    {
      hide Good, ValidBinding;
      ghost var before := live;
      var frame := Encode(plan.selected, captured, stopped);
      StandsIn(next, live, chosen, jobs, cancelled, token);
      problem, published := Get(plan.binding, plan.handle), None;
      if problem.Some? {
        FinishGood(next, live, chosen, jobs, cancelled, token, plan.selected);
        jobs := jobs - {token};
        return;
      }
      var lease := live[plan.handle];
      var publishes := token !in cancelled && frame.Some?;
      FinishGood(next, live, chosen, jobs, cancelled, token, if publishes then frame.value else lease.target);
      live := live[plan.handle := lease.(flight := None)];
      jobs := jobs - {token};
      if token in cancelled {
        assert live[plan.handle] == Lease(lease.binding, lease.target, None);
        return Some(Cancelled), None;
      }
      if frame.None? {
        assert live[plan.handle] == Lease(lease.binding, lease.target, None);
        return Some(CaptureFailed), None;
      }
      live := live[plan.handle := live[plan.handle].(target := frame.value)];
      assert live == before[plan.handle := Lease(lease.binding, frame.value, None)];
      return None, Some(plan.handle);
    }

    /** A capture taken while the request waits. */
    method Frame(binding: Binding, handle: nat, token: Token, captured: Option<Capture>) returns (problem: Option<Problem>)
      requires Valid()
      modifies this`live
      ensures Valid()
      ensures problem.None? <==>
                old(Get(binding, handle)).None? && Encode(old(live)[handle].target, captured, token in cancelled).Some?
      ensures problem.Some? ==> live == old(live)
      ensures problem.None? ==>
                && old(Get(binding, handle)).None? && token !in cancelled && captured.Some?
                && SameTarget(captured.value.target, old(live)[handle].target)
                && live == old(live)[handle := old(live)[handle].(target := captured.value.target)]
    {
      hide Good, ValidBinding;
      problem := Get(binding, handle);
      if problem.Some? {
        return;
      }
      var frame := Encode(live[handle].target, captured, token in cancelled);
      if frame.None? {
        return Some(CaptureFailed);
      }
      RetargetGood(next, live, chosen, jobs, cancelled, handle, frame.value);
      live := live[handle := live[handle].(target := frame.value)];
    }

    method Close(binding: Binding, handle: nat) returns (problem: Option<Problem>)
      requires Valid()
      modifies this`live, this`cancelled
      ensures Valid() && problem == old(Get(binding, handle))
      ensures problem.Some? ==> live == old(live) && cancelled == old(cancelled)
      ensures problem.None? ==> live == old(live) - {handle} && cancelled == old(cancelled) + FlightOf(old(live), handle)
    {
      hide Good, ValidBinding;
      problem := Get(binding, handle);
      if problem.Some? {
        return;
      }
      CloseGood(next, live, chosen, jobs, cancelled, handle);
      var lease := live[handle];
      live := live - {handle};
      if lease.flight.Some? {
        cancelled := cancelled + {lease.flight.value};
      } else {
        assert cancelled + {} == cancelled;
      }
    }

    method CloseBinding(binding: Binding) returns (problem: Option<Problem>)
      requires Valid()
      modifies this`live, this`cancelled
      ensures Valid() && (problem.None? <==> ValidBinding(binding))
      ensures problem.Some? ==> live == old(live) && cancelled == old(cancelled)
      ensures problem.None? ==>
                && live == Without(old(live), binding)
                && cancelled == old(cancelled) + FlightsOf(old(live), binding)
    {
      hide Good, ValidBinding, Without, FlightsOf;
      if !ValidBinding(binding) {
        return Some(InvalidBinding);
      }
      var raised: set<Token> := {};
      var waiting: set<nat> := set h | h in live && live[h].binding == binding;
      ghost var all := waiting;
      while waiting != {}
        invariant waiting <= all
        invariant forall t :: t in raised <==> exists h :: h in all - waiting && live[h].flight == Some(t)
        decreases |waiting|
      {
        var h: nat :| h in waiting;
        if live[h].flight.Some? {
          raised := raised + {live[h].flight.value};
        }
        waiting := waiting - {h};
      }
      ClosingGood(next, live, chosen, jobs, cancelled, binding, raised, all);
      live := Without(live, binding);
      cancelled := cancelled + raised;
      return None;
    }

    /** Cancellation from outside can come at any time. */
    method Cancel(token: Token)
      requires Valid()
      modifies this`cancelled
      ensures Valid() && cancelled == old(cancelled) + {token}
    {
      CancelGood(next, live, chosen, jobs, cancelled, {token});
      cancelled := cancelled + {token};
    }
  }

  lemma StandsIn(next: nat, live: map<nat, Lease>, chosen: map<nat, Target>, jobs: map<Token, Plan>,
                 cancelled: set<Token>, t: Token)
    requires Good(next, live, chosen, jobs, cancelled) && t in jobs
    ensures JobStands(jobs[t], t, live, chosen, cancelled)
  {
  }

  function Without(live: map<nat, Lease>, binding: Binding): map<nat, Lease> {
    map h | h in live && live[h].binding != binding :: live[h]
  }

  /** The flights of the binding's leases. */
  function FlightsOf(live: map<nat, Lease>, binding: Binding): set<Token> {
    set h | h in live && live[h].binding == binding && live[h].flight.Some? :: live[h].flight.value
  }

  lemma OneLeaseEach(next: nat, live: map<nat, Lease>, chosen: map<nat, Target>, h: nat)
    requires Leases(next, live, chosen) && h in live
    ensures forall k :: k in live && live[k].binding == live[h].binding ==> k == h
  {
  }

  lemma ClosingGood(next: nat, live: map<nat, Lease>, chosen: map<nat, Target>, jobs: map<Token, Plan>,
                    cancelled: set<Token>, binding: Binding, raised: set<Token>, all: set<nat>)
    requires Good(next, live, chosen, jobs, cancelled)
    requires all == set h | h in live && live[h].binding == binding
    requires forall t :: t in raised <==> exists h :: h in all && live[h].flight == Some(t)
    ensures raised == FlightsOf(live, binding)
    ensures Good(next, Without(live, binding), chosen, jobs, cancelled + raised)
  {
    hide Leases, ValidBinding, SameTarget, JobStands;
    assert forall t :: t in raised <==> t in FlightsOf(live, binding);
    var live' := Without(live, binding);
    if all == {} {
      assert forall h :: h in live ==> h !in all;
      assert live' == live;
      CancelGood(next, live, chosen, jobs, cancelled, raised);
    } else {
      var h: nat :| h in all;
      OneLeaseEach(next, live, chosen, h);
      assert live' == live - {h};
      assert raised == FlightOf(live, h);
      CloseGood(next, live, chosen, jobs, cancelled, h);
    }
  }
}
