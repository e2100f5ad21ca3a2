/** What every interleaving of the package operation's processes keeps, crashes included. */
module PackageSafety {
  import opened Common
  import opened PackageOperation

  /** Points inside the region guarded by the operation lock, before any fork. */
  predicate Critical(p: Process) {
    match p
    case ReceiveLocked(_) => true
    case ReceiveChecked(_, _) => true
    case ReceiveLinked(_, _) => true
    case StartLocked => true
    case StartChecked(_) => true
    case StartClaimed(_) => true
    case StartSaved => true
    case AbandonLocked => true
    case AbandonChecked(_) => true
    case AbandonClaimed(_) => true
    case _ => false
  }

  predicate RecordIn(f: Facts, states: set<State>) {
    f.record.Some? && f.record.value.state in states
  }

  predicate Unconcluded(f: Facts, mem: Record, launches: nat) {
    && mem.receipt.None? && mem.phase != Complete && f.launches == launches && f.record.Some?
    && f.record.value.receipt.None? && f.record.value.state != Failed
  }

  /** What a process may rely on at each of its points. */
  predicate Local(f: Facts, pid: Pid, p: Process) {
    match p
    case AdmitMade => f.dir && f.record.None?
    case ReceiveChecked(_, mem) => Open(f) && f.record == Some(mem)
    case ReceiveLinked(_, mem) => Open(f) && f.record == Some(mem)
    case StartChecked(mem) => Open(f) && f.record == Some(mem)
    case StartClaimed(mem) => f.claim == Some(StartClaim) && f.forks == 0 && f.record == Some(mem) && mem.state == Staged
    case StartSaved => f.claim == Some(StartClaim) && f.forks == 0 && RecordIn(f, {Unknown})
    case AbandonChecked(mem) => Open(f) && f.record == Some(mem)
    case AbandonClaimed(mem) => f.claim == Some(AbandonClaim) && f.record == Some(mem) && mem.state == Staged
    case JobForked => f.job == Some(pid) && f.record.Some? && Unconcluded(f, f.record.value, 0)
    case JobDetached => f.job == Some(pid) && f.record.Some? && Unconcluded(f, f.record.value, 0)
    case JobRead(mem) => f.job == Some(pid) && Unconcluded(f, mem, 0)
    case JobQueued(mem) => f.job == Some(pid) && Unconcluded(f, mem, 0) && mem.state == Running && mem.process == f.job
    case JobPreparing(mem) =>
      f.job == Some(pid) && Unconcluded(f, mem, 0) && mem.state == Running && mem.process == f.job && f.verified
    case JobInstalling(mem) =>
      f.job == Some(pid) && Unconcluded(f, mem, 0) && mem.state == Running && mem.process == f.job && f.verified
    case JobSpawned(mem) =>
      f.job == Some(pid) && Unconcluded(f, mem, 1) && mem.state == Running && mem.process == f.job && f.verified
    case JobLaunched(mem) =>
      f.job == Some(pid) && Unconcluded(f, mem, 1) && mem.state == Running && mem.process == f.job && f.verified
    case JobWaiting(mem) =>
      f.job == Some(pid) && Unconcluded(f, mem, 1) && mem.state == Running && mem.process == f.job && f.verified
    case JobConcluding(mem) =>
      f.job == Some(pid) && mem.receipt.Some? && mem.phase == Complete && Honest(f, mem)
    case JobHandling(mem, started) =>
      && f.job == Some(pid) && f.launches == (if started || f.interrupted then 1 else 0)
      && (if started then f.verified && (mem.receipt.Some? ==> mem.receipt == f.outcome)
          else mem.receipt.None? && Unconcluded(f, mem, f.launches))
    case _ => true
  }

  predicate Succeeded(receipt: Receipt) {
    receipt.exitCode == 0 && forall i :: 0 <= i < |receipt.helpers| ==> receipt.helpers[i] == 0
  }

  /** A record says what happened. Its receipt is the true outcome of the one installer. A completed record
      is ready or failed as that outcome was; a receipt in any other record belongs to one whose last save
      raised, which is left unknown. */
  predicate Honest(f: Facts, r: Record) {
    && (r.phase == Complete ==> r.receipt.Some?) && (r.state == Ready ==> r.phase == Complete)
    && (r.receipt.Some? ==>
          && r.receipt == f.outcome && f.launches == 1 && f.verified
          && (if r.phase == Complete then r.state == if Succeeded(r.receipt.value) then Ready else Failed
              else r.phase == RecoveryRequired && r.state == Unknown))
    && (r.state == Failed && r.receipt.None? ==> f.launches == (if f.interrupted then 1 else 0))
  }

  predicate Durable(f: Facts, alive: bool) {
    && (f.record.Some? ==> f.dir) && (f.claim.Some? ==> f.record.Some?)
    && f.launches <= 1 && (f.interrupted ==> f.launches == 1)
    && (f.forks == 0 ==> f.job.None? && f.launches == 0)
    && (f.forks > 0 ==> f.forks == 1 && f.job.Some? && f.claim == Some(StartClaim) && RecordIn(f, {Unknown, Running, Ready, Failed}))
    && (f.claim.None? ==> f.record.Some? ==> f.record.value.state == Staged)
    && (f.claim == Some(AbandonClaim) ==> RecordIn(f, {Staged, Failed}))
    && (f.claim == Some(StartClaim) && f.forks == 0 ==> RecordIn(f, {Staged, Unknown}))
    && (f.forks == 0 && f.record.Some? ==> f.record.value.receipt.None?)
    && (f.record.Some? ==>
          && Honest(f, f.record.value)
          && (f.record.value.state == Running ==> f.job.Some? && f.record.value.process == f.job)
          && (f.record.value.state == Failed && f.record.value.receipt.None? ==> !alive))
  }

  /** Who may write the record, given the claim and whether the coordinator was forked. */
  predicate WriteAllowed(x: Write) {
    match x.claim
    case None => x.role == Admitter || x.role == Receiver
    case Some(AbandonClaim) => x.role == Abandoner
    case Some(StartClaim) => x.role == (if x.forks == 0 then Starter else Coordinator)
  }

  predicate Processes(w: World) {
    && (forall p :: p in w.procs ==> p < w.next && Local(w.facts, p, w.procs[p]))
    && (forall p :: p in w.procs && Critical(w.procs[p]) ==> w.lock == {p})
    && (forall p :: p in w.procs && RoleOf(w.procs[p]) == Coordinator ==> w.facts.job == Some(p))
    && (w.facts.job.Some? ==> w.facts.job.value < w.next)
    && (forall p, q :: p in w.procs && q in w.procs && w.procs[p].AdmitMade? && w.procs[q].AdmitMade? ==> p == q)
  }

  predicate Inv(w: World) {
    Durable(w.facts, JobAlive(w)) && Processes(w) && Writes(w.writes)
  }

  predicate JobAlive(w: World) {
    w.facts.job.Some? && w.facts.job.value in w.procs
  }

  predicate Writes(writes: seq<Write>) {
    forall i :: 0 <= i < |writes| ==> WriteAllowed(writes[i])
  }

  /** Points at which a process relies on nothing. */
  predicate Passive(p: Process) {
    match p
    case AdmitBegin => true
    case ReceiveBegin(_) => true
    case ReceiveLocked(_) => true
    case StartBegin => true
    case StartLocked => true
    case StartForked => true
    case AbandonBegin => true
    case AbandonLocked => true
    case _ => false
  }

  lemma PassiveRelies(f: Facts, pid: Pid, p: Process)
    requires Passive(p)
    ensures Local(f, pid, p)
  {
  }

  /** While one process is inside the locked region with no coordinator forked, or once the
      coordinator exists, every other process is at a point where it relies on nothing. */
  lemma OthersPassive(w: World, pid: Pid)
    requires Inv(w) && pid in w.procs
    requires w.facts.record.Some?
    requires if RoleOf(w.procs[pid]) == Coordinator then true else Critical(w.procs[pid]) && w.facts.forks == 0
    ensures forall q :: q in w.procs && q != pid ==> Passive(w.procs[q])
    ensures RoleOf(w.procs[pid]) == Coordinator ==> w.facts.job == Some(pid) && w.facts.forks == 1
  {
    forall q | q in w.procs && q != pid ensures Passive(w.procs[q]) {
      assert Local(w.facts, q, w.procs[q]);
    }
  }

  /** No process but `pid` starts, ends or moves. */
  predicate Alone(w: World, w': World, pid: Pid) {
    && (forall q :: q in w.procs && q != pid ==> q in w'.procs && w'.procs[q] == w.procs[q])
    && (forall q :: q in w'.procs ==> q in w.procs)
  }

  /** A process moves on and possibly changes the facts, when nobody else relies on them. */
  lemma Moves(w: World, w': World, pid: Pid)
    requires Processes(w) && pid in w.procs && w'.next == w.next
    requires w'.lock == w.lock || w'.lock == w.lock - {pid} || (w.lock == {} && w'.lock == {pid})
    requires w'.facts == w.facts || forall q :: q in w.procs && q != pid ==> Passive(w.procs[q])
    requires w'.facts.job == w.facts.job
    requires Alone(w, w', pid)
    requires pid in w'.procs ==>
               && Local(w'.facts, pid, w'.procs[pid])
               && (Critical(w'.procs[pid]) ==> w'.lock == {pid})
               && (w'.procs[pid].AdmitMade? ==> forall q :: q in w.procs ==> !w.procs[q].AdmitMade?)
               && (RoleOf(w'.procs[pid]) == Coordinator ==> w.facts.job == Some(pid))
    ensures Processes(w')
  {
    hide Local, Critical, RoleOf;
    forall q | q in w'.procs && q != pid ensures Local(w'.facts, q, w'.procs[q]) {
      if w'.facts != w.facts {
        PassiveRelies(w'.facts, q, w.procs[q]);
      }
    }
  }

  lemma PutAllowed(writes: seq<Write>, x: Write)
    requires Writes(writes) && WriteAllowed(x)
    ensures Writes(writes + [x])
  {
  }

  lemma SpawnKeeps(w: World, p: Process)
    requires Inv(w) && Passive(p) && !Critical(p)
    ensures Inv(Spawn(w, p))
  {
    hide Local, Durable;
    var w' := Spawn(w, p);
    PassiveRelies(w.facts, w.next, p);
    assert w'.facts == w.facts && JobAlive(w') == JobAlive(w);
  }

  lemma EndKeeps(w: World, pid: Pid)
    requires Inv(w)
    ensures Inv(End(w, pid))
  {
    hide Local, Critical, RoleOf;
    if pid in w.procs {
      Moves(w, End(w, pid), pid);
    } else {
      assert w.procs - {pid} == w.procs;
    }
  }

  lemma RebootKeeps(w: World)
    requires Inv(w)
    ensures Inv(w.(procs := map[], lock := {}))
  {
  }

  lemma AdmitKeeps(w: World, pid: Pid)
    requires Inv(w) && pid in w.procs && RoleOf(w.procs[pid]) == Admitter
    ensures Inv(AdvanceAdmit(w, pid, w.procs[pid]))
  {
    var w' := AdvanceAdmit(w, pid, w.procs[pid]);
    assert Local(w.facts, pid, w.procs[pid]);
    if w.procs[pid].AdmitMade? || !w.facts.dir {
      AdmitFacts(w, pid);
      PutAllowed(w.writes, Write(Admitter, w.facts.claim, w.facts.forks));
    }
    Moves(w, w', pid);
  }

  /** Before the record exists, only admitting processes rely on anything. */
  lemma AdmitFacts(w: World, pid: Pid)
    requires Inv(w) && pid in w.procs && RoleOf(w.procs[pid]) == Admitter
    requires w.facts.record.None? && (w.procs[pid].AdmitMade? || !w.facts.dir)
    ensures forall q :: q in w.procs && q != pid ==> Passive(w.procs[q])
    ensures w.procs[pid].AdmitBegin? ==> forall q :: q in w.procs ==> !w.procs[q].AdmitMade?
  {
    forall q | q in w.procs && q != pid ensures Passive(w.procs[q]) {
      assert Local(w.facts, q, w.procs[q]);
    }
  }

  /** A process goes on to `p` from `v`, which differs from `w` in facts, lock or history only. */
  lemma MovesTo(w: World, v: World, pid: Pid, p: Process)
    requires Processes(w) && pid in w.procs && v.procs == w.procs && v.next == w.next
    requires v.lock == w.lock || (w.lock == {} && v.lock == {pid})
    requires v.facts == w.facts || forall q :: q in w.procs && q != pid ==> Passive(w.procs[q])
    requires v.facts.job == w.facts.job && Local(v.facts, pid, p) && (Critical(p) ==> v.lock == {pid})
    requires !p.AdmitMade? && RoleOf(p) != Coordinator
    ensures Processes(Goto(v, pid, p)) && JobAlive(Goto(v, pid, p)) == JobAlive(w)
  {
    hide Local, Critical, Passive, Processes;
    Moves(w, Goto(v, pid, p), pid);
  }

  lemma MovesEnd(w: World, v: World, pid: Pid)
    requires Processes(w) && pid in w.procs && v.procs == w.procs && v.next == w.next && v.lock == w.lock
    requires v.facts == w.facts || forall q :: q in w.procs && q != pid ==> Passive(w.procs[q])
    requires v.facts.job == w.facts.job
    ensures Processes(End(v, pid))
    ensures JobAlive(End(v, pid)) ==> JobAlive(w)
  {
    hide Local, Critical, Passive;
    Moves(w, End(v, pid), pid);
  }

  lemma DurableLess(f: Facts, alive: bool, alive': bool)
    requires Durable(f, alive) && (alive' ==> alive)
    ensures Durable(f, alive')
  {
  }

  /** A process inside the locked region holds the lock alone. */
  lemma CriticalLocks(w: World, pid: Pid)
    requires Processes(w) && pid in w.procs
    ensures Local(w.facts, pid, w.procs[pid]) && (Critical(w.procs[pid]) ==> w.lock == {pid})
  {
  }

  lemma ReceiveKeeps(w: World, pid: Pid, c: Choice)
    requires Inv(w) && pid in w.procs && RoleOf(w.procs[pid]) == Receiver
    ensures Inv(AdvanceReceive(w, pid, w.procs[pid], c))
  {
    hide Processes, Durable, Goto, End, JobAlive, Writes;
    var p := w.procs[pid];
    CriticalLocks(w, pid);
    Framed(pid);
    MovesEnd(w, w, pid);
    DurableLess(w.facts, JobAlive(w), JobAlive(End(w, pid)));
    match p
    case ReceiveBegin(sha) =>
      if w.lock == {} {
        MovesTo(w, w.(lock := {pid}), pid, ReceiveLocked(sha));
      }
    case ReceiveLocked(sha) =>
      if Open(w.facts) {
        MovesTo(w, w, pid, ReceiveChecked(sha, w.facts.record.value));
      }
    case ReceiveChecked(sha, mem) =>
      MovesTo(w, w.(artifacts := w.artifacts + {sha}), pid, ReceiveLinked(sha, mem));
    case ReceiveLinked(sha, mem) => ReceivePuts(w, pid, sha, mem);
    case _ =>
  }

  /** Facts and history seen through a move or an end. */
  lemma Framed(pid: Pid)
    ensures forall v: World, p :: Goto(v, pid, p).facts == v.facts && Goto(v, pid, p).writes == v.writes
    ensures forall v: World :: End(v, pid).facts == v.facts && End(v, pid).writes == v.writes
  {
  }

  lemma ReceivePuts(w: World, pid: Pid, sha: Sha, mem: Record)
    requires Inv(w) && pid in w.procs && w.procs[pid] == ReceiveLinked(sha, mem)
    ensures forall c :: Inv(AdvanceReceive(w, pid, w.procs[pid], c))
  {
    CriticalLocks(w, pid);
    NotForkedYet(w, pid);
    OthersPassive(w, pid);
    PutAllowed(w.writes, Write(Receiver, w.facts.claim, w.facts.forks));
    var received := if sha in mem.received then mem.received else mem.received + [sha];
    var r := mem.(received := received, phase := if |received| == |w.packages| then ReadyToInstall else Receiving);
    hide Processes;
    MovesEnd(w, Put(w, Receiver, r), pid);
  }

  lemma NotForkedYet(w: World, pid: Pid)
    requires Inv(w) && pid in w.procs && Local(w.facts, pid, w.procs[pid]) && w.procs[pid].ReceiveLinked?
    ensures w.facts.forks == 0 && w.facts.record.Some?
  {
  }

  lemma StartKeeps(w: World, pid: Pid)
    requires Inv(w) && pid in w.procs && RoleOf(w.procs[pid]) == Starter && !w.procs[pid].StartSaved?
    ensures Inv(AdvanceStart(w, pid, w.procs[pid]))
  {
    hide Processes, Durable, AdvanceStart, RoleOf;
    StartProcesses(w, pid);
    StartDurable(w, pid);
  }

  lemma StartProcesses(w: World, pid: Pid)
    requires Inv(w) && pid in w.procs && RoleOf(w.procs[pid]) == Starter && !w.procs[pid].StartSaved?
    ensures Processes(AdvanceStart(w, pid, w.procs[pid]))
  {
    hide Processes, Durable, Goto, End, JobAlive, Writes;
    var p := w.procs[pid];
    CriticalLocks(w, pid);
    MovesEnd(w, w, pid);
    match p
    case StartBegin =>
      if w.lock == {} {
        MovesTo(w, w.(lock := {pid}), pid, StartLocked);
      }
    case StartLocked =>
      if Open(w.facts) {
        MovesTo(w, w, pid, StartChecked(w.facts.record.value));
      }
    case StartChecked(mem) =>
      NotForked(w, pid);
      OthersPassive(w, pid);
      MovesTo(w, w.(facts := w.facts.(claim := Some(StartClaim))), pid, StartClaimed(mem));
    case StartClaimed(mem) =>
      NotForked(w, pid);
      OthersPassive(w, pid);
      MovesTo(w, Put(w, Starter, mem.(state := Unknown, phase := StartRequested)), pid, StartSaved);
    case _ =>
  }

  lemma NotForked(w: World, pid: Pid)
    requires Inv(w) && pid in w.procs && Local(w.facts, pid, w.procs[pid])
    requires match w.procs[pid]
             case StartChecked(_) => true
             case StartClaimed(_) => true
             case AbandonChecked(_) => true
             case AbandonClaimed(_) => true
             case _ => false
    ensures w.facts.forks == 0 && w.facts.record.Some?
  {
  }

  lemma StartDurable(w: World, pid: Pid)
    requires Inv(w) && pid in w.procs && RoleOf(w.procs[pid]) == Starter && !w.procs[pid].StartSaved?
    ensures var w' := AdvanceStart(w, pid, w.procs[pid]);
            Durable(w'.facts, JobAlive(w')) && Writes(w'.writes)
  {
    assert Local(w.facts, pid, w.procs[pid]);
    PutAllowed(w.writes, Write(Starter, Some(StartClaim), 0));
  }

  lemma ForkKeeps(w: World, pid: Pid)
    requires Inv(w) && pid in w.procs && w.procs[pid].StartSaved?
    ensures Inv(AdvanceStart(w, pid, w.procs[pid]))
  {
    var w' := AdvanceStart(w, pid, w.procs[pid]);
    assert Local(w.facts, pid, w.procs[pid]);
    OthersPassive(w, pid);
    ForkProcesses(w, pid);
    hide Processes, Local;
  }

  lemma ForkProcesses(w: World, pid: Pid)
    requires Inv(w) && pid in w.procs && w.procs[pid].StartSaved? && Local(w.facts, pid, w.procs[pid])
    requires forall q :: q in w.procs && q != pid ==> Passive(w.procs[q])
    ensures Processes(AdvanceStart(w, pid, w.procs[pid]))
  {
    hide Durable, Honest, Writes, JobAlive, Local, Passive;
    var w' := AdvanceStart(w, pid, w.procs[pid]);
    forall q | q in w'.procs ensures Local(w'.facts, q, w'.procs[q]) && !Critical(w'.procs[q]) {
      if q == w.next {
        ChildStarts(w, pid);
      } else if q == pid {
        PassiveRelies(w'.facts, q, StartForked) by {
          ForkedIsPassive();
        }
      } else {
        OutsideTheLock(w, pid, q);
        PassiveRelies(w'.facts, q, w.procs[q]);
      }
    }
    OneCoordinator(w, pid);
  }

  lemma ForkedIsPassive()
    ensures Passive(StartForked)
  {
  }

  lemma ChildStarts(w: World, pid: Pid)
    requires Inv(w) && pid in w.procs && w.procs[pid].StartSaved? && Local(w.facts, pid, w.procs[pid])
    ensures Local(w.facts.(forks := w.facts.forks + 1, job := Some(w.next)), w.next, JobForked)
  {
    hide Processes, Writes;
  }

  /** While one process is inside the locked region no other is. */
  lemma OutsideTheLock(w: World, pid: Pid, q: Pid)
    requires Processes(w) && pid in w.procs && Critical(w.procs[pid]) && q in w.procs && q != pid
    ensures !Critical(w.procs[q])
  {
    hide Local;
  }

  /** Before the fork there is no coordinator. */
  lemma OneCoordinator(w: World, pid: Pid)
    requires Inv(w) && pid in w.procs && w.procs[pid].StartSaved? && Local(w.facts, pid, w.procs[pid])
    ensures forall q :: q in w.procs ==> RoleOf(w.procs[q]) != Coordinator
  {
    hide Honest, Writes;
  }

  lemma AbandonKeeps(w: World, pid: Pid)
    requires Inv(w) && pid in w.procs && RoleOf(w.procs[pid]) == Abandoner
    ensures Inv(AdvanceAbandon(w, pid, w.procs[pid]))
  {
    hide Processes, Durable, AdvanceAbandon, RoleOf;
    AbandonProcesses(w, pid);
    AbandonDurable(w, pid);
  }

  lemma AbandonProcesses(w: World, pid: Pid)
    requires Inv(w) && pid in w.procs && RoleOf(w.procs[pid]) == Abandoner
    ensures Processes(AdvanceAbandon(w, pid, w.procs[pid]))
  {
    hide Processes, Durable, Goto, End, JobAlive, Writes;
    var p := w.procs[pid];
    CriticalLocks(w, pid);
    MovesEnd(w, w, pid);
    match p
    case AbandonBegin =>
      if w.lock == {} {
        MovesTo(w, w.(lock := {pid}), pid, AbandonLocked);
      }
    case AbandonLocked =>
      if Open(w.facts) {
        MovesTo(w, w, pid, AbandonChecked(w.facts.record.value));
      }
    case AbandonChecked(mem) =>
      NotForked(w, pid);
      OthersPassive(w, pid);
      MovesTo(w, w.(facts := w.facts.(claim := Some(AbandonClaim))), pid, AbandonClaimed(mem));
    case AbandonClaimed(mem) =>
      NotForked(w, pid);
      OthersPassive(w, pid);
      MovesEnd(w, Put(w, Abandoner, mem.(state := Failed, phase := Abandoned)), pid);
    case _ =>
  }

  lemma AbandonDurable(w: World, pid: Pid)
    requires Inv(w) && pid in w.procs && RoleOf(w.procs[pid]) == Abandoner
    ensures var w' := AdvanceAbandon(w, pid, w.procs[pid]);
            Durable(w'.facts, JobAlive(w')) && Writes(w'.writes)
  {
    assert Local(w.facts, pid, w.procs[pid]);
    PutAllowed(w.writes, Write(Abandoner, Some(AbandonClaim), w.facts.forks));
  }

  lemma JobKeeps(w: World, pid: Pid, c: Choice)
    requires Inv(w) && pid in w.procs && RoleOf(w.procs[pid]) == Coordinator
    ensures Inv(AdvanceJob(w, pid, w.procs[pid], c))
  {
    OthersPassive(w, pid);
    hide Local, Durable, Passive, AdvanceJob, RoleOf, Critical;
    JobFrame(w, pid, c);
    JobFacts(w, pid, c);
    Moves(w, AdvanceJob(w, pid, w.procs[pid], c), pid);
  }

  /** What a coordinator step may touch: its own point, its lock and the facts. */
  ghost predicate Touches(w: World, w': World, pid: Pid) {
    && w'.next == w.next && w'.facts.job == w.facts.job && Writes(w'.writes)
    && (w'.lock == w.lock || w'.lock == w.lock - {pid})
    && Alone(w, w', pid)
    && (pid in w'.procs ==> RoleOf(w'.procs[pid]) == Coordinator && !Critical(w'.procs[pid]))
  }

  lemma GuardedTouches(w: World, pid: Pid, r: Record, save: Save, next: Process, started: bool)
    requires pid in w.procs && RoleOf(next) == Coordinator
    requires Writes(w.writes) && w.facts.claim == Some(StartClaim) && w.facts.forks == 1
    ensures Touches(w, Guarded(w, pid, r, save, next, started), pid)
  {
    PutAllowed(w.writes, Write(Coordinator, w.facts.claim, w.facts.forks));
    hide Writes, WriteAllowed;
  }

  lemma PutTouches(w: World, pid: Pid, r: Record)
    requires pid in w.procs && Writes(w.writes) && w.facts.claim == Some(StartClaim) && w.facts.forks == 1
    ensures Touches(w, End(Put(w, Coordinator, r), pid), pid) && Touches(w, End(w, pid), pid)
    ensures forall next :: RoleOf(next) == Coordinator ==> Touches(w, Goto(Put(w, Coordinator, r), pid, next), pid)
  {
    PutAllowed(w.writes, Write(Coordinator, w.facts.claim, w.facts.forks));
    hide Writes, WriteAllowed;
  }

  lemma MoveTouches(w: World, facts: Facts, pid: Pid, next: Process)
    requires pid in w.procs && RoleOf(next) == Coordinator && Writes(w.writes) && facts.job == w.facts.job
    ensures Touches(w, Goto(w.(facts := facts), pid, next), pid)
    ensures Touches(w, Goto(w.(lock := w.lock - {pid}), pid, next), pid)
  {
    hide Writes;
  }

  lemma JobFrame(w: World, pid: Pid, c: Choice)
    requires pid in w.procs && RoleOf(w.procs[pid]) == Coordinator
    requires Writes(w.writes) && w.facts.claim == Some(StartClaim) && w.facts.forks == 1
    ensures Touches(w, AdvanceJob(w, pid, w.procs[pid], c), pid)
  {
    hide Touches, AdvanceJob;
    var p := w.procs[pid];
    if p.JobForked? || p.JobDetached? || p.JobRead? || p.JobQueued? || p.JobPreparing? {
      JobFrameEarly(w, pid, c);
    } else {
      JobFrameLate(w, pid, c);
    }
  }

  lemma JobFrameEarly(w: World, pid: Pid, c: Choice)
    requires pid in w.procs && RoleOf(w.procs[pid]) == Coordinator
    requires Writes(w.writes) && w.facts.claim == Some(StartClaim) && w.facts.forks == 1
    requires var p := w.procs[pid]; p.JobForked? || p.JobDetached? || p.JobRead? || p.JobQueued? || p.JobPreparing?
    ensures Touches(w, AdvanceJob(w, pid, w.procs[pid], c), pid)
  {
    hide Touches, Guarded, Put, Goto, End, Concluded, Writes;
    var p, w' := w.procs[pid], AdvanceJob(w, pid, w.procs[pid], c);
    assert w.(facts := w.facts) == w;
    match p
    case JobForked => MoveTouches(w, w.facts, pid, JobDetached);
    case JobDetached =>
      PutTouches(w, pid, Record(Staged, Queued, [], None, false, None));
      if w.facts.record.Some? {
        MoveTouches(w, w.facts, pid, JobRead(w.facts.record.value));
      }
    case JobRead(mem) => PutTouches(w, pid, mem.(state := Running, phase := Queued, process := Some(pid)));
    case JobQueued(mem) =>
      var intact := forall i :: 0 <= i < |w.packages| ==> w.packages[i] in w.artifacts;
      MoveTouches(w, w.facts.(verified := intact), pid, JobPreparing(mem));
      MoveTouches(w, w.facts.(verified := intact), pid, JobHandling(mem, false));
    case JobPreparing(mem) =>
      MoveTouches(w, w.facts, pid, JobHandling(mem, false));
      GuardedTouches(w, pid, mem, c.save, JobPreparing(mem), false);
      GuardedTouches(w, pid, mem.(phase := Installing), c.save, JobInstalling(mem.(phase := Installing)), false);
    case _ =>
  }

  lemma JobFrameLate(w: World, pid: Pid, c: Choice)
    requires pid in w.procs && RoleOf(w.procs[pid]) == Coordinator
    requires Writes(w.writes) && w.facts.claim == Some(StartClaim) && w.facts.forks == 1
    requires var p := w.procs[pid]; !p.JobForked? && !p.JobDetached? && !p.JobRead? && !p.JobQueued? && !p.JobPreparing?
    ensures Touches(w, AdvanceJob(w, pid, w.procs[pid], c), pid)
  {
    hide Touches, Guarded, Put, Goto, End, Concluded, Writes;
    var p, w' := w.procs[pid], AdvanceJob(w, pid, w.procs[pid], c);
    assert w.(facts := w.facts) == w;
    match p
    case JobInstalling(mem) =>
      MoveTouches(w, w.facts, pid, JobHandling(mem, false));
      MoveTouches(w, w.facts.(launches := w.facts.launches + 1), pid, JobSpawned(mem));
    case JobSpawned(mem) =>
      MoveTouches(w, w.facts, pid, JobLaunched(mem));
      MoveTouches(w, w.facts.(interrupted := true), pid, JobHandling(mem, false));
    case JobLaunched(mem) =>
      GuardedTouches(w, pid, mem.(installer := true), c.save, JobWaiting(mem.(installer := true)), true);
    case JobWaiting(mem) =>
      var receipt := Receipt(c.exitCode, if c.exitCode == 0 then c.helpers else []);
      MoveTouches(w, w.facts, pid, JobHandling(mem, true));
      MoveTouches(w, w.facts.(outcome := Some(receipt)), pid, JobConcluding(Concluded(mem, receipt)));
    case JobConcluding(mem) =>
      PutTouches(w, pid, mem);
      GuardedTouches(w, pid, mem, c.save, p, true);
    case JobHandling(mem, started) =>
      PutTouches(w, pid, mem.(state := if started then Unknown else Failed, phase := RecoveryRequired));
    case _ =>
  }

  ghost predicate JobSound(w: World, pid: Pid, c: Choice)
    requires pid in w.procs
  {
    var w' := AdvanceJob(w, pid, w.procs[pid], c);
    Durable(w'.facts, JobAlive(w')) && (pid in w'.procs ==> Local(w'.facts, pid, w'.procs[pid]))
  }

  ghost predicate JobReady(w: World, pid: Pid) {
    && Durable(w.facts, true) && w.facts.job == Some(pid) && w.facts.forks == 1
    && pid in w.procs && RoleOf(w.procs[pid]) == Coordinator && Local(w.facts, pid, w.procs[pid])
  }

  /** The coordinator's own steps keep the record honest and what it relies on true. */
  lemma JobFacts(w: World, pid: Pid, c: Choice)
    requires JobReady(w, pid)
    ensures JobSound(w, pid, c)
  {
    hide Durable, Local, JobSound;
    var p := w.procs[pid];
    if p.JobForked? || p.JobDetached? || p.JobRead? || p.JobQueued? {
      JobStarts(w, pid, c);
    } else if p.JobPreparing? {
      JobPrepares(w, pid, c);
    } else if p.JobInstalling? || p.JobSpawned? {
      JobLaunches(w, pid, c);
    } else if p.JobLaunched? {
      JobNotes(w, pid, c);
    } else if p.JobWaiting? {
      JobWaits(w, pid, c);
    } else if p.JobConcluding? {
      JobConcludes(w, pid, c);
    } else {
      JobHandles(w, pid, c);
    }
  }

  lemma JobStarts(w: World, pid: Pid, c: Choice)
    requires JobReady(w, pid)
    requires var p := w.procs[pid]; p.JobForked? || p.JobDetached? || p.JobRead? || p.JobQueued?
    ensures JobSound(w, pid, c)
  {
    hide Succeeded, Concluded;
  }

  lemma JobPrepares(w: World, pid: Pid, c: Choice)
    requires JobReady(w, pid) && w.procs[pid].JobPreparing?
    ensures JobSound(w, pid, c)
  {
    hide Succeeded, Concluded;
  }

  lemma JobLaunches(w: World, pid: Pid, c: Choice)
    requires JobReady(w, pid) && (w.procs[pid].JobInstalling? || w.procs[pid].JobSpawned?)
    ensures JobSound(w, pid, c)
  {
    hide Succeeded, Concluded;
  }

  lemma JobNotes(w: World, pid: Pid, c: Choice)
    requires JobReady(w, pid) && w.procs[pid].JobLaunched?
    ensures JobSound(w, pid, c)
  {
    hide Succeeded, Concluded;
  }

  lemma JobWaits(w: World, pid: Pid, c: Choice)
    requires JobReady(w, pid) && w.procs[pid].JobWaiting?
    ensures JobSound(w, pid, c)
  {
  }

  lemma JobConcludes(w: World, pid: Pid, c: Choice)
    requires JobReady(w, pid) && w.procs[pid].JobConcluding?
    ensures JobSound(w, pid, c)
  {
    hide Succeeded, Concluded;
  }

  lemma JobHandles(w: World, pid: Pid, c: Choice)
    requires JobReady(w, pid) && w.procs[pid].JobHandling?
    ensures JobSound(w, pid, c)
  {
    hide Succeeded, Concluded;
  }

  lemma ApplyKeeps(w: World, a: Action)
    requires Inv(w)
    ensures Inv(Apply(w, a))
  {
    hide Inv, AdvanceJob, AdvanceStart, AdvanceReceive, AdvanceAbandon, AdvanceAdmit;
    match a
    case SpawnAdmit => SpawnKeeps(w, AdmitBegin);
    case SpawnReceive(sha) => SpawnKeeps(w, ReceiveBegin(sha));
    case SpawnStart => SpawnKeeps(w, StartBegin);
    case SpawnAbandon => SpawnKeeps(w, AbandonBegin);
    case Die(pid) => EndKeeps(w, pid);
    case Reboot => RebootKeeps(w);
    case Tamper(sha) => TamperKeeps(w, sha);
    case Advance(pid, c) =>
      if pid in w.procs {
        match RoleOf(w.procs[pid])
        case Admitter => AdmitKeeps(w, pid);
        case Receiver => ReceiveKeeps(w, pid, c);
        case Starter =>
          if w.procs[pid].StartSaved? {
            ForkKeeps(w, pid);
          } else {
            StartKeeps(w, pid);
          }
        case Abandoner => AbandonKeeps(w, pid);
        case Coordinator => JobKeeps(w, pid, c);
      }
  }

  lemma TamperKeeps(w: World, sha: Sha)
    requires Inv(w)
    ensures Inv(w.(artifacts := w.artifacts - {sha}))
  {
    hide Local, Durable;
  }

  lemma {:induction false} RunKeeps(packages: seq<Sha>, actions: seq<Action>)
    ensures Inv(Run(packages, actions))
  {
    if actions != [] {
      hide Inv, Apply;
      RunKeeps(packages, actions[..|actions| - 1]);
      ApplyKeeps(Run(packages, actions[..|actions| - 1]), actions[|actions| - 1]);
    }
  }

  // ---------------------------------------------------------------- what the operator is promised

  /** Whatever the interleaving and wherever it crashes: at most one coordinator is forked, at most one
      installer is launched, and neither ever happens to an abandoned operation. */
  lemma AtMostOneInstaller(packages: seq<Sha>, actions: seq<Action>)
    ensures var f := Run(packages, actions).facts;
            && f.forks <= 1 && f.launches <= f.forks
            && (f.claim != Some(StartClaim) ==> f.forks == 0)
            && (f.claim == Some(AbandonClaim) ==> f.record.Some? && f.record.value.state in {Staged, Failed})
  {
    RunKeeps(packages, actions);
  }

  /** The claim, once made, is never withdrawn and never changes kind: start and abandon exclude each other. */
  lemma {:induction false} ClaimIsFinal(packages: seq<Sha>, actions: seq<Action>, more: seq<Action>)
    requires Run(packages, actions).facts.claim.Some?
    ensures Run(packages, actions + more).facts.claim == Run(packages, actions).facts.claim
    decreases |more|
  {
    hide Apply, Inv;
    if more == [] {
      assert actions + more == actions;
    } else {
      ClaimIsFinal(packages, actions, more[..|more| - 1]);
      var all := actions + more;
      assert all[..|all| - 1] == actions + more[..|more| - 1];
      RunKeeps(packages, all[..|all| - 1]);
      ClaimStep(Run(packages, all[..|all| - 1]), all[|all| - 1]);
    }
  }

  lemma ClaimStep(w: World, a: Action)
    requires Inv(w) && w.facts.claim.Some?
    ensures Apply(w, a).facts.claim == w.facts.claim
  {
    hide Inv, AdvanceJob, AdvanceStart, AdvanceReceive, AdvanceAbandon, AdvanceAdmit;
    if a.Advance? && a.pid in w.procs {
      match RoleOf(w.procs[a.pid])
      case Admitter => AdmitClaim(w, a.pid, w.procs[a.pid]);
      case Receiver => ReceiveClaim(w, a.pid, w.procs[a.pid], a.choice);
      case Starter => StartClaims(w, a.pid, w.procs[a.pid]);
      case Abandoner => AbandonClaims(w, a.pid, w.procs[a.pid]);
      case Coordinator => JobClaim(w, a.pid, w.procs[a.pid], a.choice);
    }
  }

  lemma AdmitClaim(w: World, pid: Pid, p: Process)
    ensures AdvanceAdmit(w, pid, p).facts.claim == w.facts.claim
  {
  }

  lemma ReceiveClaim(w: World, pid: Pid, p: Process, c: Choice)
    ensures AdvanceReceive(w, pid, p, c).facts.claim == w.facts.claim
  {
  }

  lemma StartClaims(w: World, pid: Pid, p: Process)
    ensures w.facts.claim.Some? ==> AdvanceStart(w, pid, p).facts.claim == w.facts.claim
  {
  }

  lemma AbandonClaims(w: World, pid: Pid, p: Process)
    ensures w.facts.claim.Some? ==> AdvanceAbandon(w, pid, p).facts.claim == w.facts.claim
  {
  }

  lemma JobClaim(w: World, pid: Pid, p: Process, c: Choice)
    ensures AdvanceJob(w, pid, p, c).facts.claim == w.facts.claim
  {
  }

  /** Every record write is made by the one process the claim entitles to it; after the fork, only by
      the coordinator. */
  lemma OnlyTheEntitledWrite(packages: seq<Sha>, actions: seq<Action>, i: nat)
    requires i < |Run(packages, actions).writes|
    ensures WriteAllowed(Run(packages, actions).writes[i])
  {
    RunKeeps(packages, actions);
  }

  /** What is reported is what happened. "ready": exactly a completed record whose installer ran on
      artifacts verified again and whose outcome is dpkg and every helper returning 0. "failed" with a
      receipt: exactly a completed record whose outcome is anything else. "failed" without a receipt: no
      installer was launched, exactly unless an interrupt struck between the launch and the note of it. */
  lemma ReportsAreHonest(packages: seq<Sha>, actions: seq<Action>)
    requires Run(packages, actions).facts.record.Some?
    ensures var w := Run(packages, actions); var r := w.facts.record.value; var f := w.facts;
            && (r.phase == Complete <==> r.receipt.Some? && r.phase != RecoveryRequired)
            && (r.receipt.Some? ==> f.launches == 1 && f.verified && r.receipt == f.outcome)
            && (Inspect(w) == Ready <==>
                  && r.phase == Complete && f.outcome.Some? && f.outcome.value.exitCode == 0
                  && forall i :: 0 <= i < |f.outcome.value.helpers| ==> f.outcome.value.helpers[i] == 0)
            && (Inspect(w) == Failed && r.receipt.Some? <==>
                  && r.phase == Complete && f.outcome.Some?
                  && (f.outcome.value.exitCode != 0
                      || exists i :: 0 <= i < |f.outcome.value.helpers| && f.outcome.value.helpers[i] != 0))
            && (r.receipt.Some? && r.phase == RecoveryRequired ==> Inspect(w) == Unknown)
            && (Inspect(w) == Failed && r.receipt.None? ==> (f.launches == 0 <==> !f.interrupted))
  {
    RunKeeps(packages, actions);
  }

  /** The outcome of record was reported to the coordinator by the installer it waited for. */
  lemma {:induction false} OutcomeWasAwaited(packages: seq<Sha>, actions: seq<Action>) returns (i: nat)
    requires Run(packages, actions).facts.outcome.Some?
    ensures i < |actions| && actions[i].Advance? && actions[i].choice.ok
    ensures var w, c := Run(packages, actions[..i]), actions[i].choice;
            var x := Run(packages, actions).facts.outcome.value;
            && actions[i].pid in w.procs && w.procs[actions[i].pid].JobWaiting? && w.facts.launches == 1
            && x.exitCode == c.exitCode && x.helpers == (if c.exitCode == 0 then c.helpers else [])
  {
    hide Apply;
    var before, a := actions[..|actions| - 1], actions[|actions| - 1];
    var w := Run(packages, before);
    RunKeeps(packages, before);
    OutcomeStep(w, a);
    if Apply(w, a).facts.outcome == w.facts.outcome {
      i := OutcomeWasAwaited(packages, before);
      assert actions[..i] == before[..i];
    } else {
      i := |before|;
    }
  }

  /** The step that takes what the awaited installer returned. */
  ghost predicate AwaitsOutcome(w: World, a: Action) {
    && a.Advance? && a.choice.ok && a.pid in w.procs && w.procs[a.pid].JobWaiting?
    && Apply(w, a).facts.outcome
       == Some(Receipt(a.choice.exitCode, if a.choice.exitCode == 0 then a.choice.helpers else []))
  }

  lemma OutcomeStep(w: World, a: Action)
    requires Inv(w)
    ensures Apply(w, a).facts.outcome == w.facts.outcome || (AwaitsOutcome(w, a) && w.facts.launches == 1)
  {
    hide Inv, Local, AdvanceJob, AdvanceStart, AdvanceReceive, AdvanceAbandon, AdvanceAdmit;
    if a.Advance? && a.pid in w.procs {
      var pid, p := a.pid, w.procs[a.pid];
      OthersLeave(w, pid, p, a.choice);
      JobOutcome(w, pid, p, a.choice);
      if p.JobWaiting? {
        WaitsForOne(w, pid);
      }
    }
  }

  lemma AdmitLeaves(w: World, pid: Pid, p: Process)
    ensures AdvanceAdmit(w, pid, p).facts.outcome == w.facts.outcome && AdvanceAdmit(w, pid, p).packages == w.packages
  {
  }

  lemma ReceiveLeaves(w: World, pid: Pid, p: Process, c: Choice)
    ensures AdvanceReceive(w, pid, p, c).facts.outcome == w.facts.outcome && AdvanceReceive(w, pid, p, c).packages == w.packages
  {
  }

  lemma StartLeaves(w: World, pid: Pid, p: Process)
    ensures AdvanceStart(w, pid, p).facts.outcome == w.facts.outcome && AdvanceStart(w, pid, p).packages == w.packages
  {
  }

  lemma AbandonLeaves(w: World, pid: Pid, p: Process)
    ensures AdvanceAbandon(w, pid, p).facts.outcome == w.facts.outcome && AdvanceAbandon(w, pid, p).packages == w.packages
  {
  }

  /** Only the coordinator learns an outcome, and nobody changes what was admitted. */
  lemma OthersLeave(w: World, pid: Pid, p: Process, c: Choice)
    ensures AdvanceAdmit(w, pid, p).facts.outcome == w.facts.outcome && AdvanceAdmit(w, pid, p).packages == w.packages
    ensures AdvanceReceive(w, pid, p, c).facts.outcome == w.facts.outcome && AdvanceReceive(w, pid, p, c).packages == w.packages
    ensures AdvanceStart(w, pid, p).facts.outcome == w.facts.outcome && AdvanceStart(w, pid, p).packages == w.packages
    ensures AdvanceAbandon(w, pid, p).facts.outcome == w.facts.outcome && AdvanceAbandon(w, pid, p).packages == w.packages
  {
    hide AdvanceAdmit, AdvanceReceive, AdvanceStart, AdvanceAbandon;
    AdmitLeaves(w, pid, p);
    ReceiveLeaves(w, pid, p, c);
    StartLeaves(w, pid, p);
    AbandonLeaves(w, pid, p);
  }

  lemma JobOutcome(w: World, pid: Pid, p: Process, c: Choice)
    ensures AdvanceJob(w, pid, p, c).facts.outcome
            == if p.JobWaiting? && c.ok then Some(Receipt(c.exitCode, if c.exitCode == 0 then c.helpers else []))
               else w.facts.outcome
  {
  }

  lemma WaitsForOne(w: World, pid: Pid)
    requires Inv(w) && pid in w.procs && w.procs[pid].JobWaiting?
    ensures w.facts.launches == 1
  {
    assert Local(w.facts, pid, w.procs[pid]);
  }

  // ---- runs that happen: honest reports and the one dishonest one

  const STAGED: Record := Record(Staged, Admitted, [], None, false, None)
  const YES: Choice := Choice(true, false, Saved, 0, [])

  /** One process takes this many steps in a row. */
  ghost function Steps(w: World, pid: Pid, n: nat): World {
    if n == 0 then w else Apply(Steps(w, pid, n - 1), Advance(pid, YES))
  }

  function Advances(pid: Pid, n: nat): seq<Action> {
    if n == 0 then [] else Advances(pid, n - 1) + [Advance(pid, YES)]
  }

  lemma {:induction false} RunSteps(packages: seq<Sha>, actions: seq<Action>, pid: Pid, n: nat)
    ensures Run(packages, actions + Advances(pid, n)) == Steps(Run(packages, actions), pid, n)
  {
    hide Apply, Run;
    if n == 0 {
      assert actions + [] == actions;
    } else {
      RunSteps(packages, actions, pid, n - 1);
      RunOne(packages, actions + Advances(pid, n - 1), Advance(pid, YES));
      assert actions + Advances(pid, n) == actions + Advances(pid, n - 1) + [Advance(pid, YES)];
    }
  }

  /** What the stages of an installation leave behind, as far as the next stage looks. */
  ghost predicate Idle(w: World, x: Sha, r: Record, artifacts: set<Sha>, next: Pid) {
    && w.packages == [x] && w.facts.dir && w.facts.record == Some(r) && w.facts.claim.None? && w.facts.launches == 0
    && w.artifacts == artifacts && w.lock == {} && w.next == next
  }

  lemma Admits(x: Sha)
    ensures Idle(Steps(Apply(Initial([x]), SpawnAdmit), 0, 2), x, STAGED, {}, 1)
  {
    var w0 := Apply(Initial([x]), SpawnAdmit);
    assert w0.procs[0] == AdmitBegin;
    var w1 := Steps(w0, 0, 1);
    assert w1 == Apply(Steps(w0, 0, 0), Advance(0, YES));
    assert w1.procs[0] == AdmitMade;
  }

  /** The receiver's next point, and what it needs on the way. */
  ghost predicate ReceivingAt(w: World, x: Sha, p: Process, artifacts: set<Sha>, lock: set<Pid>) {
    && w.packages == [x] && w.facts.dir && w.facts.record == Some(STAGED) && w.facts.claim.None? && w.facts.launches == 0
    && w.artifacts == artifacts && w.lock == lock && w.next == 2 && 1 in w.procs && w.procs[1] == p
  }

  lemma ReceivingNext(w: World, x: Sha, p: Process, artifacts: set<Sha>, lock: set<Pid>)
    requires ReceivingAt(w, x, p, artifacts, lock)
    ensures var w' := Apply(w, Advance(1, YES));
            && (p == ReceiveBegin(x) && lock == {} ==> ReceivingAt(w', x, ReceiveLocked(x), artifacts, {1}))
            && (p == ReceiveLocked(x) ==> ReceivingAt(w', x, ReceiveChecked(x, STAGED), artifacts, lock))
            && (p == ReceiveChecked(x, STAGED) ==> ReceivingAt(w', x, ReceiveLinked(x, STAGED), artifacts + {x}, lock))
  {
  }

  lemma ReceivingEnds(w: World, x: Sha)
    requires ReceivingAt(w, x, ReceiveLinked(x, STAGED), {x}, {1})
    ensures Idle(Apply(w, Advance(1, YES)), x, STAGED.(received := [x], phase := ReadyToInstall), {x}, 2)
  {
    hide Apply;
    ApplyReceive(w, 1);
    assert STAGED.received + [x] == [x];
  }

  lemma SpawnsReceiver(w: World, x: Sha)
    requires Idle(w, x, STAGED, {}, 1)
    ensures ReceivingAt(Apply(w, SpawnReceive(x)), x, ReceiveBegin(x), {}, {})
  {
  }

  lemma Receives(w: World, x: Sha)
    requires Idle(w, x, STAGED, {}, 1)
    ensures Idle(Steps(Apply(w, SpawnReceive(x)), 1, 4), x, STAGED.(received := [x], phase := ReadyToInstall), {x}, 2)
  {
    hide Apply, Idle, ReceivingAt, Steps;
    var w0 := Apply(w, SpawnReceive(x));
    SpawnsReceiver(w, x);
    StepIs(w0, 1, 0);
    ReceivingNext(w0, x, ReceiveBegin(x), {}, {});
    StepIs(w0, 1, 1);
    ReceivingNext(Steps(w0, 1, 1), x, ReceiveLocked(x), {}, {1});
    StepIs(w0, 1, 2);
    ReceivingNext(Steps(w0, 1, 2), x, ReceiveChecked(x, STAGED), {}, {1});
    StepIs(w0, 1, 3);
    assert {} + {x} == {x};
    ReceivingEnds(Steps(w0, 1, 3), x);
  }

  lemma ApplySpawn(w: World, x: Sha)
    ensures Apply(w, SpawnReceive(x)) == Spawn(w, ReceiveBegin(x)) && Apply(w, SpawnStart) == Spawn(w, StartBegin)
  {
  }

  lemma StepIs(w: World, pid: Pid, n: nat)
    ensures Steps(w, pid, 0) == w
    ensures Steps(w, pid, n + 1) == Apply(Steps(w, pid, n), Advance(pid, YES))
  {
  }

  lemma ApplyReceive(w: World, pid: Pid)
    requires pid in w.procs && RoleOf(w.procs[pid]) == Receiver
    ensures Apply(w, Advance(pid, YES)) == AdvanceReceive(w, pid, w.procs[pid], YES)
  {
  }

  lemma ApplyStart(w: World, pid: Pid)
    requires pid in w.procs && RoleOf(w.procs[pid]) == Starter
    ensures Apply(w, Advance(pid, YES)) == AdvanceStart(w, pid, w.procs[pid])
  {
  }

  lemma ApplyJob(w: World, pid: Pid, c: Choice)
    requires pid in w.procs && RoleOf(w.procs[pid]) == Coordinator
    ensures Apply(w, Advance(pid, c)) == AdvanceJob(w, pid, w.procs[pid], c)
  {
  }

  /** A coordinator about to run, with everything it needs in place. */
  ghost predicate Forked(w: World, x: Sha) {
    && w.packages == [x] && w.facts.record.Some? && w.facts.record.value.receipt.None? && w.facts.launches == 0
    && w.artifacts == {x} && 3 in w.procs && w.procs[3] == JobForked
  }

  lemma Starts(w: World, x: Sha)
    requires Idle(w, x, STAGED.(received := [x], phase := ReadyToInstall), {x}, 2)
    ensures Forked(Steps(Apply(w, SpawnStart), 2, 5), x)
  {
    hide Apply;
    var w0 := Apply(w, SpawnStart);
    ApplySpawn(w, x);
    StepIs(w0, 2, 0);
    ApplyStart(w0, 2);
    var w1 := Steps(w0, 2, 1);
    StepIs(w0, 2, 1);
    ApplyStart(w1, 2);
    var w2 := Steps(w0, 2, 2);
    StepIs(w0, 2, 2);
    ApplyStart(w2, 2);
    var w3 := Steps(w0, 2, 3);
    StepIs(w0, 2, 3);
    ApplyStart(w3, 2);
    var w4 := Steps(w0, 2, 4);
    StepIs(w0, 2, 4);
    ApplyStart(w4, 2);
  }

  ghost predicate Launched(w: World) {
    && w.facts.record.Some? && w.facts.record.value.receipt.None? && w.facts.launches == 1
    && 3 in w.procs && w.procs[3].JobSpawned? && w.procs[3].mem.receipt.None?
  }

  lemma Launches(w: World, x: Sha)
    requires Forked(w, x)
    ensures Launched(Steps(w, 3, 6))
  {
    hide Apply;
    StepIs(w, 3, 0);
    ApplyJob(w, 3, YES);
    var w1 := Steps(w, 3, 1);
    StepIs(w, 3, 1);
    ApplyJob(w1, 3, YES);
    var w2 := Steps(w, 3, 2);
    StepIs(w, 3, 2);
    ApplyJob(w2, 3, YES);
    var w3 := Steps(w, 3, 3);
    StepIs(w, 3, 3);
    ApplyJob(w3, 3, YES);
    var w4 := Steps(w, 3, 4);
    StepIs(w, 3, 4);
    ApplyJob(w4, 3, YES);
    var w5 := Steps(w, 3, 5);
    StepIs(w, 3, 5);
    ApplyJob(w5, 3, YES);
  }

  /** Admission, receipt, start and launch, all undisturbed. */
  lemma LaunchHappens(x: Sha) returns (actions: seq<Action>)
    ensures Launched(Run([x], actions))
  {
    hide Apply, Run, Steps, Idle, Forked, Launched;
    NoRun([x]);
    RunOne([x], [], SpawnAdmit);
    var a := [] + [SpawnAdmit];
    RunSteps([x], a, 0, 2);
    Admits(x);
    var b := a + Advances(0, 2);
    RunOne([x], b, SpawnReceive(x));
    RunSteps([x], b + [SpawnReceive(x)], 1, 4);
    Receives(Run([x], b), x);
    var d := b + [SpawnReceive(x)] + Advances(1, 4);
    RunOne([x], d, SpawnStart);
    RunSteps([x], d + [SpawnStart], 2, 5);
    Starts(Run([x], d), x);
    var e := d + [SpawnStart] + Advances(2, 5);
    RunSteps([x], e, 3, 6);
    Launches(Run([x], e), x);
    actions := e + Advances(3, 6);
  }

  /** Two more actions after a run. */
  lemma RunTwo(packages: seq<Sha>, actions: seq<Action>, a: Action, b: Action)
    ensures Run(packages, actions + [a] + [b]) == Apply(Apply(Run(packages, actions), a), b)
  {
    hide Apply, Run;
    RunOne(packages, actions, a);
    RunOne(packages, actions + [a], b);
  }

  /** An interrupt between the launch and the note of it: the coordinator then reports a failure without a
      receipt although an installer was launched. */
  lemma InterruptedLaunchIsMisreported(x: Sha) returns (actions: seq<Action>)
    ensures var w := Run([x], actions);
            && w.facts.record.Some? && Inspect(w) == Failed && w.facts.record.value.receipt.None?
            && w.facts.launches == 1 && w.facts.interrupted
  {
    hide Apply, Run, Launched;
    var f := LaunchHappens(x);
    var struck := Advance(3, YES.(ok := false));
    RunTwo([x], f, struck, Advance(3, YES));
    Misreports(Run([x], f));
    actions := f + [struck] + [Advance(3, YES)];
  }

  /** The awaited installer, and the point that follows. */
  ghost predicate Awaiting(w: World) {
    w.facts.record.Some? && 3 in w.procs && w.procs[3].JobWaiting?
  }

  lemma Awaits(w: World)
    requires Launched(w)
    ensures Awaiting(Apply(Apply(w, Advance(3, YES)), Advance(3, YES)))
  {
    hide Apply;
    ApplyJob(w, 3, YES);
    ApplyJob(AdvanceJob(w, 3, w.procs[3], YES), 3, YES);
  }

  /** Whatever the awaited installer and its helpers return is committed and reported: ready exactly when
      all of them returned 0, failed otherwise. If the last save raises the report is unknown instead. */
  lemma Reports(w: World, exitCode: int, helpers: seq<int>, save: Save)
    requires Awaiting(w)
    ensures var c := YES.(exitCode := exitCode, helpers := helpers);
            var w1 := Apply(Apply(w, Advance(3, c)), Advance(3, YES.(save := save)));
            var good := exitCode == 0 && forall i :: 0 <= i < |helpers| ==> helpers[i] == 0;
            if save == Saved then w1.facts.record.Some? && Inspect(w1) == if good then Ready else Failed
            else
              var w2 := Apply(w1, Advance(3, YES));
              w2.facts.record.Some? && Inspect(w2) == Unknown && w2.facts.record.value.receipt.Some?
  {
    hide Apply;
    var c, d := YES.(exitCode := exitCode, helpers := helpers), YES.(save := save);
    ApplyJob(w, 3, c);
    var v := AdvanceJob(w, 3, w.procs[3], c);
    ApplyJob(v, 3, d);
    if save != Saved {
      ApplyJob(AdvanceJob(v, 3, v.procs[3], d), 3, YES);
    }
  }

  /** Every outcome is reached and reported: for any exit code and any helper results a run ends in the
      report they deserve, ready among them. */
  lemma EveryOutcomeIsReported(x: Sha, exitCode: int, helpers: seq<int>) returns (actions: seq<Action>)
    ensures var w := Run([x], actions);
            && w.facts.record.Some?
            && (exitCode == 0 && (forall i :: 0 <= i < |helpers| ==> helpers[i] == 0) ==> Inspect(w) == Ready)
            && (exitCode != 0 || (exists i :: 0 <= i < |helpers| && helpers[i] != 0) ==> Inspect(w) == Failed)
  {
    hide Apply, Run, Launched, Awaiting, Inspect;
    var f := LaunchHappens(x);
    RunTwo([x], f, Advance(3, YES), Advance(3, YES));
    Awaits(Run([x], f));
    var g := f + [Advance(3, YES)] + [Advance(3, YES)];
    var c := YES.(exitCode := exitCode, helpers := helpers);
    RunTwo([x], g, Advance(3, c), Advance(3, YES));
    Reports(Run([x], g), exitCode, helpers, Saved);
    actions := g + [Advance(3, c)] + [Advance(3, YES)];
  }

  /** A receipt alone does not make a report: when the last save raises, a successful installation is left
      unknown with its receipt on record. */
  lemma RaisedSaveIsUnknown(x: Sha) returns (actions: seq<Action>)
    ensures var w := Run([x], actions);
            w.facts.record.Some? && w.facts.record.value.receipt.Some? && Inspect(w) == Unknown
  {
    hide Apply, Run, Launched, Awaiting, Inspect;
    var f := LaunchHappens(x);
    RunTwo([x], f, Advance(3, YES), Advance(3, YES));
    Awaits(Run([x], f));
    var g := f + [Advance(3, YES)] + [Advance(3, YES)];
    var c := YES.(save := RaisedBefore);
    RunTwo([x], g, Advance(3, YES), Advance(3, c));
    RunOne([x], g + [Advance(3, YES)] + [Advance(3, c)], Advance(3, YES));
    Reports(Run([x], g), 0, [], RaisedBefore);
    assert YES.(exitCode := 0, helpers := []) == YES;
    actions := g + [Advance(3, YES)] + [Advance(3, c)] + [Advance(3, YES)];
  }

  lemma NoRun(packages: seq<Sha>)
    ensures Run(packages, []) == Initial(packages)
  {
  }

  lemma Misreports(w: World)
    requires Launched(w)
    ensures var w' := Apply(Apply(w, Advance(3, YES.(ok := false))), Advance(3, YES));
            && w'.facts.record.Some? && Inspect(w') == Failed && w'.facts.record.value.receipt.None?
            && w'.facts.launches == 1 && w'.facts.interrupted
  {
    hide Apply;
    ApplyJob(w, 3, YES.(ok := false));
    ApplyJob(AdvanceJob(w, 3, w.procs[3], YES.(ok := false)), 3, YES);
  }

  /** A claimed operation whose processes are gone without a committed outcome is reported unknown,
      and a running one is reported running only while its coordinator lives. */
  lemma DeadCoordinatorIsUnknown(packages: seq<Sha>, actions: seq<Action>)
    requires Run(packages, actions).facts.claim.Some?
    ensures var w := Run(packages, actions);
            && w.facts.record.Some?
            && (!JobAlive(w) && w.facts.record.value.state !in {Ready, Failed} ==> Inspect(w) == Unknown)
            && (Inspect(w) == Running ==> JobAlive(w))
            && Inspect(w) != Staged
  {
    RunKeeps(packages, actions);
  }

  /** An admission left without its record: the directory stands and nobody is about to write the record. */
  predicate Stuck(w: World) {
    w.facts.dir && w.facts.record.None? && forall p :: p in w.procs ==> !w.procs[p].AdmitMade?
  }

  lemma StuckStep(w: World, a: Action)
    requires Inv(w) && Stuck(w)
    ensures Stuck(Apply(w, a))
  {
    if a.Advance? && a.pid in w.procs {
      assert Local(w.facts, a.pid, w.procs[a.pid]);
    }
  }

  /** From a stuck operation every continuation is stuck: no later admission writes the record, and
      without a record nothing can claim, start or abandon the operation. */
  lemma {:induction false} InterruptedAdmissionIsDead(packages: seq<Sha>, actions: seq<Action>, more: seq<Action>)
    requires Stuck(Run(packages, actions))
    ensures var w := Run(packages, actions + more);
            Stuck(w) && w.facts.claim.None? && w.facts.forks == 0
    decreases |more|
  {
    RunKeeps(packages, actions + more);
    if more == [] {
      assert actions + more == actions;
    } else {
      hide Inv, Apply, Stuck;
      InterruptedAdmissionIsDead(packages, actions, more[..|more| - 1]);
      var all := actions + more;
      assert all[..|all| - 1] == actions + more[..|more| - 1];
      RunKeeps(packages, all[..|all| - 1]);
      StuckStep(Run(packages, all[..|all| - 1]), all[|all| - 1]);
      NoClaimWithoutRecord(Run(packages, all));
    }
  }

  lemma NoClaimWithoutRecord(w: World)
    requires Inv(w) && Stuck(w)
    ensures w.facts.claim.None? && w.facts.forks == 0
  {
  }

  lemma RunOne(packages: seq<Sha>, actions: seq<Action>, a: Action)
    ensures Run(packages, actions + [a]) == Apply(Run(packages, actions), a)
  {
    hide Apply;
    assert (actions + [a])[..|actions|] == actions;
  }

  /** The stuck state is reached: the first admission dies right after making the directory. */
  lemma AdmissionCanBeInterrupted(packages: seq<Sha>, c: Choice) returns (actions: seq<Action>)
    ensures Stuck(Run(packages, actions)) && |actions| == 3
  {
    actions := [] + [SpawnAdmit] + [Advance(0, c)] + [Die(0)];
    RunOne(packages, [], SpawnAdmit);
    RunOne(packages, [] + [SpawnAdmit], Advance(0, c));
    RunOne(packages, [] + [SpawnAdmit] + [Advance(0, c)], Die(0));
    assert Run(packages, []) == Initial(packages);
  }

  lemma FreshAdmission(w: World, c: Choice)
    requires !w.facts.dir
    ensures var pid := w.next;
            Apply(Apply(Apply(w, SpawnAdmit), Advance(pid, c)), Advance(pid, c)).facts.record.Some?
  {
  }

  lemma WritesRecord(w: World, pid: Pid, c: Choice)
    requires pid in w.procs && w.procs[pid].AdmitMade?
    ensures Apply(w, Advance(pid, c)).facts.record.Some?
  {
  }

  lemma NoDirectory(w: World)
    requires Inv(w) && !Stuck(w) && w.facts.record.None? && forall p :: p in w.procs ==> !w.procs[p].AdmitMade?
    ensures !w.facts.dir
  {
  }

  /** Unless it is stuck, an operation without a record can still get one. */
  lemma AdmissionCanComplete(packages: seq<Sha>, actions: seq<Action>, c: Choice) returns (more: seq<Action>)
    requires !Stuck(Run(packages, actions))
    ensures Run(packages, actions + more).facts.record.Some?
  {
    hide Apply, Inv;
    var w := Run(packages, actions);
    RunKeeps(packages, actions);
    if w.facts.record.Some? {
      more := [];
      assert actions + more == actions;
    } else if pid :| pid in w.procs && w.procs[pid].AdmitMade? {
      more := [Advance(pid, c)];
      WritesRecord(w, pid, c);
      RunOne(packages, actions, Advance(pid, c));
    } else {
      NoDirectory(w);
      var pid := w.next;
      FreshAdmission(w, c);
      more := [SpawnAdmit] + [Advance(pid, c)] + [Advance(pid, c)];
      RunOne(packages, actions, SpawnAdmit);
      RunOne(packages, actions + [SpawnAdmit], Advance(pid, c));
      RunOne(packages, actions + [SpawnAdmit] + [Advance(pid, c)], Advance(pid, c));
      assert actions + more == actions + [SpawnAdmit] + [Advance(pid, c)] + [Advance(pid, c)];
    }
  }

  /** An admission can be completed from here exactly when it is not stuck. */
  lemma CompletableUnlessStuck(packages: seq<Sha>, actions: seq<Action>, c: Choice)
    ensures (exists more :: Run(packages, actions + more).facts.record.Some?) <==> !Stuck(Run(packages, actions))
  {
    if Stuck(Run(packages, actions)) {
      forall more ensures Run(packages, actions + more).facts.record.None? {
        InterruptedAdmissionIsDead(packages, actions, more);
      }
    } else {
      var more := AdmissionCanComplete(packages, actions, c);
    }
  }
}
