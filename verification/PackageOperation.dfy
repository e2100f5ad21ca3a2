/** One admitted package operation as a protocol over durable files.

    A world holds the operation's durable files (directory, record, start claim, staged artifacts),
    the advisory lock, and every process currently working on the operation. Each durable file
    operation is one step. Any process may die between two of its steps and the machine may reboot,
    so a statement about every action list covers every interleaving with every crash. */
module PackageOperation {
  import opened Common

  type Sha = string
  type Pid = nat

  datatype State = Staged | Unknown | Running | Ready | Failed
  datatype Phase = Admitted | Receiving | ReadyToInstall | StartRequested | Abandoned
                 | Queued | Installing | Complete | RecoveryRequired
  datatype Receipt = Receipt(exitCode: int, helpers: seq<int>)
  datatype Record = Record(state: State, phase: Phase, received: seq<Sha>,
                           process: Option<Pid>, installer: bool, receipt: Option<Receipt>)

  datatype Claim = StartClaim | AbandonClaim

  /** A running process, at the point before its next step. Processes that ended are not listed. */
  datatype Process =
    | AdmitBegin
    | AdmitMade
    | ReceiveBegin(sha: Sha)
    | ReceiveLocked(sha: Sha)
    | ReceiveChecked(sha: Sha, mem: Record)
    | ReceiveLinked(sha: Sha, mem: Record)
    | StartBegin
    | StartLocked
    | StartChecked(mem: Record)
    | StartClaimed(mem: Record)
    | StartSaved
    | StartForked
    | AbandonBegin
    | AbandonLocked
    | AbandonChecked(mem: Record)
    | AbandonClaimed(mem: Record)
    | JobForked
    | JobDetached
    | JobRead(mem: Record)
    | JobQueued(mem: Record)
    | JobPreparing(mem: Record)
    | JobInstalling(mem: Record)
    | JobSpawned(mem: Record)
    | JobLaunched(mem: Record)
    | JobWaiting(mem: Record)
    | JobConcluding(mem: Record)
    | JobHandling(mem: Record, started: bool)

  datatype Role = Admitter | Receiver | Starter | Abandoner | Coordinator

  /** A record write, with the claim and the number of forks at that moment. */
  datatype Write = Write(role: Role, claim: Option<Claim>, forks: nat)

  /** The durable record and claim, and what actually happened: forks of a coordinator, installers
      launched, whether every artifact was verified again, what dpkg and the helpers returned, and whether
      an exception struck between the launch and the note of it. */
  datatype Facts = Facts(dir: bool, record: Option<Record>, claim: Option<Claim>,
                         forks: nat, job: Option<Pid>, launches: nat, verified: bool, outcome: Option<Receipt>, interrupted: bool)

  datatype World = World(packages: seq<Sha>, facts: Facts, artifacts: set<Sha>,
                         lock: set<Pid>, procs: map<Pid, Process>, next: Pid, writes: seq<Write>)

  /** A record save is atomic but can raise before or after the replacement became visible. */
  datatype Save = Saved | RaisedBefore | RaisedAfter

  datatype Choice = Choice(ok: bool, again: bool, save: Save, exitCode: int, helpers: seq<int>)

  datatype Action =
    | SpawnAdmit | SpawnReceive(sha: Sha) | SpawnStart | SpawnAbandon
    | Advance(pid: Pid, choice: Choice)
    | Die(pid: Pid)
    | Reboot
    | Tamper(sha: Sha)

  function Initial(packages: seq<Sha>): World {
    World(packages, Facts(false, None, None, 0, None, 0, false, None, false), {}, {}, map[], 0, [])
  }

  function Spawn(w: World, p: Process): World {
    w.(procs := w.procs[w.next := p], next := w.next + 1)
  }

  /** A process that ends, for whatever reason, drops its lock. */
  function End(w: World, pid: Pid): World {
    w.(procs := w.procs - {pid}, lock := w.lock - {pid})
  }

  function Goto(w: World, pid: Pid, p: Process): World {
    w.(procs := w.procs[pid := p])
  }

  function Put(w: World, role: Role, r: Record): World {
    w.(facts := w.facts.(record := Some(r)), writes := w.writes + [Write(role, w.facts.claim, w.facts.forks)])
  }

  /** A coordinator save inside the guarded part: on an exception control passes to the handler. */
  function Guarded(w: World, pid: Pid, r: Record, save: Save, next: Process, started: bool): World {
    match save
    case Saved => Goto(Put(w, Coordinator, r), pid, next)
    case RaisedAfter => Goto(Put(w, Coordinator, r), pid, JobHandling(r, started))
    case RaisedBefore => Goto(w, pid, JobHandling(r, started))
  }

  predicate Open(f: Facts) {
    f.record.Some? && f.record.value.state == Staged && f.claim.None?
  }

  function AdvanceAdmit(w: World, pid: Pid, p: Process): World {
    match p
    case AdmitMade => End(Put(w, Admitter, Record(Staged, Admitted, [], None, false, None)), pid)
    case _ => if w.facts.dir then End(w, pid) else Goto(w.(facts := w.facts.(dir := true)), pid, AdmitMade)
  }

  function AdvanceReceive(w: World, pid: Pid, p: Process, c: Choice): World {
    match p
    case ReceiveBegin(sha) =>
      if !w.facts.dir then End(w, pid)
      else if w.lock != {} then w
      else Goto(w.(lock := {pid}), pid, ReceiveLocked(sha))
    case ReceiveLocked(sha) =>
      if !Open(w.facts) || sha !in w.packages then End(w, pid) else Goto(w, pid, ReceiveChecked(sha, w.facts.record.value))
    case ReceiveChecked(sha, mem) =>
      if !c.ok then End(w, pid) else Goto(w.(artifacts := w.artifacts + {sha}), pid, ReceiveLinked(sha, mem))
    case ReceiveLinked(sha, mem) =>
      var received := if sha in mem.received then mem.received else mem.received + [sha];
      End(Put(w, Receiver, mem.(received := received,
          phase := if |received| == |w.packages| then ReadyToInstall else Receiving)), pid)
    case _ => w
  }

  function AdvanceStart(w: World, pid: Pid, p: Process): World {
    match p
    case StartBegin =>
      if !w.facts.dir then End(w, pid)
      else if w.lock != {} then w
      else Goto(w.(lock := {pid}), pid, StartLocked)
    case StartLocked =>
      if !Open(w.facts) || w.facts.record.value.phase != ReadyToInstall then End(w, pid)
      else Goto(w, pid, StartChecked(w.facts.record.value))
    case StartChecked(mem) =>
      if w.facts.claim.Some? then End(w, pid) else Goto(w.(facts := w.facts.(claim := Some(StartClaim))), pid, StartClaimed(mem))
    case StartClaimed(mem) =>
      Goto(Put(w, Starter, mem.(state := Unknown, phase := StartRequested)), pid, StartSaved)
    case StartSaved =>
      // the only fork; the child inherits the open lock file
      var child := w.next;
      Goto(Spawn(w, JobForked), pid, StartForked)
        .(facts := w.facts.(forks := w.facts.forks + 1, job := Some(child)), lock := w.lock + {child})
    case _ => End(w, pid)
  }

  function AdvanceAbandon(w: World, pid: Pid, p: Process): World {
    match p
    case AbandonBegin =>
      if !w.facts.dir then End(w, pid)
      else if w.lock != {} then w
      else Goto(w.(lock := {pid}), pid, AbandonLocked)
    case AbandonLocked =>
      if !Open(w.facts) then End(w, pid) else Goto(w, pid, AbandonChecked(w.facts.record.value))
    case AbandonChecked(mem) =>
      if w.facts.claim.Some? then End(w, pid) else Goto(w.(facts := w.facts.(claim := Some(AbandonClaim))), pid, AbandonClaimed(mem))
    case AbandonClaimed(mem) =>
      End(Put(w, Abandoner, mem.(state := Failed, phase := Abandoned)), pid)
    case _ => w
  }

  function Concluded(mem: Record, receipt: Receipt): Record {
    mem.(receipt := Some(receipt), phase := Complete,
         state := if receipt.exitCode == 0 && forall i :: 0 <= i < |receipt.helpers| ==> receipt.helpers[i] == 0
                  then Ready else Failed)
  }

  function AdvanceJob(w: World, pid: Pid, p: Process, c: Choice): World {
    match p
    case JobForked => Goto(w.(lock := w.lock - {pid}), pid, JobDetached)
    case JobDetached => if w.facts.record.None? then End(w, pid) else Goto(w, pid, JobRead(w.facts.record.value))
    case JobRead(mem) =>
      var running := mem.(state := Running, phase := Queued, process := Some(pid));
      if c.save == Saved then Goto(Put(w, Coordinator, running), pid, JobQueued(running))
      else if c.save == RaisedAfter then End(Put(w, Coordinator, running), pid)
      else End(w, pid)
    case JobQueued(mem) =>
      // the note of what the check found stands in both branches
      var intact := forall i :: 0 <= i < |w.packages| ==> w.packages[i] in w.artifacts;
      Goto(w.(facts := w.facts.(verified := intact)), pid, if c.ok && intact then JobPreparing(mem) else JobHandling(mem, false))
    case JobPreparing(mem) =>
      // saves before and during a repair, then the one announcing the installation
      if !c.ok then Goto(w, pid, JobHandling(mem, false))
      else if c.again then Guarded(w, pid, mem, c.save, JobPreparing(mem), false)
      else Guarded(w, pid, mem.(phase := Installing), c.save, JobInstalling(mem.(phase := Installing)), false)
    case JobInstalling(mem) =>
      if !c.ok then Goto(w, pid, JobHandling(mem, false))
      else Goto(w.(facts := w.facts.(launches := w.facts.launches + 1)), pid, JobSpawned(mem))
    case JobSpawned(mem) =>
      // the note that the installer started is a statement of its own; an interrupt can strike before it
      if c.ok then Goto(w, pid, JobLaunched(mem))
      else Goto(w.(facts := w.facts.(interrupted := true)), pid, JobHandling(mem, false))
    case JobLaunched(mem) =>
      Guarded(w, pid, mem.(installer := true), c.save, JobWaiting(mem.(installer := true)), true)
    case JobWaiting(mem) =>
      if !c.ok then Goto(w, pid, JobHandling(mem, true))
      else
        var receipt := Receipt(c.exitCode, if c.exitCode == 0 then c.helpers else []);
        Goto(w.(facts := w.facts.(outcome := Some(receipt))), pid, JobConcluding(Concluded(mem, receipt)))
    case JobConcluding(mem) =>
      if c.save == Saved then End(Put(w, Coordinator, mem), pid) else Guarded(w, pid, mem, c.save, p, true)
    case JobHandling(mem, started) =>
      var r := mem.(state := if started then Unknown else Failed, phase := RecoveryRequired);
      End(if c.save == RaisedBefore then w else Put(w, Coordinator, r), pid)
    case _ => w
  }

  function Apply(w: World, a: Action): World {
    match a
    case SpawnAdmit => Spawn(w, AdmitBegin)
    case SpawnReceive(sha) => Spawn(w, ReceiveBegin(sha))
    case SpawnStart => Spawn(w, StartBegin)
    case SpawnAbandon => Spawn(w, AbandonBegin)
    case Die(pid) => End(w, pid)
    case Reboot => w.(procs := map[], lock := {})
    case Tamper(sha) => w.(artifacts := w.artifacts - {sha})
    case Advance(pid, c) =>
      if pid !in w.procs then w
      else
        match RoleOf(w.procs[pid])
        case Admitter => AdvanceAdmit(w, pid, w.procs[pid])
        case Receiver => AdvanceReceive(w, pid, w.procs[pid], c)
        case Starter => AdvanceStart(w, pid, w.procs[pid])
        case Abandoner => AdvanceAbandon(w, pid, w.procs[pid])
        case Coordinator => AdvanceJob(w, pid, w.procs[pid], c)
  }

  function RoleOf(p: Process): Role {
    match p
    case AdmitBegin => Admitter
    case AdmitMade => Admitter
    case ReceiveBegin(_) => Receiver
    case ReceiveLocked(_) => Receiver
    case ReceiveChecked(_, _) => Receiver
    case ReceiveLinked(_, _) => Receiver
    case StartBegin => Starter
    case StartLocked => Starter
    case StartChecked(_) => Starter
    case StartClaimed(_) => Starter
    case StartSaved => Starter
    case StartForked => Starter
    case AbandonBegin => Abandoner
    case AbandonLocked => Abandoner
    case AbandonChecked(_) => Abandoner
    case AbandonClaimed(_) => Abandoner
    case _ => Coordinator
  }

  function Run(packages: seq<Sha>, actions: seq<Action>): World {
    if actions == [] then Initial(packages)
    else Apply(Run(packages, actions[..|actions| - 1]), actions[|actions| - 1])
  }

  /** What `inspect` reports. */
  function Inspect(w: World): State
    requires w.facts.record.Some?
  {
    var r := w.facts.record.value;
    if r.state == Running && !(r.process.Some? && r.process.value in w.procs) then Unknown
    else if r.state == Staged && w.facts.claim.Some? then Unknown
    else r.state
  }
}
