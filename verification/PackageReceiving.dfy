/** What the receiving of artifacts promises: an operation is started only when everything it admitted was
    received, and a staged operation can always be abandoned. */
module PackageReceiving {
  import opened Common
  import opened PackageOperation
  import opened PackageSafety

  predicate Distinct(s: seq<Sha>) {
    forall i, j :: 0 <= i < j < |s| ==> s[i] != s[j]
  }

  /** The record a process works on. */
  function MemOf(p: Process): Option<Record> {
    match p
    case ReceiveChecked(_, mem) => Some(mem)
    case ReceiveLinked(_, mem) => Some(mem)
    case StartChecked(mem) => Some(mem)
    case StartClaimed(mem) => Some(mem)
    case AbandonChecked(mem) => Some(mem)
    case AbandonClaimed(mem) => Some(mem)
    case JobRead(mem) => Some(mem)
    case JobQueued(mem) => Some(mem)
    case JobPreparing(mem) => Some(mem)
    case JobInstalling(mem) => Some(mem)
    case JobSpawned(mem) => Some(mem)
    case JobLaunched(mem) => Some(mem)
    case JobWaiting(mem) => Some(mem)
    case JobConcluding(mem) => Some(mem)
    case JobHandling(mem, _) => Some(mem)
    case _ => None
  }

  /** A record lists each received artifact once, and is ready to install only with all of them. */
  predicate Tally(packages: seq<Sha>, stored: set<Sha>, r: Record) {
    && Distinct(r.received) && (forall x :: x in r.received ==> x in packages && x in stored)
    && (r.phase == ReadyToInstall ==> |r.received| == |packages|)
  }

  predicate TalliedAt(packages: seq<Sha>, stored: set<Sha>, p: Process) {
    && (p.ReceiveChecked? || p.ReceiveLinked? ==> p.sha in packages) && (p.ReceiveLinked? ==> p.sha in stored)
    && (MemOf(p).Some? ==>
          && Tally(packages, stored, MemOf(p).value)
          && (RoleOf(p) == Starter || RoleOf(p) == Coordinator ==> |MemOf(p).value.received| == |packages|))
  }

  predicate TalliedFacts(packages: seq<Sha>, stored: set<Sha>, f: Facts) {
    f.record.Some? ==>
      && Tally(packages, stored, f.record.value)
      && (f.claim == Some(StartClaim) ==> |f.record.value.received| == |packages|)
  }

  /** `stored` holds every artifact there ever was. */
  ghost predicate Tallied(w: World, stored: set<Sha>) {
    && w.artifacts <= stored && TalliedFacts(w.packages, stored, w.facts)
    && forall p :: p in w.procs ==> TalliedAt(w.packages, stored, w.procs[p])
  }

  ghost function Stored(packages: seq<Sha>, actions: seq<Action>): set<Sha> {
    if actions == [] then {}
    else Stored(packages, actions[..|actions| - 1]) + Run(packages, actions).artifacts
  }

  lemma TallyMore(packages: seq<Sha>, stored: set<Sha>, more: set<Sha>, p: Process)
    requires TalliedAt(packages, stored, p) && stored <= more
    ensures TalliedAt(packages, more, p)
  {
  }

  /** One process moves on. */
  lemma TallyMoves(w: World, w': World, pid: Pid, stored: set<Sha>, more: set<Sha>)
    requires Tallied(w, stored) && stored <= more && w'.artifacts <= more && w'.packages == w.packages
    requires forall q :: q in w'.procs && q != pid ==> q in w.procs && w'.procs[q] == w.procs[q]
    requires TalliedFacts(w.packages, more, w'.facts)
    requires pid in w'.procs ==> TalliedAt(w.packages, more, w'.procs[pid])
    ensures Tallied(w', more)
  {
    hide TalliedAt, TalliedFacts;
    forall q | q in w'.procs ensures TalliedAt(w.packages, more, w'.procs[q]) {
      if q != pid {
        TallyMore(w.packages, stored, more, w.procs[q]);
      }
    }
  }

  lemma TallyReceives(w: World, pid: Pid, c: Choice, stored: set<Sha>)
    requires Inv(w) && Tallied(w, stored) && pid in w.procs && RoleOf(w.procs[pid]) == Receiver
    ensures var w' := AdvanceReceive(w, pid, w.procs[pid], c); Tallied(w', stored + w'.artifacts)
  {
    var w' := AdvanceReceive(w, pid, w.procs[pid], c);
    var p, more := w.procs[pid], stored + w'.artifacts;
    assert Local(w.facts, pid, p) && TalliedAt(w.packages, stored, p);
    hide Local, Inv;
    if w'.facts == w.facts {
      TallyMoves(w, w', pid, stored, more);
    } else {
      TallyCounts(w.packages, more, p.mem, p.sha);
      TallyMoves(w, w', pid, stored, more);
    }
  }

  lemma TallyCounts(packages: seq<Sha>, stored: set<Sha>, mem: Record, sha: Sha)
    requires Tally(packages, stored, mem) && sha in packages && sha in stored
    ensures var received := if sha in mem.received then mem.received else mem.received + [sha];
            Tally(packages, stored,
                  mem.(received := received, phase := if |received| == |packages| then ReadyToInstall else Receiving))
  {
  }

  /** Inside the locked region the record at hand is the one on disk. */
  lemma AtHand(w: World, pid: Pid)
    requires Inv(w) && pid in w.procs && (RoleOf(w.procs[pid]) == Starter || RoleOf(w.procs[pid]) == Abandoner)
    ensures MemOf(w.procs[pid]).Some? ==> w.facts.record == MemOf(w.procs[pid])
  {
    assert Local(w.facts, pid, w.procs[pid]);
  }

  lemma TallyStarts(w: World, pid: Pid, stored: set<Sha>)
    requires Inv(w) && Tallied(w, stored) && pid in w.procs && RoleOf(w.procs[pid]) == Starter && !w.procs[pid].StartSaved?
    ensures var w' := AdvanceStart(w, pid, w.procs[pid]); Tallied(w', stored + w'.artifacts)
  {
    hide Inv, Distinct;
    var w', p := AdvanceStart(w, pid, w.procs[pid]), w.procs[pid];
    AtHand(w, pid);
    assert TalliedAt(w.packages, stored, p);
    assert w'.artifacts == w.artifacts && stored + w.artifacts == stored;
    TallyMoves(w, w', pid, stored, stored);
  }

  lemma TallyForks(w: World, pid: Pid, stored: set<Sha>)
    requires Tallied(w, stored) && pid in w.procs && w.procs[pid].StartSaved?
    ensures var w' := AdvanceStart(w, pid, w.procs[pid]); Tallied(w', stored + w'.artifacts)
  {
    assert stored + w.artifacts == stored;
    var v := Goto(w, pid, StartForked);
    TallyMoves(w, v, pid, stored, stored);
    TallyMoves(v, AdvanceStart(w, pid, w.procs[pid]), w.next, stored, stored);
  }

  lemma TallyAbandons(w: World, pid: Pid, stored: set<Sha>)
    requires Inv(w) && Tallied(w, stored) && pid in w.procs && RoleOf(w.procs[pid]) == Abandoner
    ensures var w' := AdvanceAbandon(w, pid, w.procs[pid]); Tallied(w', stored + w'.artifacts)
  {
    hide Inv, Distinct;
    var w', p := AdvanceAbandon(w, pid, w.procs[pid]), w.procs[pid];
    AtHand(w, pid);
    assert TalliedAt(w.packages, stored, p);
    assert w'.artifacts == w.artifacts && stored + w.artifacts == stored;
    TallyMoves(w, w', pid, stored, stored);
  }

  lemma TallyAdmits(w: World, pid: Pid, stored: set<Sha>)
    requires Inv(w) && Tallied(w, stored) && pid in w.procs && RoleOf(w.procs[pid]) == Admitter
    ensures var w' := AdvanceAdmit(w, pid, w.procs[pid]); Tallied(w', stored + w'.artifacts)
  {
    var w', p := AdvanceAdmit(w, pid, w.procs[pid]), w.procs[pid];
    assert Local(w.facts, pid, p);
    assert w'.artifacts == w.artifacts && stored + w.artifacts == stored;
    TallyMoves(w, w', pid, stored, stored);
  }

  /** The coordinator neither adds to the received artifacts nor goes back to being ready. */
  ghost predicate JobCarries(w: World, w': World, pid: Pid)
    requires pid in w.procs
  {
    var mem := MemOf(w.procs[pid]);
    && (w'.facts.record == w.facts.record || Carried(w'.facts.record, mem))
    && (pid in w'.procs && MemOf(w'.procs[pid]).Some? ==>
          MemOf(w'.procs[pid]) == w.facts.record || Carried(MemOf(w'.procs[pid]), mem))
  }

  lemma JobCarriesEarly(w: World, pid: Pid, c: Choice)
    requires pid in w.procs && RoleOf(w.procs[pid]) == Coordinator
    requires var p := w.procs[pid]; p.JobForked? || p.JobDetached? || p.JobRead? || p.JobQueued? || p.JobPreparing?
    ensures JobCarries(w, AdvanceJob(w, pid, w.procs[pid], c), pid)
  {
  }

  lemma JobCarriesOn(w: World, pid: Pid, c: Choice)
    requires pid in w.procs && RoleOf(w.procs[pid]) == Coordinator
    requires var p := w.procs[pid]; p.JobInstalling? || p.JobSpawned? || p.JobLaunched?
    ensures JobCarries(w, AdvanceJob(w, pid, w.procs[pid], c), pid)
  {
  }

  lemma JobCarriesLate(w: World, pid: Pid, c: Choice)
    requires pid in w.procs && RoleOf(w.procs[pid]) == Coordinator
    requires var p := w.procs[pid]; p.JobWaiting? || p.JobConcluding? || p.JobHandling?
    ensures JobCarries(w, AdvanceJob(w, pid, w.procs[pid], c), pid)
  {
  }

  predicate Carried(r: Option<Record>, mem: Option<Record>) {
    && r.Some? && mem.Some? && r.value.received == mem.value.received
    && (r.value.phase == ReadyToInstall ==> mem.value.phase == ReadyToInstall)
  }

  lemma TallyWorks(w: World, pid: Pid, c: Choice, stored: set<Sha>)
    requires Inv(w) && Tallied(w, stored) && pid in w.procs && RoleOf(w.procs[pid]) == Coordinator
    ensures var w' := AdvanceJob(w, pid, w.procs[pid], c); Tallied(w', stored + w'.artifacts)
  {
    hide AdvanceJob, Inv;
    var w' := AdvanceJob(w, pid, w.procs[pid], c);
    var p := w.procs[pid];
    if p.JobForked? || p.JobDetached? || p.JobRead? || p.JobQueued? || p.JobPreparing? {
      JobCarriesEarly(w, pid, c);
    } else if p.JobInstalling? || p.JobSpawned? || p.JobLaunched? {
      JobCarriesOn(w, pid, c);
    } else {
      JobCarriesLate(w, pid, c);
    }
    Started(w, pid);
    JobPackages(w, pid, p, c);
    JobFrame(w, pid, c);
    JobClaim(w, pid, p, c);
    assert TalliedAt(w.packages, stored, w.procs[pid]);
    assert stored + w.artifacts == stored;
    TallyMoves(w, w', pid, stored, stored);
  }

  lemma Started(w: World, pid: Pid)
    requires Inv(w) && pid in w.procs && RoleOf(w.procs[pid]) == Coordinator
    ensures w.facts.claim == Some(StartClaim) && w.facts.forks == 1 && Writes(w.writes)
  {
  }

  lemma TallySpawns(w: World, p: Process, stored: set<Sha>)
    requires Tallied(w, stored) && Passive(p)
    ensures Tallied(Spawn(w, p), stored + w.artifacts)
  {
    assert stored + w.artifacts == stored;
    TallyMoves(w, Spawn(w, p), w.next, stored, stored);
  }

  lemma TallyStep(w: World, a: Action, stored: set<Sha>)
    requires Inv(w) && Tallied(w, stored)
    ensures Tallied(Apply(w, a), stored + Apply(w, a).artifacts)
  {
    hide Inv, TalliedAt, TalliedFacts, AdvanceJob, AdvanceStart, AdvanceReceive, AdvanceAbandon, AdvanceAdmit;
    match a
    case SpawnAdmit => TallySpawns(w, AdmitBegin, stored);
    case SpawnReceive(sha) => TallySpawns(w, ReceiveBegin(sha), stored);
    case SpawnStart => TallySpawns(w, StartBegin, stored);
    case SpawnAbandon => TallySpawns(w, AbandonBegin, stored);
    case Die(_) => assert stored + w.artifacts == stored;
    case Reboot => assert stored + w.artifacts == stored;
    case Tamper(sha) => assert stored + (w.artifacts - {sha}) == stored;
    case Advance(pid, c) =>
      assert stored + w.artifacts == stored;
      if pid in w.procs {
        match RoleOf(w.procs[pid])
        case Admitter => TallyAdmits(w, pid, stored);
        case Receiver => TallyReceives(w, pid, c, stored);
        case Starter =>
          if w.procs[pid].StartSaved? {
            TallyForks(w, pid, stored);
          } else {
            TallyStarts(w, pid, stored);
          }
        case Abandoner => TallyAbandons(w, pid, stored);
        case Coordinator => TallyWorks(w, pid, c, stored);
      }
  }

  lemma {:induction false} RunTallies(packages: seq<Sha>, actions: seq<Action>)
    ensures Tallied(Run(packages, actions), Stored(packages, actions)) && Run(packages, actions).packages == packages
  {
    if actions != [] {
      hide Tallied, Apply, Inv;
      var before := actions[..|actions| - 1];
      RunTallies(packages, before);
      RunKeeps(packages, before);
      TallyStep(Run(packages, before), actions[|actions| - 1], Stored(packages, before));
      SamePackages(Run(packages, before), actions[|actions| - 1]);
    }
  }

  lemma SamePackages(w: World, a: Action)
    ensures Apply(w, a).packages == w.packages
  {
    hide AdvanceJob, AdvanceStart, AdvanceReceive, AdvanceAbandon, AdvanceAdmit;
    if a.Advance? && a.pid in w.procs {
      OthersLeave(w, a.pid, w.procs[a.pid], a.choice);
      JobPackages(w, a.pid, w.procs[a.pid], a.choice);
    }
  }

  lemma JobPackages(w: World, pid: Pid, p: Process, c: Choice)
    ensures AdvanceJob(w, pid, p, c).packages == w.packages && AdvanceJob(w, pid, p, c).artifacts == w.artifacts
  {
  }

  /** As many different elements as there are places take every place, and the places are all different. */
  lemma {:induction false} Covers(received: seq<Sha>, packages: seq<Sha>)
    requires Distinct(received) && (forall x :: x in received ==> x in packages) && |received| == |packages|
    ensures Distinct(packages) && forall x :: x in packages ==> x in received
  {
    if received != [] {
      var n := |received| - 1;
      var last := received[n];
      assert last in packages;
      var k :| 0 <= k < |packages| && packages[k] == last;
      var rest := packages[..k] + packages[k + 1..];
      forall i | 0 <= i < |packages| && i != k ensures rest[if i < k then i else i - 1] == packages[i] {
      }
      forall x | x in received[..n] ensures x in rest && x != last {
        OtherPlace(received, packages, rest, k, x);
      }
      Covers(received[..n], rest);
      assert received == received[..n] + [last];
      DistinctWith(packages, rest, k);
    }
  }

  lemma OtherPlace(received: seq<Sha>, packages: seq<Sha>, rest: seq<Sha>, k: nat, x: Sha)
    requires Distinct(received) && received != [] && x in received[..|received| - 1] && x in packages
    requires k < |packages| && packages[k] == received[|received| - 1] && rest == packages[..k] + packages[k + 1..]
    ensures x in rest && x != packages[k]
  {
    var i :| 0 <= i < |received| - 1 && received[i] == x;
    var j :| 0 <= j < |packages| && packages[j] == x;
    assert rest[if j < k then j else j - 1] == x;
  }

  lemma DistinctWith(packages: seq<Sha>, rest: seq<Sha>, k: nat)
    requires k < |packages| && rest == packages[..k] + packages[k + 1..] && Distinct(rest) && packages[k] !in rest
    ensures Distinct(packages)
  {
    forall i, j | 0 <= i < j < |packages| ensures packages[i] != packages[j] {
      assert i != k ==> rest[if i < k then i else i - 1] == packages[i];
      assert j != k ==> rest[if j < k then j else j - 1] == packages[j];
    }
  }

  /** An operation is started only when everything it admitted was received: each artifact is on the record
      and once stood in the operation's directory. Admissions naming one artifact twice are never started. */
  lemma StartNeedsEverything(packages: seq<Sha>, actions: seq<Action>)
    requires Run(packages, actions).facts.claim == Some(StartClaim)
    ensures var r := Run(packages, actions).facts.record;
            && r.Some? && Distinct(packages)
            && (forall x :: x in r.value.received <==> x in packages)
            && (forall x :: x in packages ==> exists i: nat :: i <= |actions| && x in Run(packages, actions[..i]).artifacts)
  {
    hide Apply;
    RunKeeps(packages, actions);
    RunTallies(packages, actions);
    var r := Run(packages, actions).facts.record;
    hide Local;
    Covers(r.value.received, packages);
    forall x | x in packages ensures exists i: nat :: i <= |actions| && x in Run(packages, actions[..i]).artifacts {
      var i := OnceStored(packages, actions, x);
    }
  }

  lemma {:induction false} OnceStored(packages: seq<Sha>, actions: seq<Action>, x: Sha) returns (i: nat)
    requires x in Stored(packages, actions)
    ensures i <= |actions| && x in Run(packages, actions[..i]).artifacts
  {
    hide Apply, Run;
    if x in Run(packages, actions).artifacts {
      i := |actions|;
      assert actions[..i] == actions;
    } else {
      var before := actions[..|actions| - 1];
      i := OnceStored(packages, before, x);
      assert actions[..i] == before[..i];
    }
  }

  // ---------------------------------------------------------------- abandoning

  ghost predicate AbandoningAt(w: World, pid: Pid, p: Process, r: Record, claim: Option<Claim>) {
    && w.facts.record == Some(r) && w.facts.claim == claim && w.facts.dir && w.facts.forks == 0 && w.facts.launches == 0
    && pid in w.procs && w.procs[pid] == p
  }

  lemma ApplyAbandon(w: World, pid: Pid, c: Choice)
    requires pid in w.procs && RoleOf(w.procs[pid]) == Abandoner
    ensures Apply(w, Advance(pid, c)) == AdvanceAbandon(w, pid, w.procs[pid])
  {
  }

  lemma AbandonLocks(w: World, pid: Pid, c: Choice, r: Record)
    requires AbandoningAt(w, pid, AbandonBegin, r, None) && w.lock == {} && r.state == Staged
    ensures AbandoningAt(Apply(Apply(w, Advance(pid, c)), Advance(pid, c)), pid, AbandonChecked(r), r, None)
  {
    hide Apply;
    ApplyAbandon(w, pid, c);
    ApplyAbandon(AdvanceAbandon(w, pid, w.procs[pid]), pid, c);
  }

  lemma AbandonCommits(w: World, pid: Pid, c: Choice, r: Record)
    requires AbandoningAt(w, pid, AbandonChecked(r), r, None) && r.state == Staged
    ensures var w' := Apply(Apply(w, Advance(pid, c)), Advance(pid, c));
            && w'.facts.record == Some(r.(state := Failed, phase := Abandoned))
            && w'.facts.claim == Some(AbandonClaim) && w'.facts.launches == 0
  {
    hide Apply;
    ApplyAbandon(w, pid, c);
    ApplyAbandon(AdvanceAbandon(w, pid, w.procs[pid]), pid, c);
  }

  /** Wherever a run stands with the operation still staged and nobody in the locked region, abandoning it
      succeeds: it is reported failed, its claim shuts out every later start, and no installer was launched. */
  lemma StagedCanBeAbandoned(packages: seq<Sha>, actions: seq<Action>, c: Choice) returns (more: seq<Action>)
    requires Open(Run(packages, actions).facts) && Run(packages, actions).lock == {}
    ensures var w := Run(packages, actions + more);
            && w.facts.record.Some? && Inspect(w) == Failed && w.facts.claim == Some(AbandonClaim)
            && w.facts.forks == 0 && w.facts.launches == 0
  {
    hide Apply, Run;
    var w := Run(packages, actions);
    RunKeeps(packages, actions);
    var r, pid, a := w.facts.record.value, w.next, Advance(w.next, c);
    StagedIsUnforked(w);
    AbandonSpawns(w, r);
    AbandonLocks(Apply(w, SpawnAbandon), pid, c, r);
    AbandonCommits(Apply(Apply(Apply(w, SpawnAbandon), a), a), pid, c, r);
    RunTwo(packages, actions, SpawnAbandon, a);
    var done := actions + [SpawnAbandon] + [a];
    RunTwo(packages, done, a, a);
    RunOne(packages, done + [a] + [a], a);
    more := [SpawnAbandon] + [a] + [a] + [a] + [a];
    assert actions + more == done + [a] + [a] + [a];
    RunKeeps(packages, actions + more);
    AtMostOneInstaller(packages, actions + more);
  }

  lemma StagedIsUnforked(w: World)
    requires Inv(w) && Open(w.facts)
    ensures w.facts.dir && w.facts.forks == 0 && w.facts.launches == 0
  {
  }

  lemma AbandonSpawns(w: World, r: Record)
    requires Open(w.facts) && w.facts.record == Some(r) && w.lock == {}
    requires w.facts.dir && w.facts.forks == 0 && w.facts.launches == 0
    ensures AbandoningAt(Apply(w, SpawnAbandon), w.next, AbandonBegin, r, None) && Apply(w, SpawnAbandon).lock == {}
  {
  }
}
