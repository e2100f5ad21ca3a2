/** Whole runs of the capture leases: what the history of opens, frame jobs and closes can look like. */
module CaptureHistory {
  import opened Common
  import opened Identifiers
  import opened RemoteCapture

  datatype Event = Opened(handle: nat) | Started(handle: nat, token: Token)
                 | Finished(handle: nat, token: Token, published: bool) | Closed(handle: nat)

  ghost predicate Done(log: seq<Event>, t: Token) {
    exists i :: 0 <= i < |log| && log[i].Finished? && log[i].token == t
  }

  /** Handles are issued in rising order, never twice. */
  ghost predicate IssuedOnce(log: seq<Event>) {
    forall i, j :: 0 <= i < j < |log| && log[i].Opened? && log[j].Opened? ==> log[i].handle < log[j].handle
  }

  /** After its close a handle opens, starts and publishes nothing. */
  ghost predicate ClosedForGood(log: seq<Event>) {
    forall i, j :: 0 <= i < j < |log| && log[i].Closed? && log[j].handle == log[i].handle ==> log[j].Finished? && !log[j].published
  }

  /** A job finishes once, and only if it was started, under the handle it was started for. */
  ghost predicate FinishedOnce(log: seq<Event>) {
    && (forall j :: 0 <= j < |log| && log[j].Finished? ==> Started(log[j].handle, log[j].token) in log[..j])
    && (forall i, j :: 0 <= i < j < |log| && log[i].Finished? && log[j].Finished? ==> log[i].token != log[j].token)
  }

  /** Each start has its own token, and a handle starts a job only when its earlier ones have finished. */
  ghost predicate OneAtATime(log: seq<Event>) {
    forall i, j :: 0 <= i < j < |log| && log[i].Started? && log[j].Started? ==>
      log[i].token != log[j].token && (log[i].handle == log[j].handle ==> Done(log[..j], log[i].token))
  }

  ghost predicate Lawful(log: seq<Event>) {
    IssuedOnce(log) && ClosedForGood(log) && FinishedOnce(log) && OneAtATime(log)
  }

  /** The history and the table agree, in both directions: every handle issued was opened, and is live or was
      closed, never both; every job out was started and has not finished, and every job started is out or has
      finished. Tokens from `unused` up have not been used. */
  ghost predicate Agrees(log: seq<Event>, next: nat, live: map<nat, Lease>, jobs: map<Token, Plan>, unused: Token) {
    && (forall i :: 0 <= i < |log| ==> log[i].handle <= next)
    && (forall h: nat :: 1 <= h <= next ==> Opened(h) in log && (h in live <==> Closed(h) !in log))
    && (forall i :: 0 <= i < |log| && log[i].Closed? ==> log[i].handle !in live)
    && (forall t :: t in jobs ==> Started(jobs[t].handle, t) in log && !Done(log, t) && t < unused)
    && (forall i :: 0 <= i < |log| && log[i].Started? ==> log[i].token < unused && (log[i].token in jobs || Done(log, log[i].token)))
  }

  lemma DoneGrows(log: seq<Event>, e: Event, t: Token)
    ensures Done(log + [e], t) <==> Done(log, t) || (e.Finished? && e.token == t)
  {
    if Done(log, t) {
      var i :| 0 <= i < |log| && log[i].Finished? && log[i].token == t;
      assert (log + [e])[i] == log[i];
    }
    if e.Finished? && e.token == t {
      assert (log + [e])[|log|] == e;
    }
  }

  /** What an event must satisfy to continue a lawful history. */
  ghost predicate Follows(log: seq<Event>, e: Event) {
    && (e.Opened? ==> forall i :: 0 <= i < |log| ==> log[i].handle < e.handle)
    && (!(e.Finished? && !e.published) ==> Closed(e.handle) !in log)
    && (e.Finished? ==> Started(e.handle, e.token) in log && !Done(log, e.token))
    && (e.Started? ==> forall i :: 0 <= i < |log| && log[i].Started? ==>
          log[i].token != e.token && (log[i].handle == e.handle ==> Done(log, log[i].token)))
  }

  lemma ClosedNext(log: seq<Event>, e: Event)
    requires IssuedOnce(log) && ClosedForGood(log) && Follows(log, e)
    ensures IssuedOnce(log + [e]) && ClosedForGood(log + [e])
  {
    forall i | 0 <= i < |log| && log[i].Closed? && e.handle == log[i].handle ensures e.Finished? && !e.published {
      assert log[i] == Closed(e.handle);
    }
  }

  lemma FinishedNext(log: seq<Event>, e: Event)
    requires FinishedOnce(log) && Follows(log, e)
    ensures FinishedOnce(log + [e])
  {
    var all := log + [e];
    forall j | 0 <= j < |all| && all[j].Finished? ensures Started(all[j].handle, all[j].token) in all[..j] {
      if j == |log| {
        assert all[..j] == log;
      } else {
        assert all[..j] == log[..j] && all[j] == log[j];
      }
    }
    forall i | 0 <= i < |log| && log[i].Finished? && e.Finished? ensures log[i].token != e.token {
      assert Done(log, log[i].token);
    }
  }

  lemma StartedNext(log: seq<Event>, e: Event)
    requires OneAtATime(log) && Follows(log, e)
    ensures OneAtATime(log + [e])
  {
    hide Done;
    var all := log + [e];
    forall i, j | 0 <= i < j < |all| && all[i].Started? && all[j].Started?
      ensures all[i].token != all[j].token && (all[i].handle == all[j].handle ==> Done(all[..j], all[i].token))
    {
      if j == |log| {
        assert all[..j] == log && all[i] == log[i];
      } else {
        assert all[..j] == log[..j] && all[j] == log[j] && all[i] == log[i];
      }
    }
  }

  lemma LawfulNext(log: seq<Event>, e: Event)
    requires Lawful(log) && Follows(log, e)
    ensures Lawful(log + [e])
  {
    hide IssuedOnce, ClosedForGood, FinishedOnce, OneAtATime, Follows;
    ClosedNext(log, e);
    FinishedNext(log, e);
    StartedNext(log, e);
  }

  lemma EventsKept(log: seq<Event>, e: Event)
    ensures forall x :: x in log + [e] <==> x in log || x == e
  {
  }

  lemma AgreesOpen(log: seq<Event>, next: nat, live: map<nat, Lease>, jobs: map<Token, Plan>, unused: Token, lease: Lease)
    requires Agrees(log, next, live, jobs, unused)
    ensures Follows(log, Opened(next + 1))
    ensures Agrees(log + [Opened(next + 1)], next + 1, live[next + 1 := lease], jobs, unused)
  {
    var all := log + [Opened(next + 1)];
    EventsKept(log, Opened(next + 1));
    forall t ensures Done(all, t) <==> Done(log, t) {
      DoneGrows(log, Opened(next + 1), t);
    }
    forall t | t in jobs ensures Started(jobs[t].handle, t) in all {
      assert Started(jobs[t].handle, t) in log;
    }
  }

  lemma StartedBy(log: seq<Event>, next: nat, live: map<nat, Lease>, jobs: map<Token, Plan>, unused: Token, i: nat)
    requires Lawful(log) && Agrees(log, next, live, jobs, unused) && i < |log| && log[i].Started? && log[i].token in jobs
    ensures jobs[log[i].token].handle == log[i].handle
  {
    var j :| 0 <= j < |log| && log[j] == Started(jobs[log[i].token].handle, log[i].token);
    assert i == j;
  }

  lemma AgreesStart(log: seq<Event>, next: nat, live: map<nat, Lease>, chosen: map<nat, Target>, jobs: map<Token, Plan>,
                    cancelled: set<Token>, unused: Token, h: nat, lease: Lease, plan: Plan)
    requires Lawful(log) && Agrees(log, next, live, jobs, unused) && Good(next, live, chosen, jobs, cancelled)
    requires h in live && live[h].flight.None? && plan.handle == h
    ensures Follows(log, Started(h, unused))
    ensures Agrees(log + [Started(h, unused)], next, live[h := lease], jobs[unused := plan], unused + 1)
  {
    hide Done, Good, IssuedOnce, ClosedForGood, FinishedOnce, OneAtATime;
    var e := Started(h, unused);
    EventsKept(log, e);
    var all, jobs' := log + [e], jobs[unused := plan];
    forall t ensures Done(all, t) <==> Done(log, t) {
      DoneGrows(log, e, t);
    }
    forall i | 0 <= i < |log| && log[i].Started? && log[i].handle == h ensures Done(log, log[i].token) {
      if log[i].token in jobs {
        StartedBy(log, next, live, jobs, unused, i);
        StandsIn(next, live, chosen, jobs, cancelled, log[i].token);
      }
    }
    forall t | t in jobs' ensures Started(jobs'[t].handle, t) in all && !Done(all, t) {
      if t == unused {
        assert all[|log|] == e;
        NotYetDone(log, unused);
      } else {
        assert Started(jobs[t].handle, t) in log;
      }
    }
    assert 1 <= h <= next by {
      LiveHandle(next, live, chosen, jobs, cancelled, h);
    }
  }

  lemma LiveHandle(next: nat, live: map<nat, Lease>, chosen: map<nat, Target>, jobs: map<Token, Plan>, cancelled: set<Token>, h: nat)
    requires Good(next, live, chosen, jobs, cancelled) && h in live
    ensures 1 <= h <= next
  {
  }

  /** A finished token was started, so it is in use. */
  lemma NotYetDone(log: seq<Event>, t: Token)
    requires Lawful(log) && forall i :: 0 <= i < |log| && log[i].Started? ==> log[i].token < t
    ensures !Done(log, t)
  {
    forall j | 0 <= j < |log| && log[j].Finished? ensures log[j].token < t {
      var i :| 0 <= i < j && log[..j][i] == Started(log[j].handle, log[j].token);
      assert log[i].Started?;
    }
  }

  lemma AgreesFinish(log: seq<Event>, next: nat, live: map<nat, Lease>, live': map<nat, Lease>, jobs: map<Token, Plan>, unused: Token,
                     t: Token, published: bool)
    requires Lawful(log) && Agrees(log, next, live, jobs, unused) && t in jobs && live'.Keys == live.Keys
    requires published ==> jobs[t].handle in live
    ensures Follows(log, Finished(jobs[t].handle, t, published))
    ensures Agrees(log + [Finished(jobs[t].handle, t, published)], next, live', jobs - {t}, unused)
  {
    hide Done, Lawful;
    var e := Finished(jobs[t].handle, t, published);
    EventsKept(log, e);
    var all, jobs' := log + [e], jobs - {t};
    forall u ensures Done(all, u) <==> Done(log, u) || u == t {
      DoneGrows(log, e, u);
    }
    forall u | u in jobs' ensures Started(jobs'[u].handle, u) in all {
      assert Started(jobs[u].handle, u) in log;
    }
    NotClosed(log, next, live, jobs, unused, t, published);
  }

  lemma NotClosed(log: seq<Event>, next: nat, live: map<nat, Lease>, jobs: map<Token, Plan>, unused: Token, t: Token, published: bool)
    requires Agrees(log, next, live, jobs, unused) && t in jobs && (published ==> jobs[t].handle in live)
    ensures jobs[t].handle <= next && (published ==> Closed(jobs[t].handle) !in log)
  {
    var i :| 0 <= i < |log| && log[i] == Started(jobs[t].handle, t);
    assert log[i].handle <= next;
  }

  lemma AgreesClose(log: seq<Event>, next: nat, live: map<nat, Lease>, jobs: map<Token, Plan>, unused: Token, h: nat)
    requires Agrees(log, next, live, jobs, unused) && h in live && h <= next
    ensures Follows(log, Closed(h)) && Agrees(log + [Closed(h)], next, live - {h}, jobs, unused)
  {
    var all := log + [Closed(h)];
    EventsKept(log, Closed(h));
    forall t ensures Done(all, t) <==> Done(log, t) {
      DoneGrows(log, Closed(h), t);
    }
    forall t | t in jobs ensures Started(jobs[t].handle, t) in all {
      assert Started(jobs[t].handle, t) in log;
    }
  }

  lemma AgreesFrame(log: seq<Event>, next: nat, live: map<nat, Lease>, live': map<nat, Lease>, jobs: map<Token, Plan>, unused: Token)
    requires Agrees(log, next, live, jobs, unused) && live'.Keys == live.Keys
    ensures Agrees(log, next, live', jobs, unused + 1)
  {
  }

  datatype Turn =
    | Open(binding: Binding, targetId: string, generation: nat, resolved: Option<Target>, cancelledAfter: bool)
    | Start(binding: Binding, handle: nat, work: Option<bool>)
    | Take(token: Token, captured: Option<Capture>, stopped: bool)
    | Snap(binding: Binding, handle: nat, captured: Option<Capture>)
    | Close(binding: Binding, handle: nat)
    | CloseBinding(binding: Binding)
    | Cancel(token: Token)

  /** What a turn can be judged by: the table's handles and leases, the jobs out, the next token, and the
      cancellations raised. */
  datatype State = State(next: nat, live: map<nat, Lease>, flights: map<Token, Plan>, unused: Token, cancelled: set<Token>)

  /** The events a turn must add, and no others: an open that issued a handle, a start that handed out a job, a
      completion with whether it published, a close that removed a lease. */
  ghost predicate Records(t: Turn, s: State, s': State, added: seq<Event>) {
    match t
    case Open(_, _, _, _, _) =>
      && added == (if s'.next == s.next then [] else [Opened(s'.next)])
      && s'.live.Keys == s.live.Keys + (if s'.next == s.next then {} else {s'.next})
      && s'.flights == s.flights && s'.cancelled == s.cancelled
    case Start(_, h, _) =>
      && added == (if s.unused in s'.flights then [Started(h, s.unused)] else [])
      && s'.live.Keys == s.live.Keys && s'.flights.Keys - {s.unused} == s.flights.Keys && s'.cancelled == s.cancelled
    case Take(token, captured, stopped) =>
      && s'.live.Keys == s.live.Keys && s'.flights == s.flights - {token} && s'.cancelled == s.cancelled
      && added == (if token in s.flights then [Finished(s.flights[token].handle, token, Publishes(s, token, captured, stopped))] else [])
    case Snap(_, _, _) => added == [] && s'.live.Keys == s.live.Keys && s'.flights == s.flights && s'.cancelled == s.cancelled
    case Close(binding, h) =>
      && added == (if ValidBinding(binding) && h in s.live && s.live[h].binding == binding then [Closed(h)] else [])
      && s'.live.Keys == s.live.Keys - (if added == [] then {} else {h}) && s'.flights == s.flights
      && s'.cancelled == s.cancelled + (if added == [] then {} else FlightOf(s.live, h))
    case CloseBinding(binding) =>
      && added == (if ValidBinding(binding) && Bound(s.live, binding).Some? then [Closed(Bound(s.live, binding).value)] else [])
      && s'.live.Keys == s.live.Keys - (if added == [] then {} else {Bound(s.live, binding).value}) && s'.flights == s.flights
      && s'.cancelled == s.cancelled + (if ValidBinding(binding) then FlightsOf(s.live, binding) else {})
    case Cancel(token) => added == [] && s'.live == s.live && s'.flights == s.flights && s'.cancelled == s.cancelled + {token}
  }

  /** A completion publishes when its lease is live, its request not cancelled, and its frame good. */
  ghost predicate Publishes(s: State, token: Token, captured: Option<Capture>, stopped: bool)
    requires token in s.flights
  {
    s.flights[token].handle in s.live && token !in s.cancelled && Encode(s.flights[token].selected, captured, stopped).Some?
  }

  lemma RecordsOpen(t: Turn, s: State, s': State, opens: bool)
    requires t.Open? && s'.flights == s.flights && s'.cancelled == s.cancelled
    requires if opens then s'.next == s.next + 1 && s'.next in s'.live && s'.live == s.live[s'.next := s'.live[s'.next]]
             else s'.next == s.next && s'.live == s.live
    ensures Records(t, s, s', if opens then [Opened(s'.next)] else [])
  {
    if opens {
      assert s'.live.Keys == s.live.Keys + {s'.next};
    }
  }

  /** A table together with the jobs it handed out and its history. Each request brings its own token. */
  class Session {
    const table: Captures
    var flights: map<Token, Plan>
    var unused: Token
    ghost var log: seq<Event>

    ghost predicate Valid()
      reads this, table
    {
      && table.Valid() && flights == table.jobs
      && Lawful(log) && Agrees(log, table.next, table.live, table.jobs, unused)
    }

    ghost function Now(): State
      reads this, table
    {
      State(table.next, table.live, flights, unused, table.cancelled)
    }

    constructor ()
      ensures Valid() && fresh(table) && log == [] && Now() == State(0, map[], map[], 0, {})
    {
      table := new Captures();
      flights, unused, log := map[], 0, [];
    }

    method DoOpen(t: Turn)
      requires Valid() && t.Open?
      modifies this, table
      ensures Valid() && old(log) <= log && Records(t, old(Now()), Now(), log[|old(log)|..])
    {
      hide Good, Lawful, Agrees, Follows, ValidBinding, ValidId, Records;
      ghost var before, live := Now(), table.live;
      var problem, handle := table.Open(t.binding, t.targetId, t.generation, t.resolved, unused, t.cancelledAfter);
      RecordsOpen(t, before, State(table.next, table.live, flights, unused + 1, table.cancelled), problem.None?);
      if problem.None? {
        AgreesOpen(log, handle - 1, live, table.jobs, unused, table.live[handle]);
        LawfulNext(log, Opened(handle));
        log := log + [Opened(handle)];
      }
      assert log[|old(log)|..] == if problem.None? then [Opened(handle)] else [];
      AgreesFrame(log, table.next, table.live, table.live, table.jobs, unused);
      unused := unused + 1;
    }

    method DoStart(t: Turn)
      requires Valid() && t.Start?
      modifies this, table
      ensures Valid() && old(log) <= log && Records(t, old(Now()), Now(), log[|old(log)|..])
    {
      hide Good, Lawful, Agrees, Follows, ValidBinding;
      ghost var live := table.live;
      TokenUnused(log, table.next, table.live, table.jobs, unused);
      assert table.Valid();
      ghost var good := table.jobs;
      if t.handle in table.live && table.live[t.handle].flight.None? {
        AgreesStart(log, table.next, live, table.chosen, table.jobs, table.cancelled, unused, t.handle,
                    live[t.handle].(flight := Some(unused)), Plan(t.binding, t.handle, live[t.handle].target));
        LawfulNext(log, Started(t.handle, unused));
      }
      var problem, plan := table.PrepareFrame(t.binding, t.handle, unused, t.work);
      if plan.Some? {
        flights := flights[unused := plan.value];
        log := log + [Started(t.handle, unused)];
      } else {
        AgreesFrame(log, table.next, table.live, table.live, table.jobs, unused);
      }
      assert log[|old(log)|..] == if plan.Some? then [Started(t.handle, unused)] else [];
      assert flights.Keys - {unused} == old(flights.Keys);
      unused := unused + 1;
    }

    method DoTake(t: Turn)
      requires Valid() && t.Take?
      modifies this, table
      ensures Valid() && old(log) <= log && Records(t, old(Now()), Now(), log[|old(log)|..])
    {
      hide Good, Lawful, Agrees, Follows, ValidBinding;
      if t.token !in flights {
        assert flights - {t.token} == flights && log[|old(log)|..] == [];
        return;
      }
      var plan := flights[t.token];
      ghost var live, jobs := table.live, table.jobs;
      var problem, published := table.FinishFrame(plan, t.token, t.captured, t.stopped);
      assert table.live.Keys == live.Keys;
      AgreesFinish(log, table.next, live, table.live, jobs, unused, t.token, published.Some?);
      LawfulNext(log, Finished(plan.handle, t.token, published.Some?));
      flights := flights - {t.token};
      log := log + [Finished(plan.handle, t.token, published.Some?)];
      assert log[|old(log)|..] == [Finished(plan.handle, t.token, published.Some?)];
    }

    method DoSnap(t: Turn)
      requires Valid() && t.Snap?
      modifies this, table
      ensures Valid() && old(log) <= log && Records(t, old(Now()), Now(), log[|old(log)|..])
    {
      hide Good, Lawful, Agrees, ValidBinding;
      ghost var live := table.live;
      var problem := table.Frame(t.binding, t.handle, unused, t.captured);
      assert table.live.Keys == live.Keys;
      AgreesFrame(log, table.next, live, table.live, table.jobs, unused);
      assert log[|old(log)|..] == [];
      unused := unused + 1;
    }

    method DoClose(t: Turn)
      requires Valid() && t.Close?
      modifies this, table
      ensures Valid() && old(log) <= log && Records(t, old(Now()), Now(), log[|old(log)|..])
    {
      hide Good, Lawful, Agrees, Follows, ValidBinding;
      ghost var live := table.live;
      if t.handle in table.live {
        LiveHandle(table.next, table.live, table.chosen, table.jobs, table.cancelled, t.handle);
        AgreesClose(log, table.next, live, table.jobs, unused, t.handle);
        LawfulNext(log, Closed(t.handle));
      }
      var problem := table.Close(t.binding, t.handle);
      if problem.None? {
        log := log + [Closed(t.handle)];
      }
      assert log[|old(log)|..] == if problem.None? then [Closed(t.handle)] else [];
    }

    method DoCloseBinding(t: Turn)
      requires Valid() && t.CloseBinding?
      modifies this, table
      ensures Valid() && old(log) <= log && Records(t, old(Now()), Now(), log[|old(log)|..])
    {
      hide Good, Lawful, Agrees, Follows, ValidBinding, Without, FlightsOf;
      ghost var live, next, chosen, jobs, cancelled := table.live, table.next, table.chosen, table.jobs, table.cancelled;
      assert table.Valid();
      var problem := table.CloseBinding(t.binding);
      if problem.None? {
        ghost var gone := Bound(live, t.binding);
        WithoutIsOneLess(next, live, chosen, jobs, cancelled, t.binding);
        if gone.Some? {
          LiveHandle(next, live, chosen, jobs, cancelled, gone.value);
          AgreesClose(log, next, live, jobs, unused, gone.value);
          LawfulNext(log, Closed(gone.value));
          log := log + [Closed(gone.value)];
        }
      }
      assert log[|old(log)|..] == if problem.None? && Bound(live, t.binding).Some? then [Closed(Bound(live, t.binding).value)] else [];
    }

    method Do(t: Turn)
      requires Valid()
      modifies this, table
      ensures Valid() && old(log) <= log && Records(t, old(Now()), Now(), log[|old(log)|..])
    {
      match t {
        case Open(_, _, _, _, _) => DoOpen(t);
        case Start(_, _, _) => DoStart(t);
        case Take(_, _, _) => DoTake(t);
        case Snap(_, _, _) => DoSnap(t);
        case Close(_, _) => DoClose(t);
        case CloseBinding(_) => DoCloseBinding(t);
        case Cancel(token) =>
          table.Cancel(token);
          assert log[|old(log)|..] == [];
      }
    }
  }

  /** The handle of the binding's lease, if it has one. */
  ghost function Bound(live: map<nat, Lease>, binding: Binding): Option<nat> {
    if h :| h in live && live[h].binding == binding then Some(h) else None
  }

  lemma WithoutIsOneLess(next: nat, live: map<nat, Lease>, chosen: map<nat, Target>, jobs: map<Token, Plan>, cancelled: set<Token>,
                         binding: Binding)
    requires Good(next, live, chosen, jobs, cancelled)
    ensures var gone := Bound(live, binding);
            && (gone.Some? ==> gone.value in live && Without(live, binding) == live - {gone.value})
            && (gone.None? ==> Without(live, binding) == live)
  {
    hide Flights, Aimed;
    var gone := Bound(live, binding);
    if gone.Some? {
      OneLeaseEach(next, live, chosen, gone.value);
    }
  }

  lemma TokenUnused(log: seq<Event>, next: nat, live: map<nat, Lease>, jobs: map<Token, Plan>, unused: Token)
    requires Agrees(log, next, live, jobs, unused)
    ensures unused !in jobs
  {
  }

  /** The states between the turns, and the parts of the history the turns added, account for a whole run. */
  ghost predicate Accounts(turns: seq<Turn>, trace: seq<State>, parts: seq<seq<Event>>, log: seq<Event>) {
    && |trace| == |turns| + 1 && |parts| == |turns| && log == Joined(parts)
    && trace[0] == State(0, map[], map[], 0, {})
    && forall i :: 0 <= i < |turns| ==> Records(turns[i], trace[i], trace[i + 1], parts[i])
  }

  ghost function Joined(parts: seq<seq<Event>>): seq<Event> {
    if parts == [] then [] else Joined(parts[..|parts| - 1]) + parts[|parts| - 1]
  }

  lemma AccountsStart()
    ensures Accounts([], [State(0, map[], map[], 0, {})], [], [])
  {
  }

  lemma AccountsNext(turns: seq<Turn>, i: nat, trace: seq<State>, parts: seq<seq<Event>>, log: seq<Event>, log': seq<Event>, s: State)
    requires i < |turns| && |trace| == i + 1 && Accounts(turns[..i], trace, parts, log) && log <= log'
    requires Records(turns[i], trace[i], s, log'[|log|..])
    ensures Accounts(turns[..i + 1], trace + [s], parts + [log'[|log|..]], log')
  {
    hide Records;
    var added := log'[|log|..];
    assert (parts + [added])[..|parts|] == parts;
    assert log + added == log';
  }

  /** Every run from the start: the history is lawful, agrees with the table, and is exactly what the turns did. */
  method Serve(turns: seq<Turn>) returns (session: Session, ghost trace: seq<State>, ghost parts: seq<seq<Event>>)
    ensures fresh(session) && session.Valid() && Lawful(session.log)
    ensures |trace| == |turns| + 1 && Accounts(turns, trace, parts, session.log) && trace[|turns|] == session.Now()
  {
    hide Records, Lawful, Agrees, Good, Accounts;
    session := new Session();
    trace, parts := [session.Now()], [];
    AccountsStart();
    assert turns[..0] == [];
    for i := 0 to |turns|
      invariant fresh(session) && fresh(session.table) && session.Valid() && |trace| == i + 1
      invariant Accounts(turns[..i], trace, parts, session.log) && trace[i] == session.Now()
    {
      ghost var before := session.log;
      session.Do(turns[i]);
      AccountsNext(turns, i, trace, parts, before, session.log, session.Now());
      trace, parts := trace + [session.Now()], parts + [session.log[|before|..]];
    }
    assert turns[..|turns|] == turns;
  }
}
