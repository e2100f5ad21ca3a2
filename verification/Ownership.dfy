/** The participant-scoped ownership registry in the form the program keeps it: holds in a map
    stamped with ordinals, plus a second index from (collision domain, control) to its owner.
    Every method is proved to do to the ledger what the ledger function of the same name says. */
module Ownership {
  import opened Common
  import opened HoldLedger

  datatype Entry = Entry(release: Packet, ordinal: nat)
  datatype Session = Session(target: Identity, domain: string, holds: map<Control, Entry>,
                             ordinal: nat, last: Option<nat>)

  type Sessions = map<Participant, Session>
  type Owners = map<(string, Control), Participant>

  /** The map holds exactly the listed controls and releases, stamped in strictly increasing order. */
  ghost predicate Stamped(holds: map<Control, Entry>, ordinal: nat, held: seq<Hold>) {
    && DistinctControls(held)
    && (forall c :: c in holds <==> Holds(held, c))
    && (forall c :: c in holds ==> holds[c].ordinal <= ordinal)
    && (forall i :: 0 <= i < |held| ==> held[i].control in holds && holds[held[i].control].release == held[i].release)
    && (forall i, j :: 0 <= i < j < |held| ==> holds[held[i].control].ordinal < holds[held[j].control].ordinal)
  }

  ghost predicate Matches(s: Session, l: Lease) {
    && s.target == l.target && s.domain == l.domain && s.ordinal == l.acquired && s.last == l.last
    && Stamped(s.holds, s.ordinal, l.held)
  }

  ghost predicate Mirrors(sessions: Sessions, live: map<Participant, Lease>) {
    sessions.Keys == live.Keys && forall p :: p in sessions ==> Matches(sessions[p], live[p])
  }

  /** The owner index and the per-session holds are exact inverses of each other. */
  ghost predicate Inverse(sessions: Sessions, owners: Owners) {
    && (forall d, c :: (d, c) in owners ==> Has(sessions, owners[(d, c)], d, c))
    && (forall p, d, c :: Has(sessions, p, d, c) ==> (d, c) in owners && owners[(d, c)] == p)
  }

  ghost predicate Has(sessions: Sessions, p: Participant, d: string, c: Control) {
    p in sessions && sessions[p].domain == d && c in sessions[p].holds
  }

  /** Both indexes of the registry, taken together, represent the ledger. */
  ghost predicate Represents(sessions: Sessions, owners: Owners, l: Ledger) {
    Mirrors(sessions, l.live) && Inverse(sessions, owners) && Bounded(l)
  }

  // ---------------------------------------------------------------- one session's holds

  lemma StampedCount(holds: map<Control, Entry>, ordinal: nat, held: seq<Hold>)
    requires Stamped(holds, ordinal, held)
    ensures |holds| == |held|
  {
    var cs := seq(|held|, i requires 0 <= i < |held| => held[i].control);
    forall c | c in holds.Keys ensures c in cs {
      assert cs[Place(held, c)] == c;
    }
    CountDistinct(cs, holds.Keys);
  }

  lemma {:induction false} CountDistinct<T>(s: seq<T>, all: set<T>)
    requires Distinct(s) && forall x :: x in all <==> x in s
    ensures |s| == |all|
  {
    if s == [] {
      assert all == {};
    } else {
      var last, rest := s[|s| - 1], s[..|s| - 1];
      assert s == rest + [last];
      forall x | x in all - {last} ensures x in rest {
        var i :| 0 <= i < |s| && s[i] == x;
        assert rest[i] == x;
      }
      CountDistinct(rest, all - {last});
    }
  }

  lemma StampedEmpty()
    ensures Stamped(map[], 0, [])
  {
  }

  lemma StampedAdd(holds: map<Control, Entry>, ordinal: nat, held: seq<Hold>, h: Hold)
    requires Stamped(holds, ordinal, held) && h.control !in holds
    ensures Stamped(holds[h.control := Entry(h.release, ordinal + 1)], ordinal + 1, held + [h])
  {
    AppendKeys(held, h);
  }

  lemma StampedRemove(holds: map<Control, Entry>, ordinal: nat, held: seq<Hold>, c: Control)
    requires Stamped(holds, ordinal, held) && c in holds
    ensures Stamped(holds - {c}, ordinal, Without(held, c))
  {
    WithoutKeys(held, c);
    WithoutKeepsOrder(holds, held, c);
  }

  lemma WithoutKeepsOrder(holds: map<Control, Entry>, held: seq<Hold>, c: Control)
    requires DistinctControls(held) && Holds(held, c)
    requires forall i :: 0 <= i < |held| ==> held[i].control in holds && holds[held[i].control].release == held[i].release
    requires forall i, j :: 0 <= i < j < |held| ==> holds[held[i].control].ordinal < holds[held[j].control].ordinal
    ensures var left, r := holds - {c}, Without(held, c);
            && (forall i :: 0 <= i < |r| ==> r[i].control in left && left[r[i].control].release == r[i].release)
            && (forall i, j :: 0 <= i < j < |r| ==> left[r[i].control].ordinal < left[r[j].control].ordinal)
  {
    hide Holds;
    var i, r := Place(held, c), Without(held, c);
    assert forall j :: 0 <= j < |r| ==> r[j] == held[if j < i then j else j + 1];
  }

  lemma StampedReplace(holds: map<Control, Entry>, ordinal: nat, held: seq<Hold>, c: Control, release: Packet)
    requires Stamped(holds, ordinal, held) && c in holds
    ensures Stamped(holds[c := holds[c].(release := release)], ordinal, WithRelease(held, c, release))
  {
    WithReleaseKeys(held, c, release);
  }

  // ---------------------------------------------------------------- the two indexes

  lemma InverseAdd(sessions: Sessions, owners: Owners, p: Participant, s: Session, c: Control)
    requires Inverse(sessions, owners) && p in sessions && s.domain == sessions[p].domain
    requires (s.domain, c) !in owners && s.holds.Keys == sessions[p].holds.Keys + {c}
    ensures Inverse(sessions[p := s], owners[(s.domain, c) := p])
  {
    var sessions', owners' := sessions[p := s], owners[(s.domain, c) := p];
    forall q, d, k | Has(sessions', q, d, k) ensures (d, k) in owners' && owners'[(d, k)] == q {
      assert Has(sessions, q, d, k) || (q == p && d == s.domain && k == c);
    }
  }

  lemma InverseRemove(sessions: Sessions, owners: Owners, p: Participant, s: Session, c: Control)
    requires Inverse(sessions, owners) && p in sessions && s.domain == sessions[p].domain
    requires c in sessions[p].holds && s.holds.Keys == sessions[p].holds.Keys - {c}
    ensures Inverse(sessions[p := s], owners - {(s.domain, c)})
  {
    var sessions', owners' := sessions[p := s], owners - {(s.domain, c)};
    assert Has(sessions, p, s.domain, c);
    forall d, k | (d, k) in owners' ensures Has(sessions', owners[(d, k)], d, k) {
      assert Has(sessions, owners[(d, k)], d, k);
    }
    forall q, d, k | Has(sessions', q, d, k) ensures (d, k) in owners' && owners[(d, k)] == q {
      assert Has(sessions, q, d, k);
    }
  }

  lemma InverseSame(sessions: Sessions, owners: Owners, p: Participant, s: Session)
    requires Inverse(sessions, owners)
    requires if p in sessions then s.domain == sessions[p].domain && s.holds.Keys == sessions[p].holds.Keys
             else s.holds == map[]
    ensures Inverse(sessions[p := s], owners)
  {
    var sessions' := sessions[p := s];
    forall q, d, k ensures Has(sessions', q, d, k) <==> Has(sessions, q, d, k) {
    }
  }

  lemma InverseClose(sessions: Sessions, owners: Owners, p: Participant)
    requires Inverse(sessions, owners) && p in sessions
    ensures Inverse(sessions - {p}, owners - (set c | c in sessions[p].holds :: (sessions[p].domain, c)))
  {
    var gone := set c | c in sessions[p].holds :: (sessions[p].domain, c);
    forall d, k | (d, k) in owners - gone ensures Has(sessions - {p}, owners[(d, k)], d, k) {
      assert Has(sessions, owners[(d, k)], d, k);
    }
    forall q, d, k | Has(sessions - {p}, q, d, k) ensures (d, k) in owners - gone && owners[(d, k)] == q {
      assert Has(sessions, q, d, k);
      assert Has(sessions, p, d, k) ==> q == p;
    }
  }

  /** The index lookup answers exactly the ledger's question of who owns a control. */
  lemma IndexAnswers(sessions: Sessions, owners: Owners, l: Ledger, p: Participant, c: Control)
    requires Represents(sessions, owners, l)
    ensures p in sessions <==> p in l.live
    ensures p in sessions ==>
              && sessions[p].domain == l.live[p].domain
              && sessions[p].ordinal == l.live[p].acquired
              && |sessions[p].holds| == |l.live[p].held|
              && (c in sessions[p].holds <==> Holds(l.live[p].held, c))
              && ((sessions[p].domain, c) in owners <==> exists q :: Owns(l, q, l.live[p].domain, c))
              && (Holds(l.live[p].held, c) <==>
                  (sessions[p].domain, c) in owners && owners[(sessions[p].domain, c)] == p)
  {
    if p in sessions {
      StampedCount(sessions[p].holds, sessions[p].ordinal, l.live[p].held);
      var d := sessions[p].domain;
      if q :| Owns(l, q, d, c) {
        assert Has(sessions, q, d, c);
      }
      if (d, c) in owners {
        assert Has(sessions, owners[(d, c)], d, c) && Owns(l, owners[(d, c)], d, c);
      }
      assert c in sessions[p].holds ==> Has(sessions, p, d, c);
    }
  }

  lemma SessionFields(sessions: Sessions, owners: Owners, l: Ledger, p: Participant)
    requires Represents(sessions, owners, l)
    ensures |sessions| == |l.live| && (p in sessions <==> p in l.live)
    ensures p in sessions ==> Matches(sessions[p], l.live[p])
  {
    assert |sessions.Keys| == |l.live.Keys|;
  }

  /** Whatever the registry represents is exclusive: the index cannot name two owners of one control. */
  lemma RepresentedIsExclusive(sessions: Sessions, owners: Owners, l: Ledger)
    requires Represents(sessions, owners, l)
    ensures Exclusive(l)
  {
    forall p, q, d, c | Owns(l, p, d, c) && Owns(l, q, d, c) ensures p == q {
      assert Has(sessions, p, d, c) && Has(sessions, q, d, c);
    }
  }

  // ---------------------------------------------------------------- each change keeps the representation

  lemma OpenKeeps(sessions: Sessions, owners: Owners, l: Ledger, target: Identity, domain: string)
    requires Represents(sessions, owners, l) && HoldLedger.Open(l, target, domain).1.Ok?
    ensures var (l', r) := HoldLedger.Open(l, target, domain);
            Represents(sessions[r.value := Session(target, domain, map[], 0, None)], owners, l')
  {
    hide Inverse, Matches, Mirrors, Bounded;
    EmptyMatches(target, domain);
    var (l', r) := HoldLedger.Open(l, target, domain);
    FreshToken(sessions, owners, l);
    InverseSame(sessions, owners, r.value, Session(target, domain, map[], 0, None));
    MirrorsSet(sessions, l.live, r.value, Session(target, domain, map[], 0, None), Lease(target, domain, [], 0, None));
    BoundedOpen(l, target, domain);
  }

  lemma FreshToken(sessions: Sessions, owners: Owners, l: Ledger)
    requires Represents(sessions, owners, l)
    ensures Participant(l.registry, l.next + 1) !in sessions
  {
    hide Inverse, Matches;
  }

  lemma EmptyMatches(target: Identity, domain: string)
    ensures Matches(Session(target, domain, map[], 0, None), Lease(target, domain, [], 0, None))
  {
    hide Stamped;
    StampedEmpty();
  }

  lemma MirrorsSet(sessions: Sessions, live: map<Participant, Lease>, p: Participant, s: Session, lease: Lease)
    requires Mirrors(sessions, live) && Matches(s, lease)
    ensures Mirrors(sessions[p := s], live[p := lease])
  {
    hide Matches;
    assert sessions[p := s].Keys == live[p := lease].Keys;
  }

  lemma BoundedOpen(l: Ledger, target: Identity, domain: string)
    requires Bounded(l) && HoldLedger.Open(l, target, domain).1.Ok?
    ensures Bounded(HoldLedger.Open(l, target, domain).0)
  {
    var (l', r) := HoldLedger.Open(l, target, domain);
    assert l'.live.Keys == l.live.Keys + {r.value};
  }

  lemma BoundedSet(l: Ledger, p: Participant, lease: Lease)
    requires Bounded(l) && p in l.live && |lease.held| <= l.maxHeld
    ensures Bounded(l.(live := l.live[p := lease]))
  {
    assert l.live[p := lease].Keys == l.live.Keys;
  }

  /** Changing one session alone, leaving its domain and both limits as they were. */
  lemma SessionKeeps(sessions: Sessions, owners: Owners, l: Ledger, p: Participant,
                     s: Session, lease: Lease, owners': Owners)
    requires Represents(sessions, owners, l) && p in sessions
    requires Matches(s, lease) && |lease.held| <= l.maxHeld
    requires Inverse(sessions[p := s], owners')
    ensures Represents(sessions[p := s], owners', l.(live := l.live[p := lease]))
  {
    hide Inverse, Matches, Bounded;
    assert p in l.live;
    hide Mirrors;
    MirrorsSet(sessions, l.live, p, s, lease);
    BoundedSet(l, p, lease);
  }

  lemma SequenceKeeps(sessions: Sessions, owners: Owners, l: Ledger, p: Participant, sequence: nat)
    requires Represents(sessions, owners, l) && HoldLedger.AcceptSequence(l, p, sequence).1.Ok?
    ensures p in sessions
    ensures Represents(sessions[p := sessions[p].(last := Some(sequence))], owners,
                       HoldLedger.AcceptSequence(l, p, sequence).0)
  {
    hide Inverse, Stamped;
    var s := sessions[p].(last := Some(sequence));
    InverseSame(sessions, owners, p, s);
    SessionKeeps(sessions, owners, l, p, s, l.live[p].(last := Some(sequence)), owners);
  }

  lemma AcquireKeeps(sessions: Sessions, owners: Owners, l: Ledger, p: Participant, c: Control, release: Packet)
    requires Represents(sessions, owners, l) && HoldLedger.Acquire(l, p, c, release).1.Ok?
    ensures p in sessions
    ensures var s := sessions[p];
            Represents(sessions[p := s.(ordinal := s.ordinal + 1, holds := s.holds[c := Entry(release, s.ordinal + 1)])],
                       owners[(s.domain, c) := p], HoldLedger.Acquire(l, p, c, release).0)
  {
    hide Inverse, Stamped, Holds, Owns, Bounded;
    IndexAnswers(sessions, owners, l, p, c);
    var s, lease := sessions[p], l.live[p];
    var s' := s.(ordinal := s.ordinal + 1, holds := s.holds[c := Entry(release, s.ordinal + 1)]);
    StampedAdd(s.holds, s.ordinal, lease.held, Hold(c, release));
    InverseAdd(sessions, owners, p, s', c);
    SessionKeeps(sessions, owners, l, p, s',
                 lease.(held := lease.held + [Hold(c, release)], acquired := lease.acquired + 1),
                 owners[(s.domain, c) := p]);
  }

  lemma HeldAnswers(sessions: Sessions, owners: Owners, l: Ledger, p: Participant, c: Control)
    requires Represents(sessions, owners, l) && p in sessions
    ensures c in sessions[p].holds ==> HoldLedger.Held(l, p, c) == Ok(sessions[p].holds[c].release)
    ensures c !in sessions[p].holds ==> HoldLedger.Held(l, p, c) == Err(NotHeld)
  {
  }

  lemma ReplaceKeeps(sessions: Sessions, owners: Owners, l: Ledger, p: Participant, c: Control, release: Packet)
    requires Represents(sessions, owners, l) && p in sessions && c in sessions[p].holds
    ensures var s := sessions[p];
            Represents(sessions[p := s.(holds := s.holds[c := s.holds[c].(release := release)])], owners,
                       HoldLedger.ReplaceRelease(l, p, c, release).0)
  {
    hide Inverse, Stamped, Holds, WithRelease;
    HeldAnswers(sessions, owners, l, p, c);
    var s, lease := sessions[p], l.live[p];
    var s' := s.(holds := s.holds[c := s.holds[c].(release := release)]);
    StampedReplace(s.holds, s.ordinal, lease.held, c, release);
    InverseSame(sessions, owners, p, s');
    SessionKeeps(sessions, owners, l, p, s', lease.(held := WithRelease(lease.held, c, release)), owners);
  }

  lemma ReleaseKeeps(sessions: Sessions, owners: Owners, l: Ledger, p: Participant, c: Control)
    requires Represents(sessions, owners, l) && p in sessions && c in sessions[p].holds
    ensures var s := sessions[p];
            Represents(sessions[p := s.(holds := s.holds - {c})], owners - {(s.domain, c)},
                       HoldLedger.Release(l, p, c).0)
  {
    HeldAnswers(sessions, owners, l, p, c);
    hide Inverse, Stamped, Holds;
    var s, lease := sessions[p], l.live[p];
    var s' := s.(holds := s.holds - {c});
    StampedRemove(s.holds, s.ordinal, lease.held, c);
    InverseRemove(sessions, owners, p, s', c);
    SessionKeeps(sessions, owners, l, p, s', lease.(held := Without(lease.held, c)), owners - {(s.domain, c)});
  }

  lemma CloseKeeps(sessions: Sessions, owners: Owners, l: Ledger, p: Participant)
    requires Represents(sessions, owners, l) && p in sessions
    ensures Represents(sessions - {p}, owners - (set c | c in sessions[p].holds :: (sessions[p].domain, c)),
                       HoldLedger.Close(l, p).0)
  {
    hide Inverse, Stamped;
    InverseClose(sessions, owners, p);
    assert (l.live - {p}).Keys == l.live.Keys - {p};
    assert |(l.live - {p}).Keys| == |l.live.Keys| - 1;
  }

  class Registry {
    var sessions: Sessions
    var owners: Owners
    var next: nat
    const registry: nat
    const maxSessions: nat
    const maxHeld: nat
    /** The ledger this registry represents. */
    ghost var ledger: Ledger

    ghost predicate Valid()
      reads this
    {
      && ledger.registry == registry && ledger.next == next
      && ledger.maxSessions == maxSessions && ledger.maxHeld == maxHeld
      && Represents(sessions, owners, ledger)
    }

    constructor (registry: nat, maxSessions: nat, maxHeld: nat)
      ensures Valid() && ledger == Ledger(registry, 0, maxSessions, maxHeld, map[])
    {
      this.registry, this.maxSessions, this.maxHeld := registry, maxSessions, maxHeld;
      sessions, owners, next := map[], map[], 0;
      ledger := Ledger(registry, 0, maxSessions, maxHeld, map[]);
    }

    method Open(target: Identity, domain: string) returns (r: Result<Participant>)
      requires Valid()
      modifies this
      ensures Valid()
      ensures (ledger, r) == HoldLedger.Open(old(ledger), target, domain)
    {
      hide Represents;
      SessionFields(sessions, owners, ledger, Participant(0, 0));
      if registry == 0 || |sessions| >= maxSessions {
        return Err(Capacity);
      }
      if next >= U64_MAX {
        return Err(Capacity);
      }
      OpenKeeps(sessions, owners, ledger, target, domain);
      next := next + 1;
      var owner := Participant(registry, next);
      sessions := sessions[owner := Session(target, domain, map[], 0, None)];
      ledger := HoldLedger.Open(ledger, target, domain).0;
      return Ok(owner);
    }

    method Target(owner: Participant) returns (r: Result<Identity>)
      requires Valid()
      ensures r == if owner in ledger.live then Ok(ledger.live[owner].target) else Err(SessionNotFound)
    {
      if owner !in sessions {
        return Err(SessionNotFound);
      }
      return Ok(sessions[owner].target);
    }

    method AcceptSequence(owner: Participant, sequence: nat) returns (r: Result<()>)
      requires Valid()
      modifies this
      ensures Valid()
      ensures (ledger, r) == HoldLedger.AcceptSequence(old(ledger), owner, sequence)
    {
      hide Represents;
      SessionFields(sessions, owners, ledger, owner);
      if owner !in sessions {
        return Err(SessionNotFound);
      }
      var session := sessions[owner];
      if session.last.Some? && sequence <= session.last.value {
        return Err(StaleInput);
      }
      SequenceKeeps(sessions, owners, ledger, owner, sequence);
      sessions := sessions[owner := session.(last := Some(sequence))];
      ledger := HoldLedger.AcceptSequence(ledger, owner, sequence).0;
      return Ok(());
    }

    method Available(owner: Participant, control: Control) returns (r: Result<()>)
      requires Valid()
      ensures r == HoldLedger.Available(ledger, owner, control)
    {
      hide Represents, Holds, Owns;
      IndexAnswers(sessions, owners, ledger, owner, control);
      if owner !in sessions {
        return Err(SessionNotFound);
      }
      var key := (sessions[owner].domain, control);
      if key in owners && owners[key] == owner {
        return Err(AlreadyHeld);
      }
      if key in owners {
        return Err(Conflict);
      }
      return Ok(());
    }

    method Acquire(owner: Participant, control: Control, release: Packet) returns (r: Result<()>)
      requires Valid()
      modifies this
      ensures Valid()
      ensures (ledger, r) == HoldLedger.Acquire(old(ledger), owner, control, release)
    {
      hide Represents, Holds, Owns;
      IndexAnswers(sessions, owners, ledger, owner, control);
      if owner !in sessions {
        return Err(SessionNotFound);
      }
      var session := sessions[owner];
      if control in session.holds {
        return Err(AlreadyHeld);
      }
      if |session.holds| >= maxHeld {
        return Err(Capacity);
      }
      var key := (session.domain, control);
      if key in owners {
        return Err(Conflict);
      }
      if session.ordinal >= U64_MAX {
        return Err(Capacity);
      }
      AcquireKeeps(sessions, owners, ledger, owner, control, release);
      sessions := sessions[owner := session.(ordinal := session.ordinal + 1,
        holds := session.holds[control := Entry(release, session.ordinal + 1)])];
      owners := owners[key := owner];
      ledger := HoldLedger.Acquire(ledger, owner, control, release).0;
      return Ok(());
    }

    method Held(owner: Participant, control: Control) returns (r: Result<Packet>)
      requires Valid()
      ensures r == HoldLedger.Held(ledger, owner, control)
    {
      hide Represents, Holds;
      SessionFields(sessions, owners, ledger, owner);
      if owner !in sessions {
        return Err(SessionNotFound);
      }
      HeldAnswers(sessions, owners, ledger, owner, control);
      if control !in sessions[owner].holds {
        return Err(NotHeld);
      }
      return Ok(sessions[owner].holds[control].release);
    }

    method ReplaceRelease(owner: Participant, control: Control, release: Packet) returns (r: Result<Packet>)
      requires Valid()
      modifies this
      ensures Valid()
      ensures (ledger, r) == HoldLedger.ReplaceRelease(old(ledger), owner, control, release)
    {
      hide Represents, Holds, Matches;
      SessionFields(sessions, owners, ledger, owner);
      if owner !in sessions {
        return Err(SessionNotFound);
      }
      var session := sessions[owner];
      HeldAnswers(sessions, owners, ledger, owner, control);
      if control !in session.holds {
        return Err(NotHeld);
      }
      ReplaceKeeps(sessions, owners, ledger, owner, control, release);
      sessions := sessions[owner :=
        session.(holds := session.holds[control := session.holds[control].(release := release)])];
      ledger := HoldLedger.ReplaceRelease(ledger, owner, control, release).0;
      return Ok(session.holds[control].release);
    }

    method Release(owner: Participant, control: Control) returns (r: Result<Packet>)
      requires Valid()
      modifies this
      ensures Valid()
      ensures (ledger, r) == HoldLedger.Release(old(ledger), owner, control)
    {
      hide Represents, Holds, Matches;
      SessionFields(sessions, owners, ledger, owner);
      if owner !in sessions {
        return Err(SessionNotFound);
      }
      var session := sessions[owner];
      HeldAnswers(sessions, owners, ledger, owner, control);
      if control !in session.holds {
        return Err(NotHeld);
      }
      ReleaseKeeps(sessions, owners, ledger, owner, control);
      sessions := sessions[owner := session.(holds := session.holds - {control})];
      owners := owners - {(session.domain, control)};
      ledger := HoldLedger.Release(ledger, owner, control).0;
      return Ok(session.holds[control].release);
    }

    method Close(owner: Participant) returns (releases: seq<Packet>)
      requires Valid()
      modifies this
      ensures Valid()
      ensures (ledger, releases) == HoldLedger.Close(old(ledger), owner)
    {
      hide Represents, Stamped;
      SessionFields(sessions, owners, ledger, owner);
      if owner !in sessions {
        return [];
      }
      var session := sessions[owner];
      CloseKeeps(sessions, owners, ledger, owner);
      releases := NewestFirst(session.holds, session.ordinal, ledger.live[owner].held);
      owners := owners - (set c | c in session.holds :: (session.domain, c));
      sessions := sessions - {owner};
      ledger := HoldLedger.Close(ledger, owner).0;
    }
  }

  /** The last listed hold is the only one with the largest ordinal. */
  lemma Newest(holds: map<Control, Entry>, ordinal: nat, held: seq<Hold>)
    requires Stamped(holds, ordinal, held) && held != []
    ensures var top := held[|held| - 1];
            && top.control in holds && holds[top.control].release == top.release
            && forall c :: c in holds && c != top.control ==> holds[c].ordinal < holds[top.control].ordinal
    ensures Stamped(holds - {held[|held| - 1].control}, ordinal, held[..|held| - 1])
  {
    var top := held[|held| - 1].control;
    forall c | c in holds && c != top ensures holds[c].ordinal < holds[top].ordinal {
      assert held[Place(held, c)].control == c;
    }
    StampedRemove(holds, ordinal, held, top);
    assert Without(held, top) == held[..|held| - 1];
  }

  /** Sorting the drained holds by descending ordinal yields exact reverse acquisition order. */
  method NewestFirst(holds: map<Control, Entry>, ordinal: nat, ghost held: seq<Hold>) returns (releases: seq<Packet>)
    requires Stamped(holds, ordinal, held)
    ensures releases == Reverse(Releases(held))
  {
    hide Stamped;
    var rest := holds;
    releases := [];
    ghost var left := held;
    StampedCount(rest, ordinal, left);
    while rest != map[]
      invariant Stamped(rest, ordinal, left) && |rest| == |left|
      invariant left <= held
      invariant |releases| == |held| - |left|
      invariant forall i :: 0 <= i < |releases| ==> releases[i] == held[|held| - 1 - i].release
      decreases |left|
    {
      Newest(rest, ordinal, left);
      ghost var top := left[|left| - 1].control;
      assert top in rest && forall k :: k in rest ==> rest[k].ordinal <= rest[top].ordinal;
      var c :| c in rest && forall k :: k in rest ==> rest[k].ordinal <= rest[c].ordinal;
      assert c == top;
      releases := releases + [rest[c].release];
      rest := rest - {c};
      left := left[..|left| - 1];
      StampedCount(rest, ordinal, left);
    }
    assert left == [];
  }
}
