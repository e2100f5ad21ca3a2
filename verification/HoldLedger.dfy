/** Input ownership as a ledger: every live participant with the controls it holds, listed in
    acquisition order. This is the simple form; the registry the program keeps refines it. */
module HoldLedger {
  import opened Common

  /** The backend's collision key and its prepared native packet. */
  type Control(==, !new)
  type Packet(==, !new)

  datatype Identity = Identity(id: string, generation: nat)
  datatype Participant = Participant(registry: nat, sequence: nat)
  datatype Error = SessionNotFound | Capacity | AlreadyHeld | Conflict | NotHeld | StaleInput
  datatype Result<+T> = Ok(value: T) | Err(error: Error)

  datatype Hold = Hold(control: Control, release: Packet)

  datatype Lease = Lease(target: Identity, domain: string, held: seq<Hold>, acquired: nat, last: Option<nat>)

  datatype Ledger = Ledger(registry: nat, next: nat, maxSessions: nat, maxHeld: nat,
                           live: map<Participant, Lease>)

  predicate Holds(held: seq<Hold>, c: Control) {
    exists i :: 0 <= i < |held| && held[i].control == c
  }

  ghost predicate Owns(l: Ledger, p: Participant, domain: string, c: Control) {
    p in l.live && l.live[p].domain == domain && Holds(l.live[p].held, c)
  }

  /** No control of a collision domain is held twice, by one participant or by two. */
  ghost predicate Exclusive(l: Ledger) {
    && (forall p, q, d, c :: Owns(l, p, d, c) && Owns(l, q, d, c) ==> p == q)
    && (forall p :: p in l.live ==> DistinctControls(l.live[p].held))
  }

  ghost predicate DistinctControls(held: seq<Hold>) {
    forall i, j :: 0 <= i < j < |held| ==> held[i].control != held[j].control
  }

  /** Tokens carry the registry number and a sequence already handed out; both limits hold. */
  ghost predicate Bounded(l: Ledger) {
    && l.next <= U64_MAX
    && |l.live| <= l.maxSessions
    && (forall p :: p in l.live ==>
          p.registry == l.registry && 1 <= p.sequence <= l.next && |l.live[p].held| <= l.maxHeld)
  }

  ghost function Place(held: seq<Hold>, c: Control): (i: nat)
    requires Holds(held, c)
    ensures i < |held| && held[i].control == c
  {
    var i :| 0 <= i < |held| && held[i].control == c;
    i
  }

  ghost function Without(held: seq<Hold>, c: Control): (r: seq<Hold>)
    requires Holds(held, c)
    ensures |r| == |held| - 1
  {
    var i := Place(held, c);
    held[..i] + held[i + 1..]
  }

  ghost function WithRelease(held: seq<Hold>, c: Control, release: Packet): (r: seq<Hold>)
    requires Holds(held, c)
    ensures |r| == |held|
  {
    held[Place(held, c) := Hold(c, release)]
  }

  lemma PlaceIsUnique(held: seq<Hold>, c: Control, i: nat)
    requires DistinctControls(held) && i < |held| && held[i].control == c
    ensures Holds(held, c) && Place(held, c) == i
  {
  }

  lemma WithoutKeys(held: seq<Hold>, c: Control)
    requires DistinctControls(held) && Holds(held, c)
    ensures DistinctControls(Without(held, c))
    ensures forall k :: Holds(Without(held, c), k) <==> Holds(held, k) && k != c
  {
    var i, r := Place(held, c), Without(held, c);
    forall k | Holds(held, k) && k != c ensures Holds(r, k) {
      var j := Place(held, k);
      assert r[if j < i then j else j - 1].control == k;
    }
    forall k | Holds(r, k) ensures Holds(held, k) && k != c {
      var j := Place(r, k);
      assert held[if j < i then j else j + 1].control == k;
    }
  }

  lemma WithReleaseKeys(held: seq<Hold>, c: Control, release: Packet)
    requires Holds(held, c)
    ensures DistinctControls(held) ==> DistinctControls(WithRelease(held, c, release))
    ensures forall k :: Holds(WithRelease(held, c, release), k) <==> Holds(held, k)
  {
    var i, r := Place(held, c), WithRelease(held, c, release);
    assert r[i].control == c;
    assert forall j :: 0 <= j < |held| ==> r[j].control == held[j].control;
  }

  lemma AppendKeys(held: seq<Hold>, h: Hold)
    ensures DistinctControls(held) && !Holds(held, h.control) ==> DistinctControls(held + [h])
    ensures forall k :: Holds(held + [h], k) <==> Holds(held, k) || k == h.control
  {
    var r := held + [h];
    assert r[|held|] == h;
    forall k | Holds(held, k) ensures Holds(r, k) {
      assert r[Place(held, k)].control == k;
    }
  }

  ghost function Open(l: Ledger, target: Identity, domain: string): (Ledger, Result<Participant>) {
    if l.registry == 0 || |l.live| >= l.maxSessions || l.next >= U64_MAX then (l, Err(Capacity))
    else
      var p := Participant(l.registry, l.next + 1);
      (l.(next := l.next + 1, live := l.live[p := Lease(target, domain, [], 0, None)]), Ok(p))
  }

  ghost function AcceptSequence(l: Ledger, p: Participant, sequence: nat): (Ledger, Result<()>) {
    if p !in l.live then (l, Err(SessionNotFound))
    else if l.live[p].last.Some? && sequence <= l.live[p].last.value then (l, Err(StaleInput))
    else (l.(live := l.live[p := l.live[p].(last := Some(sequence))]), Ok(()))
  }

  ghost function Available(l: Ledger, p: Participant, c: Control): Result<()> {
    if p !in l.live then Err(SessionNotFound)
    else if Holds(l.live[p].held, c) then Err(AlreadyHeld)
    else if exists q :: Owns(l, q, l.live[p].domain, c) then Err(Conflict)
    else Ok(())
  }

  ghost function Acquire(l: Ledger, p: Participant, c: Control, release: Packet): (Ledger, Result<()>) {
    if p !in l.live then (l, Err(SessionNotFound))
    else
      var s := l.live[p];
      if Holds(s.held, c) then (l, Err(AlreadyHeld))
      else if |s.held| >= l.maxHeld then (l, Err(Capacity))
      else if exists q :: Owns(l, q, s.domain, c) then (l, Err(Conflict))
      else if s.acquired >= U64_MAX then (l, Err(Capacity))
      else (l.(live := l.live[p := s.(held := s.held + [Hold(c, release)], acquired := s.acquired + 1)]), Ok(()))
  }

  ghost function Held(l: Ledger, p: Participant, c: Control): Result<Packet> {
    if p !in l.live then Err(SessionNotFound)
    else if !Holds(l.live[p].held, c) then Err(NotHeld)
    else Ok(l.live[p].held[Place(l.live[p].held, c)].release)
  }

  ghost function ReplaceRelease(l: Ledger, p: Participant, c: Control, release: Packet): (Ledger, Result<Packet>) {
    var was := Held(l, p, c);
    if was.Err? then (l, was)
    else (l.(live := l.live[p := l.live[p].(held := WithRelease(l.live[p].held, c, release))]), was)
  }

  ghost function Release(l: Ledger, p: Participant, c: Control): (Ledger, Result<Packet>) {
    var was := Held(l, p, c);
    if was.Err? then (l, was)
    else (l.(live := l.live[p := l.live[p].(held := Without(l.live[p].held, c))]), was)
  }

  ghost function Releases(held: seq<Hold>): (rs: seq<Packet>)
    ensures |rs| == |held|
  {
    seq(|held|, i requires 0 <= i < |held| => held[i].release)
  }

  ghost function Close(l: Ledger, p: Participant): (Ledger, seq<Packet>) {
    if p !in l.live then (l, [])
    else (l.(live := l.live - {p}), Reverse(Releases(l.live[p].held)))
  }

  // ---------------------------------------------------------------- every change keeps the ledger good

  ghost predicate Good(l: Ledger) {
    Exclusive(l) && Bounded(l)
  }

  lemma OpenGood(l: Ledger, target: Identity, domain: string)
    requires Good(l)
    ensures Good(Open(l, target, domain).0)
  {
    var l' := Open(l, target, domain).0;
    assert |l'.live| <= |l.live| + 1;
    assert forall p, d, c :: Owns(l', p, d, c) <==> Owns(l, p, d, c);
  }

  /** Replacing one lease keeps the ledger good when its new controls are its old ones and a free one. */
  lemma LeaseGood(l: Ledger, p: Participant, lease: Lease, extra: set<Control>)
    requires Good(l) && p in l.live && lease.domain == l.live[p].domain
    requires DistinctControls(lease.held) && |lease.held| <= l.maxHeld
    requires forall c :: Holds(lease.held, c) ==> Holds(l.live[p].held, c) || c in extra
    requires forall c :: c in extra ==> forall q :: !Owns(l, q, lease.domain, c)
    ensures Good(l.(live := l.live[p := lease]))
  {
    hide Holds;
    var l' := l.(live := l.live[p := lease]);
    assert l'.live.Keys == l.live.Keys && |l'.live| == |l.live|;
    forall q, r, d, c | Owns(l', q, d, c) && Owns(l', r, d, c) ensures q == r {
      assert q != p ==> Owns(l, q, d, c);
      assert r != p ==> Owns(l, r, d, c);
      assert Owns(l', p, d, c) ==> Owns(l, p, d, c) || c in extra;
    }
  }

  lemma SequenceGood(l: Ledger, p: Participant, sequence: nat)
    requires Good(l)
    ensures Good(AcceptSequence(l, p, sequence).0)
  {
    if p in l.live {
      LeaseGood(l, p, l.live[p].(last := Some(sequence)), {});
    }
  }

  lemma LeaseFacts(l: Ledger, p: Participant)
    requires Good(l) && p in l.live
    ensures DistinctControls(l.live[p].held) && |l.live[p].held| <= l.maxHeld
  {
  }

  lemma AcquireGood(l: Ledger, p: Participant, c: Control, release: Packet)
    requires Good(l)
    ensures Good(Acquire(l, p, c, release).0)
  {
    hide Owns, Holds, DistinctControls, Good;
    if Acquire(l, p, c, release).1.Ok? {
      var s := l.live[p];
      LeaseFacts(l, p);
      AppendKeys(s.held, Hold(c, release));
      LeaseGood(l, p, s.(held := s.held + [Hold(c, release)], acquired := s.acquired + 1), {c});
    }
  }

  lemma ReplaceGood(l: Ledger, p: Participant, c: Control, release: Packet)
    requires Good(l)
    ensures Good(ReplaceRelease(l, p, c, release).0)
  {
    hide Owns, Holds, DistinctControls, Good, WithRelease;
    if Held(l, p, c).Ok? {
      LeaseFacts(l, p);
      WithReleaseKeys(l.live[p].held, c, release);
      LeaseGood(l, p, l.live[p].(held := WithRelease(l.live[p].held, c, release)), {});
    }
  }

  lemma ReleaseGood(l: Ledger, p: Participant, c: Control)
    requires Good(l)
    ensures Good(Release(l, p, c).0)
  {
    hide Owns, Holds, DistinctControls, Good, Without;
    if Held(l, p, c).Ok? {
      LeaseFacts(l, p);
      WithoutKeys(l.live[p].held, c);
      LeaseGood(l, p, l.live[p].(held := Without(l.live[p].held, c)), {});
    }
  }

  lemma CloseGood(l: Ledger, p: Participant)
    requires Good(l)
    ensures Good(l.(live := l.live - {p})) && Good(Close(l, p).0)
  {
    hide Exclusive, Bounded;
    CloseExclusive(l, p);
    CloseBounded(l, p);
  }

  lemma CloseExclusive(l: Ledger, p: Participant)
    requires Exclusive(l)
    ensures Exclusive(l.(live := l.live - {p}))
  {
    hide Holds;
    var l' := l.(live := l.live - {p});
    forall q, r, d, c | Owns(l', q, d, c) && Owns(l', r, d, c) ensures q == r {
      assert Owns(l, q, d, c) && Owns(l, r, d, c);
    }
  }

  lemma CloseBounded(l: Ledger, p: Participant)
    requires Bounded(l)
    ensures Bounded(l.(live := l.live - {p}))
  {
    hide Holds, DistinctControls;
    var l' := l.(live := l.live - {p});
    SubsetSize(l'.live.Keys, l.live.Keys);
  }
}
