/** Cursor pagination of the target inventory under a count and a byte budget. */
module Inventory {
  import opened Common
  import opened Identifiers

  const MAX_TARGETS: nat := 256
  const MAX_PAGE_BYTES: nat := 31 * 1024

  /** `bytes` is the length of the escaped JSON text with the largest generation; `sound` is the outcome of
      the checks on bounds, generation, scale, pixels and titles. */
  datatype Target = Target(id: string, bytes: nat, sound: bool)

  datatype Fault = InvalidIdentifier | InvalidTarget | DuplicateTarget | OversizedTarget

  datatype TargetPage = TargetPage(targets: seq<Target>, truncated: bool, nextCursor: Option<string>)

  datatype Paged = Page(page: TargetPage) | Refused(fault: Fault)

  // ---- Identifiers in byte order ----

  /** Strict lexicographic order. */
  predicate Less(a: string, b: string) {
    b != [] && (a == [] || a[0] < b[0] || (a[0] == b[0] && Less(a[1..], b[1..])))
  }

  lemma {:induction false} LessTransitive(a: string, b: string, c: string)
    requires Less(a, b) && Less(b, c)
    ensures Less(a, c)
  {
    if a != [] && a[0] == b[0] && b[0] == c[0] {
      LessTransitive(a[1..], b[1..], c[1..]);
    }
  }

  lemma {:induction false} LessTotal(a: string, b: string)
    ensures Less(a, b) || a == b || Less(b, a)
    ensures !(Less(a, b) && Less(b, a)) && !Less(a, a)
  {
    if a != [] {
      LessTotal(a[1..], a[1..]);
    }
    if a != [] && b != [] && a[0] == b[0] {
      LessTotal(a[1..], b[1..]);
      assert a == [a[0]] + a[1..] && b == [b[0]] + b[1..];
    }
  }

  // ---- Sorting ----

  predicate Ascending(ts: seq<Target>) {
    forall i, j :: 0 <= i < j < |ts| ==> !Less(ts[j].id, ts[i].id)
  }

  predicate Strict(ts: seq<Target>) {
    forall i, j :: 0 <= i < j < |ts| ==> Less(ts[i].id, ts[j].id)
  }

  /** Stable: a target goes behind those of the same identifier. */
  function Insert(t: Target, ts: seq<Target>): seq<Target> {
    if ts == [] || !Less(t.id, ts[|ts| - 1].id) then ts + [t]
    else Insert(t, ts[..|ts| - 1]) + [ts[|ts| - 1]]
  }

  function Sort(ts: seq<Target>): seq<Target> {
    if ts == [] then [] else Insert(ts[|ts| - 1], Sort(ts[..|ts| - 1]))
  }

  lemma {:induction false} InsertKeeps(t: Target, ts: seq<Target>)
    ensures multiset(Insert(t, ts)) == multiset(ts) + multiset{t}
  {
    hide Less;
    if ts != [] && Less(t.id, ts[|ts| - 1].id) {
      InsertKeeps(t, ts[..|ts| - 1]);
      assert ts == ts[..|ts| - 1] + [ts[|ts| - 1]];
    }
  }

  lemma {:induction false} InsertAscends(t: Target, ts: seq<Target>)
    requires Ascending(ts)
    ensures Ascending(Insert(t, ts))
  {
    hide Less;
    var next := Insert(t, ts);
    if ts == [] || !Less(t.id, ts[|ts| - 1].id) {
      forall i | 0 <= i < |ts| ensures !Less(t.id, ts[i].id) {
        if Less(t.id, ts[i].id) {
          NotLessThrough(t.id, ts[i].id, ts[|ts| - 1].id);
        }
      }
    } else {
      var front, last := ts[..|ts| - 1], ts[|ts| - 1];
      InsertAscends(t, front);
      InsertKeeps(t, front);
      forall i | 0 <= i < |next| - 1 ensures !Less(last.id, next[i].id) {
        assert next[i] in multiset(Insert(t, front));
        LessTotal(t.id, last.id);
      }
    }
  }

  lemma NotLessThrough(a: string, b: string, c: string)
    requires Less(a, b) && !Less(c, b)
    ensures Less(a, c)
  {
    LessTotal(b, c);
    if b != c {
      LessTransitive(a, b, c);
    }
  }

  /** Sorting yields the same targets in ascending order. */
  lemma {:induction false} SortSorts(ts: seq<Target>)
    ensures Ascending(Sort(ts)) && multiset(Sort(ts)) == multiset(ts)
  {
    hide Ascending, Insert;
    if ts == [] {
      NothingAscends();
    } else {
      SortSorts(ts[..|ts| - 1]);
      InsertAscends(ts[|ts| - 1], Sort(ts[..|ts| - 1]));
      InsertKeeps(ts[|ts| - 1], Sort(ts[..|ts| - 1]));
      assert ts == ts[..|ts| - 1] + [ts[|ts| - 1]];
    }
  }

  lemma NothingAscends()
    ensures Ascending([])
  {
  }

  // ---- Faults of the inventory ----

  /** The first fault met while walking the sorted targets. */
  function FaultIn(ts: seq<Target>): Option<Fault> {
    if ts == [] then None
    else
      var front, last := ts[..|ts| - 1], ts[|ts| - 1];
      if FaultIn(front).Some? then FaultIn(front)
      else if !last.sound || !ValidId(last.id) then Some(InvalidTarget)
      else if front != [] && front[|front| - 1].id == last.id then Some(DuplicateTarget)
      else None
  }

  predicate Sound(ts: seq<Target>) {
    forall i :: 0 <= i < |ts| ==> ts[i].sound && ValidId(ts[i].id)
  }

  /** A sorted inventory is faultless exactly when its targets are valid and strictly ascending. */
  lemma {:induction false} FaultlessIsStrict(ts: seq<Target>)
    requires Ascending(ts)
    ensures FaultIn(ts).None? <==> Strict(ts) && Sound(ts)
  {
    hide ValidId, Less;
    if ts != [] {
      var front, last := ts[..|ts| - 1], ts[|ts| - 1];
      FaultlessIsStrict(front);
      assert Strict(ts) ==> Strict(front);
      assert Sound(ts) <==> Sound(front) && last.sound && ValidId(last.id);
      StrictNext(ts);
    }
  }

  /** The fault reported is that of the first target at fault, and tells what is wrong with it. */
  lemma {:induction false} FaultIsFirst(ts: seq<Target>) returns (i: nat)
    requires FaultIn(ts).Some?
    ensures i < |ts| && FaultIn(ts[..i]).None? && Sound(ts[..i])
    ensures FaultIn(ts) == Some(InvalidTarget) <==> !(ts[i].sound && ValidId(ts[i].id))
    ensures FaultIn(ts) == Some(DuplicateTarget) <==> ts[i].sound && ValidId(ts[i].id)
    ensures FaultIn(ts) == Some(DuplicateTarget) ==> i > 0 && ts[i - 1].id == ts[i].id
  {
    hide ValidId;
    var n := |ts| - 1;
    if FaultIn(ts[..n]).Some? {
      i := FaultIsFirst(ts[..n]);
      assert ts[..n][..i] == ts[..i];
    } else {
      i := n;
      FaultlessIsSound(ts[..n]);
    }
  }

  lemma {:induction false} FaultlessIsSound(ts: seq<Target>)
    requires FaultIn(ts).None?
    ensures Sound(ts)
  {
    hide ValidId;
    if ts != [] {
      FaultlessIsSound(ts[..|ts| - 1]);
    }
  }

  lemma StrictNext(ts: seq<Target>)
    requires |ts| > 0 && Ascending(ts)
    ensures Strict(ts) <==> Strict(ts[..|ts| - 1]) && (|ts| > 1 ==> ts[|ts| - 2].id != ts[|ts| - 1].id)
  {
    hide Less;
    var last := |ts| - 1;
    if last > 0 {
      LessTotal(ts[last - 1].id, ts[last].id);
      LessTotal(ts[last].id, ts[last].id);
      if Strict(ts[..last]) && Less(ts[last - 1].id, ts[last].id) {
        forall i | 0 <= i < last - 1 ensures Less(ts[i].id, ts[last].id) {
          assert ts[..last][i] == ts[i] && ts[..last][last - 1] == ts[last - 1];
          LessTransitive(ts[i].id, ts[last - 1].id, ts[last].id);
        }
      }
    }
  }

  // ---- The page budget ----

  function Charge(t: Target): nat {
    t.bytes + 1 + 100
  }

  function Cost(ts: seq<Target>): nat {
    if ts == [] then 2 else Cost(ts[..|ts| - 1]) + Charge(ts[|ts| - 1])
  }

  /** The first `n` targets fit one page. */
  predicate Fits(ts: seq<Target>, n: nat) {
    n <= |ts| && n <= MAX_TARGETS && Cost(ts[..n]) <= MAX_PAGE_BYTES
  }

  lemma CostNext(ts: seq<Target>, n: nat)
    requires n < |ts|
    ensures Cost(ts[..n + 1]) == Cost(ts[..n]) + Charge(ts[n])
  {
    assert ts[..n + 1][..n] == ts[..n];
  }

  lemma {:induction false} FitsLess(ts: seq<Target>, n: nat, m: nat)
    requires Fits(ts, n) && m <= n
    ensures Fits(ts, m)
    decreases n
  {
    if m < n {
      CostNext(ts, n - 1);
      FitsLess(ts, n - 1, m);
    }
  }

  /** The longest prefix that fits. */
  ghost predicate Longest(ts: seq<Target>, n: nat) {
    Fits(ts, n) && forall m: nat :: Fits(ts, m) ==> m <= n
  }

  lemma LongestWhenNextDoesNotFit(ts: seq<Target>, n: nat)
    requires Fits(ts, n) && !Fits(ts, n + 1)
    ensures Longest(ts, n)
  {
    forall m: nat | Fits(ts, m) ensures m <= n {
      if m > n {
        FitsLess(ts, m, n + 1);
      }
    }
  }

  function FitFrom(ts: seq<Target>, n: nat): (r: nat)
    requires Fits(ts, n)
    ensures n <= r <= |ts| && Fits(ts, r) && !Fits(ts, r + 1)
    decreases |ts| - n
  {
    if Fits(ts, n + 1) then FitFrom(ts, n + 1) else n
  }

  /** The number of targets on a page: the longest prefix within both budgets. */
  function PrefixLen(ts: seq<Target>): (n: nat)
    ensures Longest(ts, n)
  {
    LongestWhenNextDoesNotFit(ts, FitFrom(ts, 0));
    FitFrom(ts, 0)
  }

  lemma LongestIsUnique(ts: seq<Target>, n: nat)
    requires Longest(ts, n)
    ensures n == PrefixLen(ts)
  {
  }

  /** Walks the targets until one does not fit; a first target that does not is an error. */
  method MeasurePrefix(ts: seq<Target>) returns (count: Option<nat>)
    ensures count.None? <==> ts != [] && !Fits(ts, 1)
    ensures count.Some? ==> Longest(ts, count.value)
  {
    var used, n := 2, 0;
    while n < |ts|
      invariant 0 <= n <= |ts| && used == Cost(ts[..n]) && Fits(ts, n)
      decreases |ts| - n
    {
      var bytes := Charge(ts[n]);
      CostNext(ts, n);
      if n == MAX_TARGETS || used + bytes > MAX_PAGE_BYTES {
        if n == 0 {
          return None;
        }
        LongestWhenNextDoesNotFit(ts, n);
        if !Fits(ts, 1) {
          FitsLess(ts, n, 1);
        }
        return Some(n);
      }
      used, n := used + bytes, n + 1;
    }
    if ts != [] {
      FitsLess(ts, n, 1);
    }
    return Some(n);
  }

  // ---- One page ----

  predicate Beyond(t: Target, after: Option<string>) {
    after.None? || Less(after.value, t.id)
  }

  function Remaining(ts: seq<Target>, after: Option<string>): seq<Target> {
    if ts == [] then []
    else
      var front, last := Remaining(ts[..|ts| - 1], after), ts[|ts| - 1];
      if Beyond(last, after) then front + [last] else front
  }

  function Cut(ts: seq<Target>, n: nat, truncated: bool): TargetPage
    requires n <= |ts| && (n == 0 ==> ts == [])
  {
    TargetPage(ts[..n], truncated || n < |ts|, if n < |ts| then Some(ts[n - 1].id) else None)
  }

  function PageOf(targets: seq<Target>, after: Option<string>, truncated: bool): Paged {
    if after.Some? && !ValidId(after.value) then Refused(InvalidIdentifier)
    else
      var sorted := Sort(targets);
      var rest := Remaining(sorted, after);
      if FaultIn(sorted).Some? then Refused(FaultIn(sorted).value)
      else if rest != [] && !Fits(rest, 1) then Refused(OversizedTarget)
      else Page(Cut(rest, PrefixLen(rest), truncated))
  }

  method FirstFault(ts: seq<Target>) returns (fault: Option<Fault>)
    ensures fault == FaultIn(ts)
  {
    for index := 0 to |ts|
      invariant FaultIn(ts[..index]).None?
    {
      var target := ts[index];
      assert ts[..index + 1][..index] == ts[..index];
      if !target.sound || !ValidId(target.id) {
        FaultStays(ts, index + 1);
        return Some(InvalidTarget);
      }
      if index > 0 && ts[index - 1].id == target.id {
        FaultStays(ts, index + 1);
        return Some(DuplicateTarget);
      }
    }
    assert ts[..|ts|] == ts;
    return None;
  }

  method Retain(ts: seq<Target>, after: Option<string>) returns (kept: seq<Target>)
    ensures kept == Remaining(ts, after)
  {
    kept := [];
    for i := 0 to |ts|
      invariant kept == Remaining(ts[..i], after)
    {
      assert ts[..i + 1][..i] == ts[..i];
      if after.None? || Less(after.value, ts[i].id) {
        kept := kept + [ts[i]];
      }
    }
    assert ts[..|ts|] == ts;
  }

  method MakePage(targets: seq<Target>, after: Option<string>, truncated: bool) returns (r: Paged)
    ensures r == PageOf(targets, after, truncated)
  {
    if after.Some? && !ValidId(after.value) {
      return Refused(InvalidIdentifier);
    }
    var ts := Sort(targets);
    var fault := FirstFault(ts);
    if fault.Some? {
      return Refused(fault.value);
    }
    var kept := Retain(ts, after);
    var count := MeasurePrefix(kept);
    if count.None? {
      return Refused(OversizedTarget);
    }
    LongestIsUnique(kept, count.value);
    var n := count.value;
    var more := n < |kept|;
    var page := kept[..n];
    var nextCursor := if more then Some(page[|page| - 1].id) else None;
    return Page(TargetPage(page, truncated || more, nextCursor));
  }

  lemma {:induction false} FaultStays(ts: seq<Target>, n: nat)
    requires n <= |ts| && FaultIn(ts[..n]).Some?
    ensures FaultIn(ts) == FaultIn(ts[..n])
  {
    if n == |ts| {
      assert ts[..n] == ts;
    } else {
      assert ts[..|ts| - 1][..n] == ts[..n];
      FaultStays(ts[..|ts| - 1], n);
    }
  }

  // ---- Following the cursors ----

  predicate WellFormed(inventory: seq<Target>) {
    Strict(Sort(inventory)) && Sound(Sort(inventory))
  }

  lemma {:induction false} RemainingIsSuffix(ts: seq<Target>, after: Option<string>, k: nat)
    requires k <= |ts|
    requires forall i :: 0 <= i < |ts| ==> (Beyond(ts[i], after) <==> i >= k)
    ensures Remaining(ts, after) == ts[k..]
  {
    if ts != [] {
      var front := ts[..|ts| - 1];
      if k == |ts| {
        RemainingIsSuffix(front, after, k - 1);
      } else {
        RemainingIsSuffix(front, after, k);
        assert ts[k..] == front[k..] + [ts[|ts| - 1]];
      }
    }
  }

  /** A cursor taken from a strictly sorted inventory resumes right behind its target. */
  lemma CursorResumes(ts: seq<Target>, k: nat)
    requires Strict(ts) && k <= |ts|
    ensures Remaining(ts, if k == 0 then None else Some(ts[k - 1].id)) == ts[k..]
  {
    hide Less, Remaining;
    var after := if k == 0 then None else Some(ts[k - 1].id);
    forall i | 0 <= i < |ts| ensures Beyond(ts[i], after) <==> i >= k {
      if k > 0 {
        LessTotal(ts[k - 1].id, ts[i].id);
      }
    }
    RemainingIsSuffix(ts, after, k);
  }

  lemma FirstFits(ts: seq<Target>)
    requires ts != []
    ensures Fits(ts, 1) <==> 2 + Charge(ts[0]) <= MAX_PAGE_BYTES
  {
    CostNext(ts, 0);
  }

  /** The page that starts behind the first `k` targets of a well-formed inventory. */
  lemma PageAt(inventory: seq<Target>, k: nat)
    requires WellFormed(inventory) && k <= |Sort(inventory)|
    ensures var sorted := Sort(inventory);
            var r := PageOf(inventory, if k == 0 then None else Some(sorted[k - 1].id), false);
            && (r.Refused? ==> r.fault == OversizedTarget && k < |sorted| && 2 + Charge(sorted[k]) > MAX_PAGE_BYTES)
            && (r.Page? ==>
                  var n := |r.page.targets|;
                  && k + n <= |sorted| && r.page.targets == sorted[k..k + n] && Longest(sorted[k..], n)
                  && (r.page.nextCursor.None? ==> k + n == |sorted|)
                  && (r.page.nextCursor.Some? ==> n > 0 && k + n < |sorted| && r.page.nextCursor.value == sorted[k + n - 1].id))
  {
    hide Less, ValidId, Longest, Sort, Remaining, FaultIn, Strict, PageOf, Fits, PrefixLen, Ascending;
    var sorted := Sort(inventory);
    var after := if k == 0 then None else Some(sorted[k - 1].id);
    SortSorts(inventory);
    FaultlessIsStrict(sorted);
    CursorResumes(sorted, k);
    var rest := sorted[k..];
    PageOfRest(inventory, after, false, rest);
    var n := PrefixLen(rest);
    if n <= |rest| {
      assert rest[..n] == sorted[k..k + n];
    }
  }

  /** The page once the inventory is known faultless and the rest behind the cursor is known. */
  lemma PageOfRest(targets: seq<Target>, after: Option<string>, truncated: bool, rest: seq<Target>)
    requires after.None? || ValidId(after.value)
    requires FaultIn(Sort(targets)).None? && rest == Remaining(Sort(targets), after)
    ensures var r := PageOf(targets, after, truncated);
            && (r.Refused? ==> r.fault == OversizedTarget && rest != [] && 2 + Charge(rest[0]) > MAX_PAGE_BYTES)
            && Longest(rest, PrefixLen(rest)) && PrefixLen(rest) <= |rest|
            && (r.Page? ==> (PrefixLen(rest) == 0 ==> rest == []) && r.page == Cut(rest, PrefixLen(rest), truncated))
  {
    hide Less, ValidId, Sort, FaultIn, Remaining;
    if rest != [] {
      FirstFits(rest);
    }
  }

  lemma LongestFits(ts: seq<Target>, n: nat)
    requires Longest(ts, n)
    ensures Fits(ts, n)
  {
  }

  /** Each of these targets fits a page of its own. */
  ghost predicate AllFit(ts: seq<Target>) {
    forall t :: t in ts ==> 2 + Charge(t) <= MAX_PAGE_BYTES
  }

  /** How far the pages have come: the first `k` targets in order, all of which fit. */
  ghost predicate Reached(sorted: seq<Target>, found: seq<Target>, after: Option<string>) {
    && |found| <= |sorted| && found == sorted[..|found|] && AllFit(found)
    && after == if |found| == 0 then None else Some(sorted[|found| - 1].id)
  }

  /** One more page. */
  lemma ReachedNext(inventory: seq<Target>, found: seq<Target>, after: Option<string>)
    requires WellFormed(inventory) && Reached(Sort(inventory), found, after)
    ensures var sorted, r := Sort(inventory), PageOf(inventory, after, false);
            && (r.Refused? ==> r.fault == OversizedTarget && |found| < |sorted| && 2 + Charge(sorted[|found|]) > MAX_PAGE_BYTES)
            && (r.Page? && r.page.nextCursor.None? ==> found + r.page.targets == sorted && AllFit(sorted))
            && (r.Page? && r.page.nextCursor.Some? ==> r.page.targets != [] && Reached(sorted, found + r.page.targets, r.page.nextCursor))
  {
    hide Sort, PageOf, WellFormed, Longest, Charge, AllFit;
    var sorted, k, r := Sort(inventory), |found|, PageOf(inventory, after, false);
    PageAt(inventory, k);
    if r.Page? {
      var n := |r.page.targets|;
      EachFits(sorted[k..], n);
      TakeMore(sorted, k, n);
      AllFitJoin(found, r.page.targets);
    }
  }

  lemma TakeMore(ts: seq<Target>, k: nat, n: nat)
    requires k + n <= |ts|
    ensures ts[k..][..n] == ts[k..k + n] && ts[..k] + ts[k..k + n] == ts[..k + n] && ts[..|ts|] == ts
  {
  }

  lemma AllFitJoin(a: seq<Target>, b: seq<Target>)
    requires AllFit(a) && AllFit(b)
    ensures AllFit(a + b)
  {
  }

  /** Reading page after page of a fixed inventory ends with every target returned once in identifier
      order, or stops at the first target that is too large for any page. */
  method FollowCursors(inventory: seq<Target>) returns (found: seq<Target>, fault: Option<Fault>)
    ensures fault.None? || fault == Some(OversizedTarget) <==> WellFormed(inventory)
    ensures fault.None? ==> found == Sort(inventory) && AllFit(found)
    ensures fault == Some(OversizedTarget) ==>
              && |found| < |Sort(inventory)| && found == Sort(inventory)[..|found|]
              && 2 + Charge(Sort(inventory)[|found|]) > MAX_PAGE_BYTES
  {
    hide Less, ValidId, Sort, PageOf, WellFormed, AllFit, Charge;
    var after: Option<string> := None;
    found := [];
    FirstPageJudges(inventory);
    NoneFit();
    while true
      invariant found == [] || WellFormed(inventory)
      invariant Reached(Sort(inventory), found, after)
      decreases |Sort(inventory)| - |found|
    {
      var r := MakePage(inventory, after, false);
      if WellFormed(inventory) {
        ReachedNext(inventory, found, after);
      }
      if r.Refused? {
        return found, Some(r.fault);
      }
      found := found + r.page.targets;
      if r.page.nextCursor.None? {
        return found, None;
      }
      after := r.page.nextCursor;
    }
  }

  lemma NoneFit()
    ensures AllFit([])
  {
  }

  /** A malformed inventory is refused on the first page, and for no other reason than its fault. */
  lemma FirstPageJudges(inventory: seq<Target>)
    ensures var r := PageOf(inventory, None, false);
            WellFormed(inventory) <==> r.Page? || r.fault == OversizedTarget
  {
    SortSorts(inventory);
    FaultlessIsStrict(Sort(inventory));
    NoOversizedFault(Sort(inventory));
  }

  lemma {:induction false} NoOversizedFault(ts: seq<Target>)
    ensures FaultIn(ts) != Some(OversizedTarget)
  {
    if ts != [] {
      NoOversizedFault(ts[..|ts| - 1]);
    }
  }

  lemma {:induction false} EachFits(ts: seq<Target>, n: nat)
    requires Longest(ts, n)
    ensures n <= |ts| && AllFit(ts[..n])
  {
    CostCovers(ts[..n]);
  }

  lemma {:induction false} CostCovers(ts: seq<Target>)
    ensures Cost(ts) >= 2
    ensures forall t :: t in ts ==> 2 + Charge(t) <= Cost(ts)
  {
    if ts != [] {
      CostCovers(ts[..|ts| - 1]);
    }
  }

  /** Whatever the inventory was on earlier pages, a page holds exactly the targets behind its cursor and
      up to the next one, in strict order: nothing in between is skipped, nothing is repeated. */
  lemma PageMeans(targets: seq<Target>, after: Option<string>, truncated: bool)
    requires PageOf(targets, after, truncated).Page?
    ensures var page := PageOf(targets, after, truncated).page;
            && Strict(page.targets) && |page.targets| <= MAX_TARGETS && Cost(page.targets) <= MAX_PAGE_BYTES
            && (page.truncated <==> truncated || page.nextCursor.Some?)
            && (page.nextCursor.Some? ==> page.targets != [] && page.nextCursor.value == page.targets[|page.targets| - 1].id)
            && forall t :: t in page.targets <==>
                 t in targets && Beyond(t, after) && (page.nextCursor.Some? ==> !Less(page.nextCursor.value, t.id))
  {
    hide Less, ValidId, Sort, FaultIn, PageOf, Remaining, Longest, PrefixLen, Strict, Beyond, Ascending;
    var sorted := Sort(targets);
    SortSorts(targets);
    FaultlessIsStrict(sorted);
    var rest := Remaining(sorted, after);
    PageIsCut(targets, after, truncated);
    RemainingMeans(sorted, after);
    var n := PrefixLen(rest);
    LongestFits(rest, n);
    forall t ensures t in targets <==> t in sorted {
      assert t in multiset(sorted) <==> t in multiset(targets);
    }
    StrictPrefix(rest, n);
    if n < |rest| {
      SplitAt(rest, n);
    } else {
      assert rest[..n] == rest;
    }
  }

  lemma PageIsCut(targets: seq<Target>, after: Option<string>, truncated: bool)
    requires PageOf(targets, after, truncated).Page?
    ensures var rest := Remaining(Sort(targets), after);
            && FaultIn(Sort(targets)).None? && PrefixLen(rest) <= |rest| && (PrefixLen(rest) == 0 ==> rest == [])
            && PageOf(targets, after, truncated).page == Cut(rest, PrefixLen(rest), truncated)
  {
  }

  lemma StrictPrefix(ts: seq<Target>, n: nat)
    requires Strict(ts) && n <= |ts|
    ensures Strict(ts[..n])
  {
  }

  lemma SplitAt(ts: seq<Target>, n: nat)
    requires Strict(ts) && 0 < n < |ts|
    ensures forall t :: t in ts[..n] <==> t in ts && !Less(ts[n - 1].id, t.id)
  {
    hide Less;
    forall i | 0 <= i < |ts| ensures Less(ts[n - 1].id, ts[i].id) <==> i >= n {
      LessTotal(ts[n - 1].id, ts[i].id);
    }
  }

  lemma {:induction false} RemainingMeans(ts: seq<Target>, after: Option<string>)
    requires Strict(ts)
    ensures Strict(Remaining(ts, after))
    ensures forall t :: t in Remaining(ts, after) <==> t in ts && Beyond(t, after)
  {
    if ts != [] {
      var front, last := ts[..|ts| - 1], ts[|ts| - 1];
      RemainingMeans(front, after);
      assert ts == front + [last];
      forall t | t in Remaining(front, after) ensures Less(t.id, last.id) {
        var i :| 0 <= i < |front| && front[i] == t;
        assert Less(ts[i].id, ts[|ts| - 1].id);
      }
    }
  }
}
