/** Save-before-replace repair of installed files, interruptible after every durable step.

    Each replacement is four steps: begin a copy of the original bytes, finish it, record path and
    metadata in the journal, and only then replace the file. A crash is "stop after n steps". */
module PackageRepair {
  import opened Common

  type Path = string
  datatype Meta = Meta(mode: nat, uid: nat, gid: nat)
  datatype Node = File(bytes: string, meta: Meta) | Link(target: string, linkMeta: Meta) | Directory | Special
  type Tree = map<Path, Node>

  /** A saved copy is written in place, so an interrupted one is only partial. */
  datatype Copy = Partial | Whole(bytes: string)

  /** Journal entry: what stood at the path; a regular file's bytes are in its saved copy. */
  datatype Was = WasMissing | WasLink(target: string, meta: Meta) | WasFile(meta: Meta)
  datatype Entry = Entry(path: Path, was: Was)

  /** `Keep` is a configuration snapshot; `Remove` is a maintainer script the new package lacks. */
  datatype Item = Keep(path: Path) | MakeDir(path: Path) | Replace(path: Path, node: Node) | Remove(path: Path)

  datatype Point = Begin | Copying | Copied | Retained

  datatype Job = Job(tree: Tree, saved: map<Path, Copy>, repaired: seq<Entry>,
                     todo: seq<Item>, at: Point, halted: bool)

  function Start(tree: Tree, plan: seq<Item>): Job {
    Job(tree, map[], [], plan, Begin, false)
  }

  predicate Refused(tree: Tree, path: Path) {
    path in tree && (tree[path].Directory? || tree[path].Special?)
  }

  function Snapshot(tree: Tree, path: Path): Was
    requires !Refused(tree, path)
  {
    if path !in tree then WasMissing
    else match tree[path]
      case File(_, meta) => WasFile(meta)
      case Link(target, meta) => WasLink(target, meta)
  }

  function Done(j: Job): Job
    requires j.todo != []
  {
    j.(todo := j.todo[1..], at := Begin)
  }

  /** One durable step of the repair. */
  function Step(j: Job): Job {
    if j.todo == [] || j.halted then j
    else
      var item := j.todo[0];
      var p := item.path;
      match j.at
      case Begin =>
        if item.MakeDir? then Done(if p in j.tree then j else j.(tree := j.tree[p := Directory]))
        else if !item.Keep? && Refused(j.tree, p) then j.(halted := true)
        else if p in j.tree && j.tree[p].File? && p !in j.saved then j.(saved := j.saved[p := Partial], at := Copying)
        else if item.Keep? then Done(j)
        else j.(at := Copied)
      case Copying =>
        if p in j.tree && j.tree[p].File? then
          var copied := j.(saved := j.saved[p := Whole(j.tree[p].bytes)]);
          if item.Keep? then Done(copied) else copied.(at := Copied)
        else j.(halted := true)
      case Copied =>
        if Refused(j.tree, p) then j.(halted := true)
        else j.(repaired := j.repaired + [Entry(p, Snapshot(j.tree, p))], at := Retained)
      case Retained =>
        Done(j.(tree := if item.Replace? then j.tree[p := item.node] else j.tree - {p}))
  }

  function Steps(j: Job, n: nat): Job {
    if n == 0 then j else Step(Steps(j, n - 1))
  }

  /** First journal entry of a path. */
  function First(entries: seq<Entry>, path: Path): Option<Was> {
    if entries == [] then None
    else
      var earlier := First(entries[..|entries| - 1], path);
      if earlier.Some? then earlier
      else if entries[|entries| - 1].path == path then Some(entries[|entries| - 1].was)
      else None
  }

  function At(tree: Tree, path: Path): Option<Node> {
    if path in tree then Some(tree[path]) else None
  }

  /** What restoring a path from the journal and its saved copy produces; `None` of the outer option
      when the journal names a file whose copy is not complete. */
  function Restored(j: Job, path: Path): Option<Option<Node>> {
    match First(j.repaired, path)
    case None => Some(At(j.tree, path))
    case Some(WasMissing) => Some(None)
    case Some(WasLink(target, meta)) => Some(Some(Link(target, meta)))
    case Some(WasFile(meta)) =>
      if path in j.saved && j.saved[path].Whole? then Some(Some(File(j.saved[path].bytes, meta))) else None
  }

  /** Restoring brings back what stood there, except that directories made on the way stay. */
  predicate Recovers(original: Tree, j: Job, path: Path) {
    || Restored(j, path) == Some(At(original, path))
    || (path !in original && path in j.tree && j.tree[path].Directory? && First(j.repaired, path).None?)
  }

  /** Before its first journal entry a path still has its original content, and a copy of it, if
      complete, has the original bytes. */
  predicate Intact(original: Tree, j: Job, path: Path) {
    && Recovers(original, j, path)
    && (First(j.repaired, path).None? && path in j.saved ==>
          && path in j.tree && j.tree[path].File?
          && (j.saved[path].Whole? ==> j.saved[path].bytes == j.tree[path].bytes))
  }

  /** Where the current item stands. */
  predicate Positioned(j: Job) {
    && (forall p :: p in j.saved && j.saved[p].Partial? ==> j.todo != [] && j.at == Copying && j.todo[0].path == p)
    && (j.todo == [] ==> j.at == Begin)
    && (j.todo != [] ==>
          var p := j.todo[0].path;
          && (j.at == Copying ==> !j.todo[0].MakeDir? && p in j.tree && j.tree[p].File? && p in j.saved && j.saved[p].Partial?)
          && (j.at == Copied || j.at == Retained ==>
                !j.todo[0].Keep? && !j.todo[0].MakeDir? && !Refused(j.tree, p)
                && (p in j.tree && j.tree[p].File? ==> p in j.saved && j.saved[p].Whole?))
          && (j.at == Retained ==> First(j.repaired, p).Some?))
  }

  ghost predicate Inv(original: Tree, j: Job) {
    Positioned(j) && forall p :: Intact(original, j, p)
  }

  lemma FirstGrows(entries: seq<Entry>, e: Entry, path: Path)
    ensures First(entries + [e], path) ==
            if First(entries, path).Some? then First(entries, path)
            else if e.path == path then Some(e.was) else None
  {
    assert (entries + [e])[..|entries|] == entries;
  }

  lemma StepPositions(original: Tree, j: Job)
    requires Inv(original, j)
    ensures Positioned(Step(j))
  {
    hide First;
    if j.todo != [] && !j.halted {
      var p := j.todo[0].path;
      assert Intact(original, j, p);
      if j.at == Copied && !Refused(j.tree, p) {
        FirstGrows(j.repaired, Entry(p, Snapshot(j.tree, p)), p);
      }
    }
  }

  lemma StepIntact(original: Tree, j: Job, q: Path)
    requires Positioned(j) && Intact(original, j, q)
    ensures Intact(original, Step(j), q)
  {
    hide First;
    if j.todo != [] && !j.halted && j.at == Copied && !Refused(j.tree, j.todo[0].path) {
      FirstGrows(j.repaired, Entry(j.todo[0].path, Snapshot(j.tree, j.todo[0].path)), q);
    }
  }

  lemma StepKeeps(original: Tree, j: Job)
    requires Inv(original, j)
    ensures Inv(original, Step(j))
  {
    StepPositions(original, j);
    forall q ensures Intact(original, Step(j), q) {
      StepIntact(original, j, q);
    }
  }

  /** Stop the repair after any number of steps: every path that stood before can be restored to
      exactly its original content and metadata, and every path that did not exist can be removed
      again (directories excepted). */
  lemma {:induction false} EveryCrashPointRecovers(original: Tree, plan: seq<Item>, n: nat, path: Path)
    ensures Recovers(original, Steps(Start(original, plan), n), path)
  {
    RepairKeeps(original, plan, n);
    assert Intact(original, Steps(Start(original, plan), n), path);
  }

  lemma {:induction false} RepairKeeps(original: Tree, plan: seq<Item>, n: nat)
    ensures Inv(original, Steps(Start(original, plan), n))
  {
    if n > 0 {
      RepairKeeps(original, plan, n - 1);
      StepKeeps(original, Steps(Start(original, plan), n - 1));
    }
  }

  // ---------------------------------------------------------------- what a finished repair leaves

  /** What the items of a list, taken in order, make of one path. */
  function Asked(was: Option<Node>, plan: seq<Item>, path: Path): Option<Node> {
    if plan == [] then was
    else
      var before, item := Asked(was, plan[..|plan| - 1], path), plan[|plan| - 1];
      if item.path != path then before
      else
        match item
        case Keep(_) => before
        case MakeDir(_) => if before.Some? then before else Some(Directory)
        case Replace(_, node) => Some(node)
        case Remove(_) => None
  }

  /** The items done so far have had exactly their effect, on every path. */
  ghost predicate Progress(original: Tree, plan: seq<Item>, j: Job) {
    && |j.todo| <= |plan| && j.todo == plan[|plan| - |j.todo|..]
    && forall path :: At(j.tree, path) == Asked(At(original, path), plan[..|plan| - |j.todo|], path)
  }

  lemma ProgressStep(original: Tree, plan: seq<Item>, j: Job)
    requires Progress(original, plan, j) && Positioned(j)
    ensures Progress(original, plan, Step(j))
  {
    hide Asked;
    if j.todo != [] && !j.halted {
      var d, j' := |plan| - |j.todo|, Step(j);
      assert j.todo[0] == plan[d] && j.todo[1..] == plan[d + 1..];
      forall path ensures |j'.todo| == |j.todo| ==> At(j'.tree, path) == At(j.tree, path) {
      }
      if |j'.todo| < |j.todo| {
        forall path ensures At(j'.tree, path) == Asked(At(original, path), plan[..d + 1], path) {
          AskedNext(At(original, path), plan, d, path);
        }
      }
    }
  }

  lemma AskedNext(was: Option<Node>, plan: seq<Item>, d: nat, path: Path)
    requires d < |plan|
    ensures var before, item := Asked(was, plan[..d], path), plan[d];
            Asked(was, plan[..d + 1], path) ==
            if item.path != path || item.Keep? then before
            else if item.MakeDir? then (if before.Some? then before else Some(Directory))
            else if item.Replace? then Some(item.node)
            else None
  {
    assert plan[..d + 1][..d] == plan[..d];
  }

  lemma {:induction false} RepairProgresses(original: Tree, plan: seq<Item>, n: nat)
    ensures Progress(original, plan, Steps(Start(original, plan), n))
  {
    hide Step, Positioned, Intact;
    if n == 0 {
      assert plan[0..] == plan;
    } else {
      RepairProgresses(original, plan, n - 1);
      RepairKeeps(original, plan, n - 1);
      ProgressStep(original, plan, Steps(Start(original, plan), n - 1));
    }
  }

  /** The last item of the plan that changes a path. */
  ghost predicate LastFor(plan: seq<Item>, path: Path, i: nat) {
    i < |plan| && plan[i].path == path && !plan[i].Keep? && forall k :: i < k < |plan| ==> plan[k].path != path || plan[k].Keep?
  }

  lemma {:induction false} AskedIsLast(was: Option<Node>, plan: seq<Item>, path: Path)
    ensures forall i: nat :: LastFor(plan, path, i) ==>
              && (plan[i].Replace? ==> Asked(was, plan, path) == Some(plan[i].node))
              && (plan[i].Remove? ==> Asked(was, plan, path) == None)
              && (plan[i].MakeDir? ==> Asked(was, plan, path).Some?)
    ensures (forall k :: 0 <= k < |plan| ==> plan[k].path != path || plan[k].Keep?) ==> Asked(was, plan, path) == was
  {
    if plan != [] {
      var front, last := plan[..|plan| - 1], |plan| - 1;
      AskedIsLast(was, front, path);
      assert forall k :: 0 <= k < last ==> front[k] == plan[k];
      forall i: nat | LastFor(plan, path, i) && i != last ensures LastFor(front, path, i) {
      }
    }
  }

  /** A finished repair holds on every path what the last item for that path asks: the new node, nothing after
      a removal, something after a directory; and a path no item changes is as it was. */
  lemma RepairInstalls(original: Tree, plan: seq<Item>, n: nat, path: Path)
    requires Steps(Start(original, plan), n).todo == []
    ensures var tree := Steps(Start(original, plan), n).tree;
            && (forall i: nat :: LastFor(plan, path, i) ==>
                  && (plan[i].Replace? ==> At(tree, path) == Some(plan[i].node))
                  && (plan[i].Remove? ==> At(tree, path) == None)
                  && (plan[i].MakeDir? ==> At(tree, path).Some?))
            && ((forall k :: 0 <= k < |plan| ==> plan[k].path != path || plan[k].Keep?) ==> At(tree, path) == At(original, path))
  {
    hide Steps;
    RepairProgresses(original, plan, n);
    AskedIsLast(At(original, path), plan, path);
    assert plan[..|plan|] == plan;
  }

  /** Steps an unhalted job can still take. */
  function Left(j: Job): nat {
    if j.todo == [] then 0
    else 4 * |j.todo| - (match j.at case Begin => 0 case Copying => 1 case Copied => 2 case Retained => 3)
  }

  lemma LeftShrinks(j: Job)
    requires j.todo != [] && !j.halted
    ensures Step(j).halted || Left(Step(j)) < Left(j)
  {
  }

  lemma {:induction false} StepsLeft(j: Job, n: nat)
    ensures Steps(j, n).halted || Left(Steps(j, n)) == 0 || Left(Steps(j, n)) + n <= Left(j)
  {
    hide Step, Left;
    if n > 0 {
      StepsLeft(j, n - 1);
      var before := Steps(j, n - 1);
      StillDone(before);
      if before.todo != [] && !before.halted {
        LeftShrinks(before);
      }
    }
  }

  lemma StillDone(j: Job)
    ensures j.todo == [] || j.halted ==> Step(j) == j
    ensures Left(j) == 0 <==> j.todo == []
  {
  }

  /** A repair halts only at an item that would replace or remove a directory or a special node. */
  ghost predicate Blocked(j: Job) {
    j.todo != [] && (j.todo[0].Replace? || j.todo[0].Remove?) && Refused(j.tree, j.todo[0].path)
  }

  lemma HaltStep(j: Job)
    requires Positioned(j) && (j.halted ==> Blocked(j))
    ensures Step(j).halted ==> Blocked(Step(j))
  {
  }

  lemma {:induction false} HaltsOnlyIfBlocked(original: Tree, plan: seq<Item>, n: nat)
    ensures Steps(Start(original, plan), n).halted ==> Blocked(Steps(Start(original, plan), n))
  {
    hide Step, Positioned, Intact, Blocked;
    if n > 0 {
      HaltsOnlyIfBlocked(original, plan, n - 1);
      RepairKeeps(original, plan, n - 1);
      HaltStep(Steps(Start(original, plan), n - 1));
    }
  }

  /** Within four steps per item a repair is finished, or stands blocked. */
  lemma RepairFinishes(original: Tree, plan: seq<Item>, n: nat)
    requires n >= 4 * |plan|
    ensures var j := Steps(Start(original, plan), n); j.todo == [] || (j.halted && Blocked(j))
  {
    hide Steps, Step;
    StepsLeft(Start(original, plan), n);
    StillDone(Steps(Start(original, plan), n));
    HaltsOnlyIfBlocked(original, plan, n);
  }

  datatype Package = Package(payload: seq<Item>, scripts: seq<Item>)

  /** Configuration snapshots first, then each package: its payload filtered by the configuration
      policy, then its maintainer scripts. */
  function Plan(configs: seq<Path>, preserve: bool, packages: seq<Package>): seq<Item> {
    seq(|configs|, i requires 0 <= i < |configs| => Keep(configs[i])) + Changes(configs, preserve, packages)
  }

  function Changes(configs: seq<Path>, preserve: bool, packages: seq<Package>): seq<Item> {
    if packages == [] then []
    else Admitted(configs, packages[0].payload, preserve) + packages[0].scripts + Changes(configs, preserve, packages[1..])
  }

  function Admitted(configs: seq<Path>, payload: seq<Item>, preserve: bool): seq<Item> {
    if payload == [] then []
    else
      (if preserve && payload[0].path in configs then [] else [payload[0]])
      + Admitted(configs, payload[1..], preserve)
  }

  /** The policy leaves out exactly the configuration files to be preserved. */
  lemma {:induction false} AdmittedAre(configs: seq<Path>, payload: seq<Item>, preserve: bool, x: Item)
    ensures x in Admitted(configs, payload, preserve) <==> x in payload && !(preserve && x.path in configs)
  {
    if payload != [] {
      AdmittedAre(configs, payload[1..], preserve, x);
      assert payload == [payload[0]] + payload[1..];
    }
  }

  /** The policy keeps the order of the payload: it treats a list piece by piece. */
  lemma {:induction false} AdmittedInOrder(configs: seq<Path>, a: seq<Item>, b: seq<Item>, preserve: bool)
    ensures Admitted(configs, a + b, preserve) == Admitted(configs, a, preserve) + Admitted(configs, b, preserve)
  {
    if a == [] {
      assert a + b == b;
    } else {
      var first := if preserve && a[0].path in configs then [] else [a[0]];
      AdmittedInOrder(configs, a[1..], b, preserve);
      assert (a + b)[1..] == a[1..] + b;
      assert first + (Admitted(configs, a[1..], preserve) + Admitted(configs, b, preserve))
             == first + Admitted(configs, a[1..], preserve) + Admitted(configs, b, preserve);
    }
  }

  /** Packages are repaired one after the other, each its payload before its scripts. */
  lemma {:induction false} ChangesInOrder(configs: seq<Path>, preserve: bool, packages: seq<Package>, last: Package)
    ensures Changes(configs, preserve, packages + [last])
            == Changes(configs, preserve, packages) + Admitted(configs, last.payload, preserve) + last.scripts
  {
    hide Admitted;
    var mine := Admitted(configs, last.payload, preserve);
    if packages == [] {
      assert (packages + [last])[1..] == [] && (packages + [last])[0] == last;
      assert [] + mine + last.scripts == mine + last.scripts + [];
    } else {
      ChangesInOrder(configs, preserve, packages[1..], last);
      assert (packages + [last])[1..] == packages[1..] + [last];
      var first := Admitted(configs, packages[0].payload, preserve) + packages[0].scripts;
      var rest := Changes(configs, preserve, packages[1..]);
      assert first + (rest + mine + last.scripts) == first + rest + mine + last.scripts;
    }
  }

  /** Exactly the admitted payload and the scripts of every package are changed, and nothing else. */
  lemma {:induction false} ChangesAre(configs: seq<Path>, preserve: bool, packages: seq<Package>, x: Item)
    ensures x in Changes(configs, preserve, packages) <==>
            exists i :: 0 <= i < |packages| &&
              ((x in packages[i].payload && !(preserve && x.path in configs)) || x in packages[i].scripts)
  {
    if packages != [] {
      hide Admitted;
      ChangesAre(configs, preserve, packages[1..], x);
      AdmittedAre(configs, packages[0].payload, preserve, x);
      forall i | 0 <= i < |packages[1..]| ensures packages[1..][i] == packages[i + 1] {
      }
      if i :| 0 <= i < |packages| && ((x in packages[i].payload && !(preserve && x.path in configs)) || x in packages[i].scripts) {
        assert i > 0 ==> packages[1..][i - 1] == packages[i];
      }
    }
  }

  /** Items still to do are a suffix of the plan, so a path no remaining item replaces is not touched. */
  predicate Spares(j: Job, path: Path) {
    forall i :: 0 <= i < |j.todo| ==> j.todo[i].path == path ==> j.todo[i].Keep?
  }

  lemma SpareStep(j: Job, path: Path)
    requires Positioned(j) && Spares(j, path) && First(j.repaired, path).None?
    ensures At(Step(j).tree, path) == At(j.tree, path) && First(Step(j).repaired, path).None? && Spares(Step(j), path)
  {
    hide First;
    if j.todo != [] && !j.halted && j.at == Copied && !Refused(j.tree, j.todo[0].path) {
      FirstGrows(j.repaired, Entry(j.todo[0].path, Snapshot(j.tree, j.todo[0].path)), path);
    }
  }

  lemma {:induction false} SparedPathsStay(tree: Tree, plan: seq<Item>, n: nat, path: Path)
    requires Spares(Start(tree, plan), path)
    ensures var j := Steps(Start(tree, plan), n);
            At(j.tree, path) == At(tree, path) && First(j.repaired, path).None? && Spares(j, path)
  {
    hide Step, Positioned, Intact, Spares, At;
    if n == 0 {
      NothingRepaired(path);
    } else {
      SparedPathsStay(tree, plan, n - 1, path);
      RepairKeeps(tree, plan, n - 1);
      SpareStep(Steps(Start(tree, plan), n - 1), path);
    }
  }

  lemma NothingRepaired(path: Path)
    ensures First([], path).None?
  {
  }

  /** Under the preserving policy no configuration file is touched at any point of the repair. */
  lemma ConfigurationIsPreserved(tree: Tree, configs: seq<Path>, packages: seq<Package>, n: nat, path: Path)
    requires path in configs
    requires forall i, x :: 0 <= i < |packages| && x in packages[i].scripts ==> x.path != path
    ensures At(Steps(Start(tree, Plan(configs, true, packages)), n).tree, path) == At(tree, path)
  {
    var plan, changes := Plan(configs, true, packages), Changes(configs, true, packages);
    forall i | 0 <= i < |plan| && plan[i].path == path ensures plan[i].Keep? {
      if |configs| <= i {
        assert plan[i] == changes[i - |configs|];
        ChangesAre(configs, true, packages, plan[i]);
      }
    }
    SparedPathsStay(tree, plan, n, path);
  }
}
