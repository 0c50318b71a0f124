/** Collecting a OneDrive selection: a walk over folders that may share items and
    form cycles, limited in depth, in items and in files. */
module OneDriveWalk {
  import opened Common

  /** An item of one account slot. */
  datatype Node = Node(slot: nat, id: string)

  /** What the drive answers for an item: a folder lists its children in pages; of
      a file it matters whether its name may be taken and how large it may be. */
  datatype Item =
    | Folder(pages: seq<seq<string>>)
    | File(visible: bool, size: int, limit: int)

  type Drive = map<Node, Item>

  datatype Error = BadSelection | Unavailable | TooDeep | TooMany | Hidden | TooLarge | Nothing | TooMuch

  const WALK_ERRORS := {Unavailable, TooDeep, TooMany, Hidden, TooLarge}

  const MAX_SELECTED := 50
  const MAX_DEPTH := 8
  const MAX_ITEMS := 200
  const MAX_FILES := 50
  const MAX_BYTES := 25 * 1024 * 1024
  const MAX_SAFE_INTEGER := 9007199254740991

  predicate Acceptable(item: Item) {
    item.File? && item.visible && 0 <= item.size <= item.limit && item.size <= MAX_SAFE_INTEGER
  }

  ghost predicate IsChild(drive: Drive, parent: Node, child: Node) {
    && parent in drive && drive[parent].Folder?
    && child.slot == parent.slot
    && exists page :: page in drive[parent].pages && child.id in page
  }

  /** A way from a selected item down to another. */
  ghost predicate IsTrail(drive: Drive, roots: set<Node>, trail: seq<Node>) {
    && trail != [] && trail[0] in roots
    && forall i :: 0 <= i < |trail| - 1 ==> IsChild(drive, trail[i], trail[i + 1])
  }

  ghost predicate Reachable(drive: Drive, roots: set<Node>, node: Node) {
    exists trail :: IsTrail(drive, roots, trail) && trail[|trail| - 1] == node
  }

  // ------------------------------------------------------- what a walk has done

  /** Everything new, but for `except`, is known to the drive and has all its children in. */
  ghost predicate Closed(drive: Drive, before: set<Node>, after: set<Node>, except: set<Node>) {
    && before <= after
    && forall x | x in after - before - except ::
         x in drive && forall y :: IsChild(drive, x, y) ==> y in after
  }

  /** The files among some nodes, each listed once. */
  ghost predicate Gathers(drive: Drive, files: seq<Node>, nodes: set<Node>) {
    && Distinct(files)
    && (forall x :: x in files <==> x in nodes && x in drive && drive[x].File?)
    && (forall x :: x in files ==> Acceptable(drive[x]))
  }

  ghost predicate AllReachable(drive: Drive, roots: set<Node>, nodes: set<Node>) {
    forall x :: x in nodes ==> Reachable(drive, roots, x)
  }

  lemma ClosedThen(drive: Drive, before: set<Node>, mid: set<Node>, after: set<Node>, except: set<Node>)
    requires Closed(drive, before, mid, except) && Closed(drive, mid, after, {})
    ensures Closed(drive, before, after, except)
  {
  }

  lemma GathersFile(drive: Drive, files: seq<Node>, nodes: set<Node>, node: Node)
    requires Gathers(drive, files, nodes) && node !in nodes && node in drive && Acceptable(drive[node])
    ensures Gathers(drive, files + [node], nodes + {node})
  {
    forall i, j | 0 <= i < j < |files + [node]| ensures (files + [node])[i] != (files + [node])[j] {
      assert files[i] in files;
    }
  }

  lemma GathersFolder(drive: Drive, files: seq<Node>, nodes: set<Node>, node: Node)
    requires Gathers(drive, files, nodes) && node !in nodes && node in drive && drive[node].Folder?
    ensures Gathers(drive, files, nodes + {node})
  {
  }

  lemma FilesOverflow(drive: Drive, roots: set<Node>, files: seq<Node>, nodes: set<Node>, node: Node)
    requires Gathers(drive, files, nodes) && AllReachable(drive, roots, nodes + {node})
    requires node !in nodes && node in drive && drive[node].File? && |files| >= MAX_FILES
    ensures TooManyFiles(drive, roots)
  {
    var all := (set x | x in files) + {node};
    DistinctSize(files);
    assert |all| > MAX_FILES && AllReachable(drive, roots, all);
  }

  lemma TrailExtends(drive: Drive, roots: set<Node>, trail: seq<Node>, child: Node)
    requires IsTrail(drive, roots, trail) && IsChild(drive, trail[|trail| - 1], child)
    ensures IsTrail(drive, roots, trail + [child])
  {
  }

  /** A closed set that holds the roots holds everything reachable. */
  lemma {:induction false} ClosedHoldsTrails(drive: Drive, roots: set<Node>, nodes: set<Node>, trail: seq<Node>)
    requires Closed(drive, {}, nodes, {}) && roots <= nodes && IsTrail(drive, roots, trail)
    ensures trail[|trail| - 1] in nodes
  {
    if |trail| > 1 {
      var init := trail[..|trail| - 1];
      assert IsTrail(drive, roots, init);
      ClosedHoldsTrails(drive, roots, nodes, init);
      assert IsChild(drive, init[|init| - 1], trail[|trail| - 1]);
    }
  }

  /** Whether the n-th request or check of the account is refused. */
  type Refusals = nat -> bool

  /** All the files below the selection, each once. */
  ghost predicate AllFiles(drive: Drive, roots: set<Node>, files: seq<Node>) {
    Distinct(files) && forall x :: x in files <==> Reachable(drive, roots, x) && x in drive && drive[x].File?
  }

  ghost predicate TooManyFiles(drive: Drive, roots: set<Node>) {
    exists files: set<Node> :: |files| > MAX_FILES && AllReachable(drive, roots, files)
      && forall x :: x in files ==> x in drive && drive[x].File?
  }

  /** What must be so of the drive or the account for each failure. */
  ghost predicate Reason(drive: Drive, roots: set<Node>, refuses: Refusals, error: Error) {
    match error
    case BadSelection => true
    case Unavailable => (exists n :: refuses(n)) || exists x :: Reachable(drive, roots, x) && x !in drive
    case Nothing => forall x :: Reachable(drive, roots, x) && x in drive ==> drive[x].Folder?
    case TooMuch => exists files :: AllFiles(drive, roots, files) && Bytes(drive, files) > MAX_BYTES
    case TooDeep => exists trail :: IsTrail(drive, roots, trail) && |trail| > MAX_DEPTH + 1
    case TooMany => exists nodes: set<Node> :: |nodes| > MAX_ITEMS && AllReachable(drive, roots, nodes)
    case Hidden => exists x :: Reachable(drive, roots, x) && x in drive && drive[x].File? && !drive[x].visible
    case TooLarge =>
      || (exists x :: Reachable(drive, roots, x) && x in drive && drive[x].File? && !Acceptable(drive[x]))
      || TooManyFiles(drive, roots)
  }

  /** Something is wrong with the selection, the drive or the account. */
  ghost predicate Fails(drive: Drive, roots: set<Node>, refuses: Refusals) {
    exists error: Error :: error != BadSelection && Reason(drive, roots, refuses, error)
  }

  class Walker {
    const drive: Drive
    ghost const roots: set<Node>
    const refuses: Refusals
    var asked: nat                    // requests and checks made so far
    var visited: set<Node>
    var pending: seq<Node>

    constructor (drive: Drive, ghost roots: set<Node>, refuses: Refusals)
      ensures this.drive == drive && this.roots == roots && this.refuses == refuses
      ensures visited == {} && pending == []
      ensures Valid()
    {
      this.drive, this.roots, this.refuses := drive, roots, refuses;
      asked, visited, pending := 0, {}, [];
    }

    method Ask() returns (refused: bool)
      modifies this`asked
      ensures refused ==> exists n :: refuses(n)
    {
      refused := refuses(asked);
      asked := asked + 1;
    }

    ghost predicate Valid()
      reads this
    {
      && |visited| <= MAX_ITEMS && |pending| <= MAX_FILES
      && AllReachable(drive, roots, visited)
      && Gathers(drive, pending, visited)
    }

    /** `walk`: visits an item and everything below it that was not visited yet. */
    method Walk(node: Node, depth: nat, ghost trail: seq<Node>) returns (r: Result<(), Error>)
      requires Valid() && IsTrail(drive, roots, trail) && trail[|trail| - 1] == node && |trail| == depth + 1
      modifies this
      ensures r.Ok? ==> Valid() && node in visited && Closed(drive, old(visited), visited, {})
      ensures r.Ok? ==> old(pending) <= pending
      ensures r.Err? ==> Reason(drive, roots, refuses, r.error) && r.error in WALK_ERRORS
      decreases MAX_DEPTH + 2 - depth, 1
    {
      var changed := Ask();             // the account was connected anew meanwhile
      if changed { return Err(Unavailable); }
      if depth > MAX_DEPTH { return Err(TooDeep); }
      if node in visited { return Ok(()); }
      visited := visited + {node};
      assert Reachable(drive, roots, node);
      assert AllReachable(drive, roots, visited);
      if |visited| > MAX_ITEMS { return Err(TooMany); }
      var unavailable := Ask();         // the request failed, or the account changed
      if unavailable || node !in drive { return Err(Unavailable); }
      match drive[node] {
        case Folder(pages) =>
          GathersFolder(drive, pending, old(visited), node);
          r := WalkFolder(node, pages, depth, trail);
        case File(_, _, _) =>
          r := TakeFile(node, old(visited));
      }
    }

    method TakeFile(node: Node, ghost before: set<Node>) returns (r: Result<(), Error>)
      requires node in drive && drive[node].File? && node !in before && visited == before + {node}
      requires |visited| <= MAX_ITEMS && AllReachable(drive, roots, visited)
      requires Gathers(drive, pending, before) && |pending| <= MAX_FILES
      modifies this`pending
      ensures r.Ok? ==> Valid() && pending == old(pending) + [node]
      ensures r.Err? ==> Reason(drive, roots, refuses, r.error) && r.error in WALK_ERRORS
    {
      assert Reachable(drive, roots, node);
      var item := drive[node];
      if !item.visible { return Err(Hidden); }
      if |pending| >= MAX_FILES {
        FilesOverflow(drive, roots, pending, before, node);
        return Err(TooLarge);
      }
      if item.size < 0 || item.size > MAX_SAFE_INTEGER || item.size > item.limit { return Err(TooLarge); }
      GathersFile(drive, pending, before, node);
      pending := pending + [node];
      return Ok(());
    }

    method WalkFolder(node: Node, pages: seq<seq<string>>, depth: nat, ghost trail: seq<Node>)
      returns (r: Result<(), Error>)
      requires node in drive && drive[node] == Folder(pages) && depth <= MAX_DEPTH
      requires IsTrail(drive, roots, trail) && trail[|trail| - 1] == node && |trail| == depth + 1
      requires Valid() && node in visited
      modifies this
      ensures r.Ok? ==> Valid() && node in visited && Closed(drive, old(visited) - {node}, visited, {})
      ensures r.Ok? ==> old(pending) <= pending
      ensures r.Err? ==> Reason(drive, roots, refuses, r.error) && r.error in WALK_ERRORS
      decreases MAX_DEPTH + 2 - depth, 0
    {
      var cursor := 0;
      var more := true;
      while more
        invariant cursor <= |pages| && (!more ==> cursor == |pages|)
        invariant Valid() && node in visited && old(pending) <= pending
        invariant Closed(drive, old(visited) - {node}, visited, {node})
        invariant forall k :: 0 <= k < cursor ==> forall id :: id in pages[k] ==> Node(node.slot, id) in visited
        decreases |pages| - cursor, more
      {
        var unavailable := Ask();
        if unavailable { return Err(Unavailable); }
        if cursor < |pages| {
          var page := pages[cursor];
          for i := 0 to |page|
            invariant Valid() && node in visited && old(pending) <= pending
            invariant Closed(drive, old(visited) - {node}, visited, {node})
            invariant forall k :: 0 <= k < cursor ==> forall id :: id in pages[k] ==> Node(node.slot, id) in visited
            invariant forall j :: 0 <= j < i ==> Node(node.slot, page[j]) in visited
          {
            var child := Node(node.slot, page[i]);
            assert page in drive[node].pages;
            TrailExtends(drive, roots, trail, child);
            ghost var before := visited;
            r := Walk(child, depth + 1, trail + [child]);
            if r.Err? { return; }
            ClosedThen(drive, old(visited) - {node}, before, visited, {node});
          }
          cursor := cursor + 1;
        }
        more := cursor < |pages|;
      }
      return Ok(());
    }
  }

  lemma {:induction false} DistinctSize(s: seq<Node>)
    requires Distinct(s)
    ensures |set x | x in s| == |s|
  {
    if s != [] {
      var init := s[..|s| - 1];
      DistinctSize(init);
      assert (set x | x in s) == (set x | x in init) + {s[|s| - 1]};
    } else {
      assert (set x | x in s) == {};
    }
  }

  function Bytes(drive: Drive, files: seq<Node>): int {
    if files == [] then 0
    else (if files[0] in drive && drive[files[0]].File? then drive[files[0]].size else 0) + Bytes(drive, files[1..])
  }

  method TotalBytes(drive: Drive, files: seq<Node>) returns (total: int)
    ensures total == Bytes(drive, files)
  {
    total := 0;
    for i := 0 to |files|
      invariant total + Bytes(drive, files[i..]) == Bytes(drive, files)
    {
      if files[i] in drive && drive[files[i]].File? { total := total + drive[files[i]].size; }
    }
  }

  lemma VisitedIsReachable(drive: Drive, roots: set<Node>, nodes: set<Node>)
    requires Closed(drive, {}, nodes, {}) && roots <= nodes && AllReachable(drive, roots, nodes)
    ensures forall x :: Reachable(drive, roots, x) <==> x in nodes
  {
    forall x | Reachable(drive, roots, x) ensures x in nodes {
      var trail :| IsTrail(drive, roots, trail) && trail[|trail| - 1] == x;
      ClosedHoldsTrails(drive, roots, nodes, trail);
    }
  }

  ghost function Roots(selected: seq<Node>): set<Node> {
    set x | x in selected
  }

  method WalkAll(walker: Walker, selected: seq<Node>) returns (r: Result<(), Error>)
    requires walker.Valid() && walker.roots == Roots(selected)
    requires walker.visited == {}
    modifies walker
    ensures r.Ok? ==> walker.Valid()
    ensures r.Ok? ==> forall x :: x in walker.visited <==> Reachable(walker.drive, walker.roots, x)
    ensures r.Ok? ==> Closed(walker.drive, {}, walker.visited, {})
    ensures r.Err? ==> Reason(walker.drive, walker.roots, walker.refuses, r.error) && r.error in WALK_ERRORS
  {
    for i := 0 to |selected|
      invariant walker.Valid()
      invariant Closed(walker.drive, {}, walker.visited, {})
      invariant forall j :: 0 <= j < i ==> selected[j] in walker.visited
    {
      assert selected[i] in walker.roots;
      ghost var before := walker.visited;
      r := walker.Walk(selected[i], 0, [selected[i]]);
      if r.Err? { return; }
      ClosedThen(walker.drive, {}, before, walker.visited, {});
    }
    VisitedIsReachable(walker.drive, walker.roots, walker.visited);
    return Ok(());
  }

  /** What a successful collection is: exactly the files below the selection,
      each once, and everything below the selection within the limits. */
  ghost predicate Collected(drive: Drive, selected: seq<Node>, files: seq<Node>) {
    && Distinct(files) && 0 < |files| <= MAX_FILES && Bytes(drive, files) <= MAX_BYTES
    && (forall x :: x in files <==> Reachable(drive, Roots(selected), x) && x in drive && drive[x].File?)
    && (forall x :: x in files ==> Acceptable(drive[x]))
    && (forall x :: Reachable(drive, Roots(selected), x) ==> x in drive)
    && exists nodes: set<Node> ::
         |nodes| <= MAX_ITEMS && forall x :: x in nodes <==> Reachable(drive, Roots(selected), x)
  }

  /** `collect`, up to the downloads: on success exactly the files reachable from
      the selection, each once, within every limit; on failure a reason. */
  method Collect(drive: Drive, selected: seq<Node>, refuses: Refusals) returns (r: Result<seq<Node>, Error>)
    ensures r.Ok? ==> Collected(drive, selected, r.value)
    ensures r.Err? ==> Reason(drive, Roots(selected), refuses, r.error)
    ensures r == Err(BadSelection) <==> !(1 <= |selected| <= MAX_SELECTED)
    ensures 1 <= |selected| <= MAX_SELECTED && !Fails(drive, Roots(selected), refuses) ==> r.Ok?
  {
    if |selected| == 0 || |selected| > MAX_SELECTED { return Err(BadSelection); }
    var walker := new Walker(drive, Roots(selected), refuses);
    var done := WalkAll(walker, selected);
    if done.Err? { return Err(done.error); }
    if walker.pending == [] {
      assert forall x :: x in walker.visited && x in drive ==> x !in walker.pending;
      assert Reason(drive, Roots(selected), refuses, Nothing);
      return Err(Nothing);
    }
    var total := TotalBytes(drive, walker.pending);
    if total > MAX_BYTES {
      assert AllFiles(drive, Roots(selected), walker.pending);
      assert Reason(drive, Roots(selected), refuses, TooMuch);
      return Err(TooMuch);
    }
    return Ok(walker.pending);
  }
}
