/**
 The tree object (webssh/src/file-tree.ts). Its public methods and the continuations after its
 awaits are the events of the machine; each keeps the invariant of every run.
 */
module FileTreeObject {
  import opened Wrappers
  import opened FileTree
  import opened FileTreeSafety

  /** `splitPathSegments` */
  method SplitPathSegments(path: Path) returns (segments: seq<Path>)
    ensures segments == Segments(path)
  {
    segments := ["/"];
    var parts := Parts(path);
    var accumulated := "";
    for i := 0 to |parts|
      invariant segments + Accumulate(accumulated, parts[i..]) == Segments(path)
    {
      assert parts[i..][1..] == parts[i + 1..];
      accumulated := accumulated + "/" + parts[i];
      segments := segments + [accumulated];
    }
  }

  class FileTreeView {
    var nodes: map<NodeId, Node>
    var root: Option<NodeId>
    var ready: bool
    var treeEpoch: nat
    var setCwdToken: nat
    var selectedPath: Option<Path>
    var inflightExpands: map<NodeId, nat>
    /** Trees, nodes and promises made so far; they name those objects. */
    var trees: nat
    var serial: nat
    var promises: nat
    /** The calls that wait: for a directory listing, or inside a path walk. */
    var fetches: map<nat, Fetch>
    var walks: seq<Walk>
    /** The listings put into the tree. */
    ghost var applied: map<(NodeId, nat), seq<Entry>>

    ghost function View(): State
      reads this
    {
      State(nodes, root, ready, treeEpoch, trees, serial, setCwdToken, selectedPath, inflightExpands, fetches, promises,
            walks, applied)
    }

    ghost predicate Valid()
      reads this
    {
      Sound(View())
    }

    constructor ()
      ensures View() == INITIAL && Valid()
    {
      nodes, root, ready, treeEpoch, trees, serial := map[], None, false, 0, 0, 0;
      setCwdToken, selectedPath, inflightExpands, fetches, promises, walks := 0, None, map[], map[], 0, [];
      applied := map[];
      new;
      assert Run([]) == INITIAL;
      EveryRunIsSound([]);
    }

    // ----- The steps -----

    method SetReady(isReady: bool, rootPath: Path)
      requires Valid()
      modifies this
      ensures Valid() && View() == Next(old(View()), FileTree.SetReady(isReady, rootPath))
    {
      hide Sound;
      StepSound(View(), FileTree.SetReady(isReady, rootPath));
      ready := isReady;
      if !isReady {
        treeEpoch := treeEpoch + 1;
        root, selectedPath := None, None;
      } else {
        trees := trees + 1;
        var r := NodeId(trees, serial);
        serial := serial + 1;
        nodes := nodes[r := Node(rootPath, Directory, None, None, Collapsed, false, 0, false)];
        root, selectedPath := Some(r), None;
      }
    }

    method Destroy()
      requires Valid()
      modifies this
      ensures Valid() && View() == Next(old(View()), FileTree.Destroy)
    {
      hide Sound;
      StepSound(View(), FileTree.Destroy);
      treeEpoch := treeEpoch + 1;
      root, selectedPath, ready := None, None, false;
    }

    /** `expandNode` by the user. */
    method Expand(n: NodeId)
      requires Valid()
      modifies this
      ensures Valid() && View() == Next(old(View()), FileTree.Expand(n))
    {
      hide Sound, StartExpand;
      StepSound(View(), FileTree.Expand(n));
      if n in nodes { var _ := ExpandNode(n, false); }
    }

    /** `collapseNode` */
    method Collapse(n: NodeId)
      requires Valid()
      modifies this
      ensures Valid() && View() == Next(old(View()), FileTree.Collapse(n))
    {
      hide Sound;
      StepSound(View(), FileTree.Collapse(n));
      if n !in nodes || !Expandable(nodes[n]) || nodes[n].state.Collapsed? { return; }
      var node := nodes[n];
      node := node.(loadToken := node.loadToken + 1);
      node := node.(state := Collapsed, children := None, truncated := false);
      nodes := nodes[n := node];
    }

    /** `activateNode` */
    method Activate(n: NodeId)
      requires Valid()
      modifies this
      ensures Valid() && View() == Next(old(View()), FileTree.Activate(n))
    {
      hide Sound, StartExpand;
      StepSound(View(), FileTree.Activate(n));
      if n !in nodes { return; }
      selectedPath := Some(nodes[n].path);
      if nodes[n].kind.Directory? && !nodes[n].unavailable { var _ := ExpandNode(n, false); }
    }

    method SetCwd(cwd: Path)
      requires Valid()
      modifies this
      ensures Valid() && View() == Next(old(View()), FileTree.SetCwd(cwd))
    {
      hide Sound, StartExpand, WalkLoop, Segments;
      ghost var before := View();
      StepSound(before, FileTree.SetCwd(cwd));
      ValidRoot(before);
      selectedPath := Some(cwd);
      setCwdToken := setCwdToken + 1;
      if root.Some? && nodes[root.value].state.Collapsed? {
        ExpandKeepsNodes(View(), root.value, true);
        var _ := ExpandNode(root.value, true);
      }
      if !ready || root.None? { return; }
      var segments := SplitPathSegments(cwd);
      ExpandToPath(setCwdToken, root.value, segments);
    }

    /** `expandNode` after its await, with its `finally`. */
    method Settle(p: nat, outcome: Outcome)
      requires Valid()
      modifies this
      ensures Valid() && View() == Next(old(View()), FileTree.Settle(p, outcome))
    {
      hide Sound, ApplyListing, ApplyFailure;
      ghost var before := View();
      StepSound(before, FileTree.Settle(p, outcome));
      if p !in fetches { return; }
      var f := fetches[p];
      ValidFetch(before, p);
      if f.epoch == treeEpoch && ready && root.Some? && f.token == nodes[f.node].loadToken {
        match outcome
        case Listed(entries, truncated) => ShowListing(f.node, f.token, entries, truncated);
        case Rejected => ShowFailure(f.node, f.silent);
      }
      if f.node in inflightExpands && inflightExpands[f.node] == p { inflightExpands := inflightExpands - {f.node}; }
      fetches := fetches - {p};
    }

    /** A walk goes on after its await. */
    method Resume(k: nat)
      requires Valid()
      modifies this
      ensures Valid() && View() == Next(old(View()), FileTree.Resume(k))
    {
      hide Sound, GoOn;
      StepSound(View(), FileTree.Resume(k));
      if k >= |walks| || (walks[k].waitsFor.Some? &&
        !(walks[k].waitsFor.value < promises && walks[k].waitsFor.value !in fetches)) {
        return;
      }
      var w := walks[k];
      walks := walks[..k] + walks[k + 1..];
      WalkOn(w);
    }

    // ----- Their parts -----

    /** `expandNode` up to its await. */
    method ExpandNode(n: NodeId, silent: bool) returns (promise: Option<nat>)
      requires n in nodes
      modifies this
      ensures (View(), promise) == StartExpand(old(View()), n, silent)
    {
      promise := None;
      var node := nodes[n];
      if !Expandable(node) || node.state.Expanded? { return; }
      if node.state.Loading? {
        if n in inflightExpands { promise := Some(inflightExpands[n]); }
        return;
      }
      var epoch := treeEpoch;
      node := node.(loadToken := node.loadToken + 1);
      var token := node.loadToken;
      nodes := nodes[n := node.(state := Loading)];
      promise := Some(promises);
      promises := promises + 1;
      inflightExpands := inflightExpands[n := promise.value];
      fetches := fetches[promise.value := Fetch(n, epoch, token, silent)];
    }

    /** The visible entries become the node's children. */
    method ShowListing(n: NodeId, token: nat, entries: seq<Entry>, truncated: bool)
      requires n in nodes && n.serial < serial
      modifies this
      ensures View() == ApplyListing(old(View()), n, token, entries, truncated)
      ensures fetches == old(fetches) && inflightExpands == old(inflightExpands)
    {
      hide Visible, NewChildren, NewIds;
      var node, shown := nodes[n], Visible(entries);
      var children := MakeChildren(n, node.path, shown);
      node := node.(children := Some(children), truncated := truncated, state := Expanded);
      OwnerApart(old(nodes), n, node, node.path, old(serial), shown);
      nodes := nodes[n := node];
      applied := applied[(n, token) := entries];
    }

    /** `createTreeNode` for each entry */
    method MakeChildren(n: NodeId, path: Path, shown: seq<Entry>) returns (children: seq<NodeId>)
      modifies this`nodes, this`serial
      ensures nodes == old(nodes) + NewChildren(n, path, old(serial), shown)
      ensures children == NewIds(n.tree, old(serial), |shown|) && serial == old(serial) + |shown|
    {
      hide NewChildren;
      children := [];
      NoChildren(n, path, serial);
      for i := 0 to |shown|
        invariant serial == old(serial) + i && children == NewIds(n.tree, old(serial), i)
        invariant nodes == old(nodes) + NewChildren(n, path, old(serial), shown[..i])
      {
        ChildrenGrow(n, path, old(serial), shown, i);
        var c := NodeId(n.tree, serial);
        serial := serial + 1;
        var entry := shown[i];
        nodes := nodes[c := Node(ChildPath(path, entry.name), entry.kind, Some(n), None, Collapsed, false, 0, false)];
        children := children + [c];
      }
      assert shown[..|shown|] == shown;
    }

    method ShowFailure(n: NodeId, silent: bool)
      requires n in nodes
      modifies this
      ensures View() == ApplyFailure(old(View()), n, silent)
      ensures fetches == old(fetches) && inflightExpands == old(inflightExpands)
    {
      var node := nodes[n];
      if silent {
        var cwd := selectedPath;
        if cwd.Some? && cwd.value != "" && IsDescendant(node.path, cwd.value) {
          nodes := nodes[n := node.(unavailable := true, state := Collapsed, children := None)];
          return;
        }
      }
      nodes := nodes[n := node.(state := Failed, children := None)];
    }

    /** The child with a path among a node's children. */
    method ChildAt(n: NodeId, path: Path) returns (child: Option<NodeId>)
      requires n in nodes
      ensures child == FindChild(View(), ChildrenOf(nodes[n]), path)
      ensures child.Some? ==> child.value in nodes
    {
      var children := ChildrenOf(nodes[n]);
      for i := 0 to |children|
        invariant FindChild(View(), children[i..], path) == FindChild(View(), children, path)
      {
        assert children[i..][1..] == children[i + 1..];
        if children[i] in nodes && nodes[children[i]].path == path { return Some(children[i]); }
      }
      child := None;
    }

    /** The child for a segment below an unavailable node. */
    method SyntheticChild(current: NodeId, segment: Path) returns (c: NodeId)
      requires current in nodes
      modifies this
      ensures (View(), c) == Synthetic(old(View()), current, segment) && c in nodes
    {
      hide FindChild;
      var node := nodes[current];
      var found := ChildAt(current, segment);
      if found.Some? { return found.value; }
      c := NodeId(current.tree, serial);
      serial := serial + 1;
      nodes := nodes[current := node.(children := Some(ChildrenOf(node) + [c]))]
               + map[c := Node(segment, Directory, Some(current), None, Collapsed, false, 0, false)];
    }

    method Wait(token: nat, current: NodeId, point: Point, rest: seq<Path>)
      requires current in nodes
      modifies this
      ensures View() == ExpandAndWait(old(View()), token, current, point, rest)
    {
      hide StartExpand;
      var p := ExpandNode(current, true);
      walks := walks + [Walk(token, current, point, rest, p)];
    }

    /** The part of `expandToPath` after its loop. */
    method FinishWalk(token: nat, current: NodeId)
      requires current in nodes
      modifies this
      ensures View() == WalkTail(old(View()), token, current)
    {
      hide ExpandAndWait;
      if token != setCwdToken { return; }
      var node := nodes[current];
      if node.state.Collapsed? && !node.unavailable && node.parent.Some? && node.parent.value in nodes
         && nodes[node.parent.value].unavailable
      {
        Wait(token, current, AfterSynthetic, []);
        return;
      }
      ShowTarget(token, current);
    }

    /** Expand the target itself, or highlight it. */
    method ShowTarget(token: nat, current: NodeId)
      requires current in nodes
      modifies this
      ensures View() == WalkTarget(old(View()), token, current)
    {
      hide ExpandAndWait;
      var node := nodes[current];
      if node.state.Collapsed? && node.kind.Directory? && !node.unavailable {
        Wait(token, current, AfterTarget, []);
      } else {
        selectedPath := Some(node.path);
      }
    }

    /** The loop of `expandToPath`, until it waits or ends. */
    method ExpandToPath(token: nat, start: NodeId, segments: seq<Path>)
      requires start in nodes
      modifies this
      ensures View() == WalkLoop(old(View()), token, start, segments)
    {
      hide ExpandAndWait, WalkTail, Synthetic, FindChild, StartExpand;
      var current, i := start, 0;
      while i < |segments|
        invariant 0 <= i <= |segments| && current in nodes
        invariant WalkLoop(View(), token, current, segments[i..]) == WalkLoop(old(View()), token, start, segments)
      {
        if token != setCwdToken { return; }
        var segment, node := segments[i], nodes[current];
        assert segments[i..][0] == segment && segments[i..][1..] == segments[i + 1..];
        if segment == node.path {
          if !node.state.Expanded? {
            Wait(token, current, AfterMatch, segments[i + 1..]);
            return;
          }
        } else if node.unavailable {
          current := SyntheticChild(current, segment);
        } else if !node.state.Expanded? {
          Wait(token, current, AfterTry, segments[i..]);
          return;
        } else {
          var child := ChildAt(current, segment);
          if child.None? {
            FinishWalk(token, current);
            return;
          }
          current := child.value;
        }
        i := i + 1;
      }
      FinishWalk(token, current);
    }

    /** `expandToPath` after any of its awaits. */
    method WalkOn(w: Walk)
      modifies this
      ensures View() == GoOn(old(View()), w)
    {
      hide WalkLoop, WalkTail, WalkTarget, Synthetic, FindChild;
      if w.token != setCwdToken || w.current !in nodes { return; }
      match w.point
      case AfterMatch => ExpandToPath(w.token, w.current, w.rest);
      case AfterTry =>
        if w.rest == [] { return; }
        if nodes[w.current].unavailable {
          var c := SyntheticChild(w.current, w.rest[0]);
          ExpandToPath(w.token, c, w.rest[1..]);
        } else {
          var child := ChildAt(w.current, w.rest[0]);
          if child.None? { FinishWalk(w.token, w.current); } else { ExpandToPath(w.token, child.value, w.rest[1..]); }
        }
      case AfterSynthetic => ShowTarget(w.token, w.current);
      case AfterTarget => selectedPath := Some(nodes[w.current].path);
    }

    /** Anything that can happen to the object. */
    method Step(e: Event)
      requires Valid()
      modifies this
      ensures Valid() && View() == Next(old(View()), e)
    {
      hide Next, Sound;
      match e
      case SetReady(isReady, rootPath) => SetReady(isReady, rootPath);
      case Destroy => Destroy();
      case Expand(n) => Expand(n);
      case Collapse(n) => Collapse(n);
      case Activate(n) => Activate(n);
      case SetCwd(cwd) => SetCwd(cwd);
      case Settle(p, outcome) => Settle(p, outcome);
      case Resume(k) => Resume(k);
    }
  }

  /** Any events, in any order: the object goes through exactly the runs the theorems are about. */
  method Drive(events: seq<Event>) returns (tree: FileTreeView)
    ensures fresh(tree) && tree.View() == Run(events) && tree.Valid()
  {
    hide Next, Sound;
    tree := new FileTreeView();
    for i := 0 to |events|
      invariant fresh(tree) && tree.View() == Run(events[..i]) && tree.Valid()
    {
      tree.Step(events[i]);
      assert events[..i + 1][..i] == events[..i];
    }
    assert events[..|events|] == events;
  }

  // ----- Facts the methods use -----

  lemma ValidRoot(s: State)
    requires Sound(s)
    ensures s.root.Some? ==> s.root.value in s.nodes
  {
  }

  lemma ValidFetch(s: State, p: nat)
    requires Sound(s) && p in s.fetches
    ensures s.fetches[p].node in s.nodes && s.fetches[p].node.serial < s.serial
  {
  }

  lemma ExpandKeepsNodes(s: State, n: NodeId, silent: bool)
    requires n in s.nodes
    ensures var t := StartExpand(s, n, silent).0;
      n in t.nodes && t.root == s.root && t.ready == s.ready && t.cwdToken == s.cwdToken
  {
  }

  lemma NoChildren(n: NodeId, path: Path, first: nat)
    ensures NewChildren(n, path, first, []) == map[]
  {
  }

  /** The node itself is none of its new children. */
  lemma OwnerApart(nodes: map<NodeId, Node>, n: NodeId, node: Node, path: Path, first: nat, shown: seq<Entry>)
    requires n.serial < first
    ensures (nodes + NewChildren(n, path, first, shown))[n := node] == nodes[n := node]
      + NewChildren(n, path, first, shown)
  {
  }

  /** One child more. */
  lemma ChildrenGrow(n: NodeId, path: Path, first: nat, shown: seq<Entry>, i: nat)
    requires i < |shown|
    ensures var c, entry := NodeId(n.tree, first + i), shown[i];
      var child := Node(ChildPath(path, entry.name), entry.kind, Some(n), None, Collapsed, false, 0, false);
      NewChildren(n, path, first, shown[..i + 1]) == NewChildren(n, path, first, shown[..i])[c := child]
    ensures NewIds(n.tree, first, i + 1) == NewIds(n.tree, first, i) + [NodeId(n.tree, first + i)]
  {
  }
}
