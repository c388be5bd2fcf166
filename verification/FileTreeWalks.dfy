/** Where a path walk of the directory tree ends, and what a current answer does to its node. */
module FileTreeWalks {
  import opened Wrappers
  import opened FileTree
  import opened FileTreeSafety

  // ----- What a current answer does -----

  /** A closed node that can be opened if it is a directory. */
  ghost predicate Fresh(nodes: Nodes, c: NodeId) {
    c in nodes && nodes[c].state.Collapsed? && nodes[c].children == None && !nodes[c].unavailable
  }

  /** The nodes of a listing, each as a new node has to be. */
  ghost predicate AreNew(nodes: Nodes, parent: NodeId, path: Path, children: seq<NodeId>, shown: seq<Entry>) {
    && |children| == |shown|
    && forall i :: 0 <= i < |children| ==>
         && children[i] in nodes
         && nodes[children[i]] ==
            Node(ChildPath(path, shown[i].name), shown[i].kind, Some(parent), None, Collapsed, false, 0, false)
  }

  /** A listing: the node is expanded and its children are new nodes, the visible entries in order. */
  ghost predicate IsListed(s: State, t: State, n: NodeId, entries: seq<Entry>, truncated: bool) {
    && n in s.nodes && n in t.nodes
    && t.nodes[n] == s.nodes[n].(state := Expanded, truncated := truncated, children := t.nodes[n].children)
    && t.nodes[n].children.Some? && Shows(t.nodes, s.nodes[n].path, t.nodes[n].children.value, entries)
    && AreNew(t.nodes, n, s.nodes[n].path, t.nodes[n].children.value, Visible(entries))
    && forall c :: c in t.nodes[n].children.value ==> c !in s.nodes && Fresh(t.nodes, c)
  }

  /** A refusal: on the way to the selected directory the node is passed over, elsewhere it shows the error. */
  ghost predicate IsRefused(s: State, t: State, n: NodeId, silent: bool) {
    && n in s.nodes && n in t.nodes
    && var onTheWay := silent && s.selected.Some? && s.selected.value != "" &&
         IsDescendant(s.nodes[n].path, s.selected.value);
       t.nodes[n] == s.nodes[n].(children := None, state := if onTheWay then Collapsed else Failed,
         unavailable := onTheWay || s.nodes[n].unavailable)
  }

  /** Nothing else moves: not the other nodes, the walks or the selection. */
  ghost predicate OnlyNode(s: State, t: State, n: NodeId) {
    && (forall m :: m in s.nodes && m != n ==> m in t.nodes && t.nodes[m] == s.nodes[m])
    && t.root == s.root && t.ready == s.ready && t.epoch == s.epoch && t.trees == s.trees
    && t.cwdToken == s.cwdToken && t.selected == s.selected && t.walks == s.walks && t.promises == s.promises
  }

  lemma ListingTakesEffect(s: State, n: NodeId, token: nat, entries: seq<Entry>, truncated: bool)
    requires Inv(s) && n in s.nodes
    ensures var t := ApplyListing(s, n, token, entries, truncated);
      && IsListed(s, t, n, entries, truncated) && OnlyNode(s, t, n)
      && t.fetches == s.fetches && t.inflight == s.inflight
  {
    hide Inv, Shows, Visible, NewChildren, AreNew;
    var t := ApplyListing(s, n, token, entries, truncated);
    ListingExtends(s, n, token, entries, truncated);
    ListedAreNew(s, n, token, entries, truncated);
    forall c | c in t.nodes[n].children.value ensures c !in s.nodes { NotYetMade(s, c); }
  }

  lemma ListedAreNew(s: State, n: NodeId, token: nat, entries: seq<Entry>, truncated: bool)
    requires n in s.nodes
    ensures AreNew(ApplyListing(s, n, token, entries, truncated).nodes, n, s.nodes[n].path,
                   NewIds(n.tree, s.serial, |Visible(entries)|), Visible(entries))
  {
    hide AreNew, NewChildren, Visible;
    var children := NewIds(n.tree, s.serial, |Visible(entries)|);
    MadeAreNew(s.nodes[n := s.nodes[n].(children := Some(children), truncated := truncated, state := Expanded)],
      n, s.nodes[n].path, s.serial, Visible(entries));
  }

  lemma MadeAreNew(nodes: Nodes, parent: NodeId, path: Path, serial: nat, shown: seq<Entry>)
    ensures AreNew(nodes + NewChildren(parent, path, serial, shown), parent, path,
                   NewIds(parent.tree, serial, |shown|), shown)
  {
    hide NewChildren, ChildPath;
    var ids, made := NewIds(parent.tree, serial, |shown|), NewChildren(parent, path, serial, shown);
    forall i | 0 <= i < |ids|
      ensures ids[i] in made && made[ids[i]] ==
        Node(ChildPath(path, shown[i].name), shown[i].kind, Some(parent), None, Collapsed, false, 0, false)
    {
      NewChildIs(parent, path, serial, shown, i);
    }
  }

  lemma NewChildIs(parent: NodeId, path: Path, serial: nat, entries: seq<Entry>, i: nat)
    requires i < |entries|
    ensures var made, c := NewChildren(parent, path, serial, entries), NodeId(parent.tree, serial + i);
      && c in made
      && made[c] ==
         Node(ChildPath(path, entries[i].name), entries[i].kind, Some(parent), None, Collapsed, false, 0, false)
  {
  }

  lemma NotYetMade(s: State, c: NodeId)
    requires Inv(s) && s.serial <= c.serial
    ensures c !in s.nodes
  {
  }

  lemma RefusalTakesEffect(s: State, n: NodeId, silent: bool)
    requires n in s.nodes
    ensures var t := ApplyFailure(s, n, silent);
      IsRefused(s, t, n, silent) && OnlyNode(s, t, n) && t.fetches == s.fetches && t.inflight == s.inflight
  {
    hide IsDescendant;
  }

  lemma FinishKeeps(s: State, p: nat)
    requires p in s.fetches
    ensures var t := Finish(s, p);
      t == s.(fetches := t.fetches, inflight := t.inflight) && t.fetches == s.fetches - {p}
  {
  }

  /** A current answer takes effect: a listing expands its node, a refusal marks it, and the fetch is over. */
  lemma SettleTakesEffect(s: State, p: nat, outcome: Outcome)
    requires Sound(s) && p in s.fetches && s.fetches[p].node in s.nodes && !Stale(s, s.fetches[p])
    ensures var f, t := s.fetches[p], DoSettle(s, p, outcome);
      && OnlyNode(s, t, f.node) && p !in t.fetches
      && match outcome
         case Listed(entries, truncated) => IsListed(s, t, f.node, entries, truncated)
         case Rejected => IsRefused(s, t, f.node, f.silent)
  {
    hide Inv, CurrentOk, ApplyListing, ApplyFailure, Stale, IsDescendant, Shows, Finish;
    SoundParts(s);
    var f := s.fetches[p];
    match outcome
    case Listed(entries, truncated) =>
      ListingTakesEffect(s, f.node, f.token, entries, truncated);
      FinishKeeps(ApplyListing(s, f.node, f.token, entries, truncated), p);
    case Rejected =>
      RefusalTakesEffect(s, f.node, f.silent);
      FinishKeeps(ApplyFailure(s, f.node, f.silent), p);
  }

  /** In every run, for the fetch of any loading node below the live root. */
  lemma AnswerTakesEffect(events: seq<Event>, outcome: Outcome, trail: seq<NodeId>)
    requires IsTrail(Run(events), trail) && trail[|trail| - 1] in Run(events).nodes
    requires Run(events).nodes[trail[|trail| - 1]].state.Loading?
    ensures var s, n := Run(events), trail[|trail| - 1];
      && n in s.inflight && s.inflight[n] in s.fetches
      && var f, t := s.fetches[s.inflight[n]], Next(s, Settle(s.inflight[n], outcome));
         && OnlyNode(s, t, n) && s.inflight[n] !in t.fetches
         && match outcome
            case Listed(entries, truncated) => IsListed(s, t, n, entries, truncated)
            case Rejected => IsRefused(s, t, n, f.silent)
  {
    var s, n := Run(events), trail[|trail| - 1];
    hide *;
    EveryRunIsSound(events);
    ReachableNodes(events, trail);
    SettleTakesEffect(s, s.inflight[n], outcome);
    NextSettle(s, s.inflight[n], outcome);
  }

  /** A walk does not go on while the fetch it waits for is in flight. */
  lemma WalkWaits(s: State, k: nat)
    requires k < |s.walks| && s.walks[k].waitsFor.Some? && s.walks[k].waitsFor.value in s.fetches
    ensures Next(s, Resume(k)) == s
  {
    hide GoOn;
  }

  // ----- What the user does -----

  /** Opening a closed or failed directory asks for it, in this epoch and under a new token. */
  lemma ExpandTakesEffect(s: State, n: NodeId)
    requires n in s.nodes && Expandable(s.nodes[n]) && (s.nodes[n].state.Collapsed? || s.nodes[n].state.Failed?)
    ensures var t, node := Next(s, Expand(n)), s.nodes[n];
      && n in t.nodes && t.nodes[n] == node.(state := Loading, loadToken := node.loadToken + 1)
      && n in t.inflight && t.inflight[n] == s.promises && s.promises in t.fetches
      && t.fetches[s.promises] == Fetch(n, s.epoch, node.loadToken + 1, false)
      && (forall m :: m in s.nodes && m != n ==> m in t.nodes && t.nodes[m] == s.nodes[m])
      && t.selected == s.selected && t.walks == s.walks && t.root == s.root
  {
  }

  /** Activating selects; an available directory is opened too. */
  lemma ActivateTakesEffect(s: State, n: NodeId)
    requires n in s.nodes
    ensures var t := s.(selected := Some(s.nodes[n].path));
      Next(s, Activate(n)) == if Expandable(s.nodes[n]) then Next(t, Expand(n)) else t
  {
    hide StartExpand;
  }

  /** Collapsing hides the children and makes every fetch of the node superseded. */
  lemma CollapseTakesEffect(s: State, n: NodeId)
    requires Sound(s) && n in s.nodes && Expandable(s.nodes[n]) && !s.nodes[n].state.Collapsed?
    ensures var t := Next(s, Collapse(n));
      && Fresh(t.nodes, n) && !t.nodes[n].truncated && t.nodes[n].path == s.nodes[n].path
      && (forall p :: p in t.fetches && t.fetches[p].node == n ==> Stale(t, t.fetches[p]))
      && (forall m :: m in s.nodes && m != n ==> m in t.nodes && t.nodes[m] == s.nodes[m])
      && t.selected == s.selected && t.walks == s.walks && t.root == s.root
  {
    hide Shape, RootOk, LiveOk, ContentsOk, WalksOk, CurrentOk;
  }

  /** A teardown leaves nothing shown, and a new tree shows its closed root. */
  lemma TreeBeginsAndEnds(s: State, e: Event, rootPath: Path)
    requires e == Destroy || e == SetReady(false, rootPath)
    ensures var t := Next(s, e); !t.ready && t.root == None && t.selected == None && t.epoch > s.epoch
    ensures var t := Next(s, SetReady(true, rootPath));
      && t.ready && t.root.Some? && t.selected == None && t.root.value.tree > s.trees && Fresh(t.nodes, t.root.value)
      && t.nodes[t.root.value].path == rootPath && t.nodes[t.root.value].kind.Directory?
  {
  }

  // ----- Paths -----

  /** A path that is its own last segment: the root, or names joined by single slashes. */
  predicate Normal(cwd: Path) { Segments(cwd)[|Segments(cwd)| - 1] == cwd }

  lemma NamesAreNormal(names: seq<string>)
    requires forall i :: 0 <= i < |names| ==> names[i] != [] && '/' !in names[i]
    ensures Normal(if names == [] then "/" else PathOf(names))
  {
    hide Segments;
    if names != [] { SegmentsRoundTrip(names); } else { RootSegment(); }
  }

  lemma RootSegment()
    ensures Segments("/") == ["/"]
  {
    assert Parts("/") == PartsFrom("", "") == [];
  }

  lemma SegmentsCount(cwd: Path)
    ensures |Segments(cwd)| == |Parts(cwd)| + 1
  {
    if Parts(cwd) != [] { SegmentsAreChildPaths(cwd, 0); }
  }

  /** Each segment extends the one before by a slash, or the root's own, and a name. */
  lemma NextSegment(cwd: Path, i: nat)
    requires i + 1 < |Segments(cwd)|
    ensures i < |Parts(cwd)| && Segments(cwd)[i + 1] == ChildPath(Segments(cwd)[i], Parts(cwd)[i])
    ensures Parts(cwd)[i] != [] && |Segments(cwd)[i]| < |Segments(cwd)[i + 1]|
  {
    SegmentsCount(cwd);
    SegmentsAreChildPaths(cwd, i);
    PartsAreNames(cwd, "", i);
    hide Segments;
  }

  lemma {:induction false} SegmentsGrow(cwd: Path, i: nat, j: nat)
    requires i < j < |Segments(cwd)|
    ensures |Segments(cwd)[i]| < |Segments(cwd)[j]|
    ensures if Segments(cwd)[i] == "/" then "/" <= Segments(cwd)[j] else Segments(cwd)[i] + "/" <= Segments(cwd)[j]
  {
    hide Segments, Parts;
    NextSegment(cwd, j - 1);
    if i < j - 1 { SegmentsGrow(cwd, i, j - 1); }
  }

  /** Every segment of a normal path lies on the way to it. */
  lemma SegmentsLeadThere(cwd: Path, i: nat)
    requires Normal(cwd) && i < |Segments(cwd)|
    ensures IsDescendant(Segments(cwd)[i], cwd)
  {
    var last := |Segments(cwd)| - 1;
    hide Segments;
    if i < last { SegmentsGrow(cwd, i, last); }
  }

  // ----- Trails along a path -----

  /** The nodes of a trail have the first segments of `cwd`. */
  ghost predicate Along(nodes: Nodes, trail: seq<NodeId>, cwd: Path) {
    && 0 < |trail| <= |Segments(cwd)|
    && forall k :: 0 <= k < |trail| ==> trail[k] in nodes && nodes[trail[k]].path == Segments(cwd)[k]
  }

  /** No two children have the same path. */
  ghost predicate Distinct(nodes: Nodes, n: NodeId)
    requires n in nodes
  {
    forall c, d | c in ChildrenOf(nodes[n]) && d in ChildrenOf(nodes[n]) && c in nodes && d in nodes ::
      nodes[c].path == nodes[d].path ==> c == d
  }

  /** Expanded, or passed over as refused. */
  predicate IsOpen(node: Node) { node.state.Expanded? || (node.unavailable && node.state.Collapsed?) }

  /** The root is expanded and all others but the last are open, and sibling names are distinct. */
  ghost predicate OpenTo(nodes: Nodes, trail: seq<NodeId>) {
    forall k :: 0 <= k < |trail| - 1 ==>
      && trail[k] in nodes && IsOpen(nodes[trail[k]]) && (k == 0 ==> nodes[trail[k]].state.Expanded?)
      && Distinct(nodes, trail[k])
  }

  lemma {:induction false} FindChildFinds(s: State, children: seq<NodeId>, c: NodeId)
    requires c in children && c in s.nodes
    ensures FindChild(s, children, s.nodes[c].path).Some?
  {
    if children[0] != c { FindChildFinds(s, children[1..], c); }
  }

  lemma FindsOwnChild(s: State, n: NodeId, c: NodeId)
    requires n in s.nodes && c in ChildrenOf(s.nodes[n]) && c in s.nodes && Distinct(s.nodes, n)
    ensures FindChild(s, ChildrenOf(s.nodes[n]), s.nodes[c].path) == Some(c)
  {
    hide FindChild;
    FindChildFinds(s, ChildrenOf(s.nodes[n]), c);
    FindChildFacts(s, ChildrenOf(s.nodes[n]), s.nodes[c].path);
  }

  lemma {:induction false} TrailStep(s: State, trail: seq<NodeId>, k: nat)
    requires IsTrail(s, trail) && k + 1 < |trail|
    ensures trail[k] in s.nodes && trail[k + 1] in ChildrenOf(s.nodes[trail[k]])
  {
    if k + 2 < |trail| {
      var front := trail[..|trail| - 1];
      TrailStep(s, front, k);
      assert front[k] == trail[k] && front[k + 1] == trail[k + 1];
    }
  }

  /** One level down an open trail costs nothing. */
  lemma StepDown(s: State, token: nat, trail: seq<NodeId>, k: nat, cwd: Path)
    requires Inv(s) && token == s.cwdToken && IsTrail(s, trail) && Along(s.nodes, trail, cwd) && OpenTo(s.nodes, trail)
    requires k + 1 < |trail|
    ensures WalkLoop(s, token, trail[k], Segments(cwd)[k + 1..])
         == WalkLoop(s, token, trail[k + 1], Segments(cwd)[k + 2..])
  {
    var n, c, segments := trail[k], trail[k + 1], Segments(cwd)[k + 1..];
    assert segments[0] == Segments(cwd)[k + 1] && segments[1..] == Segments(cwd)[k + 2..];
    assert s.nodes[n].path == Segments(cwd)[k] && s.nodes[c].path == segments[0];
    assert IsOpen(s.nodes[n]) && Distinct(s.nodes, n);
    NextSegment(cwd, k);
    TrailStep(s, trail, k);
    AvailableIfExpanded(s, n);
    FindsOwnChild(s, n, c);
    hide Inv, IsTrail, Along, OpenTo, Distinct, FindChild, Segments;
    GoesThrough(s, token, n, c, segments);
  }

  lemma AvailableIfExpanded(s: State, n: NodeId)
    requires Inv(s) && n in s.nodes
    ensures s.nodes[n].state.Expanded? ==> !s.nodes[n].unavailable
  {
    assert NodeOk(s.nodes, n, s.applied);
  }

  /** Through an open node to the child it has for the next segment, listed or synthetic. */
  lemma GoesThrough(s: State, token: nat, n: NodeId, c: NodeId, segments: seq<Path>)
    requires token == s.cwdToken && n in s.nodes && segments != [] && segments[0] != s.nodes[n].path
    requires IsOpen(s.nodes[n]) && (s.nodes[n].state.Expanded? ==> !s.nodes[n].unavailable)
    requires FindChild(s, ChildrenOf(s.nodes[n]), segments[0]) == Some(c)
    ensures WalkLoop(s, token, n, segments) == WalkLoop(s, token, c, segments[1..])
  {
    hide FindChild;
    assert s.nodes[n].unavailable ==> Synthetic(s, n, segments[0]) == (s, c);
    hide Synthetic;
  }

  /** Down to the k-th node of the trail. */
  lemma {:induction false} DownTheTrail(s: State, token: nat, trail: seq<NodeId>, k: nat, cwd: Path)
    requires Inv(s) && token == s.cwdToken && IsTrail(s, trail) && Along(s.nodes, trail, cwd) && OpenTo(s.nodes, trail)
    requires k < |trail|
    ensures WalkLoop(s, token, trail[0], Segments(cwd)[1..]) == WalkLoop(s, token, trail[k], Segments(cwd)[k + 1..])
  {
    hide Inv, IsTrail, OpenTo, WalkLoop, Segments;
    if k > 0 {
      DownTheTrail(s, token, trail, k - 1, cwd);
      StepDown(s, token, trail, k - 1, cwd);
    }
  }

  lemma {:induction false} TrailStays(s: State, t: State, trail: seq<NodeId>)
    requires IsTrail(s, trail) && t.root == s.root
    requires forall k :: 0 <= k < |trail| - 1 ==>
      trail[k] in t.nodes && (trail[k] in s.nodes ==>
        forall c :: c in ChildrenOf(s.nodes[trail[k]]) ==> c in ChildrenOf(t.nodes[trail[k]]))
    ensures IsTrail(t, trail)
  {
    if |trail| > 1 {
      var front := trail[..|trail| - 1];
      assert forall k :: 0 <= k < |front| ==> front[k] == trail[k];
      TrailStays(s, t, front);
    }
  }

  lemma TrailRoot(s: State, trail: seq<NodeId>)
    requires IsTrail(s, trail)
    ensures s.root == Some(trail[0])
    decreases |trail|
  {
    if |trail| > 1 { TrailRoot(s, trail[..|trail| - 1]); }
  }

  /** The state in which the walk to `cwd` begins. */
  function Aimed(s: State, cwd: Path): State { s.(selected := Some(cwd), cwdToken := s.cwdToken + 1) }

  lemma AimedKeeps(s: State, cwd: Path, trail: seq<NodeId>)
    requires Sound(s) && IsTrail(s, trail)
    ensures Sound(Aimed(s, cwd)) && IsTrail(Aimed(s, cwd), trail)
  {
    SelectingIsSound(s, Some(cwd), s.cwdToken + 1);
    hide Sound;
    forall k | 0 <= k < |trail| - 1 ensures trail[k] in s.nodes { TrailStep(s, trail, k); }
    TrailStays(s, Aimed(s, cwd), trail);
  }

  /** With an open root the walk starts below it, and nothing is fetched for the root. */
  lemma StartsBelowRoot(s: State, cwd: Path)
    requires s.root.Some? && s.ready && s.root.value in s.nodes && s.nodes[s.root.value].path == "/"
    requires s.nodes[s.root.value].state.Expanded?
    ensures DoSetCwd(s, cwd) == WalkLoop(Aimed(s, cwd), s.cwdToken + 1, s.root.value, Segments(cwd)[1..])
  {
  }

  lemma ReadyWithRoot(s: State)
    requires Inv(s) && s.root.Some?
    ensures s.ready && s.root.value in s.nodes && s.root.value.tree == s.trees
  {
  }

  lemma Arrives(s: State, token: nat, n: NodeId)
    requires token == s.cwdToken && n in s.nodes && IsOpen(s.nodes[n])
    ensures WalkLoop(s, token, n, []) == s.(selected := Some(s.nodes[n].path))
  {
  }

  /**
   A directory whose whole path is shown, expanded or passed over: the walk selects it and changes nothing
   else, so it starts no fetch, makes no node and leaves no walk behind.
   */
  lemma ShownPathIsSelected(s: State, cwd: Path, trail: seq<NodeId>)
    requires Sound(s) && IsTrail(s, trail) && Along(s.nodes, trail, cwd) && |trail| == |Segments(cwd)|
    requires OpenTo(s.nodes, trail) && IsOpen(s.nodes[trail[|trail| - 1]]) && s.nodes[trail[0]].state.Expanded?
    ensures DoSetCwd(s, cwd) == s.(selected := Some(Segments(cwd)[|trail| - 1]), cwdToken := s.cwdToken + 1)
    ensures Normal(cwd) ==> DoSetCwd(s, cwd).selected == Some(cwd)
  {
    var last, t := |trail| - 1, Aimed(s, cwd);
    RootOfTrail(s, cwd, trail);
    AimedKeeps(s, cwd, trail);
    SoundParts(t);
    assert Segments(cwd)[last + 1..] == [];
    hide *;
    StartsBelowRoot(s, cwd);
    AimedFacts(s, cwd, trail);
    DownTheTrail(t, t.cwdToken, trail, last, cwd);
    Arrives(t, t.cwdToken, trail[last]);
  }

  lemma AimedFacts(s: State, cwd: Path, trail: seq<NodeId>)
    requires Along(s.nodes, trail, cwd) && |trail| == |Segments(cwd)|
    ensures var t := Aimed(s, cwd);
      && t.nodes == s.nodes && t.cwdToken == s.cwdToken + 1
      && t.(selected := Some(s.nodes[trail[|trail| - 1]].path)) ==
         s.(selected := Some(Segments(cwd)[|trail| - 1]), cwdToken := s.cwdToken + 1)
      && trail[|trail| - 1] in s.nodes
      && (Normal(cwd) ==> Segments(cwd)[|trail| - 1] == cwd)
  {
    hide Segments;
  }

  lemma RootOfTrail(s: State, cwd: Path, trail: seq<NodeId>)
    requires Sound(s) && IsTrail(s, trail) && Along(s.nodes, trail, cwd) && s.nodes[trail[0]].state.Expanded?
    ensures s.root == Some(trail[0]) && s.ready && trail[0] in s.nodes && s.nodes[trail[0]].path == "/"
    ensures s.nodes[trail[0]].state.Expanded?
  {
    TrailRoot(s, trail);
    SoundParts(s);
    ReadyWithRoot(s);
    assert s.nodes[trail[0]].path == Segments(cwd)[0];
    hide Sound, Inv, IsTrail, Segments;
  }

  // ----- A server that leads the walk on -----

  /** What the server answers about each directory. */
  type Answers = Path -> Outcome

  /** The name is listed as a directory, and not as a link too. */
  ghost predicate ListsDirectory(entries: seq<Entry>, name: string) {
    && (exists e :: e in entries && e.name == name && e.kind.Directory?)
    && (forall e :: e in entries && e.name == name ==> !e.kind.Symlink?)
  }

  /** Each of the first `end` directories of the path is refused, or lists the next one. */
  ghost predicate Leads(server: Answers, cwd: Path, end: nat) {
    forall i :: 0 <= i < end && i < |Parts(cwd)| && i < |Segments(cwd)| ==>
      server(Segments(cwd)[i]).Rejected? || ListsDirectory(server(Segments(cwd)[i]).entries, Parts(cwd)[i])
  }

  /** Neither a directory nor a link of that name is listed. */
  ghost predicate ListsNoSuch(entries: seq<Entry>, name: string) {
    forall e :: e in entries && e.name == name ==> !e.kind.Directory? && !e.kind.Symlink?
  }

  /** Up to `end` the trail is open: before `from` from the start, after it as the server answered. */
  ghost predicate Passed(nodes: Nodes, server: Answers, trail: seq<NodeId>, cwd: Path, from: nat, end: nat)
    requires end <= |trail| && Along(nodes, trail, cwd)
  {
    forall k :: 0 <= k < end ==>
      if k < from then IsOpen(nodes[trail[k]]) else AsAnswered(nodes[trail[k]], server(Segments(cwd)[k]))
  }

  predicate AsAnswered(node: Node, answer: Outcome) {
    if answer.Listed? then node.state.Expanded? else node.unavailable && node.state.Collapsed?
  }

  /** The newest walk waits for the listing of `n`, with `rest` still to go; `base` are the walks before it. */
  ghost predicate WaitsAt(s: State, n: NodeId, rest: seq<Path>, base: seq<Walk>) {
    && n in s.nodes && s.nodes[n].state.Loading? && n in s.inflight && s.inflight[n] in s.fetches
    && s.fetches[s.inflight[n]].silent
    && |s.walks| == |base| + 1 && s.walks[..|base|] == base
    && var w := s.walks[|base|];
       && w == Walk(s.cwdToken, n, w.point, rest, Some(s.inflight[n]))
       && (if rest == [] then w.point != AfterTry else w.point == AfterTry || w.point == AfterMatch)
  }

  /** The trail so far, on the way to `cwd`. */
  ghost predicate OnTheWay(s: State, server: Answers, trail: seq<NodeId>, cwd: Path, from: nat, end: nat) {
    && Sound(s) && s.selected == Some(cwd) && IsTrail(s, trail) && Along(s.nodes, trail, cwd)
    && end <= |trail| && Passed(s.nodes, server, trail, cwd, from, end)
  }

  lemma WayFacts(s: State, server: Answers, trail: seq<NodeId>, cwd: Path, from: nat, end: nat)
    requires OnTheWay(s, server, trail, cwd, from, end)
    ensures Sound(s) && s.selected == Some(cwd) && IsTrail(s, trail) && 0 < |trail| <= |Segments(cwd)|
    ensures trail[|trail| - 1] in s.nodes && s.nodes[trail[|trail| - 1]].path == Segments(cwd)[|trail| - 1]
    ensures from < end == |trail| ==> AsAnswered(s.nodes[trail[|trail| - 1]], server(Segments(cwd)[|trail| - 1]))
  {
    hide Sound, IsTrail, Segments, AsAnswered;
  }

  lemma WaitFacts(s: State, n: NodeId, rest: seq<Path>, base: seq<Walk>)
    requires WaitsAt(s, n, rest, base)
    ensures n in s.nodes && n in s.inflight && s.inflight[n] in s.fetches && s.fetches[s.inflight[n]].silent
    ensures |s.walks| == |base| + 1 && s.walks[..|base|] == base
    ensures var w := s.walks[|base|];
      && w == Walk(s.cwdToken, n, w.point, rest, Some(s.inflight[n]))
      && (if rest == [] then w.point != AfterTry else w.point == AfterTry || w.point == AfterMatch)
  {
  }

  /** The last node answered too. */
  lemma AlsoLast(s: State, server: Answers, trail: seq<NodeId>, cwd: Path, from: nat)
    requires trail != [] && OnTheWay(s, server, trail, cwd, from, |trail| - 1)
    requires from < |trail| && AsAnswered(s.nodes[trail[|trail| - 1]], server(Segments(cwd)[|trail| - 1]))
    ensures OnTheWay(s, server, trail, cwd, from, |trail|)
  {
    hide Sound, IsTrail, Segments, AsAnswered;
  }

  // ----- Entering a directory -----

  /** Asking for a fresh directory's listing. */
  lemma AsksForListing(s: State, n: NodeId, point: Point, rest: seq<Path>)
    requires Fresh(s.nodes, n) && s.nodes[n].kind.Directory?
    requires if rest == [] then point != AfterTry else point == AfterTry || point == AfterMatch
    ensures var t := ExpandAndWait(s, s.cwdToken, n, point, rest);
      && WaitsAt(t, n, rest, s.walks) && t.nodes[n].path == s.nodes[n].path && t.nodes[n].children == None
      && t.root == s.root && t.selected == s.selected && t.cwdToken == s.cwdToken
      && forall m :: m in s.nodes && m != n ==> m in t.nodes && t.nodes[m] == s.nodes[m]
  {
  }

  /** A fresh directory reached by the walk is asked for. */
  lemma EntersByAsking(s: State, n: NodeId, rest: seq<Path>) returns (point: Point)
    requires Fresh(s.nodes, n) && s.nodes[n].kind.Directory? && (rest != [] ==> rest[0] != s.nodes[n].path)
    ensures WalkLoop(s, s.cwdToken, n, rest) == ExpandAndWait(s, s.cwdToken, n, point, rest)
    ensures if rest == [] then point != AfterTry else point == AfterTry
  {
    hide ExpandAndWait;
    if rest != [] {
      point := AfterTry;
    } else {
      var parent := s.nodes[n].parent;
      point := if parent.Some? && parent.value in s.nodes && s.nodes[parent.value].unavailable then AfterSynthetic
        else AfterTarget;
    }
  }

  /** A change of the last node only keeps the way to it. */
  lemma SameWay(s: State, t: State, server: Answers, trail: seq<NodeId>, cwd: Path, from: nat)
    requires trail != [] && OnTheWay(s, server, trail, cwd, from, |trail| - 1) && Sound(t)
    requires t.root == s.root && t.selected == s.selected
    requires var n := trail[|trail| - 1];
      && n in t.nodes && t.nodes[n].path == s.nodes[n].path
      && forall m :: m in s.nodes && m != n ==> m in t.nodes && t.nodes[m] == s.nodes[m]
    ensures OnTheWay(t, server, trail, cwd, from, |trail| - 1)
  {
    hide Sound, IsTrail, AsAnswered;
    var last := |trail| - 1;
    forall k | 0 <= k < last ensures trail[k] != trail[last] { SegmentsGrow(cwd, k, last); }
    hide Segments;
    TrailStays(s, t, trail);
  }

  /** Into a fresh directory at the end of the trail. */
  lemma Enters(s: State, server: Answers, trail: seq<NodeId>, cwd: Path, from: nat)
    requires trail != [] && OnTheWay(s, server, trail, cwd, from, |trail| - 1)
    requires Fresh(s.nodes, trail[|trail| - 1]) && s.nodes[trail[|trail| - 1]].kind.Directory?
    ensures var n, rest := trail[|trail| - 1], Segments(cwd)[|trail|..];
      var t := WalkLoop(s, s.cwdToken, n, rest);
      OnTheWay(t, server, trail, cwd, from, |trail| - 1) && WaitsAt(t, n, rest, s.walks)
  {
    var n, rest := trail[|trail| - 1], Segments(cwd)[|trail|..];
    if rest != [] { NextSegment(cwd, |trail| - 1); }
    var point := EntersByAsking(s, n, rest);
    AsksForListing(s, n, point, rest);
    WalkLoopSound(s, s.cwdToken, n, rest);
    hide Sound, IsTrail, WalkLoop, ExpandAndWait, WaitsAt, Passed, Segments;
    SameWay(s, WalkLoop(s, s.cwdToken, n, rest), server, trail, cwd, from);
  }

  // ----- The answer arrives -----

  lemma WaitingFetch(s: State, trail: seq<NodeId>, rest: seq<Path>, base: seq<Walk>)
    requires Sound(s) && IsTrail(s, trail) && WaitsAt(s, trail[|trail| - 1], rest, base)
    ensures var n := trail[|trail| - 1]; var f := s.fetches[s.inflight[n]];
      f.node == n && !Stale(s, f) && !s.nodes[n].unavailable && s.nodes[n].kind.Directory? && s.inflight[n] < s.promises
  {
    SoundParts(s);
    TrailIsLive(s, trail);
    LiveNode(s, trail[|trail| - 1]);
    InflightPromised(s, trail[|trail| - 1]);
    hide Sound, Inv, IsTrail;
  }

  /** What an answer on the way leaves of the node. */
  lemma AnsweredOnTheWay(s: State, t: State, n: NodeId, cwd: Path, answer: Outcome)
    requires n in s.nodes && s.selected == Some(cwd) && cwd != "" && IsDescendant(s.nodes[n].path, cwd)
    requires OnlyNode(s, t, n)
    requires if answer.Listed? then IsListed(s, t, n, answer.entries, answer.truncated) else IsRefused(s, t, n, true)
    ensures n in t.nodes && t.nodes[n].path == s.nodes[n].path && AsAnswered(t.nodes[n], answer)
    ensures answer.Rejected? ==> t.nodes[n].children == None
    ensures t.root == s.root && t.selected == s.selected && t.walks == s.walks && t.promises == s.promises
    ensures t.cwdToken == s.cwdToken
    ensures forall m :: m in s.nodes && m != n ==> m in t.nodes && t.nodes[m] == s.nodes[m]
  {
    hide IsDescendant, Shows, Fresh;
  }

  lemma SettledNow(s: State, t: State, p: nat)
    requires p < s.promises && t.promises == s.promises && p !in t.fetches
    ensures Settled(t, p)
  {
  }

  /** The node is as the server answered, and the walk may go on. */
  lemma AnswerArrives(s: State, server: Answers, trail: seq<NodeId>, cwd: Path, from: nat, base: seq<Walk>)
    requires trail != [] && OnTheWay(s, server, trail, cwd, from, |trail| - 1) && Normal(cwd) && from < |trail|
    requires |trail| <= |Segments(cwd)| && WaitsAt(s, trail[|trail| - 1], Segments(cwd)[|trail|..], base)
    ensures var n, answer := trail[|trail| - 1], server(Segments(cwd)[|trail| - 1]);
      n in s.inflight && var t := DoSettle(s, s.inflight[n], answer);
      && OnTheWay(t, server, trail, cwd, from, |trail|) && t.walks == s.walks && t.cwdToken == s.cwdToken
      && Settled(t, s.inflight[n]) && n in t.nodes
      && if answer.Listed? then IsListed(s, t, n, answer.entries, answer.truncated)
         else t.nodes[n].children == None
  {
    hide *;
    var n, rest := trail[|trail| - 1], Segments(cwd)[|trail|..];
    WayFacts(s, server, trail, cwd, from, |trail| - 1);
    WaitFacts(s, n, rest, base);
    WaitingFetch(s, trail, rest, base);
    var p, answer := s.inflight[n], server(Segments(cwd)[|trail| - 1]);
    var t := DoSettle(s, p, answer);
    SettleTakesEffect(s, p, answer);
    SettleSound(s, p, answer);
    SegmentsLeadThere(cwd, |trail| - 1);
    SegmentsNotEmpty(cwd);
    AnsweredOnTheWay(s, t, n, cwd, answer);
    SameWay(s, t, server, trail, cwd, from);
    AlsoLast(t, server, trail, cwd, from);
    SettledNow(s, t, p);
  }

  lemma SegmentsNotEmpty(cwd: Path)
    requires Normal(cwd)
    ensures cwd != ""
  {
    var last := |Segments(cwd)| - 1;
    if last > 0 { SegmentsGrow(cwd, 0, last); }
  }

  // ----- The walk goes on -----

  /** At the end of the path the node is selected. */
  lemma WalkEnds(s: State, w: Walk)
    requires w.token == s.cwdToken && w.current in s.nodes && w.rest == [] && w.point != AfterTry
    requires s.nodes[w.current].state.Expanded? || s.nodes[w.current].unavailable
    ensures GoOn(s, w) == s.(selected := Some(s.nodes[w.current].path))
  {
    hide ExpandAndWait;
  }

  /** Before it, the walk goes down to a listed child, or past a refused node to a synthetic one. */
  lemma WalkGoesDown(s: State, w: Walk)
    requires w.token == s.cwdToken && w.current in s.nodes && w.rest != []
    requires w.point == AfterTry || w.point == AfterMatch
    requires s.nodes[w.current].state.Expanded? || s.nodes[w.current].unavailable
    requires w.rest[0] != s.nodes[w.current].path
    ensures GoOn(s, w) ==
      if s.nodes[w.current].unavailable then
        var (t, c) := Synthetic(s, w.current, w.rest[0]); WalkLoop(t, w.token, c, w.rest[1..])
      else Descend(s, w.token, w.current, w.rest)
  {
    hide ExpandAndWait, Synthetic, Descend;
  }

  lemma ChildPathsDiffer(path: Path, a: string, b: string)
    requires ChildPath(path, a) == ChildPath(path, b)
    ensures a == b
  {
    var skip := |ChildPath(path, a)| - |a|;
    assert ChildPath(path, a)[skip..] == a && ChildPath(path, b)[skip..] == b;
  }

  lemma ShownEntry(entries: seq<Entry>, name: string) returns (j: nat)
    requires ListsDirectory(entries, name)
    ensures j < |Visible(entries)| && Visible(entries)[j].name == name
  {
    var e :| e in entries && e.name == name && e.kind.Directory?;
    assert e in Visible(entries);
    j :| 0 <= j < |Visible(entries)| && Visible(entries)[j] == e;
  }

  /** The directory that the listing names is found among the new children. */
  lemma ListedChild(s: State, n: NodeId, entries: seq<Entry>, name: string) returns (c: NodeId)
    requires n in s.nodes && s.nodes[n].children.Some? && ListsDirectory(entries, name)
    requires Shows(s.nodes, s.nodes[n].path, s.nodes[n].children.value, entries)
    ensures FindChild(s, ChildrenOf(s.nodes[n]), ChildPath(s.nodes[n].path, name)) == Some(c)
    ensures c in ChildrenOf(s.nodes[n]) && c in s.nodes && s.nodes[c].path == ChildPath(s.nodes[n].path, name)
    ensures s.nodes[c].kind.Directory?
  {
    hide FindChild, ChildPath;
    var path, children := s.nodes[n].path, s.nodes[n].children.value;
    var j := ShownEntry(entries, name);
    FindChildFinds(s, children, children[j]);
    FindChildFacts(s, children, ChildPath(path, name));
    c := FindChild(s, children, ChildPath(path, name)).value;
    var i :| 0 <= i < |children| && children[i] == c;
    ChildPathsDiffer(path, Visible(entries)[i].name, name);
    assert Visible(entries)[i] in entries;
  }

  /** One directory further. */
  lemma Longer(s: State, server: Answers, trail: seq<NodeId>, cwd: Path, from: nat, c: NodeId)
    requires trail != [] && OnTheWay(s, server, trail, cwd, from, |trail|) && |trail| < |Segments(cwd)|
    requires c in s.nodes && c in ChildrenOf(s.nodes[trail[|trail| - 1]]) && s.nodes[c].path == Segments(cwd)[|trail|]
    ensures OnTheWay(s, server, trail + [c], cwd, from, |trail|)
  {
    hide Sound, Segments, AsAnswered;
    assert (trail + [c])[..|trail|] == trail;
  }

  /** Past a refused node a synthetic child is made. */
  lemma MakesSynthetic(s: State, server: Answers, trail: seq<NodeId>, cwd: Path, from: nat, segment: Path)
    requires trail != [] && OnTheWay(s, server, trail, cwd, from, |trail|) && from < |trail|
    requires var n := trail[|trail| - 1]; s.nodes[n].unavailable && s.nodes[n].children == None
    ensures var n := trail[|trail| - 1]; var (t, c) := Synthetic(s, n, segment);
      && OnTheWay(t, server, trail, cwd, from, |trail|)
      && Fresh(t.nodes, c) && c in t.nodes && t.nodes[c].kind.Directory?
      && c in ChildrenOf(t.nodes[n]) && t.nodes[c].path == segment && t.walks == s.walks && t.cwdToken == s.cwdToken
  {
    hide *;
    var n := trail[|trail| - 1];
    WayFacts(s, server, trail, cwd, from, |trail|);
    var (t, c) := Synthetic(s, n, segment);
    SyntheticSound(s, n, segment);
    SoundParts(s);
    NotYetMade(s, NodeId(n.tree, s.serial));
    SyntheticIs(s, n, segment);
    SyntheticIsFresh(s, t, n, c, segment);
    ButLast(s, server, trail, cwd, from);
    SameWay(s, t, server, trail, cwd, from);
    AlsoLast(t, server, trail, cwd, from);
  }

  lemma SyntheticIsFresh(s: State, t: State, n: NodeId, c: NodeId, segment: Path)
    requires n in s.nodes && s.nodes[n].unavailable && c !in s.nodes
    requires t.nodes == s.nodes[n := s.nodes[n].(children := Some([c]))]
                               [c := Node(segment, Directory, Some(n), None, Collapsed, false, 0, false)]
    ensures Fresh(t.nodes, c) && c in t.nodes && t.nodes[c].kind.Directory? && t.nodes[c].path == segment
    ensures n in t.nodes && c in ChildrenOf(t.nodes[n]) && t.nodes[n].path == s.nodes[n].path
    ensures forall answer :: AsAnswered(s.nodes[n], answer) ==> AsAnswered(t.nodes[n], answer)
    ensures forall m :: m in s.nodes && m != n ==> m in t.nodes && t.nodes[m] == s.nodes[m]
  {
  }

  lemma ButLast(s: State, server: Answers, trail: seq<NodeId>, cwd: Path, from: nat)
    requires trail != [] && OnTheWay(s, server, trail, cwd, from, |trail|)
    ensures OnTheWay(s, server, trail, cwd, from, |trail| - 1)
  {
    hide Sound, IsTrail, Segments, AsAnswered;
  }

  lemma SyntheticIs(s: State, n: NodeId, segment: Path)
    requires n in s.nodes && s.nodes[n].children == None && NodeId(n.tree, s.serial) !in s.nodes
    ensures var (t, c) := Synthetic(s, n, segment);
      && t.nodes == s.nodes[n := s.nodes[n].(children := Some([c]))]
                          [c := Node(segment, Directory, Some(n), None, Collapsed, false, 0, false)]
      && c !in s.nodes
      && t.walks == s.walks && t.cwdToken == s.cwdToken && t.root == s.root && t.selected == s.selected
  {
    var c := NodeId(n.tree, s.serial);
    assert FindChild(s, ChildrenOf(s.nodes[n]), segment) == None && ChildrenOf(s.nodes[n]) + [c] == [c];
    var nodes := s.nodes[n := s.nodes[n].(children := Some([c]))];
    var made := Node(segment, Directory, Some(n), None, Collapsed, false, 0, false);
    assert nodes + map[c := made] == nodes[c := made];
  }

  /** The state in which a walk goes on: its record is gone. */
  function Woken(s: State, base: seq<Walk>): State { s.(walks := base) }

  lemma WokenKeeps(s: State, server: Answers, trail: seq<NodeId>, cwd: Path, from: nat, base: seq<Walk>)
    requires OnTheWay(s, server, trail, cwd, from, |trail|)
    requires base <= s.walks
    ensures OnTheWay(Woken(s, base), server, trail, cwd, from, |trail|)
  {
    assert Sound(Woken(s, base)) by { hide Shape, RootOk, FetchesOk, LiveOk, ContentsOk, CurrentOk; }
    hide Sound, Segments, AsAnswered;
    forall k | 0 <= k < |trail| - 1 ensures trail[k] in s.nodes { }
    TrailStays(s, Woken(s, base), trail);
  }

  lemma ResumesLast(s: State, base: seq<Walk>)
    requires |s.walks| == |base| + 1 && s.walks[..|base|] == base
    requires s.walks[|base|].waitsFor.Some? && Settled(s, s.walks[|base|].waitsFor.value)
    ensures DoResume(s, |base|) == GoOn(Woken(s, base), s.walks[|base|])
  {
    assert s.walks[..|base|] + s.walks[|base| + 1..] == base;
    hide GoOn;
  }

  // ----- One directory after the other -----

  /** An exchange: the server answers about the directory asked for, and the newest walk goes on. */
  function Exchange(s: State, p: nat, answer: Outcome, k: nat): State {
    Next(Next(s, Settle(p, answer)), Resume(k))
  }

  lemma ExchangeIs(s: State, p: nat, answer: Outcome, k: nat)
    ensures Exchange(s, p, answer, k) == DoResume(DoSettle(s, p, answer), k)
  {
    hide DoResume, DoSettle;
  }

  /** The node shows a listing, all of it new. */
  ghost predicate ShowsNew(nodes: Nodes, n: NodeId, entries: seq<Entry>) {
    && n in nodes && nodes[n].state.Expanded? && !nodes[n].unavailable && nodes[n].children.Some?
    && Shows(nodes, nodes[n].path, nodes[n].children.value, entries)
    && forall c :: c in nodes[n].children.value ==> Fresh(nodes, c)
  }

  lemma OpenAndAvailable(nodes: Nodes, n: NodeId, entries: seq<Entry>)
    requires ShowsNew(nodes, n, entries)
    ensures n in nodes && nodes[n].state.Expanded? && !nodes[n].unavailable
  {
  }

  lemma NewChildIsFresh(s: State, n: NodeId, entries: seq<Entry>, name: string) returns (c: NodeId)
    requires ShowsNew(s.nodes, n, entries) && ListsDirectory(entries, name)
    ensures FindChild(s, ChildrenOf(s.nodes[n]), ChildPath(s.nodes[n].path, name)) == Some(c)
    ensures c in ChildrenOf(s.nodes[n]) && s.nodes[c].path == ChildPath(s.nodes[n].path, name)
    ensures Fresh(s.nodes, c) && c in s.nodes && s.nodes[c].kind.Directory?
  {
    hide FindChild, ChildPath, Shows, ListsDirectory;
    c := ListedChild(s, n, entries, name);
  }

  lemma DescendIs(s: State, token: nat, n: NodeId, rest: seq<Path>, c: NodeId)
    requires n in s.nodes && rest != [] && FindChild(s, ChildrenOf(s.nodes[n]), rest[0]) == Some(c)
    ensures Descend(s, token, n, rest) == WalkLoop(s, token, c, rest[1..])
  {
    hide WalkLoop, FindChild;
  }

  lemma RestOf(cwd: Path, i: nat)
    requires i < |Segments(cwd)|
    ensures var rest := Segments(cwd)[i..];
      rest != [] && rest[0] == Segments(cwd)[i] && rest[1..] == Segments(cwd)[i + 1..]
  {
    hide Segments;
  }

  /** Down to the child that the listing names. */
  lemma WakesBelow(s: State, w: Walk, server: Answers, trail: seq<NodeId>, cwd: Path, from: nat, entries: seq<Entry>)
      returns (c: NodeId)
    requires trail != [] && OnTheWay(s, server, trail, cwd, from, |trail|) && |trail| < |Segments(cwd)|
    requires w == Walk(s.cwdToken, trail[|trail| - 1], w.point, Segments(cwd)[|trail|..], w.waitsFor)
    requires w.point == AfterTry || w.point == AfterMatch
    requires ShowsNew(s.nodes, trail[|trail| - 1], entries)
    requires |trail| - 1 < |Parts(cwd)| && ListsDirectory(entries, Parts(cwd)[|trail| - 1])
    ensures var t := GoOn(s, w);
      OnTheWay(t, server, trail + [c], cwd, from, |trail|) && WaitsAt(t, c, Segments(cwd)[|trail| + 1..], s.walks)
  {
    hide *;
    var n, i := trail[|trail| - 1], |trail| - 1;
    WayFacts(s, server, trail, cwd, from, |trail|);
    OpenAndAvailable(s.nodes, n, entries);
    NextSegment(cwd, i);
    RestOf(cwd, |trail|);
    WalkGoesDown(s, w);
    c := NewChildIsFresh(s, n, entries, Parts(cwd)[i]);
    DescendIs(s, s.cwdToken, n, w.rest, c);
    Longer(s, server, trail, cwd, from, c);
    assert (trail + [c])[|trail + [c]| - 1] == c && |trail + [c]| == |trail| + 1;
    Enters(s, server, trail + [c], cwd, from);
  }

  /** Past a refused directory to a synthetic child. */
  lemma WakesPast(s: State, w: Walk, server: Answers, trail: seq<NodeId>, cwd: Path, from: nat) returns (c: NodeId)
    requires trail != [] && OnTheWay(s, server, trail, cwd, from, |trail|) && from < |trail| < |Segments(cwd)|
    requires w == Walk(s.cwdToken, trail[|trail| - 1], w.point, Segments(cwd)[|trail|..], w.waitsFor)
    requires w.point == AfterTry || w.point == AfterMatch
    requires var n := trail[|trail| - 1]; n in s.nodes && s.nodes[n].unavailable && s.nodes[n].children == None
    ensures var t := GoOn(s, w);
      OnTheWay(t, server, trail + [c], cwd, from, |trail|) && WaitsAt(t, c, Segments(cwd)[|trail| + 1..], s.walks)
  {
    hide *;
    var n, i := trail[|trail| - 1], |trail| - 1;
    WayFacts(s, server, trail, cwd, from, |trail|);
    NextSegment(cwd, i);
    RestOf(cwd, |trail|);
    WalkGoesDown(s, w);
    MakesSynthetic(s, server, trail, cwd, from, w.rest[0]);
    var (t, made) := Synthetic(s, n, w.rest[0]);
    c := made;
    Longer(t, server, trail, cwd, from, c);
    assert (trail + [c])[|trail + [c]| - 1] == c && |trail + [c]| == |trail| + 1;
    Enters(t, server, trail + [c], cwd, from);
  }

  /** The walk that wakes sees the directory as answered. */
  lemma SeenAwake(s: State, server: Answers, trail: seq<NodeId>, cwd: Path, from: nat, base: seq<Walk>)
    requires trail != [] && OnTheWay(s, server, trail, cwd, from, |trail|) && base <= s.walks && from < |trail|
    ensures var u, n, answer := Woken(s, base), trail[|trail| - 1], server(Segments(cwd)[|trail| - 1]);
      && OnTheWay(u, server, trail, cwd, from, |trail|) && u.nodes == s.nodes && u.cwdToken == s.cwdToken
      && u.walks == base && u.selected == Some(cwd) && n in u.nodes && u.nodes[n].path == Segments(cwd)[|trail| - 1]
      && (if answer.Listed? then u.nodes[n].state.Expanded? else u.nodes[n].unavailable)
  {
    hide OnTheWay, Sound, IsTrail, Segments;
    WokenKeeps(s, server, trail, cwd, from, base);
    WayFacts(s, server, trail, cwd, from, |trail|);
  }

  lemma ExpandedIsAvailable(s: State, n: NodeId)
    requires Sound(s) && n in s.nodes && s.nodes[n].state.Expanded?
    ensures !s.nodes[n].unavailable
  {
    assert NodeOk(s.nodes, n, s.applied);
  }

  lemma ListedShowsNew(s: State, t: State, n: NodeId, entries: seq<Entry>, truncated: bool)
    requires IsListed(s, t, n, entries, truncated) && Sound(t)
    ensures ShowsNew(t.nodes, n, entries)
  {
    ExpandedIsAvailable(t, n);
    hide Sound, Shows, Fresh;
  }

  lemma Led(server: Answers, cwd: Path, i: nat, end: nat)
    requires Leads(server, cwd, end) && i < |Parts(cwd)| && i < |Segments(cwd)| && i < end
    ensures server(Segments(cwd)[i]).Rejected? || ListsDirectory(server(Segments(cwd)[i]).entries, Parts(cwd)[i])
  {
  }

  /** Not the last directory: the exchange leads to the next one. */
  lemma NextDirectory(s: State, server: Answers, trail: seq<NodeId>, cwd: Path, from: nat, base: seq<Walk>)
      returns (c: NodeId)
    requires trail != [] && OnTheWay(s, server, trail, cwd, from, |trail| - 1) && Normal(cwd)
    requires Leads(server, cwd, |trail|)
    requires WaitsAt(s, trail[|trail| - 1], Segments(cwd)[|trail|..], base)
    requires from < |trail| < |Segments(cwd)|
    ensures var n := trail[|trail| - 1];
      var t := Exchange(s, s.inflight[n], server(Segments(cwd)[|trail| - 1]), |base|);
      && OnTheWay(t, server, trail + [c], cwd, from, |trail|)
      && WaitsAt(t, c, Segments(cwd)[|trail| + 1..], base)
  {
    hide *;
    var n, i := trail[|trail| - 1], |trail| - 1;
    WaitFacts(s, n, Segments(cwd)[|trail|..], base);
    var p, answer := s.inflight[n], server(Segments(cwd)[i]);
    var s1, w := DoSettle(s, p, answer), s.walks[|base|];
    AnswerArrives(s, server, trail, cwd, from, base);
    NextSegment(cwd, i);
    RestOf(cwd, |trail|);
    Led(server, cwd, i, |trail|);
    WayFacts(s1, server, trail, cwd, from, |trail|);
    SeenAwake(s1, server, trail, cwd, from, base);
    ExchangeIs(s, p, answer, |base|);
    ResumesLast(s1, base);
    var u := Woken(s1, base);
    if answer.Listed? {
      ListedShowsNew(s, s1, n, answer.entries, answer.truncated);
      c := WakesBelow(u, w, server, trail, cwd, from, answer.entries);
    } else {
      c := WakesPast(u, w, server, trail, cwd, from);
    }
  }

  lemma NormalEnd(cwd: Path)
    requires Normal(cwd)
    ensures Segments(cwd)[|Segments(cwd)| - 1] == cwd
  {
  }

  /** The last directory: the exchange ends the walk with it selected. */
  lemma LastDirectory(s: State, server: Answers, trail: seq<NodeId>, cwd: Path, from: nat, base: seq<Walk>)
    requires trail != [] && OnTheWay(s, server, trail, cwd, from, |trail| - 1) && Normal(cwd)
    requires WaitsAt(s, trail[|trail| - 1], Segments(cwd)[|trail|..], base)
    requires from < |trail| == |Segments(cwd)|
    ensures var n := trail[|trail| - 1];
      var t := Exchange(s, s.inflight[n], server(Segments(cwd)[|trail| - 1]), |base|);
      OnTheWay(t, server, trail, cwd, from, |trail|) && t.walks == base
  {
    hide *;
    var n, i := trail[|trail| - 1], |trail| - 1;
    WaitFacts(s, n, Segments(cwd)[|trail|..], base);
    var p, answer := s.inflight[n], server(Segments(cwd)[i]);
    var s1, w := DoSettle(s, p, answer), s.walks[|base|];
    AnswerArrives(s, server, trail, cwd, from, base);
    assert Segments(cwd)[|trail|..] == [];
    NormalEnd(cwd);
    SeenAwake(s1, server, trail, cwd, from, base);
    ExchangeIs(s, p, answer, |base|);
    ResumesLast(s1, base);
    var u := Woken(s1, base);
    WalkEnds(u, w);
    assert u.(selected := Some(cwd)) == u;
  }

  lemma NoSuchChild(s: State, n: NodeId, entries: seq<Entry>, name: string)
    requires ShowsNew(s.nodes, n, entries) && ListsNoSuch(entries, name)
    ensures FindChild(s, ChildrenOf(s.nodes[n]), ChildPath(s.nodes[n].path, name)) == None
  {
    hide FindChild, ChildPath;
    var path, children := s.nodes[n].path, s.nodes[n].children.value;
    FindChildFacts(s, children, ChildPath(path, name));
    var found := FindChild(s, children, ChildPath(path, name));
    if found.Some? {
      var i :| 0 <= i < |children| && children[i] == found.value;
      ChildPathsDiffer(path, Visible(entries)[i].name, name);
      assert Visible(entries)[i] in Visible(entries);
    }
  }

  lemma EndsHere(s: State, token: nat, n: NodeId, rest: seq<Path>)
    requires n in s.nodes && rest != [] && FindChild(s, ChildrenOf(s.nodes[n]), rest[0]) == None
    requires s.nodes[n].state.Expanded? && token == s.cwdToken
    ensures Descend(s, token, n, rest) == s.(selected := Some(s.nodes[n].path))
  {
    hide FindChild;
  }

  /** A directory whose listing lacks the next one: the walk ends with it selected. */
  lemma DeadEnd(s: State, server: Answers, trail: seq<NodeId>, cwd: Path, from: nat, base: seq<Walk>)
    requires trail != [] && OnTheWay(s, server, trail, cwd, from, |trail| - 1) && Normal(cwd)
    requires WaitsAt(s, trail[|trail| - 1], Segments(cwd)[|trail|..], base)
    requires from < |trail| < |Segments(cwd)| && |trail| - 1 < |Parts(cwd)|
    requires var answer := server(Segments(cwd)[|trail| - 1]);
      answer.Listed? && ListsNoSuch(answer.entries, Parts(cwd)[|trail| - 1])
    ensures var n := trail[|trail| - 1];
      var t := Exchange(s, s.inflight[n], server(Segments(cwd)[|trail| - 1]), |base|);
      && OnTheWay(t.(selected := Some(cwd)), server, trail, cwd, from, |trail|)
      && t.walks == base && t.selected == Some(Segments(cwd)[|trail| - 1])
  {
    hide *;
    var n, i := trail[|trail| - 1], |trail| - 1;
    WaitFacts(s, n, Segments(cwd)[|trail|..], base);
    var p, answer := s.inflight[n], server(Segments(cwd)[i]);
    var s1, w := DoSettle(s, p, answer), s.walks[|base|];
    AnswerArrives(s, server, trail, cwd, from, base);
    NextSegment(cwd, i);
    RestOf(cwd, |trail|);
    WayFacts(s1, server, trail, cwd, from, |trail|);
    SeenAwake(s1, server, trail, cwd, from, base);
    ExchangeIs(s, p, answer, |base|);
    ResumesLast(s1, base);
    var u := Woken(s1, base);
    ListedShowsNew(s, s1, n, answer.entries, answer.truncated);
    WayFacts(u, server, trail, cwd, from, |trail|);
    ExpandedIsAvailable(u, n);
    WalkGoesDown(u, w);
    NoSuchChild(u, n, answer.entries, Parts(cwd)[i]);
    EndsHere(u, u.cwdToken, n, w.rest);
    assert u.(selected := Some(Segments(cwd)[i])).(selected := Some(cwd)) == u;
  }

  // ----- The whole walk -----

  /** The walk of a closed root: its listing is asked for once, and waited for. */
  lemma StartsAtRoot(s: State, cwd: Path)
    requires s.root.Some? && s.ready && Fresh(s.nodes, s.root.value) && s.root.value in s.nodes
    requires s.nodes[s.root.value].kind.Directory? && s.nodes[s.root.value].path == "/"
    ensures var r, t := s.root.value, DoSetCwd(s, cwd);
      && WaitsAt(t, r, Segments(cwd)[1..], s.walks) && r in t.nodes && t.nodes[r].path == s.nodes[r].path
      && t.root == s.root && t.selected == Some(cwd)
      && forall m :: m in s.nodes && m != r ==> m in t.nodes && t.nodes[m] == s.nodes[m]
  {
    hide Segments;
  }

  /** A closed directory at the end of an open trail. */
  ghost predicate ClosedEnd(s: State, trail: seq<NodeId>, cwd: Path) {
    && IsTrail(s, trail) && Along(s.nodes, trail, cwd) && OpenTo(s.nodes, trail)
    && Fresh(s.nodes, trail[|trail| - 1]) && s.nodes[trail[|trail| - 1]].kind.Directory?
  }

  lemma AimedOnTheWay(s: State, server: Answers, trail: seq<NodeId>, cwd: Path)
    requires Sound(s) && ClosedEnd(s, trail, cwd)
    ensures OnTheWay(Aimed(s, cwd), server, trail, cwd, |trail| - 1, |trail| - 1)
  {
    AimedKeeps(s, cwd, trail);
    hide Sound, IsTrail, Segments;
  }

  lemma ClosedParts(s: State, trail: seq<NodeId>, cwd: Path)
    requires ClosedEnd(s, trail, cwd)
    ensures 0 < |trail| <= |Segments(cwd)| && IsTrail(s, trail) && Along(s.nodes, trail, cwd) && OpenTo(s.nodes, trail)
    ensures var n := trail[|trail| - 1]; Fresh(s.nodes, n) && n in s.nodes && s.nodes[n].kind.Directory?
  {
    hide IsTrail, Segments;
  }

  lemma AimedIs(s: State, cwd: Path)
    ensures var t := Aimed(s, cwd);
      && t.nodes == s.nodes && t.cwdToken == s.cwdToken + 1 && t.walks == s.walks && t.root == s.root
      && t.selected == Some(cwd)
  {
  }

  lemma ClosedFacts(s: State, trail: seq<NodeId>, cwd: Path)
    requires Sound(s) && ClosedEnd(s, trail, cwd)
    ensures s.root == Some(trail[0]) && s.ready && trail[0] in s.nodes && s.nodes[trail[0]].path == "/"
    ensures |trail| > 1 ==> s.nodes[trail[0]].state.Expanded?
  {
    TrailRoot(s, trail);
    SoundParts(s);
    ReadyWithRoot(s);
    assert s.nodes[trail[0]].path == Segments(cwd)[0];
    hide Sound, Inv, IsTrail, Segments;
  }

  /** The walk goes down to the closed directory without asking, and asks for that one. */
  lemma WalkStarts(s: State, server: Answers, trail: seq<NodeId>, cwd: Path)
    requires Sound(s) && ClosedEnd(s, trail, cwd)
    ensures var t := DoSetCwd(s, cwd);
      && OnTheWay(t, server, trail, cwd, |trail| - 1, |trail| - 1)
      && WaitsAt(t, trail[|trail| - 1], Segments(cwd)[|trail|..], s.walks)
  {
    hide *;
    var last, aimed := |trail| - 1, Aimed(s, cwd);
    ClosedParts(s, trail, cwd);
    ClosedFacts(s, trail, cwd);
    AimedIs(s, cwd);
    AimedOnTheWay(s, server, trail, cwd);
    AimedKeeps(s, cwd, trail);
    SoundParts(aimed);
    if last == 0 {
      SetCwdSound(s, cwd);
      StartsAtRoot(s, cwd);
      SameWay(aimed, DoSetCwd(s, cwd), server, trail, cwd, last);
    } else {
      StartsBelowRoot(s, cwd);
      DownTheTrail(aimed, aimed.cwdToken, trail, last, cwd);
      Enters(aimed, server, trail, cwd, last);
    }
  }

  /** An answer of the server about a directory on the way, or the walk waking. */
  ghost predicate ByServer(e: Event, server: Answers, cwd: Path) {
    e.Resume? || (e.Settle? && exists k :: 0 <= k < |Segments(cwd)| && e.outcome == server(Segments(cwd)[k]))
  }

  lemma TwoSteps(events: seq<Event>, p: nat, answer: Outcome, k: nat)
    ensures Run(events + [Settle(p, answer), Resume(k)]) == Exchange(Run(events), p, answer, k)
  {
    RunStep(events, Settle(p, answer));
    RunStep(events + [Settle(p, answer)], Resume(k));
    hide Run, Next;
    assert events + [Settle(p, answer)] + [Resume(k)] == events + [Settle(p, answer), Resume(k)];
  }

  lemma IsByServer(server: Answers, cwd: Path, i: nat, p: nat, k: nat)
    requires i < |Segments(cwd)|
    ensures ByServer(Settle(p, server(Segments(cwd)[i])), server, cwd) && ByServer(Resume(k), server, cwd)
  {
    hide Segments;
  }

  /** From any directory on the way to the `end`-th. */
  lemma {:induction false} WalkGoesOn(events: seq<Event>, server: Answers, trail: seq<NodeId>, cwd: Path, from: nat,
      base: seq<Walk>, end: nat) returns (more: seq<Event>, way: seq<NodeId>)
    requires from < |trail| <= end <= |Segments(cwd)| && OnTheWay(Run(events), server, trail, cwd, from, |trail| - 1)
    requires WaitsAt(Run(events), trail[|trail| - 1], Segments(cwd)[|trail|..], base)
    requires Normal(cwd) && Leads(server, cwd, end - 1)
    ensures trail <= way && |way| == end && OnTheWay(Run(events + more), server, way, cwd, from, end - 1)
    ensures WaitsAt(Run(events + more), way[end - 1], Segments(cwd)[end..], base) && |more| == 2 * (end - |trail|)
    ensures forall e :: e in more ==> ByServer(e, server, cwd)
    decreases end - |trail|
  {
    hide *;
    if |trail| == end {
      more, way := [], trail;
      assert events + more == events;
    } else {
      var s, n, i := Run(events), trail[|trail| - 1], |trail| - 1;
      WaitFacts(s, n, Segments(cwd)[|trail|..], base);
      var p, answer := s.inflight[n], server(Segments(cwd)[i]);
      var first := [Settle(p, answer), Resume(|base|)];
      TwoSteps(events, p, answer, |base|);
      IsByServer(server, cwd, i, p, |base|);
      LeadsBefore(server, cwd, |trail|, end - 1);
      var c := NextDirectory(s, server, trail, cwd, from, base);
      assert (trail + [c])[|trail|] == c && |trail + [c]| == |trail| + 1;
      more, way := WalkGoesOn(events + first, server, trail + [c], cwd, from, base, end);
      assert events + first + more == events + (first + more);
      more := first + more;
    }
  }

  lemma LeadsBefore(server: Answers, cwd: Path, i: nat, end: nat)
    requires Leads(server, cwd, end) && i <= end
    ensures Leads(server, cwd, i)
  {
  }

  /** What a walk comes to: all of `way` is below the root, on the path, and open or passed over. */
  ghost predicate Opened(s: State, server: Answers, way: seq<NodeId>, cwd: Path, from: nat) {
    && IsTrail(s, way) && Along(s.nodes, way, cwd)
    && forall k :: 0 <= k < |way| ==>
         if k < from then IsOpen(s.nodes[way[k]])
         else if server(Segments(cwd)[k]).Listed? then s.nodes[way[k]].state.Expanded?
         else s.nodes[way[k]].unavailable && s.nodes[way[k]].state.Collapsed?
  }

  lemma WayIsOpened(s: State, server: Answers, way: seq<NodeId>, cwd: Path, from: nat, shown: Option<Path>)
    requires OnTheWay(s.(selected := shown), server, way, cwd, from, |way|)
    ensures Opened(s, server, way, cwd, from)
  {
    hide Sound, Segments;
    forall k | 0 <= k < |way| - 1 ensures way[k] in s.nodes { }
    TrailStays(s.(selected := shown), s, way);
  }

  /** The walk to `cwd` starts, and goes on to its `end`-th directory. */
  lemma WalkFromClosedEnd(events: seq<Event>, server: Answers, trail: seq<NodeId>, cwd: Path, end: nat)
      returns (more: seq<Event>, way: seq<NodeId>)
    requires ClosedEnd(Run(events), trail, cwd) && |trail| <= end <= |Segments(cwd)| && end > 0
    requires Normal(cwd) && Leads(server, cwd, end - 1)
    ensures var t := Run(events + [SetCwd(cwd)] + more);
      && 0 < |trail| && trail <= way && |way| == end && OnTheWay(t, server, way, cwd, |trail| - 1, end - 1)
      && WaitsAt(t, way[end - 1], Segments(cwd)[end..], Run(events).walks)
    ensures |more| == 2 * (end - |trail|) && forall e :: e in more ==> ByServer(e, server, cwd)
  {
    hide *;
    var s := Run(events);
    ClosedParts(s, trail, cwd);
    EveryRunIsSound(events);
    RunStep(events, SetCwd(cwd));
    WalkStarts(s, server, trail, cwd);
    NextSetCwd(s, cwd);
    more, way := WalkGoesOn(events + [SetCwd(cwd)], server, trail, cwd, |trail| - 1, s.walks, end);
  }

  /**
   In every run, from any open part of the tree: a server that lists the next directory, or refuses, at
   every step of the way leads the walk to its target.  The target is selected and below the root on a
   trail with exactly the path's directories, each expanded or, where the server refused it, passed over;
   it took one exchange for every directory not yet open, and no walk is left behind.
   */
  lemma WalkReachesTarget(events: seq<Event>, server: Answers, trail: seq<NodeId>, cwd: Path)
      returns (more: seq<Event>, way: seq<NodeId>)
    requires ClosedEnd(Run(events), trail, cwd) && Normal(cwd) && Leads(server, cwd, |Segments(cwd)| - 1)
    ensures var t := Run(events + [SetCwd(cwd)] + more);
      && t.selected == Some(cwd) && |way| == |Segments(cwd)| && Opened(t, server, way, cwd, |trail| - 1)
      && trail <= way && t.walks == Run(events).walks
    ensures |more| == 2 * (|Segments(cwd)| - |trail| + 1) && forall e :: e in more ==> ByServer(e, server, cwd)
  {
    hide *;
    var end := |Segments(cwd)|;
    ClosedParts(Run(events), trail, cwd);
    more, way := WalkFromClosedEnd(events, server, trail, cwd, end);
    var so := events + [SetCwd(cwd)] + more;
    var s, n, base := Run(so), way[end - 1], Run(events).walks;
    WaitFacts(s, n, Segments(cwd)[end..], base);
    var p, answer := s.inflight[n], server(Segments(cwd)[end - 1]);
    TwoSteps(so, p, answer, |base|);
    IsByServer(server, cwd, end - 1, p, |base|);
    LastDirectory(s, server, way, cwd, |trail| - 1, base);
    assert so + [Settle(p, answer), Resume(|base|)] ==
      events + [SetCwd(cwd)] + (more + [Settle(p, answer), Resume(|base|)]);
    more := more + [Settle(p, answer), Resume(|base|)];
    var t := Run(events + [SetCwd(cwd)] + more);
    WayFacts(t, server, way, cwd, |trail| - 1, |way|);
    assert t.(selected := Some(cwd)) == t;
    WayIsOpened(t, server, way, cwd, |trail| - 1, Some(cwd));
  }

  /**
   A path that is not there: where a directory's listing lacks the next one, the walk ends with that
   directory selected and expanded, and asks for nothing below it.
   */
  lemma WalkStopsShort(events: seq<Event>, server: Answers, trail: seq<NodeId>, cwd: Path, end: nat)
      returns (more: seq<Event>, way: seq<NodeId>)
    requires ClosedEnd(Run(events), trail, cwd) && Normal(cwd) && |trail| <= end < |Segments(cwd)| && end > 0
    requires Leads(server, cwd, end - 1) && end - 1 < |Parts(cwd)|
    requires var answer := server(Segments(cwd)[end - 1]);
      answer.Listed? && ListsNoSuch(answer.entries, Parts(cwd)[end - 1])
    ensures var t := Run(events + [SetCwd(cwd)] + more);
      && t.selected == Some(Segments(cwd)[end - 1]) && |way| == end && Opened(t, server, way, cwd, |trail| - 1)
      && trail <= way && t.walks == Run(events).walks
    ensures |more| == 2 * (end - |trail| + 1) && forall e :: e in more ==> ByServer(e, server, cwd)
  {
    hide *;
    ClosedParts(Run(events), trail, cwd);
    more, way := WalkFromClosedEnd(events, server, trail, cwd, end);
    var so := events + [SetCwd(cwd)] + more;
    var s, n, base := Run(so), way[end - 1], Run(events).walks;
    WaitFacts(s, n, Segments(cwd)[end..], base);
    var p, answer := s.inflight[n], server(Segments(cwd)[end - 1]);
    TwoSteps(so, p, answer, |base|);
    IsByServer(server, cwd, end - 1, p, |base|);
    DeadEnd(s, server, way, cwd, |trail| - 1, base);
    assert so + [Settle(p, answer), Resume(|base|)] ==
      events + [SetCwd(cwd)] + (more + [Settle(p, answer), Resume(|base|)]);
    more := more + [Settle(p, answer), Resume(|base|)];
    WayIsOpened(Run(events + [SetCwd(cwd)] + more), server, way, cwd, |trail| - 1, Some(cwd));
  }

  lemma NextSetCwd(s: State, cwd: Path)
    ensures Next(s, SetCwd(cwd)) == DoSetCwd(s, cwd)
  {
  }

  /** In particular from a fresh tree: the whole path is asked for, one directory at a time. */
  lemma WalkInFreshTree(events: seq<Event>, server: Answers, cwd: Path) returns (more: seq<Event>, way: seq<NodeId>)
    requires Normal(cwd) && Leads(server, cwd, |Segments(cwd)| - 1)
    ensures var t := Run(events + [SetReady(true, "/")] + [SetCwd(cwd)] + more);
      && t.selected == Some(cwd) && |way| == |Segments(cwd)| && Opened(t, server, way, cwd, 0)
      && t.walks == Run(events).walks
    ensures |more| == 2 * |Segments(cwd)|
  {
    hide *;
    var s, t := Run(events), Run(events + [SetReady(true, "/")]);
    RunStep(events, SetReady(true, "/"));
    FreshRoot(s, cwd);
    more, way := WalkReachesTarget(events + [SetReady(true, "/")], server, [t.root.value], cwd);
  }

  lemma FreshRoot(s: State, cwd: Path)
    ensures var t := Next(s, SetReady(true, "/"));
      t.root.Some? && t.walks == s.walks && ClosedEnd(t, [t.root.value], cwd)
  {
  }
}
