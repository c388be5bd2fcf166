/** What every interleaving of expands, collapses, walks, fetches and teardowns keeps. */
module FileTreeSafety {
  import opened Wrappers
  import opened FileTree

  type Nodes = map<NodeId, Node>

  // ----- The invariant -----

  /** Children are nodes of the same tree. */
  ghost predicate Shape(nodes: Nodes, trees: nat, serial: nat) {
    forall n :: n in nodes ==>
      && n.tree <= trees && n.serial < serial
      && (forall c :: c in ChildrenOf(nodes[n]) ==> c in nodes && c.tree == n.tree)
  }

  /** The root belongs to the newest tree, and there is one only while the tree is ready. */
  predicate RootOk(nodes: Nodes, root: Option<NodeId>, ready: bool, trees: nat) {
    root.Some? ==> ready && root.value in nodes && root.value.tree == trees
  }

  /** In-flight entries point to active fetches of their node, none of them ahead of its node. */
  ghost predicate FetchesOk(nodes: Nodes, fetches: map<nat, Fetch>, inflight: map<NodeId, nat>, promises: nat,
      epoch: nat) {
    && (forall p :: p in fetches ==>
          && p < promises && fetches[p].epoch <= epoch && fetches[p].node in nodes
          && fetches[p].token <= nodes[fetches[p].node].loadToken)
    && (forall n :: n in inflight ==> inflight[n] in fetches && fetches[inflight[n]].node == n)
  }

  /** The in-flight entry of a node is a fetch for its current token. */
  predicate HasItsFetch(n: NodeId, node: Node, inflight: map<NodeId, nat>, fetches: map<nat, Fetch>) {
    n in inflight && inflight[n] in fetches && fetches[inflight[n]].node == n &&
      fetches[inflight[n]].token == node.loadToken
  }

  /** In the live tree, every loading node has its fetch, and every fetch is of this epoch. */
  ghost predicate LiveOk(nodes: Nodes, trees: nat, epoch: nat, inflight: map<NodeId, nat>, fetches: map<nat, Fetch>) {
    && (forall n :: n in nodes && n.tree == trees && nodes[n].state.Loading? ==>
      HasItsFetch(n, nodes[n], inflight, fetches))
    && (forall p :: p in fetches && fetches[p].node.tree == trees ==> fetches[p].epoch == epoch)
  }

  /** The children are, in order, the visible entries of a listing. */
  ghost predicate Shows(nodes: Nodes, path: Path, children: seq<NodeId>, entries: seq<Entry>) {
    && |children| == |Visible(entries)|
    && forall i :: 0 <= i < |children| ==>
         && children[i] in nodes && nodes[children[i]].path == ChildPath(path, Visible(entries)[i].name)
         && nodes[children[i]].kind == Visible(entries)[i].kind
  }

  /** An expanded node shows the listing fetched under its current token; an unavailable one is collapsed. */
  ghost predicate NodeOk(nodes: Nodes, n: NodeId, applied: map<(NodeId, nat), seq<Entry>>)
    requires n in nodes
  {
    var node := nodes[n];
    && (node.unavailable ==> node.state.Collapsed?)
    && (node.state.Expanded? ==>
          node.children.Some? && (n, node.loadToken) in applied
          && Shows(nodes, node.path, node.children.value, applied[(n, node.loadToken)]))
  }

  ghost predicate ContentsOk(nodes: Nodes, applied: map<(NodeId, nat), seq<Entry>>) {
    forall n :: n in nodes ==> NodeOk(nodes, n, applied)
  }

  /** Walks wait for promises that were made, at nodes that exist. */
  ghost predicate WalksOk(nodes: Nodes, walks: seq<Walk>, promises: nat) {
    forall i :: 0 <= i < |walks| ==>
      walks[i].current in nodes && (walks[i].waitsFor.Some? ==> walks[i].waitsFor.value < promises)
  }

  ghost predicate Inv(s: State) {
    && Shape(s.nodes, s.trees, s.serial) && RootOk(s.nodes, s.root, s.ready, s.trees)
    && FetchesOk(s.nodes, s.fetches, s.inflight, s.promises, s.epoch)
    && (s.root.Some? ==> LiveOk(s.nodes, s.trees, s.epoch, s.inflight, s.fetches))
    && ContentsOk(s.nodes, s.applied) && WalksOk(s.nodes, s.walks, s.promises)
  }

  /** A fetch for a node's current token is the one in flight, and the node is loading. */
  predicate IsCurrent(p: nat, f: Fetch, nodes: Nodes, inflight: map<NodeId, nat>) {
    f.node in nodes && f.token == nodes[f.node].loadToken ==>
      f.node in inflight && inflight[f.node] == p && nodes[f.node].state.Loading? && Expandable(nodes[f.node])
  }

  ghost predicate CurrentOk(nodes: Nodes, inflight: map<NodeId, nat>, fetches: map<nat, Fetch>) {
    forall p :: p in fetches ==> IsCurrent(p, fetches[p], nodes, inflight)
  }

  ghost predicate Sound(s: State) {
    Inv(s) && CurrentOk(s.nodes, s.inflight, s.fetches)
  }

  // ----- Changing one node -----

  /** A change to one node that keeps what other nodes and fetches see of it. */
  ghost predicate NodeChange(s: State, n: NodeId, node: Node) {
    && n in s.nodes && node.path == s.nodes[n].path && node.kind == s.nodes[n].kind
    && s.nodes[n].loadToken <= node.loadToken
    && (forall c :: c in ChildrenOf(node) ==> c in ChildrenOf(s.nodes[n]))
    && !node.state.Expanded? && (node.unavailable ==> node.state.Collapsed?)
  }

  lemma OtherNodesKeep(s: State, n: NodeId, node: Node)
    requires Inv(s) && NodeChange(s, n, node)
    ensures var nodes := s.nodes[n := node];
            && Shape(nodes, s.trees, s.serial) && RootOk(nodes, s.root, s.ready, s.trees)
            && FetchesOk(nodes, s.fetches, s.inflight, s.promises, s.epoch)
            && ContentsOk(nodes, s.applied) && WalksOk(nodes, s.walks, s.promises)
  {
    var nodes := s.nodes[n := node];
    forall m | m in nodes ensures NodeOk(nodes, m, s.applied) {
      assert m != n ==> NodeOk(s.nodes, m, s.applied);
    }
  }

  /** A node that is not left loading needs no fetch. */
  lemma QuietNode(s: State, n: NodeId, node: Node)
    requires Inv(s) && NodeChange(s, n, node) && !node.state.Loading?
    ensures Inv(s.(nodes := s.nodes[n := node]))
  {
    OtherNodesKeep(s, n, node);
  }

  lemma CollapseInv(s: State, n: NodeId)
    requires Inv(s)
    ensures Inv(DoCollapse(s, n))
  {
    hide Shape, RootOk, FetchesOk, LiveOk, ContentsOk, WalksOk;
    if n in s.nodes {
      var node := s.nodes[n];
      var token := node.loadToken + 1;
      QuietNode(s, n, node.(loadToken := token, unavailable := false, state := Collapsed, children := None,
                            truncated := false));
    }
  }

  lemma FailureInv(s: State, n: NodeId, silent: bool)
    requires Inv(s) && n in s.nodes && !s.nodes[n].unavailable
    ensures Inv(ApplyFailure(s, n, silent))
  {
    hide Shape, RootOk, FetchesOk, LiveOk, ContentsOk, WalksOk, IsDescendant;
    var node := s.nodes[n];
    QuietNode(s, n, node.(unavailable := true, state := Collapsed, children := None));
    QuietNode(s, n, node.(state := Failed, children := None));
  }

  /** Registering a fetch for a node that starts loading. */
  lemma NewFetch(s: State, n: NodeId, node: Node, f: Fetch)
    requires Inv(s) && NodeChange(s, n, node) && f.node == n && f.token == node.loadToken && f.epoch == s.epoch
    ensures var nodes, p := s.nodes[n := node], s.promises;
            var inflight, fetches := s.inflight[n := p], s.fetches[p := f];
            && FetchesOk(nodes, fetches, inflight, p + 1, s.epoch) && WalksOk(nodes, s.walks, p + 1)
            && (s.root.Some? ==> LiveOk(nodes, s.trees, s.epoch, inflight, fetches))
  {
    hide Shape, RootOk, ContentsOk;
    var nodes, p := s.nodes[n := node], s.promises;
    var inflight, fetches := s.inflight[n := p], s.fetches[p := f];
    assert p !in s.fetches;
    if s.root.Some? {
      forall m | m in nodes && m.tree == s.trees && nodes[m].state.Loading?
        ensures HasItsFetch(m, nodes[m], inflight, fetches) {
        assert m != n ==> HasItsFetch(m, s.nodes[m], s.inflight, s.fetches);
      }
    }
  }

  lemma StartExpandInv(s: State, n: NodeId, silent: bool)
    requires Inv(s) && n in s.nodes
    ensures var (t, p) := StartExpand(s, n, silent);
            Inv(t) && n in t.nodes && t.walks == s.walks && (p.Some? ==> p.value < t.promises)
            && t.cwdToken == s.cwdToken
  {
    hide Shape, RootOk, FetchesOk, LiveOk, ContentsOk, WalksOk;
    var node := s.nodes[n];
    InflightPromised(s, n);
    if Expandable(node) && !node.state.Expanded? && !node.state.Loading? {
      var loading := node.(loadToken := node.loadToken + 1, state := Loading);
      OtherNodesKeep(s, n, loading);
      NewFetch(s, n, loading, Fetch(n, s.epoch, node.loadToken + 1, silent));
    }
  }

  lemma InflightPromised(s: State, n: NodeId)
    requires Inv(s)
    ensures n in s.inflight ==> s.inflight[n] < s.promises
  {
  }

  // ----- Settling -----

  lemma FinishInv(s: State, p: nat)
    requires Inv(s) && p in s.fetches
    requires var f := s.fetches[p];
      s.root.Some? && f.node.tree == s.trees && f.node in s.nodes && s.nodes[f.node].state.Loading? ==>
        f.token != s.nodes[f.node].loadToken
    ensures Inv(Finish(s, p))
  {
    hide Shape, RootOk, ContentsOk, WalksOk;
    var t := Finish(s, p);
    if s.root.Some? {
      forall m | m in t.nodes && m.tree == t.trees && t.nodes[m].state.Loading?
        ensures HasItsFetch(m, t.nodes[m], t.inflight, t.fetches) {
        assert HasItsFetch(m, s.nodes[m], s.inflight, s.fetches);
      }
    }
  }

  lemma NewChildrenFacts(parent: NodeId, path: Path, serial: nat, entries: seq<Entry>)
    ensures var made := NewChildren(parent, path, serial, entries);
            && (forall c :: c in made <==> c.tree == parent.tree && serial <= c.serial < serial + |entries|)
            && (forall i :: 0 <= i < |entries| ==>
                  var c := NodeId(parent.tree, serial + i);
                  c in made && made[c].path == ChildPath(path, entries[i].name) && made[c].kind == entries[i].kind)
            && (forall c :: c in made ==> made[c].children == None && made[c].state.Collapsed? && !made[c].unavailable)
  {
    hide ChildPath, IdSet;
    forall i | 0 <= i < |entries|
      ensures var made, c := NewChildren(parent, path, serial, entries), NodeId(parent.tree, serial + i);
              c in made && made[c].path == ChildPath(path, entries[i].name) && made[c].kind == entries[i].kind
    {
      NewChild(parent, path, serial, entries, i);
    }
  }

  lemma NewChild(parent: NodeId, path: Path, serial: nat, entries: seq<Entry>, i: nat)
    requires i < |entries|
    ensures var made, c := NewChildren(parent, path, serial, entries), NodeId(parent.tree, serial + i);
            c in made && made[c].path == ChildPath(path, entries[i].name) && made[c].kind == entries[i].kind
  {
  }

  // ----- Adding nodes -----

  /** New nodes appear, numbered from `serial` up; of the old ones only `n` changes, and not in path or kind. */
  ghost predicate Extends(s: State, nodes: Nodes, n: NodeId, trees: nat, serial: nat) {
    && s.serial <= serial && s.trees <= trees
    && (forall m :: m in s.nodes ==>
          && m in nodes && nodes[m].path == s.nodes[m].path && nodes[m].kind == s.nodes[m].kind
          && (m != n ==> nodes[m] == s.nodes[m]))
    && (forall m :: m in nodes && m !in s.nodes ==>
          && s.serial <= m.serial < serial && m.tree <= trees
          && nodes[m].children == None && nodes[m].state.Collapsed? && !nodes[m].unavailable)
  }

  lemma ExtendedShape(s: State, nodes: Nodes, n: NodeId, trees: nat, serial: nat)
    requires Inv(s) && Extends(s, nodes, n, trees, serial)
    requires n in nodes ==> forall c :: c in ChildrenOf(nodes[n]) ==> c in nodes && c.tree == n.tree
    ensures Shape(nodes, trees, serial) && WalksOk(nodes, s.walks, s.promises)
  {
    hide RootOk, FetchesOk, LiveOk, ContentsOk;
    forall m | m in nodes
      ensures m.tree <= trees && m.serial < serial &&
        (forall c :: c in ChildrenOf(nodes[m]) ==> c in nodes && c.tree == m.tree)
    {
      if m in s.nodes && m != n {
        assert nodes[m] == s.nodes[m];
      }
    }
  }

  lemma ExtendedFetches(s: State, nodes: Nodes, n: NodeId, trees: nat, serial: nat)
    requires Inv(s) && Extends(s, nodes, n, trees, serial)
    requires n in s.nodes ==> s.nodes[n].loadToken <= nodes[n].loadToken
    ensures FetchesOk(nodes, s.fetches, s.inflight, s.promises, s.epoch)
  {
    hide RootOk, Shape, LiveOk, ContentsOk, WalksOk;
  }

  lemma ExtendedLive(s: State, nodes: Nodes, n: NodeId, trees: nat, serial: nat)
    requires Inv(s) && Extends(s, nodes, n, trees, serial) && s.root.Some?
    requires n in s.nodes && nodes[n] != s.nodes[n] ==> !nodes[n].state.Loading?
    ensures LiveOk(nodes, s.trees, s.epoch, s.inflight, s.fetches)
  {
    hide RootOk, Shape, FetchesOk, ContentsOk, WalksOk;
    forall m | m in nodes && m.tree == s.trees && nodes[m].state.Loading?
      ensures HasItsFetch(m, nodes[m], s.inflight, s.fetches) {
      assert m in s.nodes && nodes[m] == s.nodes[m];
    }
  }

  lemma ExtendedContents(s: State, nodes: Nodes, n: NodeId, trees: nat, serial: nat, 
      applied: map<(NodeId, nat), seq<Entry>>)
    requires Inv(s) && Extends(s, nodes, n, trees, serial)
    requires forall k :: k in s.applied && k.0 != n ==> k in applied && applied[k] == s.applied[k]
    requires n in nodes ==> NodeOk(nodes, n, applied)
    ensures ContentsOk(nodes, applied)
  {
    hide RootOk, Shape, FetchesOk, LiveOk, WalksOk;
    forall m | m in nodes ensures NodeOk(nodes, m, applied) {
      if m in s.nodes && m != n {
        assert NodeOk(s.nodes, m, s.applied);
        assert nodes[m] == s.nodes[m];
      }
    }
  }

  /** Putting a listing's children under a node. */
  lemma ChildrenExtend(s: State, n: NodeId, node: Node, made: Nodes, k: nat)
    requires Inv(s) && n in s.nodes && node.path == s.nodes[n].path && node.kind == s.nodes[n].kind
    requires forall c :: c in made ==> c.tree == n.tree && s.serial <= c.serial < s.serial + k
    requires forall c :: c in made ==> made[c].children == None && made[c].state.Collapsed? && !made[c].unavailable
    ensures Extends(s, s.nodes[n := node] + made, n, s.trees, s.serial + k)
    ensures (s.nodes[n := node] + made)[n] == node
  {
    hide RootOk, FetchesOk, LiveOk, ContentsOk, WalksOk;
    assert n.serial < s.serial && n.tree <= s.trees;
    forall m | m in s.nodes ensures m !in made {
      assert m.serial < s.serial;
    }
  }

  lemma ChildrenShow(nodes: Nodes, made: Nodes, path: Path, children: seq<NodeId>, entries: seq<Entry>)
    requires |children| == |Visible(entries)|
    requires forall i :: 0 <= i < |children| ==>
               && children[i] in made && made[children[i]].path == ChildPath(path, Visible(entries)[i].name)
               && made[children[i]].kind == Visible(entries)[i].kind
    ensures Shows(nodes + made, path, children, entries)
  {
  }

  lemma ListingExtends(s: State, n: NodeId, token: nat, entries: seq<Entry>, truncated: bool)
    requires Inv(s) && n in s.nodes
    ensures var t := ApplyListing(s, n, token, entries, truncated);
            && Extends(s, t.nodes, n, s.trees, t.serial)
            && t.nodes[n] == s.nodes[n].(children := Some(NewIds(n.tree, s.serial, |Visible(entries)|)),
              truncated := truncated, state := Expanded)
            && Shows(t.nodes, s.nodes[n].path, t.nodes[n].children.value, entries)
            && (forall c :: c in ChildrenOf(t.nodes[n]) ==> c in t.nodes && c.tree == n.tree)
  {
    hide Inv, Extends, Shows, NewChildren, NewIds, Visible;
    var shown := Visible(entries);
    var made, children := NewChildren(n, s.nodes[n].path, s.serial, shown), NewIds(n.tree, s.serial, |shown|);
    var node := s.nodes[n].(children := Some(children), truncated := truncated, state := Expanded);
    NewChildrenFacts(n, s.nodes[n].path, s.serial, shown);
    ChildrenExtend(s, n, node, made, |shown|);
    ChildrenShow(s.nodes[n := node], made, s.nodes[n].path, children, entries);
    forall c | c in children ensures c in made { }
  }

  lemma ListingInv(s: State, n: NodeId, token: nat, entries: seq<Entry>, truncated: bool)
    requires Inv(s) && n in s.nodes && token == s.nodes[n].loadToken && !s.nodes[n].unavailable
    ensures Inv(ApplyListing(s, n, token, entries, truncated))
    ensures var t := ApplyListing(s, n, token, entries, truncated);
            n in t.nodes && t.nodes[n].state.Expanded? && t.fetches == s.fetches && t.inflight == s.inflight
            && t.root == s.root && t.trees == s.trees
  {
    hide Shape, FetchesOk, LiveOk, ContentsOk, WalksOk, Visible, NewChildren, Shows;
    var t := ApplyListing(s, n, token, entries, truncated);
    ListingExtends(s, n, token, entries, truncated);
    ExtendedShape(s, t.nodes, n, s.trees, t.serial);
    ExtendedFetches(s, t.nodes, n, s.trees, t.serial);
    ExtendedContents(s, t.nodes, n, s.trees, t.serial, t.applied);
    if s.root.Some? { ExtendedLive(s, t.nodes, n, s.trees, t.serial); }
  }

  lemma SettleSound(s: State, p: nat, outcome: Outcome)
    requires Sound(s)
    ensures Sound(DoSettle(s, p, outcome))
  {
    hide Shape, RootOk, LiveOk, ContentsOk, WalksOk, Finish, ApplyListing, ApplyFailure, CurrentOk, FetchesOk;
    if p in s.fetches && s.fetches[p].node in s.nodes {
      var f := s.fetches[p];
      CurrentFetch(s, p);
      if Stale(s, f) {
        StaleLeavesLoading(s, p);
        FinishInv(s, p);
        FinishCurrent(s, p, s.nodes);
        FinishOf(s, s, p);
      } else if outcome.Listed? {
        var t := ApplyListing(s, f.node, f.token, outcome.entries, outcome.truncated);
        ListingInv(s, f.node, f.token, outcome.entries, outcome.truncated);
        ListingExtends(s, f.node, f.token, outcome.entries, outcome.truncated);
        FinishInv(t, p);
        FinishCurrent(s, p, t.nodes);
        FinishOf(s, t, p);
      } else {
        var t := ApplyFailure(s, f.node, f.silent);
        FailureInv(s, f.node, f.silent);
        FailureChanges(s, f.node, f.silent);
        FinishInv(t, p);
        FinishCurrent(s, p, t.nodes);
        FinishOf(s, t, p);
      }
    }
  }

  lemma CurrentFetch(s: State, p: nat)
    requires Sound(s) && p in s.fetches
    ensures IsCurrent(p, s.fetches[p], s.nodes, s.inflight) && s.fetches[p].node in s.nodes
  {
  }

  lemma FailureChanges(s: State, n: NodeId, silent: bool)
    requires n in s.nodes
    ensures var t := ApplyFailure(s, n, silent);
            && t.fetches == s.fetches && t.inflight == s.inflight && t.root == s.root && t.trees == s.trees
            && n in t.nodes && !t.nodes[n].state.Loading? && t.nodes[n].loadToken == s.nodes[n].loadToken
            && (forall m :: m in t.nodes ==> m in s.nodes && (m != n ==> t.nodes[m] == s.nodes[m]))
  {
  }

  /** In the live tree only a superseded fetch is stale. */
  lemma StaleLeavesLoading(s: State, p: nat)
    requires Sound(s) && p in s.fetches && s.fetches[p].node in s.nodes && Stale(s, s.fetches[p])
    ensures s.root.Some? && s.fetches[p].node.tree == s.trees ==>
      s.fetches[p].token != s.nodes[s.fetches[p].node].loadToken
  {
  }

  lemma FinishOf(s: State, t: State, p: nat)
    requires p in s.fetches && t.fetches == s.fetches && t.inflight == s.inflight
    ensures Finish(t, p) == t.(fetches := Finish(s, p).fetches, inflight := Finish(s, p).inflight)
  {
  }

  /** After a fetch is gone, whatever it did to its own node, the other fetches are still current or not. */
  lemma FinishCurrent(s: State, p: nat, nodes: Nodes)
    requires Sound(s) && p in s.fetches
    requires var n := s.fetches[p].node;
             && (forall m :: m in nodes && m in s.nodes && m != n ==> nodes[m] == s.nodes[m])
             && n in s.nodes && n in nodes
             && (nodes[n] == s.nodes[n] || nodes[n].loadToken == s.nodes[n].loadToken == s.fetches[p].token)
    ensures CurrentOk(nodes, Finish(s, p).inflight, Finish(s, p).fetches)
  {
    hide Shape, RootOk, LiveOk, ContentsOk, WalksOk;
    var t, n := Finish(s, p), s.fetches[p].node;
    assert IsCurrent(p, s.fetches[p], s.nodes, s.inflight);
    forall q | q in t.fetches ensures IsCurrent(q, t.fetches[q], nodes, t.inflight) {
      assert IsCurrent(q, s.fetches[q], s.nodes, s.inflight);
    }
  }

  // ----- The other steps -----

  lemma StartExpandSound(s: State, n: NodeId, silent: bool)
    requires Sound(s) && n in s.nodes
    ensures var (t, p) := StartExpand(s, n, silent);
            Sound(t) && n in t.nodes && t.walks == s.walks && (p.Some? ==> p.value < t.promises) &&
              t.cwdToken == s.cwdToken
  {
    hide Shape, RootOk, LiveOk, ContentsOk, WalksOk;
    StartExpandInv(s, n, silent);
    var t := StartExpand(s, n, silent).0;
    assert s.promises !in s.fetches;
    forall q | q in t.fetches ensures IsCurrent(q, t.fetches[q], t.nodes, t.inflight) {
      assert q in s.fetches ==> IsCurrent(q, s.fetches[q], s.nodes, s.inflight);
    }
  }

  lemma CollapseSound(s: State, n: NodeId)
    requires Sound(s)
    ensures Sound(DoCollapse(s, n))
  {
    hide Shape, RootOk, LiveOk, ContentsOk, WalksOk;
    CollapseInv(s, n);
    var t := DoCollapse(s, n);
    forall q | q in t.fetches ensures IsCurrent(q, t.fetches[q], t.nodes, t.inflight) {
      assert IsCurrent(q, s.fetches[q], s.nodes, s.inflight);
    }
  }

  lemma TeardownSound(s: State)
    requires Sound(s)
    ensures Sound(DoDestroy(s)) && forall path :: Sound(DoSetReady(s, false, path))
  {
    hide Shape, LiveOk, ContentsOk, WalksOk, CurrentOk;
  }

  lemma NewRootSound(s: State, path: Path)
    requires Sound(s)
    ensures Sound(DoSetReady(s, true, path))
  {
    var t, r := DoSetReady(s, true, path), NodeId(s.trees + 1, s.serial);
    assert r !in s.nodes;
    ExtendedShape(s, t.nodes, r, t.trees, t.serial);
    ExtendedFetches(s, t.nodes, r, t.trees, t.serial);
    ExtendedContents(s, t.nodes, r, t.trees, t.serial, s.applied);
    NewRootCurrent(s, t, r);
  }

  lemma NewRootCurrent(s: State, t: State, r: NodeId)
    requires Sound(s) && r !in s.nodes && r.tree == s.trees + 1 && r in t.nodes && !t.nodes[r].state.Loading?
    requires t.nodes == s.nodes[r := t.nodes[r]] && t.fetches == s.fetches && t.inflight == s.inflight
    ensures CurrentOk(t.nodes, t.inflight, t.fetches) && LiveOk(t.nodes, s.trees + 1, s.epoch, t.inflight, t.fetches)
  {
    hide RootOk, LiveOk, ContentsOk, WalksOk;
    forall q | q in t.fetches
      ensures IsCurrent(q, t.fetches[q], t.nodes, t.inflight) && t.fetches[q].node.tree <= s.trees {
      assert IsCurrent(q, s.fetches[q], s.nodes, s.inflight);
    }
    FreshTreeLive(t.nodes, r, s.trees, s.epoch, t.inflight, t.fetches) by {
      assert forall m :: m in t.nodes && m != r ==> m in s.nodes && m.tree <= s.trees;
    }
  }

  lemma FreshTreeLive(nodes: Nodes, r: NodeId, trees: nat, epoch: nat, inflight: map<NodeId, nat>,
      fetches: map<nat, Fetch>)
    requires r in nodes && !nodes[r].state.Loading?
    requires forall m :: m in nodes && m != r ==> m.tree <= trees
    requires forall q :: q in fetches ==> fetches[q].node.tree <= trees
    ensures LiveOk(nodes, trees + 1, epoch, inflight, fetches)
  {
  }

  lemma {:induction false} FindChildFacts(s: State, children: seq<NodeId>, path: Path)
    ensures var c := FindChild(s, children, path);
            c.Some? ==> c.value in children && c.value in s.nodes && s.nodes[c.value].path == path
  {
    if children != [] { FindChildFacts(s, children[1..], path); }
  }

  lemma SyntheticSound(s: State, current: NodeId, segment: Path)
    requires Sound(s) && current in s.nodes && s.nodes[current].unavailable
    ensures var (t, c) := Synthetic(s, current, segment); Sound(t) && c in t.nodes && t.cwdToken == s.cwdToken
  {
    hide LiveOk, WalksOk;
    var node := s.nodes[current];
    FindChildFacts(s, ChildrenOf(node), segment);
    var (t, c) := Synthetic(s, current, segment);
    if FindChild(s, ChildrenOf(node), segment).None? {
      SyntheticExtends(s, current, segment);
      ExtendedShape(s, t.nodes, current, s.trees, t.serial);
      ExtendedFetches(s, t.nodes, current, s.trees, t.serial);
      ExtendedContents(s, t.nodes, current, s.trees, t.serial, s.applied);
      if s.root.Some? { ExtendedLive(s, t.nodes, current, s.trees, t.serial); }
      SyntheticCurrent(s, t, current);
    }
  }

  lemma SyntheticExtends(s: State, current: NodeId, segment: Path)
    requires Sound(s) && current in s.nodes && s.nodes[current].unavailable
    requires FindChild(s, ChildrenOf(s.nodes[current]), segment).None?
    ensures var (t, c) := Synthetic(s, current, segment);
            && Extends(s, t.nodes, current, s.trees, t.serial) && c in t.nodes
            && t.nodes[current] == s.nodes[current].(children := t.nodes[current].children)
            && (forall d :: d in ChildrenOf(t.nodes[current]) ==> d in t.nodes && d.tree == current.tree)
            && NodeOk(t.nodes, current, s.applied)
  {
    hide RootOk, FetchesOk, LiveOk, WalksOk, FindChild, CurrentOk, Shows, Extends;
    var node, c := s.nodes[current], NodeId(current.tree, s.serial);
    assert NodeOk(s.nodes, current, s.applied);
    ChildrenExtend(s, current, node.(children := Some(ChildrenOf(node) + [c])),
                   map[c := Node(segment, Directory, Some(current), None, Collapsed, false, 0, false)], 1);
  }

  lemma SyntheticCurrent(s: State, t: State, current: NodeId)
    requires Sound(s) && current in s.nodes && Extends(s, t.nodes, current, s.trees, t.serial)
    requires t.nodes[current] == s.nodes[current].(children := t.nodes[current].children)
    requires t.fetches == s.fetches && t.inflight == s.inflight
    ensures CurrentOk(t.nodes, t.inflight, t.fetches)
  {
    hide RootOk, LiveOk, WalksOk, Shape, ContentsOk;
    forall q | q in t.fetches ensures IsCurrent(q, t.fetches[q], t.nodes, t.inflight) {
      assert IsCurrent(q, s.fetches[q], s.nodes, s.inflight);
    }
  }

  lemma ExpandAndWaitSound(s: State, token: nat, current: NodeId, point: Point, rest: seq<Path>)
    requires Sound(s) && current in s.nodes
    ensures Sound(ExpandAndWait(s, token, current, point, rest))
  {
    hide Shape, RootOk, LiveOk, ContentsOk, CurrentOk, FetchesOk, StartExpand;
    StartExpandSound(s, current, true);
  }

  lemma WalkTailSound(s: State, token: nat, current: NodeId)
    requires Sound(s) && current in s.nodes
    ensures Sound(WalkTail(s, token, current)) && Sound(WalkTarget(s, token, current))
  {
    hide Shape, RootOk, LiveOk, ContentsOk, WalksOk, CurrentOk, FetchesOk, ExpandAndWait;
    ExpandAndWaitSound(s, token, current, AfterSynthetic, []);
    ExpandAndWaitSound(s, token, current, AfterTarget, []);
  }

  lemma {:induction false} WalkLoopSound(s: State, token: nat, current: NodeId, segments: seq<Path>)
    requires Sound(s)
    ensures Sound(WalkLoop(s, token, current, segments))
    decreases |segments|
  {
    hide Sound, ExpandAndWait, WalkTail, Synthetic;
    if current in s.nodes {
      if segments == [] {
        WalkTailSound(s, token, current);
      } else {
        var node := s.nodes[current];
        ExpandAndWaitSound(s, token, current, AfterMatch, segments[1..]);
        ExpandAndWaitSound(s, token, current, AfterTry, segments);
        WalkLoopSound(s, token, current, segments[1..]);
        if node.unavailable {
          SyntheticSound(s, current, segments[0]);
          var (t, c) := Synthetic(s, current, segments[0]);
          WalkLoopSound(t, token, c, segments[1..]);
        }
        DescendSound(s, token, current, segments);
      }
    }
  }

  lemma {:induction false} DescendSound(s: State, token: nat, current: NodeId, segments: seq<Path>)
    requires Sound(s) && current in s.nodes && segments != []
    ensures Sound(Descend(s, token, current, segments))
    decreases |segments|, 0
  {
    hide Sound, WalkTail, WalkLoop;
    var child := FindChild(s, ChildrenOf(s.nodes[current]), segments[0]);
    WalkTailSound(s, token, current);
    if child.Some? { WalkLoopSound(s, token, child.value, segments[1..]); }
  }

  lemma SelectingIsSound(s: State, selected: Option<Path>, cwdToken: nat)
    requires Sound(s)
    ensures Sound(s.(selected := selected, cwdToken := cwdToken)) && Sound(s.(selected := selected))
  {
    hide Shape, RootOk, LiveOk, ContentsOk, WalksOk, CurrentOk, FetchesOk;
  }

  lemma SetCwdSound(s: State, cwd: Path)
    requires Sound(s)
    ensures Sound(DoSetCwd(s, cwd))
  {
    hide Sound, WalkLoop, StartExpand, Segments;
    var s1 := s.(selected := Some(cwd), cwdToken := s.cwdToken + 1);
    SelectingIsSound(s, Some(cwd), s.cwdToken + 1);
    if s.root.Some? && s.root.value in s.nodes {
      StartExpandSound(s1, s.root.value, true);
      var s2 := if s.nodes[s.root.value].state.Collapsed? then StartExpand(s1, s.root.value, true).0 else s1;
      WalkLoopSound(s2, s2.cwdToken, s.root.value, Segments(cwd));
    }
  }

  lemma GoOnSound(s: State, w: Walk)
    requires Sound(s)
    ensures Sound(GoOn(s, w))
  {
    hide Sound, WalkLoop, Synthetic, Descend, WalkTarget;
    if w.current in s.nodes {
      WalkLoopSound(s, w.token, w.current, w.rest);
      WalkTailSound(s, w.token, w.current);
      SelectingIsSound(s, Some(s.nodes[w.current].path), 0);
      if w.rest != [] {
        DescendSound(s, w.token, w.current, w.rest);
        if s.nodes[w.current].unavailable {
          SyntheticSound(s, w.current, w.rest[0]);
          var (t, c) := Synthetic(s, w.current, w.rest[0]);
          WalkLoopSound(t, w.token, c, w.rest[1..]);
        }
      }
    }
  }

  lemma ResumeSound(s: State, k: nat)
    requires Sound(s)
    ensures Sound(DoResume(s, k))
  {
    hide Shape, RootOk, LiveOk, ContentsOk, CurrentOk, FetchesOk, GoOn;
    if k < |s.walks| {
      GoOnSound(s.(walks := s.walks[..k] + s.walks[k + 1..]), s.walks[k]);
    }
  }

  lemma ActivateSound(s: State, n: NodeId)
    requires Sound(s)
    ensures Sound(DoActivate(s, n))
  {
    hide Sound, StartExpand;
    if n in s.nodes {
      SelectingIsSound(s, Some(s.nodes[n].path), 0);
      StartExpandSound(s.(selected := Some(s.nodes[n].path)), n, false);
    }
  }

  lemma StepSound(s: State, e: Event)
    requires Sound(s)
    ensures Sound(Next(s, e))
  {
    hide Sound, StartExpand, DoCollapse, DoSetCwd, DoSettle, DoResume, DoActivate, DoSetReady, DoDestroy;
    match e
    case SetReady(ready, path) => if ready { NewRootSound(s, path); } else { TeardownSound(s); }
    case Destroy => TeardownSound(s);
    case Expand(n) => if n in s.nodes { StartExpandSound(s, n, false); }
    case Collapse(n) => CollapseSound(s, n);
    case Activate(n) => ActivateSound(s, n);
    case SetCwd(cwd) => SetCwdSound(s, cwd);
    case Settle(p, outcome) => SettleSound(s, p, outcome);
    case Resume(k) => ResumeSound(s, k);
  }

  /** Every interleaving keeps the invariant. */
  lemma {:induction false} EveryRunIsSound(events: seq<Event>)
    ensures Sound(Run(events))
  {
    hide Next;
    if events != [] {
      EveryRunIsSound(events[..|events| - 1]);
      StepSound(Run(events[..|events| - 1]), events[|events| - 1]);
    }
  }

  // ----- What the invariant says of the live tree -----

  /** A way from the live root down to the trail's last node. */
  ghost predicate IsTrail(s: State, trail: seq<NodeId>) {
    if |trail| == 0 then false
    else if |trail| == 1 then s.root == Some(trail[0])
    else
      var above := trail[|trail| - 2];
      IsTrail(s, trail[..|trail| - 1]) && above in s.nodes && trail[|trail| - 1] in ChildrenOf(s.nodes[above])
  }

  lemma {:induction false} TrailIsLive(s: State, trail: seq<NodeId>)
    requires Inv(s) && IsTrail(s, trail)
    ensures s.root.Some? && trail[|trail| - 1] in s.nodes && trail[|trail| - 1].tree == s.trees
  {
    hide FetchesOk, LiveOk, ContentsOk, WalksOk;
    if |trail| > 1 {
      var front := trail[..|trail| - 1];
      TrailIsLive(s, front);
      assert front[|front| - 1] == trail[|trail| - 2];
    }
  }

  /**
   Any node reachable from the live root, in any run: while loading it has an in-flight
   fetch for its current token whose answer will be applied, and a second caller is given
   that fetch's promise, never the fallback; once expanded it shows its newest fetch.
   */
  lemma ReachableNodes(events: seq<Event>, trail: seq<NodeId>)
    requires IsTrail(Run(events), trail)
    ensures var s, n := Run(events), trail[|trail| - 1];
            n in s.nodes
            && (s.nodes[n].state.Loading? ==>
                  && n in s.inflight && s.inflight[n] in s.fetches && s.fetches[s.inflight[n]].node == n
                  && !Stale(s, s.fetches[s.inflight[n]])
                  && StartExpand(s, n, true) == (s, Some(s.inflight[n])))
            && (s.nodes[n].state.Expanded? ==>
                  && s.nodes[n].children.Some? && (n, s.nodes[n].loadToken) in s.applied
                  && Shows(s.nodes, s.nodes[n].path, s.nodes[n].children.value, s.applied[(n, s.nodes[n].loadToken)])
                  && (forall p :: p in s.fetches && s.fetches[p].node == n ==>
                    s.fetches[p].token < s.nodes[n].loadToken))
  {
    hide Run, Shows;
    var s, n := Run(events), trail[|trail| - 1];
    EveryRunIsSound(events);
    TrailIsLive(s, trail);
    LiveNode(s, n);
  }

  lemma LiveNode(s: State, n: NodeId)
    requires Sound(s) && s.root.Some? && n in s.nodes && n.tree == s.trees
    ensures s.nodes[n].state.Loading? ==>
              && HasItsFetch(n, s.nodes[n], s.inflight, s.fetches) && !Stale(s, s.fetches[s.inflight[n]])
              && Expandable(s.nodes[n])
    ensures NodeOk(s.nodes, n, s.applied)
    ensures s.nodes[n].state.Expanded? ==>
              forall p :: p in s.fetches && s.fetches[p].node == n ==> s.fetches[p].token < s.nodes[n].loadToken
  {
    hide Shape, WalksOk, Shows;
    assert NodeOk(s.nodes, n, s.applied);
    if s.nodes[n].state.Loading? {
      assert HasItsFetch(n, s.nodes[n], s.inflight, s.fetches);
      assert IsCurrent(s.inflight[n], s.fetches[s.inflight[n]], s.nodes, s.inflight);
    }
    forall p | p in s.fetches && s.fetches[p].node == n && s.nodes[n].state.Expanded?
      ensures s.fetches[p].token < s.nodes[n].loadToken
    {
      assert IsCurrent(p, s.fetches[p], s.nodes, s.inflight);
    }
  }

  /**
   In any run, a settling fetch changes a node below the live root only if it is that node's
   own: asked for under its current token, in this epoch, and still the one in flight. So a
   superseded or torn-down fetch changes nothing there.
   */
  lemma OnlyItsOwnFetchChangesANode(events: seq<Event>, p: nat, outcome: Outcome, trail: seq<NodeId>)
    requires IsTrail(Run(events), trail)
    ensures var s, n := Run(events), trail[|trail| - 1]; var t := Next(s, Settle(p, outcome));
            && n in s.nodes && n in t.nodes
            && (t.nodes[n] != s.nodes[n] ==>
                  && p in s.fetches && s.fetches[p].node == n
                  && s.fetches[p].token == s.nodes[n].loadToken && s.fetches[p].epoch == s.epoch
                  && n in s.inflight && s.inflight[n] == p && s.nodes[n].state.Loading?)
  {
    var s, n := Run(events), trail[|trail| - 1];
    hide *;
    NextSettle(s, p, outcome);
    EveryRunIsSound(events);
    SoundParts(s);
    TrailIsLive(s, trail);
    SettleChanges(s, p, outcome, n);
  }

  lemma SettleChanges(s: State, p: nat, outcome: Outcome, n: NodeId)
    requires Sound(s) && n in s.nodes
    ensures var t := DoSettle(s, p, outcome);
            && n in t.nodes
            && (t.nodes[n] != s.nodes[n] ==>
                  && p in s.fetches && s.fetches[p].node == n
                  && s.fetches[p].token == s.nodes[n].loadToken && s.fetches[p].epoch == s.epoch
                  && n in s.inflight && s.inflight[n] == p && s.nodes[n].state.Loading?)
  {
    hide Inv, CurrentOk, DoSettle;
    if p in s.fetches {
      CurrentFetch(s, p);
      SettleTouches(s, p, outcome);
      SettleKeepsNode(s, p, outcome);
      if Stale(s, s.fetches[p]) { StaleSettle(s, p, outcome); }
    } else {
      NoSuchFetch(s, p, outcome);
    }
  }

  lemma NextSettle(s: State, p: nat, outcome: Outcome)
    ensures Next(s, Settle(p, outcome)) == DoSettle(s, p, outcome)
  {
  }

  lemma SoundParts(s: State)
    requires Sound(s)
    ensures Inv(s)
  {
  }

  lemma NoSuchFetch(s: State, p: nat, outcome: Outcome)
    requires p !in s.fetches
    ensures DoSettle(s, p, outcome) == s
  {
  }

  lemma SettleKeepsNode(s: State, p: nat, outcome: Outcome)
    requires p in s.fetches && s.fetches[p].node in s.nodes
    ensures s.fetches[p].node in DoSettle(s, p, outcome).nodes
  {
    hide Visible, NewChildren, NewIds, IsDescendant;
  }

  lemma StaleSettle(s: State, p: nat, outcome: Outcome)
    requires p in s.fetches && s.fetches[p].node in s.nodes && Stale(s, s.fetches[p])
    ensures DoSettle(s, p, outcome).nodes == s.nodes
  {
  }

  /** A teardown makes every fetch then in flight stale. */
  lemma TeardownMakesStale(events: seq<Event>, e: Event, p: nat)
    requires p in Run(events).fetches && (e == Destroy || (e.SetReady? && !e.ready))
    ensures var t := Next(Run(events), e);
            && p in t.fetches && t.fetches[p].node in t.nodes && t.fetches[p].epoch < t.epoch && Stale(t, t.fetches[p])
            && t.root == None
  {
    hide Run;
    EveryRunIsSound(events);
  }

  /** A fetch for a node that is not below the live root changes nothing below it. */
  lemma UnreachableFetchLeavesTreeAlone(s: State, p: nat, outcome: Outcome, trail: seq<NodeId>)
    requires Sound(s) && p in s.fetches
    requires forall other :: IsTrail(s, other) ==> other[|other| - 1] != s.fetches[p].node
    ensures var t := DoSettle(s, p, outcome);
            && t.root == s.root && (IsTrail(s, trail) <==> IsTrail(t, trail))
            && (IsTrail(s, trail) ==>
                  var n := trail[|trail| - 1]; n in s.nodes && n in t.nodes && t.nodes[n] == s.nodes[n])
  {
    hide DoSettle, Inv;
    var t := DoSettle(s, p, outcome);
    SettleTouches(s, p, outcome);
    forall other | IsTrail(s, other) ensures other[|other| - 1] in s.nodes {
      TrailIsLive(s, other);
    }
    SameTrails(s, t, s.fetches[p].node, trail);
  }

  /** Settling changes no old node but the fetch's own. */
  lemma SettleTouches(s: State, p: nat, outcome: Outcome)
    requires Sound(s) && p in s.fetches
    ensures var t := DoSettle(s, p, outcome);
            && t.root == s.root
            && (forall m :: m in s.nodes && m != s.fetches[p].node ==> m in t.nodes && t.nodes[m] == s.nodes[m])
  {
    hide Inv, CurrentOk, ApplyListing, IsDescendant;
    CurrentFetch(s, p);
    var f := s.fetches[p];
    if outcome.Listed? {
      ListingExtends(s, f.node, f.token, outcome.entries, outcome.truncated);
      ListingKeepsRoot(s, f.node, f.token, outcome.entries, outcome.truncated);
    }
  }

  lemma ListingKeepsRoot(s: State, n: NodeId, token: nat, entries: seq<Entry>, truncated: bool)
    requires n in s.nodes
    ensures ApplyListing(s, n, token, entries, truncated).root == s.root
  {
  }

  lemma {:induction false} SameTrails(s: State, t: State, n: NodeId, trail: seq<NodeId>)
    requires t.root == s.root
    requires forall other :: IsTrail(s, other) ==> other[|other| - 1] != n && other[|other| - 1] in s.nodes
    requires forall m :: m in s.nodes && m != n ==> m in t.nodes && t.nodes[m] == s.nodes[m]
    ensures IsTrail(s, trail) <==> IsTrail(t, trail)
    ensures IsTrail(s, trail) ==>
      var m := trail[|trail| - 1]; m in t.nodes && t.nodes[m] == s.nodes[m]
  {
    if |trail| > 1 {
      var front := trail[..|trail| - 1];
      SameTrails(s, t, n, front);
      assert front[|front| - 1] == trail[|trail| - 2];
    }
  }

  // ----- Roots and epochs -----

  /** What a walk never touches. */
  ghost predicate SameLife(s: State, t: State) {
    t.root == s.root && t.epoch == s.epoch && t.ready == s.ready && t.trees == s.trees
  }

  /** At most one walk more is waiting, and it carries the token. */
  ghost predicate OneMore(s: State, t: State, token: nat) {
    && t.cwdToken == s.cwdToken
    && (t.walks == s.walks || exists w: Walk :: w.token == token && t.walks == s.walks + [w])
  }

  ghost predicate WalksOn(s: State, t: State, token: nat) { SameLife(s, t) && OneMore(s, t, token) }

  lemma WaitWalksOn(s: State, token: nat, current: NodeId, point: Point, rest: seq<Path>)
    requires current in s.nodes
    ensures WalksOn(s, ExpandAndWait(s, token, current, point, rest), token)
  {
    var w := Walk(token, current, point, rest, StartExpand(s, current, true).1);
    assert ExpandAndWait(s, token, current, point, rest).walks == s.walks + [w];
  }

  lemma SyntheticKeeps(s: State, current: NodeId, segment: Path)
    requires current in s.nodes
    ensures var t := Synthetic(s, current, segment).0; SameLife(s, t) && t.cwdToken == s.cwdToken && t.walks == s.walks
  {
    hide FindChild;
  }

  lemma TailWalksOn(s: State, token: nat, current: NodeId)
    requires current in s.nodes
    ensures WalksOn(s, WalkTail(s, token, current), token) && WalksOn(s, WalkTarget(s, token, current), token)
  {
    hide ExpandAndWait;
    WaitWalksOn(s, token, current, AfterSynthetic, []);
    WaitWalksOn(s, token, current, AfterTarget, []);
  }

  /** The same from a state that only made a child first. */
  lemma WalksOnAfter(s: State, mid: State, t: State, token: nat)
    requires SameLife(s, mid) && mid.cwdToken == s.cwdToken && mid.walks == s.walks && WalksOn(mid, t, token)
    ensures WalksOn(s, t, token)
  {
  }

  lemma {:induction false} LoopWalksOn(s: State, token: nat, current: NodeId, segments: seq<Path>)
    ensures WalksOn(s, WalkLoop(s, token, current, segments), token)
    decreases |segments|
  {
    hide ExpandAndWait, WalkTail, Synthetic, Descend, OneMore, SameLife;
    WalksOnItself(s, token);
    if current in s.nodes {
      TailWalksOn(s, token, current);
      if segments != [] {
        WaitWalksOn(s, token, current, AfterMatch, segments[1..]);
        WaitWalksOn(s, token, current, AfterTry, segments);
        LoopWalksOn(s, token, current, segments[1..]);
        var (t, c) := Synthetic(s, current, segments[0]);
        SyntheticKeeps(s, current, segments[0]);
        LoopWalksOn(t, token, c, segments[1..]);
        WalksOnAfter(s, t, WalkLoop(t, token, c, segments[1..]), token);
        DescendWalksOn(s, token, current, segments);
      }
    }
  }

  lemma WalksOnItself(s: State, token: nat)
    ensures WalksOn(s, s, token)
  {
  }

  lemma {:induction false} DescendWalksOn(s: State, token: nat, current: NodeId, segments: seq<Path>)
    requires current in s.nodes && segments != []
    ensures WalksOn(s, Descend(s, token, current, segments), token)
    decreases |segments|, 0
  {
    hide WalkLoop, WalkTail, FindChild, WalksOn;
    var child := FindChild(s, ChildrenOf(s.nodes[current]), segments[0]);
    TailWalksOn(s, token, current);
    if child.Some? { LoopWalksOn(s, token, child.value, segments[1..]); }
  }

  lemma GoOnWalksOn(s: State, w: Walk)
    ensures WalksOn(s, GoOn(s, w), w.token)
  {
    hide WalkLoop, Descend, Synthetic, WalkTarget, ExpandAndWait;
    if w.current in s.nodes {
      LoopWalksOn(s, w.token, w.current, w.rest);
      TailWalksOn(s, w.token, w.current);
      if w.rest != [] {
        DescendWalksOn(s, w.token, w.current, w.rest);
        var (t, c) := Synthetic(s, w.current, w.rest[0]);
        SyntheticKeeps(s, w.current, w.rest[0]);
        LoopWalksOn(t, w.token, c, w.rest[1..]);
        WalksOnAfter(s, t, WalkLoop(t, w.token, c, w.rest[1..]), w.token);
      }
    }
  }

  // ----- One walk at a time -----

  /** Waiting walks carry different tokens, none newer than the newest `setCwd`. */
  ghost predicate Tokens(walks: seq<Walk>, newest: nat) {
    && (forall i :: 0 <= i < |walks| ==> walks[i].token <= newest)
    && (forall i, j :: 0 <= i < j < |walks| ==> walks[i].token != walks[j].token)
  }

  lemma TokensAfterWalk(s: State, t: State, token: nat)
    requires WalksOn(s, t, token) && Tokens(s.walks, s.cwdToken) && token <= s.cwdToken
    requires forall i :: 0 <= i < |s.walks| ==> s.walks[i].token != token
    ensures Tokens(t.walks, t.cwdToken)
  {
  }

  /** Where a new walk starts: its own token, and the root being expanded. */
  function Started(s: State, cwd: Path): State {
    var s1 := s.(selected := Some(cwd), cwdToken := s.cwdToken + 1);
    if s.root.Some? && s.root.value in s.nodes && s.nodes[s.root.value].state.Collapsed?
    then StartExpand(s1, s.root.value, true).0 else s1
  }

  lemma StartedKeeps(s: State, cwd: Path)
    ensures var t := Started(s, cwd); SameLife(s, t) && t.walks == s.walks && t.cwdToken == s.cwdToken + 1
    ensures DoSetCwd(s, cwd) == if s.root.None? || s.root.value !in s.nodes || !s.ready then Started(s, cwd)
              else WalkLoop(Started(s, cwd), s.cwdToken + 1, s.root.value, Segments(cwd))
  {
    hide WalkLoop, Segments;
  }

  lemma SetCwdWalks(s: State, cwd: Path)
    ensures SameLife(s, DoSetCwd(s, cwd))
    ensures Tokens(s.walks, s.cwdToken) ==> Tokens(DoSetCwd(s, cwd).walks, DoSetCwd(s, cwd).cwdToken)
  {
    hide WalkLoop, Segments, DoSetCwd, Started;
    StartedKeeps(s, cwd);
    var t := Started(s, cwd);
    if s.root.Some? && s.root.value in s.nodes && s.ready {
      LoopWalksOn(t, t.cwdToken, s.root.value, Segments(cwd));
      if Tokens(s.walks, s.cwdToken) {
        TokensAfterWalk(t, WalkLoop(t, t.cwdToken, s.root.value, Segments(cwd)), t.cwdToken);
      }
    }
  }

  lemma Removed(walks: seq<Walk>, k: nat, newest: nat)
    requires Tokens(walks, newest) && k < |walks|
    ensures Tokens(walks[..k] + walks[k + 1..], newest)
    ensures forall w <- walks[..k] + walks[k + 1..] :: w.token != walks[k].token
  {
  }

  lemma ResumeWalks(s: State, k: nat)
    ensures SameLife(s, DoResume(s, k))
    ensures Tokens(s.walks, s.cwdToken) ==> Tokens(DoResume(s, k).walks, DoResume(s, k).cwdToken)
  {
    hide GoOn, WalksOn;
    if k < |s.walks| {
      var rest := s.(walks := s.walks[..k] + s.walks[k + 1..]);
      GoOnWalksOn(rest, s.walks[k]);
      WalksOnKeepsLife(rest, GoOn(rest, s.walks[k]), s.walks[k].token);
      if Tokens(s.walks, s.cwdToken) {
        Removed(s.walks, k, s.cwdToken);
        TokensAfterWalk(rest, GoOn(rest, s.walks[k]), s.walks[k].token);
      }
    }
  }

  lemma WalksOnKeepsLife(s: State, t: State, token: nat)
    requires WalksOn(s, t, token)
    ensures SameLife(s, t)
  {
  }

  lemma StepKeepsTokens(s: State, e: Event)
    requires Tokens(s.walks, s.cwdToken)
    ensures Tokens(Next(s, e).walks, Next(s, e).cwdToken)
  {
    hide DoSetCwd, DoResume, Tokens, Visible, NewChildren, NewIds, IsDescendant;
    match e
    case SetCwd(cwd) => SetCwdWalks(s, cwd);
    case Resume(k) => ResumeWalks(s, k);
    case _ =>
  }

  lemma {:induction false} EveryRunKeepsTokens(events: seq<Event>)
    ensures Tokens(Run(events).walks, Run(events).cwdToken)
  {
    if events != [] {
      hide Next, Tokens;
      EveryRunKeepsTokens(events[..|events| - 1]);
      StepKeepsTokens(Run(events[..|events| - 1]), events[|events| - 1]);
    }
  }

  /**
   In any run, a walk that goes on after its await changes the tree, the selection or the
   fetches only if it is the walk of the newest `setCwd`, and then it is the only one left:
   walks that were overtaken end without a trace.
   */
  lemma OnlyNewestWalkActs(events: seq<Event>, k: nat)
    ensures var s := Run(events); var t := Next(s, Resume(k));
      (t.nodes, t.selected, t.inflight, t.fetches) != (s.nodes, s.selected, s.inflight, s.fetches) ==>
        && k < |s.walks| && s.walks[k].token == s.cwdToken
        && forall j :: 0 <= j < |s.walks| && j != k ==> s.walks[j].token < s.cwdToken
  {
    EveryRunKeepsTokens(events);
    hide Run, WalkLoop, Descend, Synthetic, WalkTarget;
    var s := Run(events);
    if k < |s.walks| && s.walks[k].token == s.cwdToken {
      forall j | 0 <= j < |s.walks| && j != k ensures s.walks[j].token < s.cwdToken { }
    }
  }

  // ----- Walks that outlive their tree -----

  /** Only nodes of one tree have changed. */
  ghost predicate OneTree(s: State, t: State, tree: nat) {
    forall m :: m in s.nodes && m.tree != tree ==> m in t.nodes && t.nodes[m] == s.nodes[m]
  }

  lemma OneTreeTrans(s: State, mid: State, t: State, tree: nat)
    requires OneTree(s, mid, tree) && OneTree(mid, t, tree)
    ensures OneTree(s, t, tree)
  {
  }

  lemma WaitOneTree(s: State, token: nat, current: NodeId, point: Point, rest: seq<Path>)
    requires current in s.nodes
    ensures OneTree(s, ExpandAndWait(s, token, current, point, rest), current.tree)
  {
  }

  lemma TailOneTree(s: State, token: nat, current: NodeId)
    requires current in s.nodes
    ensures OneTree(s, WalkTail(s, token, current), current.tree)
    ensures OneTree(s, WalkTarget(s, token, current), current.tree)
  {
    hide ExpandAndWait;
    WaitOneTree(s, token, current, AfterSynthetic, []);
    WaitOneTree(s, token, current, AfterTarget, []);
  }

  /** The child a walk goes to is of the same tree. */
  lemma ChildInTree(s: State, current: NodeId, segment: Path)
    requires Sound(s) && current in s.nodes
    ensures var c := FindChild(s, ChildrenOf(s.nodes[current]), segment);
      c.Some? ==> c.value in s.nodes && c.value.tree == current.tree
  {
    hide RootOk, FetchesOk, LiveOk, ContentsOk, WalksOk, CurrentOk, FindChild;
    FindChildFacts(s, ChildrenOf(s.nodes[current]), segment);
  }

  lemma SyntheticOneTree(s: State, current: NodeId, segment: Path)
    requires Sound(s) && current in s.nodes
    ensures var (t, c) := Synthetic(s, current, segment); OneTree(s, t, current.tree) && c.tree == current.tree
  {
    hide Sound, FindChild;
    ChildInTree(s, current, segment);
  }

  lemma {:induction false} LoopOneTree(s: State, token: nat, current: NodeId, segments: seq<Path>)
    requires Sound(s)
    ensures OneTree(s, WalkLoop(s, token, current, segments), current.tree)
    decreases |segments|
  {
    hide Sound, ExpandAndWait, WalkTail, Synthetic, Descend;
    if current in s.nodes {
      TailOneTree(s, token, current);
      if segments != [] {
        WaitOneTree(s, token, current, AfterMatch, segments[1..]);
        WaitOneTree(s, token, current, AfterTry, segments);
        LoopOneTree(s, token, current, segments[1..]);
        DescendOneTree(s, token, current, segments);
        if s.nodes[current].unavailable { AfterSyntheticOneTree(s, token, current, segments); }
      }
    }
  }

  lemma {:induction false} AfterSyntheticOneTree(s: State, token: nat, current: NodeId, segments: seq<Path>)
    requires Sound(s) && current in s.nodes && segments != [] && s.nodes[current].unavailable
    ensures var (t, c) := Synthetic(s, current, segments[0]);
      OneTree(s, WalkLoop(t, token, c, segments[1..]), current.tree)
    decreases |segments|, 0
  {
    hide Sound, WalkLoop, Synthetic, OneTree;
    var (t, c) := Synthetic(s, current, segments[0]);
    SyntheticSound(s, current, segments[0]);
    SyntheticOneTree(s, current, segments[0]);
    LoopOneTree(t, token, c, segments[1..]);
    OneTreeTrans(s, t, WalkLoop(t, token, c, segments[1..]), current.tree);
  }

  lemma {:induction false} DescendOneTree(s: State, token: nat, current: NodeId, segments: seq<Path>)
    requires Sound(s) && current in s.nodes && segments != []
    ensures OneTree(s, Descend(s, token, current, segments), current.tree)
    decreases |segments|, 0
  {
    hide Sound, WalkLoop, WalkTail, FindChild, OneTree;
    var child := FindChild(s, ChildrenOf(s.nodes[current]), segments[0]);
    TailOneTree(s, token, current);
    ChildInTree(s, current, segments[0]);
    if child.Some? { LoopOneTree(s, token, child.value, segments[1..]); }
  }

  lemma GoOnOneTree(s: State, w: Walk)
    requires Sound(s)
    ensures OneTree(s, GoOn(s, w), w.current.tree)
  {
    hide Sound, WalkLoop, Descend, Synthetic, WalkTarget;
    if w.current in s.nodes {
      LoopOneTree(s, w.token, w.current, w.rest);
      TailOneTree(s, w.token, w.current);
      if w.rest != [] {
        DescendOneTree(s, w.token, w.current, w.rest);
        if s.nodes[w.current].unavailable { AfterSyntheticOneTree(s, w.token, w.current, w.rest); }
      }
    }
  }

  /** Changes outside the live tree leave the ways down from its root, and the nodes on them, alone. */
  lemma {:induction false} LiveTrailsStay(s: State, t: State, tree: nat, trail: seq<NodeId>)
    requires Inv(s) && OneTree(s, t, tree) && t.root == s.root && tree != s.trees
    ensures IsTrail(s, trail) <==> IsTrail(t, trail)
    ensures IsTrail(s, trail) ==>
      var n := trail[|trail| - 1]; n in s.nodes && n in t.nodes && t.nodes[n] == s.nodes[n]
  {
    hide Inv;
    if |trail| > 1 {
      var front := trail[..|trail| - 1];
      LiveTrailsStay(s, t, tree, front);
      assert front[|front| - 1] == trail[|trail| - 2];
    }
    if IsTrail(s, trail) { TrailIsLive(s, trail); }
  }

  /**
   `expandToPath` does not look at the epoch, so a walk may go on after its tree is gone; but in
   every run it then changes nothing below the live root.
   */
  lemma OrphanWalkLeavesTreeAlone(events: seq<Event>, k: nat, trail: seq<NodeId>)
    requires k < |Run(events).walks| && Run(events).walks[k].current.tree != Run(events).trees
    ensures var s, t := Run(events), Next(Run(events), Resume(k));
      && t.root == s.root && (IsTrail(s, trail) <==> IsTrail(t, trail))
      && (IsTrail(s, trail) ==>
            var n := trail[|trail| - 1]; n in s.nodes && n in t.nodes && t.nodes[n] == s.nodes[n])
  {
    var s := Run(events);
    var w := s.walks[k];
    var t := DoResume(s, k);
    NextResume(s, k);
    hide *;
    EveryRunIsSound(events);
    ResumeOneTree(s, k);
    SoundParts(s);
    LiveTrailsStay(s, t, w.current.tree, trail);
  }

  lemma NextResume(s: State, k: nat)
    ensures Next(s, Resume(k)) == DoResume(s, k)
  {
  }

  lemma ResumeOneTree(s: State, k: nat)
    requires Sound(s) && k < |s.walks|
    ensures OneTree(s, DoResume(s, k), s.walks[k].current.tree) && DoResume(s, k).root == s.root
  {
    var rest := s.(walks := s.walks[..k] + s.walks[k + 1..]);
    assert Sound(rest) by {
      hide Shape, RootOk, FetchesOk, LiveOk, ContentsOk, CurrentOk;
      assert forall i :: 0 <= i < |rest.walks| ==> rest.walks[i] in s.walks;
    }
    ResumeWalks(s, k);
    hide Sound, GoOn, Tokens;
    GoOnOneTree(rest, s.walks[k]);
  }

  /** The events of a run in which a walk outlives its tree: torn down while the root is being fetched. */
  const TORN_DOWN := [SetReady(true, "/"), SetCwd("/"), SetReady(false, "/"), Settle(0, Rejected)]

  lemma RunStep(events: seq<Event>, e: Event)
    ensures Run(events + [e]) == Next(Run(events), e)
  {
    hide Next;
    assert (events + [e])[..|events|] == events;
  }

  lemma RootWaits(s: State)
    requires s == DoSetReady(INITIAL, true, "/")
    ensures var r := NodeId(1, 0); var t := Next(s, SetCwd("/"));
      && t.walks == [Walk(1, r, AfterMatch, [], Some(0))] && t.cwdToken == 1 && t.promises == 1
      && t.fetches == map[0 := Fetch(r, 0, 1, true)] && t.epoch == 0
      && r in t.nodes && t.nodes[r].state.Loading? && t.nodes[r].path == "/"
  {
    var r := NodeId(1, 0);
    assert Parts("/") == [] by { assert "/"[1..] == ""; }
    assert Segments("/") == ["/"];
    var s1 := s.(selected := Some("/"), cwdToken := 1);
    var s2 := StartExpand(s1, r, true).0;
    assert s2.nodes[r].state.Loading? && s2.inflight[r] == 0;
    assert WalkLoop(s2, 1, r, ["/"]) == ExpandAndWait(s2, 1, r, AfterMatch, ["/"][1..]);
    assert ["/"][1..] == [];
  }

  lemma TornDownStep(s: State, r: NodeId)
    requires s.walks == [Walk(1, r, AfterMatch, [], Some(0))] && s.cwdToken == 1 && s.promises == 1
    requires s.fetches == map[0 := Fetch(r, 0, 1, true)] && s.epoch == 0
    requires r in s.nodes && s.nodes[r].state.Loading? && s.nodes[r].path == "/"
    ensures var t := Next(Next(s, SetReady(false, "/")), Settle(0, Rejected));
      t.root == None && t.selected == None && Next(t, Resume(0)).selected == Some("/")
  {
    var t := Next(Next(s, SetReady(false, "/")), Settle(0, Rejected));
    assert t.nodes == s.nodes && t.walks == s.walks && 0 !in t.fetches;
  }

  /** In that run the tree is gone and nothing is selected, and the walk then selects its old target. */
  lemma WalkOutlivesItsTree()
    ensures var s := Run(TORN_DOWN); s.root == None && s.selected == None && Next(s, Resume(0)).selected == Some("/")
  {
    var a, b, c, d := SetReady(true, "/"), SetCwd("/"), SetReady(false, "/"), Settle(0, Rejected);
    assert TORN_DOWN == [] + [a] + [b] + [c] + [d];
    assert Run([]) == INITIAL;
    RunStep([], a);
    RunStep([] + [a], b);
    RunStep([] + [a] + [b], c);
    RunStep([] + [a] + [b] + [c], d);
    var s := DoSetReady(INITIAL, true, "/");
    assert Next(INITIAL, a) == s;
    hide Run, Next, DoSetReady;
    RootWaits(s);
    TornDownStep(Next(s, b), NodeId(1, 0));
  }

  lemma OtherStepsKeepRoot(s: State, e: Event)
    requires !e.SetReady? && e != Destroy
    ensures SameLife(s, Next(s, e))
  {
    hide DoSetCwd, DoResume, Visible, NewChildren, NewIds, IsDescendant;
    match e
    case SetCwd(cwd) => SetCwdWalks(s, cwd);
    case Resume(k) => ResumeWalks(s, k);
    case _ =>
  }

  /**
   The documented rule "whatever replaces or clears the root advances the epoch" is kept by
   every step but one: making the tree ready installs a new root in the same epoch.
   */
  lemma RootChangesAdvanceEpoch(events: seq<Event>, e: Event)
    ensures var s, t := Run(events), Next(Run(events), e);
            t.root != s.root ==> (t.epoch > s.epoch <==> !(e.SetReady? && e.ready))
  {
    hide Run;
    if !e.SetReady? && e != Destroy { OtherStepsKeepRoot(Run(events), e); }
  }

  /** So a fetch can outlive its tree without being recognised as stale. */
  lemma ReadyTwiceOrphansAFetch()
    ensures var s := Run([SetReady(true, "/"), Expand(NodeId(1, 0)), SetReady(true, "/")]);
            && s.root == Some(NodeId(2, 1)) && 0 in s.fetches && s.fetches[0].node == NodeId(1, 0)
            && NodeId(1, 0) in s.nodes && !Stale(s, s.fetches[0])
  {
    var es := [SetReady(true, "/"), Expand(NodeId(1, 0)), SetReady(true, "/")];
    assert es[..2] == [SetReady(true, "/"), Expand(NodeId(1, 0))] && es[..2][..1] == [SetReady(true, "/")] &&
      es[..2][..1][..0] == [];
    assert Run(es[..2][..1]) == DoSetReady(INITIAL, true, "/");
    assert Run(es[..2]) == StartExpand(DoSetReady(INITIAL, true, "/"), NodeId(1, 0), false).0;
  }

  // ----- Paths -----

  /** Each segment is the path a listing would give the child named by the next part. */
  lemma {:induction false} AccumulateStep(done: Path, parts: seq<string>, i: nat)
    requires i < |parts|
    ensures |Accumulate(done, parts)| == |parts|
    ensures Accumulate(done, parts)[i] == (if i == 0 then done else Accumulate(done, parts)[i - 1]) + "/" + parts[i]
    decreases |parts|
  {
    if parts[1..] != [] {
      AccumulateStep(done + "/" + parts[0], parts[1..], if i == 0 then 0 else i - 1);
    }
  }

  lemma SegmentsAreChildPaths(path: Path, i: nat)
    requires i < |Parts(path)|
    ensures |Segments(path)| == |Parts(path)| + 1
    ensures Segments(path)[i + 1] == ChildPath(Segments(path)[i], Parts(path)[i])
    ensures IsDescendant(Segments(path)[i], Segments(path)[i + 1])
  {
    AccumulateStep("", Parts(path), i);
    if i > 0 {
      AccumulateStep("", Parts(path), i - 1);
      assert |Segments(path)[i]| > 1 by { PartsAreNames(path, "", i - 1); }
    }
  }

  /** Parts are never empty and hold no slash. */
  lemma {:induction false} PartsAreNames(rest: string, part: string, i: nat)
    requires '/' !in part && i < |PartsFrom(rest, part)|
    ensures PartsFrom(rest, part)[i] != [] && '/' !in PartsFrom(rest, part)[i]
    decreases |rest|
  {
    if rest != [] {
      if rest[0] != '/' {
        PartsAreNames(rest[1..], part + [rest[0]], i);
      } else if part == [] {
        PartsAreNames(rest[1..], [], i);
      } else if i > 0 {
        PartsAreNames(rest[1..], [], i - 1);
      }
    }
  }

  /** The path made of some names. */
  function PathOf(names: seq<string>): Path {
    if names == [] then "" else PathOf(names[..|names| - 1]) + "/" + names[|names| - 1]
  }

  lemma {:induction false} PartsOfName(name: string, part: string, rest: string)
    requires '/' !in name
    ensures PartsFrom(name + rest, part) == PartsFrom(rest, part + name)
  {
    if name == [] {
      assert name + rest == rest && part + name == part;
    } else {
      assert (name + rest)[1..] == name[1..] + rest;
      PartsOfName(name[1..], part + [name[0]], rest);
      assert part + [name[0]] + name[1..] == part + name;
    }
  }

  lemma {:induction false} PartsOfPath(names: seq<string>, rest: string)
    requires forall i :: 0 <= i < |names| ==> names[i] != [] && '/' !in names[i]
    ensures PartsFrom(PathOf(names) + "/" + rest, "") == names + PartsFrom(rest, "")
  {
    if names == [] {
      assert ("" + "/" + rest)[1..] == rest;
    } else {
      var front, name := names[..|names| - 1], names[|names| - 1];
      var more := name + ("/" + rest);
      assert PathOf(names) + "/" + rest == PathOf(front) + "/" + more;
      PartsOfPath(front, more);
      PartsOfName(name, "", "/" + rest);
      assert "" + name == name && ("/" + rest)[1..] == rest;
      assert PartsFrom(more, "") == [name] + PartsFrom(rest, "");
      assert front + [name] == names;
      assert front + ([name] + PartsFrom(rest, "")) == names + PartsFrom(rest, "");
    }
  }

  /** Splitting the path of some names gives the names back, and the last segment is the path. */
  lemma SegmentsRoundTrip(names: seq<string>)
    requires names != [] && forall i :: 0 <= i < |names| ==> names[i] != [] && '/' !in names[i]
    ensures Parts(PathOf(names)) == names
    ensures |Segments(PathOf(names))| == |names| + 1 && Segments(PathOf(names))[|names|] == PathOf(names)
  {
    var front, name := names[..|names| - 1], names[|names| - 1];
    PartsOfPath(front, name);
    PartsOfName(name, "", "");
    assert name + "" == name && "" + name == name && front + [name] == names;
    LastAccumulated(names);
  }

  lemma {:induction false} LastAccumulated(names: seq<string>)
    requires names != []
    ensures |Accumulate("", names)| == |names| && Accumulate("", names)[|names| - 1] == PathOf(names)
  {
    var n := |names| - 1;
    AccumulateStep("", names, n);
    if n > 0 {
      LastAccumulated(names[..n]);
      AccumulatePrefix("", names, n);
    }
  }

  lemma {:induction false} AccumulatePrefix(done: Path, parts: seq<string>, k: nat)
    requires k <= |parts|
    ensures Accumulate(done, parts[..k]) <= Accumulate(done, parts) && |Accumulate(done, parts[..k])| == k
    decreases k
  {
    if k > 0 {
      assert parts[..k][1..] == parts[1..][..k - 1];
      AccumulatePrefix(done + "/" + parts[0], parts[1..], k - 1);
    }
  }
}
