/**
 The lazy directory tree (webssh/src/file-tree.ts), without its rows: nodes, fetches in
 flight, path walks suspended at an await, and the tokens that cancel them.
 */
module FileTree {

  import opened Wrappers

  type Path = string

  /** The identity of a node object: the tree it was made for, and a serial number. */
  datatype NodeId = NodeId(tree: nat, serial: nat)

  datatype Kind = Directory | File | Symlink | Other
  datatype NodeState = Collapsed | Loading | Expanded | Failed

  datatype Node = Node(path: Path, kind: Kind, parent: Option<NodeId>, children: Option<seq<NodeId>>, state: NodeState,
                       truncated: bool, loadToken: nat, unavailable: bool)

  datatype Entry = Entry(name: string, kind: Kind)

  /** An `expandNode` call waiting for its directory listing. */
  datatype Fetch = Fetch(node: NodeId, epoch: nat, token: nat, silent: bool)

  /** Where in `expandToPath` a walk waits. */
  datatype Point = AfterMatch | AfterTry | AfterSynthetic | AfterTarget

  /** A suspended walk; `rest` starts with the segment being worked on at `AfterTry`. */
  datatype Walk = Walk(token: nat, current: NodeId, point: Point, rest: seq<Path>, waitsFor: Option<nat>)

  /** Promises are numbered; one is settled once its fetch is gone.  `applied` logs the listings put into the tree. */
  datatype State = State(
    nodes: map<NodeId, Node>, root: Option<NodeId>, ready: bool, epoch: nat, trees: nat, serial: nat,
    cwdToken: nat, selected: Option<Path>, inflight: map<NodeId, nat>, fetches: map<nat, Fetch>, promises: nat,
    walks: seq<Walk>, applied: map<(NodeId, nat), seq<Entry>>)

  const INITIAL := State(map[], None, false, 0, 0, 0, 0, None, map[], map[], 0, [], map[])

  datatype Outcome = Listed(entries: seq<Entry>, truncated: bool) | Rejected

  datatype Event =
    | SetReady(ready: bool, rootPath: Path) | Destroy
    | Expand(node: NodeId) | Collapse(node: NodeId) | Activate(node: NodeId) | SetCwd(cwd: Path)
    | Settle(promise: nat, outcome: Outcome) | Resume(walk: nat)

  // ----- Paths -----

  /** `path.split('/').filter(Boolean)`: the non-empty parts; `part` is the one being read. */
  function PartsFrom(rest: string, part: string): seq<string>
    decreases |rest|
  {
    if rest == [] then (if part == [] then [] else [part])
    else if rest[0] != '/' then PartsFrom(rest[1..], part + [rest[0]])
    else (if part == [] then [] else [part]) + PartsFrom(rest[1..], [])
  }

  function Parts(path: Path): seq<string> { PartsFrom(path, "") }

  /** The paths reached by adding the parts one by one. */
  function Accumulate(done: Path, parts: seq<string>): seq<Path>
    decreases |parts|
  {
    if parts == [] then [] else [done + "/" + parts[0]] + Accumulate(done + "/" + parts[0], parts[1..])
  }

  /** `splitPathSegments`: the ancestors of a path, root first. */
  function Segments(path: Path): (r: seq<Path>)
    ensures |r| >= 1 && r[0] == "/"
  {
    ["/"] + Accumulate("", Parts(path))
  }

  /** `isDescendantPath` */
  predicate IsDescendant(parent: Path, child: Path) {
    parent == child || (if parent == "/" then "/" <= child else parent + "/" <= child)
  }

  function ChildPath(parent: Path, name: string): Path {
    if parent == "/" then "/" + name else parent + "/" + name
  }

  function Visible(entries: seq<Entry>): (r: seq<Entry>)
    ensures forall e :: e in r <==> e in entries && (e.kind.Directory? || e.kind.Symlink?)
  {
    if entries == [] then []
    else
      var e := entries[|entries| - 1];
      Visible(entries[..|entries| - 1]) + (if e.kind.Directory? || e.kind.Symlink? then [e] else [])
  }

  // ----- Expanding and collapsing -----

  predicate Expandable(n: Node) { n.kind.Directory? && !n.unavailable }

  /** `expandNode` up to its await; the number is that of the promise its caller waits for, if any. */
  function StartExpand(s: State, n: NodeId, silent: bool): (State, Option<nat>)
    requires n in s.nodes
  {
    var node := s.nodes[n];
    if !Expandable(node) || node.state.Expanded? then (s, None)
    else if node.state.Loading? then
      (s, if n in s.inflight then Some(s.inflight[n]) else None)
    else
      var token := node.loadToken + 1;
      (s.(nodes := s.nodes[n := node.(loadToken := token, state := Loading)],
          inflight := s.inflight[n := s.promises],
          fetches := s.fetches[s.promises := Fetch(n, s.epoch, token, silent)],
          promises := s.promises + 1),
       Some(s.promises))
  }

  /** The fetch is over: its promise settles and its in-flight entry goes, if still its own. */
  function Finish(s: State, p: nat): State
    requires p in s.fetches
  {
    var n := s.fetches[p].node;
    s.(fetches := s.fetches - {p},
       inflight := if n in s.inflight && s.inflight[n] == p then s.inflight - {n} else s.inflight)
  }

  /** The guards after the await: the tree was torn down, or the fetch superseded. */
  predicate Stale(s: State, f: Fetch)
    requires f.node in s.nodes
  {
    f.epoch != s.epoch || !s.ready || s.root.None? || f.token != s.nodes[f.node].loadToken
  }

  function NewIds(tree: nat, serial: nat, n: nat): (ids: seq<NodeId>)
    ensures |ids| == n && forall i :: 0 <= i < n ==> ids[i] == NodeId(tree, serial + i)
  {
    seq(n, i requires 0 <= i < n => NodeId(tree, serial + i))
  }

  function IdSet(tree: nat, serial: nat, n: nat): (ids: set<NodeId>)
    ensures forall c :: c in ids <==> c.tree == tree && serial <= c.serial < serial + n
  {
    set i: nat | serial <= i < serial + n :: NodeId(tree, i)
  }

  /** The nodes made for a listing: one collapsed child per visible entry. */
  function NewChildren(parent: NodeId, path: Path, serial: nat, entries: seq<Entry>): map<NodeId, Node> {
    map c | c in IdSet(parent.tree, serial, |entries|) ::
      Node(ChildPath(path, entries[c.serial - serial].name), entries[c.serial - serial].kind, Some(parent), None,
           Collapsed, false, 0, false)
  }

  /** `expandNode` after its await. */
  function DoSettle(s: State, p: nat, outcome: Outcome): State {
    if p !in s.fetches || s.fetches[p].node !in s.nodes then s
    else
      var f := s.fetches[p];
      if Stale(s, f) then Finish(s, p)
      else
        match outcome
        case Listed(entries, truncated) => Finish(ApplyListing(s, f.node, f.token, entries, truncated), p)
        case Rejected => Finish(ApplyFailure(s, f.node, f.silent), p)
  }

  function ApplyListing(s: State, n: NodeId, token: nat, entries: seq<Entry>, truncated: bool): State
    requires n in s.nodes
  {
    var node, shown := s.nodes[n], Visible(entries);
    var children := NewIds(n.tree, s.serial, |shown|);
    s.(nodes := s.nodes[n := node.(children := Some(children), truncated := truncated, state := Expanded)]
                + NewChildren(n, node.path, s.serial, shown),
       serial := s.serial + |shown|,
       applied := s.applied[(n, token) := entries])
  }

  function ApplyFailure(s: State, n: NodeId, silent: bool): State
    requires n in s.nodes
  {
    var node := s.nodes[n];
    if silent && s.selected.Some? && s.selected.value != "" && IsDescendant(node.path, s.selected.value) then
      s.(nodes := s.nodes[n := node.(unavailable := true, state := Collapsed, children := None)])
    else
      s.(nodes := s.nodes[n := node.(state := Failed, children := None)])
  }

  function DoCollapse(s: State, n: NodeId): State {
    if n !in s.nodes || !Expandable(s.nodes[n]) || s.nodes[n].state.Collapsed? then s
    else
      var node := s.nodes[n];
      var collapsed := node.(loadToken := node.loadToken + 1, state := Collapsed, children := None, truncated := false);
      s.(nodes := s.nodes[n := collapsed])
  }

  /** `activateNode`: select a node and, for an available directory, expand it. */
  function DoActivate(s: State, n: NodeId): State {
    if n !in s.nodes then s
    else
      var s1 := s.(selected := Some(s.nodes[n].path));
      if s.nodes[n].kind.Directory? && !s.nodes[n].unavailable then StartExpand(s1, n, false).0 else s1
  }

  // ----- Life of the tree -----

  /** `setReady`: note that making a new root does not advance the epoch. */
  function DoSetReady(s: State, ready: bool, rootPath: Path): State {
    if !ready then s.(ready := false, epoch := s.epoch + 1, root := None, selected := None)
    else
      var r := NodeId(s.trees + 1, s.serial);
      s.(ready := true, root := Some(r), trees := s.trees + 1, serial := s.serial + 1, selected := None,
         nodes := s.nodes[r := Node(rootPath, Directory, None, None, Collapsed, false, 0, false)])
  }

  function DoDestroy(s: State): State {
    s.(epoch := s.epoch + 1, root := None, selected := None, ready := false)
  }

  // ----- Path walks -----

  function FindChild(s: State, children: seq<NodeId>, path: Path): Option<NodeId> {
    if children == [] then None
    else if children[0] in s.nodes && s.nodes[children[0]].path == path then Some(children[0])
    else FindChild(s, children[1..], path)
  }

  function ChildrenOf(node: Node): seq<NodeId> { if node.children.Some? then node.children.value else [] }

  /** The synthetic child for a segment below an unavailable node, made if missing. */
  function Synthetic(s: State, current: NodeId, segment: Path): (State, NodeId)
    requires current in s.nodes
  {
    var node := s.nodes[current];
    var found := FindChild(s, ChildrenOf(node), segment);
    if found.Some? then (s, found.value)
    else
      var c := NodeId(current.tree, s.serial);
      (s.(nodes := s.nodes[current := node.(children := Some(ChildrenOf(node) + [c]))]
                   + map[c := Node(segment, Directory, Some(current), None, Collapsed, false, 0, false)],
          serial := s.serial + 1),
       c)
  }

  /** `await this.expandNode(current, true)` inside a walk: expand, then wait at `point`. */
  function ExpandAndWait(s: State, token: nat, current: NodeId, point: Point, rest: seq<Path>): State
    requires current in s.nodes
  {
    var (t, p) := StartExpand(s, current, true);
    t.(walks := t.walks + [Walk(token, current, point, rest, p)])
  }

  /** The loop of `expandToPath`, run until it waits or ends. */
  function WalkLoop(s: State, token: nat, current: NodeId, segments: seq<Path>): State
    decreases |segments|
  {
    if current !in s.nodes then s
    else if segments == [] then WalkTail(s, token, current)
    else if token != s.cwdToken then s
    else
      var node := s.nodes[current];
      if segments[0] == node.path then
        if !node.state.Expanded? then ExpandAndWait(s, token, current, AfterMatch, segments[1..])
        else WalkLoop(s, token, current, segments[1..])
      else if node.unavailable then
        var (t, c) := Synthetic(s, current, segments[0]);
        WalkLoop(t, token, c, segments[1..])
      else if !node.state.Expanded? then ExpandAndWait(s, token, current, AfterTry, segments)
      else Descend(s, token, current, segments)
  }

  /** To the real child for the first segment; without one the loop ends. */
  function Descend(s: State, token: nat, current: NodeId, segments: seq<Path>): State
    requires current in s.nodes && segments != []
    decreases |segments|, 0
  {
    var child := FindChild(s, ChildrenOf(s.nodes[current]), segments[0]);
    if child.None? then WalkTail(s, token, current) else WalkLoop(s, token, child.value, segments[1..])
  }

  /** After the loop: expand a synthetic last node. */
  function WalkTail(s: State, token: nat, current: NodeId): State
    requires current in s.nodes
  {
    var node := s.nodes[current];
    if token != s.cwdToken then s
    else if node.state.Collapsed? && !node.unavailable && node.parent.Some? && node.parent.value in s.nodes
            && s.nodes[node.parent.value].unavailable
    then ExpandAndWait(s, token, current, AfterSynthetic, [])
    else WalkTarget(s, token, current)
  }

  /** Expand the target itself, or highlight it. */
  function WalkTarget(s: State, token: nat, current: NodeId): State
    requires current in s.nodes
  {
    var node := s.nodes[current];
    if node.state.Collapsed? && node.kind.Directory? && !node.unavailable
    then ExpandAndWait(s, token, current, AfterTarget, [])
    else s.(selected := Some(node.path))
  }

  function DoSetCwd(s: State, cwd: Path): State {
    var s1 := s.(selected := Some(cwd), cwdToken := s.cwdToken + 1);
    if s.root.None? || s.root.value !in s.nodes then s1
    else
      var s2 := if s.nodes[s.root.value].state.Collapsed? then StartExpand(s1, s.root.value, true).0 else s1;
      if !s.ready then s2 else WalkLoop(s2, s2.cwdToken, s.root.value, Segments(cwd))
  }

  /** A promise is settled once its fetch is no longer active. */
  predicate Settled(s: State, p: nat) { p < s.promises && p !in s.fetches }

  /** A walk goes on after its await, if what it waits for has settled. */
  function DoResume(s: State, k: nat): State {
    if k >= |s.walks| || (s.walks[k].waitsFor.Some? && !Settled(s, s.walks[k].waitsFor.value)) then s
    else
      var w := s.walks[k];
      GoOn(s.(walks := s.walks[..k] + s.walks[k + 1..]), w)
  }

  function GoOn(s: State, w: Walk): State {
    if w.token != s.cwdToken || w.current !in s.nodes then s
    else
      match w.point
      case AfterMatch => WalkLoop(s, w.token, w.current, w.rest)
      case AfterTry =>
        if w.rest == [] then s
        else if s.nodes[w.current].unavailable then
          var (t, c) := Synthetic(s, w.current, w.rest[0]);
          WalkLoop(t, w.token, c, w.rest[1..])
        else Descend(s, w.token, w.current, w.rest)
      case AfterSynthetic => WalkTarget(s, w.token, w.current)
      case AfterTarget => s.(selected := Some(s.nodes[w.current].path))
  }

  // ----- Steps and runs -----

  function Next(s: State, e: Event): State {
    match e
    case SetReady(ready, rootPath) => DoSetReady(s, ready, rootPath)
    case Destroy => DoDestroy(s)
    case Expand(n) => if n in s.nodes then StartExpand(s, n, false).0 else s
    case Collapse(n) => DoCollapse(s, n)
    case Activate(n) => DoActivate(s, n)
    case SetCwd(cwd) => DoSetCwd(s, cwd)
    case Settle(p, outcome) => DoSettle(s, p, outcome)
    case Resume(k) => DoResume(s, k)
  }

  function Run(events: seq<Event>): State {
    if events == [] then INITIAL else Next(Run(events[..|events| - 1]), events[|events| - 1])
  }
}
