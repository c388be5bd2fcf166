/**
 Dragging a node in a filtered list of the admin page (frontend/src/utils/adminNodeOrder.ts):
 the visible nodes are permuted among the places they hold in the full list.
 */
module NodeOrder {

  import opened Wrappers

  /** `data` is everything about a node that reordering does not touch. */
  datatype Node = Node(uuid: string, data: string, sortOrder: int)

  ghost function Uuids(nodes: seq<Node>): (u: seq<string>)
    ensures |u| == |nodes| && forall i :: 0 <= i < |u| ==> u[i] == nodes[i].uuid
  {
    seq(|nodes|, i requires 0 <= i < |nodes| => nodes[i].uuid)
  }

  ghost predicate NoRepeats(u: seq<string>) { forall i, j :: 0 <= i < j < |u| ==> u[i] != u[j] }

  ghost function Members(u: seq<string>): set<string> { set x | x in u }

  /** The visible list is a part of the full list, in any order, without repetitions. */
  ghost predicate PartOf(visible: seq<Node>, all: seq<Node>) {
    && NoRepeats(Uuids(all)) && NoRepeats(Uuids(visible))
    && Members(Uuids(visible)) <= Members(Uuids(all))
  }

  /** `findIndex` */
  function FindIndex(nodes: seq<Node>, uuid: string): (i: int)
    ensures -1 <= i < |nodes|
    ensures i >= 0 ==> nodes[i].uuid == uuid && forall j :: 0 <= j < i ==> nodes[j].uuid != uuid
    ensures i < 0 ==> forall j :: 0 <= j < |nodes| ==> nodes[j].uuid != uuid
    decreases |nodes|
  {
    if nodes == [] then -1
    else if nodes[0].uuid == uuid then 0
    else
      var i := FindIndex(nodes[1..], uuid);
      assert forall j :: 1 <= j < |nodes| ==> nodes[j] == nodes[1..][j - 1];
      if i < 0 then -1 else i + 1
  }

  /** `arrayMove`: take out the node at `from`, put it back at `to`. */
  function Moved(nodes: seq<Node>, from: nat, to: nat): (r: seq<Node>)
    requires from < |nodes| && to < |nodes|
    ensures |r| == |nodes|
  {
    var rest := nodes[..from] + nodes[from + 1..];
    rest[..to] + [nodes[from]] + rest[to..]
  }

  function MoveVisible(visible: seq<Node>, active: string, over: string): Option<seq<Node>> {
    var from, to := FindIndex(visible, active), FindIndex(visible, over);
    if from < 0 || to < 0 then None else Some(Moved(visible, from, to))
  }

  /** The nodes whose uuid is in `ids` (`inside`) or is not. */
  function Kept(nodes: seq<Node>, ids: set<string>, inside: bool): seq<Node> {
    if nodes == [] then []
    else Kept(nodes[..|nodes| - 1], ids, inside)
         + (if (nodes[|nodes| - 1].uuid in ids) == inside then [nodes[|nodes| - 1]] else [])
  }

  /** The moved nodes, one by one, in the places of the full list that belong to `ids`. */
  function Placed(all: seq<Node>, ids: set<string>, moved: seq<Node>): (r: seq<Node>)
    requires |Kept(all, ids, true)| <= |moved|
    ensures |r| == |all|
  {
    if all == [] then []
    else
      var before, last := all[..|all| - 1], all[|all| - 1];
      Placed(before, ids, moved) + [if last.uuid in ids then moved[|Kept(before, ids, true)|] else last]
  }

  function Renumbered(nodes: seq<Node>): (r: seq<Node>)
    ensures |r| == |nodes| && forall i :: 0 <= i < |r| ==> r[i] == nodes[i].(sortOrder := i + 1)
  {
    seq(|nodes|, i requires 0 <= i < |nodes| => nodes[i].(sortOrder := i + 1))
  }

  /** A place of the result; None is an object without a node, read past the end of the moved list. */
  type Slot = Option<Node>

  function AsSlots(nodes: seq<Node>): (r: seq<Slot>)
    ensures |r| == |nodes| && forall i :: 0 <= i < |r| ==> r[i] == Some(nodes[i])
  {
    seq(|nodes|, i requires 0 <= i < |nodes| => Some(nodes[i]))
  }

  /** The same places for any lists whatever. */
  function Slots(all: seq<Node>, ids: set<string>, moved: seq<Node>): (r: seq<Slot>)
    ensures |r| == |all|
  {
    if all == [] then []
    else
      var before, last := all[..|all| - 1], all[|all| - 1];
      var k := |Kept(before, ids, true)|;
      Slots(before, ids, moved)
      + [if last.uuid !in ids then Some(last) else if k < |moved| then Some(moved[k]) else None]
  }

  function Numbered(slots: seq<Slot>): (r: seq<Slot>)
    ensures |r| == |slots|
    ensures forall i :: 0 <= i < |r| ==>
      r[i] == if slots[i].Some? then Some(slots[i].value.(sortOrder := i + 1)) else None
  {
    seq(|slots|, i requires 0 <= i < |slots| =>
      if slots[i].Some? then Some(slots[i].value.(sortOrder := i + 1)) else None)
  }

  method MoveAdminNodeInVisibleOrder(all: seq<Node>, visible: seq<Node>, active: string, over: string)
    returns (r: seq<Slot>)
    ensures var moved := MoveVisible(visible, active, over);
      r == if moved.None? then AsSlots(all) else Numbered(Slots(all, Members(Uuids(moved.value)), moved.value))
  {
    hide Moved;
    var from, to := FindIndex(visible, active), FindIndex(visible, over);
    if from < 0 || to < 0 { return AsSlots(all); }
    var moved := Moved(visible, from, to);
    var byUuid := set i | 0 <= i < |moved| :: moved[i].uuid;
    assert byUuid == Members(Uuids(moved));
    var visibleIndex: nat, placed: seq<Slot> := 0, [];
    for i := 0 to |all|
      invariant |Kept(all[..i], byUuid, true)| == visibleIndex
      invariant placed == Slots(all[..i], byUuid, moved)
    {
      assert all[..i + 1][..i] == all[..i];
      if all[i].uuid !in byUuid {
        placed := placed + [Some(all[i])];
      } else {
        placed := placed + [if visibleIndex < |moved| then Some(moved[visibleIndex]) else None];
        visibleIndex := visibleIndex + 1;
      }
    }
    assert all[..|all|] == all;
    r := Numbered(placed);
  }

  // ----- When every place gets a node -----

  lemma {:induction false} SlotsAreFull(all: seq<Node>, ids: set<string>, moved: seq<Node>)
    requires |Kept(all, ids, true)| <= |moved|
    ensures Slots(all, ids, moved) == AsSlots(Placed(all, ids, moved))
  {
    if all != [] { SlotsAreFull(all[..|all| - 1], ids, moved); }
  }

  ghost predicate AllFull(slots: seq<Slot>) { forall i :: 0 <= i < |slots| ==> slots[i].Some? }

  lemma FullAppend(slots: seq<Slot>, s: Slot)
    ensures AllFull(slots + [s]) <==> AllFull(slots) && s.Some?
  {
    assert (slots + [s])[|slots|] == s;
    assert forall i :: 0 <= i < |slots| ==> slots[i] == (slots + [s])[i];
  }

  /** A place stays empty exactly when the full list holds more visible uuids than there are visible nodes. */
  lemma {:induction false} EmptyPlacesExactly(all: seq<Node>, ids: set<string>, moved: seq<Node>)
    ensures AllFull(Slots(all, ids, moved)) <==> |Kept(all, ids, true)| <= |moved|
  {
    if all != [] {
      hide AllFull;
      var n := |all| - 1;
      EmptyPlacesExactly(all[..n], ids, moved);
      FullAppend(Slots(all[..n], ids, moved), Slots(all, ids, moved)[n]);
    }
  }

  // ----- Lists without repetitions -----

  lemma LastIsNew(u: seq<string>, x: string)
    requires NoRepeats(u + [x])
    ensures NoRepeats(u) && x !in Members(u)
  {
    assert forall i :: 0 <= i < |u| ==> (u + [x])[i] == u[i];
    assert (u + [x])[|u|] == x;
  }

  lemma MembersAppend(u: seq<string>, x: string)
    ensures Members(u + [x]) == Members(u) + {x}
  {
  }

  lemma {:induction false} NoRepeatsCounts(u: seq<string>)
    requires NoRepeats(u)
    ensures |Members(u)| == |u|
    ensures forall x :: multiset(u)[x] == if x in Members(u) then 1 else 0
  {
    if u == [] {
      assert Members(u) == {};
    } else {
      var n := |u| - 1;
      var rest, last := u[..n], u[n];
      assert u == rest + [last];
      LastIsNew(rest, last);
      MembersAppend(rest, last);
      hide NoRepeats, Members;
      NoRepeatsCounts(rest);
      assert multiset(u) == multiset(rest) + multiset{last};
      forall x ensures multiset(u)[x] == if x in Members(u) then 1 else 0 {
        assert multiset(u)[x] == multiset(rest)[x] + multiset{last}[x];
      }
    }
  }

  lemma SameMembersSameMultiset(u: seq<string>, v: seq<string>)
    requires NoRepeats(u) && NoRepeats(v) && Members(u) == Members(v)
    ensures multiset(u) == multiset(v) && |u| == |v|
  {
    NoRepeatsCounts(u);
    NoRepeatsCounts(v);
  }

  lemma {:induction false} RepeatsCount(u: seq<string>)
    requires forall x :: multiset(u)[x] <= 1
    ensures NoRepeats(u)
  {
    if u != [] {
      var n := |u| - 1;
      assert u == u[..n] + [u[n]];
      assert forall x :: multiset(u[..n])[x] <= multiset(u)[x];
      RepeatsCount(u[..n]);
      assert multiset(u[..n])[u[n]] == 0;
      assert u[n] !in u[..n];
    }
  }

  // ----- The moved list -----

  lemma UuidsConcat(a: seq<Node>, b: seq<Node>)
    ensures Uuids(a + b) == Uuids(a) + Uuids(b)
  {
  }

  /** The node lands at its place and the others keep their order. */
  lemma MovedFacts(nodes: seq<Node>, from: nat, to: nat)
    requires from < |nodes| && to < |nodes|
    ensures var r := Moved(nodes, from, to);
      r[to] == nodes[from] && r[..to] + r[to + 1..] == nodes[..from] + nodes[from + 1..]
  {
    var rest, r := nodes[..from] + nodes[from + 1..], Moved(nodes, from, to);
    assert r[..to] == rest[..to] && r[to + 1..] == rest[to..];
  }

  /** A drag moves the list exactly when both nodes are visible, and then from the one's index to the other's. */
  lemma DragMoves(visible: seq<Node>, active: string, over: string)
    ensures MoveVisible(visible, active, over).Some? <==> active in Uuids(visible) && over in Uuids(visible)
    ensures forall i, j | 0 <= i < |visible| && 0 <= j < |visible| ::
      NoRepeats(Uuids(visible)) && visible[i].uuid == active && visible[j].uuid == over ==>
      MoveVisible(visible, active, over) == Some(Moved(visible, i, j))
  {
    hide Moved;
    if active in Uuids(visible) {
      var i :| 0 <= i < |visible| && Uuids(visible)[i] == active;
      assert visible[i].uuid == active;
    }
    if over in Uuids(visible) {
      var i :| 0 <= i < |visible| && Uuids(visible)[i] == over;
      assert visible[i].uuid == over;
    }
    forall i, j | 0 <= i < |visible| && 0 <= j < |visible| && NoRepeats(Uuids(visible)) && visible[i].uuid == active
      && visible[j].uuid == over
      ensures FindIndex(visible, active) == i && FindIndex(visible, over) == j
    {
      var a, b := FindIndex(visible, active), FindIndex(visible, over);
      assert Uuids(visible)[a] == Uuids(visible)[i] && Uuids(visible)[b] == Uuids(visible)[j];
    }
  }

  /** Putting a node between two parts of a list. */
  lemma UuidsBetween(a: seq<Node>, x: Node, b: seq<Node>)
    ensures multiset(Uuids(a + [x] + b)) == multiset(Uuids(a + b)) + multiset{x.uuid}
  {
    UuidsConcat(a + [x], b);
    UuidsConcat(a, [x]);
    UuidsConcat(a, b);
    assert Uuids([x]) == [x.uuid];
  }

  lemma MovedPermutes(nodes: seq<Node>, from: nat, to: nat)
    requires from < |nodes| && to < |nodes|
    ensures multiset(Uuids(Moved(nodes, from, to))) == multiset(Uuids(nodes))
  {
    hide Uuids;
    var rest, x := nodes[..from] + nodes[from + 1..], nodes[from];
    assert nodes == nodes[..from] + [x] + nodes[from + 1..];
    assert rest == rest[..to] + rest[to..];
    UuidsBetween(nodes[..from], x, nodes[from + 1..]);
    UuidsBetween(rest[..to], x, rest[to..]);
  }

  lemma MovedIsPart(all: seq<Node>, visible: seq<Node>, from: nat, to: nat)
    requires PartOf(visible, all) && from < |visible| && to < |visible|
    ensures PartOf(Moved(visible, from, to), all)
    ensures Members(Uuids(Moved(visible, from, to))) == Members(Uuids(visible))
  {
    var u, v := Uuids(Moved(visible, from, to)), Uuids(visible);
    MovedPermutes(visible, from, to);
    hide Moved, Uuids;
    NoRepeatsCounts(v);
    RepeatsCount(u);
    SameMultisetSameMembers(u, v);
  }

  lemma SameMultisetSameMembers(u: seq<string>, v: seq<string>)
    requires multiset(u) == multiset(v)
    ensures Members(u) == Members(v)
  {
    assert forall x :: x in u <==> x in multiset(u);
    assert forall x :: x in v <==> x in multiset(v);
  }

  // ----- The places -----

  /** One node more. */
  lemma KeptStep(nodes: seq<Node>, ids: set<string>, inside: bool)
    requires nodes != []
    ensures var before, uuid := nodes[..|nodes| - 1], nodes[|nodes| - 1].uuid;
      && Uuids(nodes) == Uuids(before) + [uuid]
      && Uuids(Kept(nodes, ids, inside)) == Uuids(Kept(before, ids, inside))
        + (if (uuid in ids) == inside then [uuid] else [])
  {
    var before, last := nodes[..|nodes| - 1], [nodes[|nodes| - 1]];
    assert nodes == before + last;
    UuidsConcat(before, last);
    UuidsConcat(Kept(before, ids, inside), last);
  }

  /** The uuids of the kept nodes: no repetitions, and exactly those asked for. */
  lemma {:induction false} KeptUuids(all: seq<Node>, ids: set<string>)
    requires NoRepeats(Uuids(all))
    ensures NoRepeats(Uuids(Kept(all, ids, true)))
    ensures Members(Uuids(Kept(all, ids, true))) == Members(Uuids(all)) * ids
  {
    if all != [] {
      var before, uuid := all[..|all| - 1], all[|all| - 1].uuid;
      KeptStep(all, ids, true);
      LastIsNew(Uuids(before), uuid);
      KeptUuids(before, ids);
      hide Kept, Uuids, NoRepeats, Members;
      var kept := Uuids(Kept(before, ids, true));
      MembersAppend(Uuids(before), uuid);
      MembersAppend(kept, uuid);
      assert kept + [] == kept;
      if uuid in ids { AppendNew(kept, uuid); }
    }
  }

  lemma AppendNew(u: seq<string>, x: string)
    requires NoRepeats(u) && x !in Members(u)
    ensures NoRepeats(u + [x])
  {
    assert forall i :: 0 <= i < |u| ==> u[i] in Members(u);
  }

  /** There are as many places as moved nodes. */
  lemma PlacesMatch(all: seq<Node>, moved: seq<Node>)
    requires PartOf(moved, all)
    ensures var kept := Kept(all, Members(Uuids(moved)), true);
      |kept| == |moved| && multiset(Uuids(kept)) == multiset(Uuids(moved))
  {
    hide Kept, NoRepeats, Members;
    var ids := Members(Uuids(moved));
    KeptUuids(all, ids);
    assert Members(Uuids(all)) * ids == ids;
    SameMembersSameMultiset(Uuids(Kept(all, ids, true)), Uuids(moved));
  }

  /** Outsiders keep their places, and insiders' places stay insiders'. */
  lemma {:induction false} PlacedStays(all: seq<Node>, ids: set<string>, moved: seq<Node>)
    requires |Kept(all, ids, true)| <= |moved| && forall i :: 0 <= i < |moved| ==> moved[i].uuid in ids
    ensures var r := Placed(all, ids, moved);
      forall i :: 0 <= i < |all| ==> if all[i].uuid in ids then r[i].uuid in ids else r[i] == all[i]
  {
    if all != [] {
      PlacedStays(all[..|all| - 1], ids, moved);
    }
  }

  /** The insiders' places, read in order, hold the moved list; the outsiders' hold what they held. */
  lemma {:induction false} PlacedReads(all: seq<Node>, ids: set<string>, moved: seq<Node>)
    requires |Kept(all, ids, true)| <= |moved| && forall i :: 0 <= i < |moved| ==> moved[i].uuid in ids
    ensures var r := Placed(all, ids, moved);
      Kept(r, ids, true) == moved[..|Kept(all, ids, true)|] && Kept(r, ids, false) == Kept(all, ids, false)
  {
    if all != [] {
      var n := |all| - 1;
      PlacedReads(all[..n], ids, moved);
      assert Placed(all, ids, moved)[..n] == Placed(all[..n], ids, moved);
    }
  }

  /** A list's uuids are those inside and those outside together. */
  lemma {:induction false} KeptSplits(nodes: seq<Node>, ids: set<string>)
    ensures multiset(Uuids(nodes)) == multiset(Uuids(Kept(nodes, ids, true))) + multiset(Uuids(Kept(nodes, ids, false)))
  {
    if nodes != [] {
      var before := nodes[..|nodes| - 1];
      KeptSplits(before, ids);
      KeptStep(nodes, ids, true);
      KeptStep(nodes, ids, false);
      hide Kept, Uuids;
      assert Uuids(Kept(before, ids, true)) + [] == Uuids(Kept(before, ids, true));
      assert Uuids(Kept(before, ids, false)) + [] == Uuids(Kept(before, ids, false));
    }
  }

  /** The nodes without their sort order. */
  ghost function Unnumbered(nodes: seq<Node>): (r: seq<Node>)
    ensures |r| == |nodes| && forall i :: 0 <= i < |r| ==> r[i] == nodes[i].(sortOrder := 0)
  {
    seq(|nodes|, i requires 0 <= i < |nodes| => nodes[i].(sortOrder := 0))
  }

  lemma {:induction false} KeptIgnoresNumbers(nodes: seq<Node>, ids: set<string>, inside: bool)
    ensures Unnumbered(Kept(Renumbered(nodes), ids, inside)) == Unnumbered(Kept(nodes, ids, inside))
  {
    if nodes != [] {
      var n := |nodes| - 1;
      KeptIgnoresNumbers(nodes[..n], ids, inside);
      assert Renumbered(nodes)[..n] == Renumbered(nodes[..n]);
    }
  }

  /**
   The uuids are permuted exactly when those at the visible places are, with repetitions, the
   first ones of the moved list.
   */
  lemma PermutesExactly(all: seq<Node>, moved: seq<Node>)
    requires |Kept(all, Members(Uuids(moved)), true)| <= |moved|
    ensures var ids := Members(Uuids(moved)); var kept := Kept(all, ids, true);
      multiset(Uuids(Placed(all, ids, moved))) == multiset(Uuids(all)) <==>
      multiset(Uuids(kept)) == multiset(Uuids(moved[..|kept|]))
  {
    var ids := Members(Uuids(moved));
    forall i | 0 <= i < |moved| ensures moved[i].uuid in ids { assert Uuids(moved)[i] in ids; }
    hide Kept, Placed, Uuids, Members;
    PlacedReads(all, ids, moved);
    KeptSplits(all, ids);
    KeptSplits(Placed(all, ids, moved), ids);
    CancelMultiset(multiset(Uuids(Kept(Placed(all, ids, moved), ids, true))), multiset(Uuids(Kept(all, ids, true))),
                   multiset(Uuids(Kept(all, ids, false))));
  }

  lemma CancelMultiset(a: multiset<string>, b: multiset<string>, c: multiset<string>)
    ensures a + c == b + c <==> a == b
  {
    if a + c == b + c {
      forall x ensures a[x] == b[x] { assert (a + c)[x] == (b + c)[x]; }
    }
  }

  /**
   When both ids are visible and the visible list is part of the full one: every place holds a
   node, the result is a permutation of all nodes, hidden nodes keep their index, the visible
   ones read in order are the moved visible list, and the sort order is 1, 2, and so on.
   */
  lemma ReorderingIsLocal(all: seq<Node>, visible: seq<Node>, from: nat, to: nat) returns (r: seq<Node>)
    requires PartOf(visible, all) && from < |visible| && to < |visible|
    ensures var moved := Moved(visible, from, to);
      Numbered(Slots(all, Members(Uuids(moved)), moved)) == AsSlots(r)
    ensures |r| == |all| && multiset(Uuids(r)) == multiset(Uuids(all))
    ensures forall i :: 0 <= i < |r| ==> r[i].sortOrder == i + 1
    ensures var ids := Members(Uuids(visible));
      && (forall i :: 0 <= i < |all| && all[i].uuid !in ids ==> r[i] == all[i].(sortOrder := i + 1))
      && Unnumbered(Kept(r, ids, true)) == Unnumbered(Moved(visible, from, to))
  {
    hide Moved, Kept, Placed, Slots, NoRepeats;
    var moved, ids := Moved(visible, from, to), Members(Uuids(visible));
    MovedIsPart(all, visible, from, to);
    PlacesMatch(all, moved);
    var placed := Placed(all, ids, moved);
    r := Renumbered(placed);
    SlotsAreFull(all, ids, moved);
    PermutesExactly(all, moved);
    assert moved[..|moved|] == moved;
    assert Uuids(r) == Uuids(placed);
    VisibleInPlace(all, ids, moved);
  }

  lemma VisibleInPlace(all: seq<Node>, ids: set<string>, moved: seq<Node>)
    requires ids == Members(Uuids(moved)) && |Kept(all, ids, true)| == |moved|
    ensures var placed := Placed(all, ids, moved);
      && (forall i :: 0 <= i < |all| && all[i].uuid !in ids ==> placed[i] == all[i])
      && Unnumbered(Kept(Renumbered(placed), ids, true)) == Unnumbered(moved)
  {
    forall i | 0 <= i < |moved| ensures moved[i].uuid in ids { assert Uuids(moved)[i] in ids; }
    hide Kept, Placed, Uuids, Members;
    PlacedStays(all, ids, moved);
    PlacedReads(all, ids, moved);
    assert moved[..|moved|] == moved;
    KeptIgnoresNumbers(Placed(all, ids, moved), ids, true);
  }
}
