/**
  Saving and loading the items of a player (iologindata.cpp): a forest of nested containers is written
  breadth-first as rows (pid, sid, item) and rebuilt from the rows, highest sid first.
*/
module Inventory {
  import opened Common

  /** What a row stores about an item besides its place. */
  datatype Record = Record(itemtype: nat, count: nat, attributes: seq<Byte>)

  /** An item, or a container with the items in it. */
  datatype Tree = Single(rec: Record) | Box(rec: Record, kids: seq<Tree>)

  function ItemsOf(t: Tree): seq<Tree> {
    if t.Box? then t.kids else []
  }

  datatype Root = Root(pid: nat, tree: Tree)

  datatype Row = Row(pid: nat, sid: nat, rec: Record)

  /** The item types that can be created, and those whose items are containers. */
  datatype Types = Types(known: set<nat>, containers: set<nat>)

  /** Row k of a save has sid FIRST_SID + k. */
  const FIRST_SID := 101

  /** The three loops of loadPlayer that rebuild items: by depot id, by inventory slot, or into the inbox. */
  datatype Loader = Depot | Slots | Inbox

  const CONST_SLOT_FIRST := 1
  const CONST_SLOT_LAST := 11

  /** The pids that a loader takes for a place of its own instead of the sid of a container. */
  predicate IsRootPid(l: Loader, pid: nat) {
    if l.Slots? then CONST_SLOT_FIRST <= pid <= CONST_SLOT_LAST else pid < 100
  }

  ghost predicate WellTyped(types: Types, t: Tree) {
    t.rec.itemtype in types.known && Typed(types, t) &&
    (t.Box? ==> forall i :: 0 <= i < |t.kids| ==> WellTyped(types, t.kids[i]))
  }

  /** An item is a container exactly when its type says so. */
  predicate Typed(types: Types, t: Tree) {
    t.Box? <==> t.rec.itemtype in types.containers
  }

  ghost predicate AllWellTyped(types: Types, roots: seq<Root>) {
    forall k :: 0 <= k < |roots| ==> WellTyped(types, roots[k].tree)
  }

  // ---------------------------------------------------------------- what saving produces

  /** Row k carries the next sid and the item at the top of its subtree. */
  ghost predicate Numbered(rows: seq<Row>, node: seq<Tree>, k: nat)
    requires k < |rows| == |node|
  {
    rows[k].sid == FIRST_SID + k && rows[k].rec == node[k].rec
  }

  /** The first n of the given items have rows side by side from position `at` on, in order, under the given pid. */
  ghost predicate Written(rows: seq<Row>, node: seq<Tree>, items: seq<Tree>, pid: nat, at: nat, n: nat) {
    at + n <= |rows| == |node| && n <= |items| &&
    forall j :: at <= j < at + n ==> rows[j].pid == pid && node[j] == items[j - at]
  }

  /** The children of row k lie side by side from position `at` on and name k as their parent. */
  ghost predicate ChildrenAt(rows: seq<Row>, node: seq<Tree>, k: nat, at: nat)
    requires k < |rows| == |node|
  {
    k < at && Written(rows, node, ItemsOf(node[k]), FIRST_SID + k, at, |ItemsOf(node[k])|)
  }

  /** Row j is one of the children of an earlier row. */
  ghost predicate HasParent(rows: seq<Row>, node: seq<Tree>, first: seq<nat>, j: nat)
    requires j < |rows| == |node| == |first|
  {
    FIRST_SID <= rows[j].pid < FIRST_SID + j &&
    var k := rows[j].pid - FIRST_SID;
    first[k] <= j < first[k] + |ItemsOf(node[k])|
  }

  /**
    The rows of a save, with the subtree that row k stands for in node[k] and the position of its first
    child row in first[k]: the roots come first, and every later row is a child of an earlier one.
   */
  ghost predicate Layout(roots: seq<Root>, rows: seq<Row>, node: seq<Tree>, first: seq<nat>) {
    && |roots| <= |rows| == |node| == |first|
    && (forall k :: 0 <= k < |rows| ==> Numbered(rows, node, k))
    && (forall k :: 0 <= k < |roots| ==> rows[k].pid == roots[k].pid && node[k] == roots[k].tree)
    && (forall k {:trigger ChildrenAt(rows, node, k, first[k])} ::
          0 <= k < |rows| ==> ChildrenAt(rows, node, k, first[k]))
    && (forall j :: |roots| <= j < |rows| ==> HasParent(rows, node, first, j))
  }

  /** The rows are a breadth-first layout of the forest. */
  ghost predicate Saves(roots: seq<Root>, rows: seq<Row>) {
    exists node, first :: Layout(roots, rows, node, first)
  }

  // ---------------------------------------------------------------- what loading produces

  /** The item tree of row s: a container holds the trees of the later rows that name it. */
  function TreeOf(l: Loader, types: Types, m: map<nat, Row>, s: nat, hi: nat): Tree
    requires s in m
    decreases hi - s, 0
  {
    if m[s].rec.itemtype in types.containers then
      Box(m[s].rec, if s < hi && !IsRootPid(l, s) then Forest(l, types, m, {s}, s + 1, hi) else [])
    else Single(m[s].rec)
  }

  /** The trees of the rows from lo up to hi whose pid is in `pids`, by ascending sid. */
  function Forest(l: Loader, types: Types, m: map<nat, Row>, pids: set<nat>, lo: nat, hi: nat): seq<Tree>
    decreases hi - lo, 1
  {
    if lo >= hi then []
    else
      (if lo in m && m[lo].pid in pids then [TreeOf(l, types, m, lo, hi)] else []) +
      Forest(l, types, m, pids, lo + 1, hi)
  }

  function RootPids(l: Loader): set<nat> {
    set pid: nat | 0 <= pid < 100 && IsRootPid(l, pid)
  }

  /** The pids whose rows end up at place p. */
  function PidsOf(l: Loader, p: nat): set<nat> {
    if l.Inbox? then (if p == 0 then RootPids(l) else {}) else if IsRootPid(l, p) then {p} else {}
  }

  /** A slot takes only the first item it is given, which is the last row. */
  function Taken<T>(l: Loader, all: seq<T>): seq<T> {
    if l.Slots? && all != [] then [all[|all| - 1]] else all
  }

  /** The contents of place p after loading. */
  function Loaded(l: Loader, types: Types, m: map<nat, Row>, p: nat, hi: nat): seq<Tree> {
    Taken(l, Forest(l, types, m, PidsOf(l, p), 0, hi))
  }

  /** The item map of a result set: the last row with a sid wins, rows of unknown type are skipped. */
  function MapOf(types: Types, rows: seq<Row>): map<nat, Row> {
    if rows == [] then map[]
    else
      var row := rows[|rows| - 1];
      var m := MapOf(types, rows[..|rows| - 1]);
      if row.rec.itemtype in types.known then m[row.sid := row] else m
  }

  // ---------------------------------------------------------------- round trip

  lemma MapOfContents(types: Types, rows: seq<Row>)
    requires forall i, j :: 0 <= i < j < |rows| ==> rows[i].sid != rows[j].sid
    requires forall i :: 0 <= i < |rows| ==> rows[i].rec.itemtype in types.known
    ensures forall i ::
              0 <= i < |rows| ==>
              rows[i].sid in MapOf(types, rows) && MapOf(types, rows)[rows[i].sid] == rows[i]
    ensures forall s :: s in MapOf(types, rows) ==> exists i :: 0 <= i < |rows| && rows[i].sid == s
  {
    if rows != [] {
      MapOfContents(types, rows[..|rows| - 1]);
    }
  }

  /** The trees `kids` are the trees of the rows from sid `at` on. */
  ghost predicate Return(l: Loader, types: Types, m: map<nat, Row>, hi: nat, kids: seq<Tree>, at: nat) {
    forall i :: 0 <= i < |kids| ==> ReturnsAs(l, types, m, hi, at, i, kids[i])
  }

  ghost predicate ReturnsAs(l: Loader, types: Types, m: map<nat, Row>, hi: nat, at: nat, i: nat, kid: Tree) {
    at + i in m && TreeOf(l, types, m, at + i, hi) == kid
  }

  /** When the rows that qualify lie side by side, their trees are found in order. */
  lemma {:induction false} ForestRange(
      l: Loader, types: Types, m: map<nat, Row>, pids: set<nat>, lo: nat, hi: nat, at: nat, kids: seq<Tree>)
    requires lo <= at && at + |kids| <= hi && Return(l, types, m, hi, kids, at)
    requires forall s :: lo <= s < hi ==> (s in m && m[s].pid in pids <==> at <= s < at + |kids|)
    ensures Forest(l, types, m, pids, lo, hi) == kids
    decreases hi - lo
  {
    if lo < hi {
      if lo == at && kids != [] {
        assert ReturnsAs(l, types, m, hi, at, 0, kids[0]);
        forall i | 0 <= i < |kids[1..]| ensures ReturnsAs(l, types, m, hi, at + 1, i, kids[1..][i]) {
          assert ReturnsAs(l, types, m, hi, at, i + 1, kids[i + 1]);
        }
        ForestRange(l, types, m, pids, lo + 1, hi, at + 1, kids[1..]);
        assert kids == [kids[0]] + kids[1..];
      } else {
        ForestRange(l, types, m, pids, lo + 1, hi, if lo == at then lo + 1 else at, kids);
      }
    }
  }

  /** The item map of a save: exactly its rows, each under its own sid. */
  ghost predicate MapsRows(m: map<nat, Row>, rows: seq<Row>) {
    (forall s :: s in m <==> FIRST_SID <= s < FIRST_SID + |rows|) &&
    forall k :: 0 <= k < |rows| ==> m[FIRST_SID + k] == rows[k]
  }

  /** The rows that name row k as their parent are exactly its children. */
  lemma KidsOfRow(roots: seq<Root>, rows: seq<Row>, node: seq<Tree>, first: seq<nat>, m: map<nat, Row>, k: nat)
    requires Layout(roots, rows, node, first) && MapsRows(m, rows) && k < |rows|
    requires forall j :: 0 <= j < |roots| ==> roots[j].pid < FIRST_SID
    ensures forall x :: FIRST_SID + k < x < FIRST_SID + |rows| ==>
      (x in m && m[x].pid in {FIRST_SID + k} <==>
      FIRST_SID + first[k] <= x < FIRST_SID + first[k] + |ItemsOf(node[k])|)
  {
    var s, n := FIRST_SID + k, |ItemsOf(node[k])|;
    assert ChildrenAt(rows, node, k, first[k]);
    forall x | s < x < FIRST_SID + |rows|
      ensures x in m && m[x].pid in {s} <==> FIRST_SID + first[k] <= x < FIRST_SID + first[k] + n
    {
      var j := x - FIRST_SID;
      assert m[FIRST_SID + j] == rows[j];
      if first[k] <= j < first[k] + n {
        assert rows[j].pid == s;
      } else if |roots| <= j {
        assert HasParent(rows, node, first, j);
      }
    }
  }

  /** Loading the rows of a save, with the items typed right and no pid of a root taken for a sid. */
  ghost predicate Saved(
      types: Types, roots: seq<Root>, rows: seq<Row>, node: seq<Tree>, first: seq<nat>, m: map<nat, Row>)
  {
    Layout(roots, rows, node, first) && MapsRows(m, rows) &&
    (forall j :: 0 <= j < |node| ==> Typed(types, node[j])) &&
    forall j :: 0 <= j < |roots| ==> roots[j].pid < FIRST_SID
  }

  lemma RowFacts(
      types: Types, roots: seq<Root>, rows: seq<Row>, node: seq<Tree>, first: seq<nat>, m: map<nat, Row>, k: nat)
    requires Saved(types, roots, rows, node, first, m) && k < |rows|
    ensures FIRST_SID + k in m && m[FIRST_SID + k].rec == node[k].rec && Typed(types, node[k])
  {
    assert Numbered(rows, node, k) && m[FIRST_SID + k] == rows[k];
  }

  lemma RowChildren(
      types: Types, roots: seq<Root>, rows: seq<Row>, node: seq<Tree>, first: seq<nat>, m: map<nat, Row>, k: nat)
    requires Saved(types, roots, rows, node, first, m) && k < |rows|
    ensures k < first[k] && first[k] + |ItemsOf(node[k])| <= |rows|
    ensures forall i :: 0 <= i < |ItemsOf(node[k])| ==> node[first[k] + i] == ItemsOf(node[k])[i]
  {
    assert ChildrenAt(rows, node, k, first[k]);
    forall i | 0 <= i < |ItemsOf(node[k])| ensures node[first[k] + i] == ItemsOf(node[k])[i] {
      var j := first[k] + i;
      assert node[j] == ItemsOf(node[k])[j - first[k]];
    }
  }

  lemma ForestOfRow(
      l: Loader, types: Types, roots: seq<Root>, rows: seq<Row>, node: seq<Tree>, first: seq<nat>, m: map<nat, Row>,
      k: nat)
    requires Saved(types, roots, rows, node, first, m) && k < |rows| && node[k].Box?
    requires Return(l, types, m, FIRST_SID + |rows|, node[k].kids, FIRST_SID + first[k])
    ensures Forest(l, types, m, {FIRST_SID + k}, FIRST_SID + k + 1, FIRST_SID + |rows|) == node[k].kids
  {
    RowChildren(types, roots, rows, node, first, m, k);
    KidsOfRow(roots, rows, node, first, m, k);
    ForestRange(l, types, m, {FIRST_SID + k}, FIRST_SID + k + 1, FIRST_SID + |rows|, FIRST_SID + first[k],
      node[k].kids);
  }

  /** The tree loaded for row k is the tree that was saved there. */
  lemma {:induction false} SubtreeReturns(
      l: Loader, types: Types, roots: seq<Root>, rows: seq<Row>, node: seq<Tree>, first: seq<nat>, m: map<nat, Row>,
      k: nat)
    requires Saved(types, roots, rows, node, first, m) && k < |node| == |rows|
    ensures FIRST_SID + k in m && TreeOf(l, types, m, FIRST_SID + k, FIRST_SID + |rows|) == node[k]
    decreases node[k], 1
  {
    RowFacts(types, roots, rows, node, first, m, k);
    if node[k].Box? {
      ChildrenReturn(l, types, roots, rows, node, first, m, k);
      ForestOfRow(l, types, roots, rows, node, first, m, k);
    }
  }

  lemma {:induction false} ChildrenReturn(
      l: Loader, types: Types, roots: seq<Root>, rows: seq<Row>, node: seq<Tree>, first: seq<nat>, m: map<nat, Row>,
      k: nat)
    requires Saved(types, roots, rows, node, first, m) && k < |node| == |rows| && node[k].Box?
    ensures |first| == |rows| && Return(l, types, m, FIRST_SID + |rows|, node[k].kids, FIRST_SID + first[k])
    decreases node[k], 0
  {
    RowChildren(types, roots, rows, node, first, m, k);
    var hi, kids, at := FIRST_SID + |rows|, node[k].kids, FIRST_SID + first[k];
    forall i | 0 <= i < |kids| ensures ReturnsAs(l, types, m, hi, at, i, kids[i]) {
      assert node[first[k] + i] == ItemsOf(node[k])[i];
      SubtreeReturns(l, types, roots, rows, node, first, m, first[k] + i);
    }
  }

  /** The trees that a save has put under the given pids, in order. */
  function TreesAt(roots: seq<Root>, pids: set<nat>): seq<Tree> {
    if roots == [] then []
    else (if roots[0].pid in pids then [roots[0].tree] else []) + TreesAt(roots[1..], pids)
  }

  lemma {:induction false} RootsReturn(
      l: Loader, types: Types, roots: seq<Root>, rows: seq<Row>, node: seq<Tree>, first: seq<nat>, m: map<nat, Row>,
      pids: set<nat>, k: nat)
    requires Saved(types, roots, rows, node, first, m) && k <= |roots|
    requires forall pid :: pid in pids ==> pid < FIRST_SID
    ensures Forest(l, types, m, pids, FIRST_SID + k, FIRST_SID + |rows|) == TreesAt(roots[k..], pids)
    decreases |roots| - k
  {
    var hi := FIRST_SID + |rows|;
    if k == |roots| {
      forall x | FIRST_SID + k <= x < hi ensures m[x].pid !in pids {
        assert HasParent(rows, node, first, x - FIRST_SID) && m[FIRST_SID + (x - FIRST_SID)] == rows[x - FIRST_SID];
      }
      ForestRange(l, types, m, pids, FIRST_SID + k, hi, hi, []);
    } else {
      RootsReturn(l, types, roots, rows, node, first, m, pids, k + 1);
      SubtreeReturns(l, types, roots, rows, node, first, m, k);
      assert m[FIRST_SID + k] == rows[k];
      assert roots[k..][1..] == roots[k + 1..];
    }
  }

  lemma {:induction false} ForestSkip(
      l: Loader, types: Types, m: map<nat, Row>, pids: set<nat>, lo: nat, mid: nat, hi: nat)
    requires lo <= mid <= hi
    requires forall s :: lo <= s < mid ==> !(s in m && m[s].pid in pids)
    ensures Forest(l, types, m, pids, lo, hi) == Forest(l, types, m, pids, mid, hi)
    decreases mid - lo
  {
    if lo < mid {
      ForestSkip(l, types, m, pids, lo + 1, mid, hi);
    }
  }

  lemma TreesAtOccupied(roots: seq<Root>, k: nat, pids: set<nat>)
    requires k < |roots| && roots[k].pid in pids
    ensures TreesAt(roots, pids) != []
  {
    if k > 0 {
      TreesAtOccupied(roots[1..], k - 1, pids);
    }
  }

  lemma TreesAtVacant(roots: seq<Root>, pids: set<nat>)
    requires forall k :: 0 <= k < |roots| ==> roots[k].pid !in pids
    ensures TreesAt(roots, pids) == []
  {
  }

  lemma {:induction false} TreesAtTwice(roots: seq<Root>, i: nat, j: nat, p: nat)
    requires i < j < |roots| && roots[i].pid == roots[j].pid == p
    ensures |TreesAt(roots, {p})| >= 2
  {
    if i == 0 {
      TreesAtOccupied(roots[1..], j - 1, {p});
    } else {
      TreesAtTwice(roots[1..], i - 1, j - 1, p);
    }
  }

  lemma {:induction false} TreesAtOnce(roots: seq<Root>, p: nat)
    requires forall i, j :: 0 <= i < j < |roots| ==> roots[i].pid != p || roots[j].pid != p
    ensures |TreesAt(roots, {p})| <= 1
  {
    if roots != [] {
      if roots[0].pid == p {
        TreesAtVacant(roots[1..], {p});
      } else {
        TreesAtOnce(roots[1..], p);
      }
    }
  }

  /** Every row stands for a well-typed tree, since a part of the input does. */
  lemma {:induction false} NodeWellTyped(
      types: Types, roots: seq<Root>, rows: seq<Row>, node: seq<Tree>, first: seq<nat>, k: nat)
    requires Layout(roots, rows, node, first) && AllWellTyped(types, roots) && k < |rows|
    ensures WellTyped(types, node[k])
  {
    if |roots| <= k {
      assert HasParent(rows, node, first, k);
      var parent := rows[k].pid - FIRST_SID;
      assert ChildrenAt(rows, node, parent, first[parent]);
      NodeWellTyped(types, roots, rows, node, first, parent);
      assert node[k] == ItemsOf(node[parent])[k - first[parent]];
    }
  }

  /** The result set of a query ORDER BY sid DESC. */
  function Descending(rows: seq<Row>): (r: seq<Row>)
    ensures |r| == |rows| && forall i :: 0 <= i < |r| ==> r[i] == rows[|rows| - 1 - i]
  {
    if rows == [] then [] else [rows[|rows| - 1]] + Descending(rows[..|rows| - 1])
  }

  lemma SavedRowsMap(types: Types, roots: seq<Root>, rows: seq<Row>, node: seq<Tree>, first: seq<nat>)
    requires Layout(roots, rows, node, first) && AllWellTyped(types, roots)
    ensures MapsRows(MapOf(types, Descending(rows)), rows) && forall k :: 0 <= k < |node| ==> Typed(types, node[k])
  {
    forall k | 0 <= k < |node| ensures Typed(types, node[k]) {
      NodeWellTyped(types, roots, rows, node, first, k);
    }
    var result := Descending(rows);
    forall i | 0 <= i < |rows|
      ensures result[i].sid == FIRST_SID + |rows| - 1 - i && result[i].rec.itemtype in types.known
    {
      assert Numbered(rows, node, |rows| - 1 - i);
      NodeWellTyped(types, roots, rows, node, first, |rows| - 1 - i);
    }
    MapOfContents(types, result);
    forall s ensures s in MapOf(types, result) <==> FIRST_SID <= s < FIRST_SID + |rows| {
      if FIRST_SID <= s < FIRST_SID + |rows| {
        assert result[FIRST_SID + |rows| - 1 - s].sid == s;
      }
    }
    forall k | 0 <= k < |rows| ensures MapOf(types, result)[FIRST_SID + k] == rows[k] {
      assert result[|rows| - 1 - k] == rows[k];
    }
  }

  /** Every place holds after loading what was saved from it. */
  ghost predicate RoundTrips(l: Loader, types: Types, roots: seq<Root>, rows: seq<Row>) {
    forall p: nat ::
      Loaded(l, types, MapOf(types, Descending(rows)), p, FIRST_SID + |rows|) == TreesAt(roots, {p})
  }

  /** What a caller of saveItems has to provide: known places, and in the inventory each slot once. */
  predicate Placeable(l: Loader, roots: seq<Root>) {
    && (forall k :: 0 <= k < |roots| ==> if l.Inbox? then roots[k].pid == 0 else IsRootPid(l, roots[k].pid))
    && (l.Slots? ==> forall i, j :: 0 <= i < j < |roots| ==> roots[i].pid != roots[j].pid)
  }

  lemma TreesAtSame(roots: seq<Root>, pids: set<nat>, pids': set<nat>)
    requires forall k :: 0 <= k < |roots| ==> (roots[k].pid in pids <==> roots[k].pid in pids')
    ensures TreesAt(roots, pids) == TreesAt(roots, pids')
  {
  }

  /** The rows with the given root pids come back as the trees saved under them. */
  lemma AllRootsReturn(
      l: Loader, types: Types, roots: seq<Root>, rows: seq<Row>, node: seq<Tree>, first: seq<nat>, m: map<nat, Row>,
      pids: set<nat>)
    requires Saved(types, roots, rows, node, first, m)
    requires forall pid :: pid in pids ==> pid < FIRST_SID
    ensures Forest(l, types, m, pids, 0, FIRST_SID + |rows|) == TreesAt(roots, pids)
  {
    assert roots[0..] == roots && FIRST_SID + 0 == FIRST_SID;
    RootsReturn(l, types, roots, rows, node, first, m, pids, 0);
    ForestSkip(l, types, m, pids, 0, FIRST_SID, FIRST_SID + |rows|);
  }

  lemma PlaceReturns(
      l: Loader, types: Types, roots: seq<Root>, rows: seq<Row>, node: seq<Tree>, first: seq<nat>, m: map<nat, Row>,
      p: nat)
    requires Saved(types, roots, rows, node, first, m) && Placeable(l, roots)
    ensures Loaded(l, types, m, p, FIRST_SID + |rows|) == TreesAt(roots, {p})
  {
    AllRootsReturn(l, types, roots, rows, node, first, m, PidsOf(l, p));
    TreesAtSame(roots, PidsOf(l, p), {p});
    if l.Slots? {
      TreesAtOnce(roots, p);
    }
  }

  /** Every place holds after loading as many trees as were saved from it. */
  ghost predicate KeepsNumbers(l: Loader, types: Types, roots: seq<Root>, rows: seq<Row>) {
    forall p: nat ::
      |Loaded(l, types, MapOf(types, Descending(rows)), p, FIRST_SID + |rows|)| == |TreesAt(roots, {p})|
  }

  /** If the roots are not placeable, some place even holds too few trees. */
  lemma NumbersNeedPlaces(l: Loader, types: Types, roots: seq<Root>, rows: seq<Row>)
    requires KeepsNumbers(l, types, roots, rows)
    ensures Placeable(l, roots)
  {
    var m, hi := MapOf(types, Descending(rows)), FIRST_SID + |rows|;
    forall k | 0 <= k < |roots| ensures if l.Inbox? then roots[k].pid == 0 else IsRootPid(l, roots[k].pid) {
      var p := roots[k].pid;
      TreesAtOccupied(roots, k, {p});
      assert |Loaded(l, types, m, p, hi)| == |TreesAt(roots, {p})|;
      if PidsOf(l, p) == {} {
        NoPids(l, types, m, 0, hi);
      }
    }
    forall i, j | 0 <= i < j < |roots| && l.Slots? ensures roots[i].pid != roots[j].pid {
      var p := roots[i].pid;
      assert |Loaded(l, types, m, p, hi)| == |TreesAt(roots, {p})|;
      if roots[j].pid == p {
        TreesAtTwice(roots, i, j, p);
      }
    }
  }

  /** Saving and loading are inverse exactly when the roots are placeable. */
  lemma RoundTripIff(l: Loader, types: Types, roots: seq<Root>, rows: seq<Row>, node: seq<Tree>, first: seq<nat>)
    requires Layout(roots, rows, node, first) && AllWellTyped(types, roots)
    ensures RoundTrips(l, types, roots, rows) <==> Placeable(l, roots)
  {
    var m, hi := MapOf(types, Descending(rows)), FIRST_SID + |rows|;
    if Placeable(l, roots) {
      SavedRowsMap(types, roots, rows, node, first);
      forall p: nat ensures Loaded(l, types, m, p, hi) == TreesAt(roots, {p}) {
        PlaceReturns(l, types, roots, rows, node, first, m, p);
      }
    }
    if RoundTrips(l, types, roots, rows) {
      forall p: nat ensures |Loaded(l, types, m, p, hi)| == |TreesAt(roots, {p})| {
        assert Loaded(l, types, m, p, hi) == TreesAt(roots, {p});
      }
      NumbersNeedPlaces(l, types, roots, rows);
    }
  }

  /** For every forest and whatever rows it is saved as, loading gives it back exactly when its roots are placeable. */
  lemma SavedReturnsIff(l: Loader, types: Types, roots: seq<Root>, rows: seq<Row>)
    requires Saves(roots, rows) && AllWellTyped(types, roots)
    ensures RoundTrips(l, types, roots, rows) <==> Placeable(l, roots)
  {
    var node, first :| Layout(roots, rows, node, first);
    RoundTripIff(l, types, roots, rows, node, first);
  }

  lemma NoPids(l: Loader, types: Types, m: map<nat, Row>, lo: nat, hi: nat)
    ensures Forest(l, types, m, {}, lo, hi) == []
    decreases hi - lo
  {
  }

  // ---------------------------------------------------------------- the code: saving

  function Size(t: Tree): nat
    decreases t
  {
    if t.Box? then 1 + SizeAll(t.kids) else 1
  }

  function SizeAll(ts: seq<Tree>): nat
    decreases ts
  {
    if ts == [] then 0 else Size(ts[0]) + SizeAll(ts[1..])
  }

  datatype ContainerBlock = ContainerBlock(container: Tree, id: nat)

  function QueueSize(queue: seq<ContainerBlock>): nat {
    if queue == [] then 0 else Size(queue[0].container) + QueueSize(queue[1..])
  }

  lemma QueueSizePush(queue: seq<ContainerBlock>, cb: ContainerBlock)
    ensures QueueSize(queue + [cb]) == QueueSize(queue) + Size(cb.container)
  {
    if queue != [] {
      assert (queue + [cb])[1..] == queue[1..] + [cb];
    }
  }

  /** Row k waits in the queue for its children to be written. */
  ghost predicate Queued(queue: seq<ContainerBlock>, k: int) {
    exists q :: 0 <= q < |queue| && queue[q].id == FIRST_SID + k
  }

  ghost predicate EntryOk(rows: seq<Row>, node: seq<Tree>, cb: ContainerBlock) {
    |node| == |rows| && FIRST_SID <= cb.id < FIRST_SID + |rows| && cb.container == node[cb.id - FIRST_SID]
  }

  /** The queue names rows that are there, each at most once, with their subtrees. */
  ghost predicate QueueOk(rows: seq<Row>, node: seq<Tree>, queue: seq<ContainerBlock>) {
    |node| == |rows| &&
    (forall q :: 0 <= q < |queue| ==> EntryOk(rows, node, queue[q])) &&
    (forall q, q' :: 0 <= q < q' < |queue| ==> queue[q].id != queue[q'].id)
  }

  ghost predicate RootsDone(roots: seq<Root>, n: nat, rows: seq<Row>, node: seq<Tree>) {
    n <= |roots| && n <= |rows| == |node| &&
    (forall k :: 0 <= k < |rows| ==> Numbered(rows, node, k)) &&
    forall k :: 0 <= k < n ==> rows[k].pid == roots[k].pid && node[k] == roots[k].tree
  }

  ghost predicate ExpandedAt(
      rows: seq<Row>, node: seq<Tree>, first: seq<nat>, queue: seq<ContainerBlock>, open: int, k: nat)
    requires k < |rows| == |node| == |first|
  {
    k == open || Queued(queue, k) || ChildrenAt(rows, node, k, first[k])
  }

  ghost predicate ParentedAt(rows: seq<Row>, node: seq<Tree>, first: seq<nat>, queue: seq<ContainerBlock>, j: nat)
    requires j < |rows| == |node| == |first|
  {
    HasParent(rows, node, first, j) && !Queued(queue, rows[j].pid - FIRST_SID)
  }

  /** Every row but `open`, whose children are being written, waits in the queue or has all its children. */
  ghost predicate Expanded(rows: seq<Row>, node: seq<Tree>, first: seq<nat>, queue: seq<ContainerBlock>, open: int) {
    QueueOk(rows, node, queue) && |first| == |rows| && (open >= 0 ==> !Queued(queue, open)) &&
    forall k :: 0 <= k < |rows| ==> ExpandedAt(rows, node, first, queue, open, k)
  }

  ghost predicate Parented(n: nat, rows: seq<Row>, node: seq<Tree>, first: seq<nat>, queue: seq<ContainerBlock>) {
    |first| == |rows| == |node| &&
    forall j :: n <= j < |rows| ==> ParentedAt(rows, node, first, queue, j)
  }

  /** The state of a save after n roots. */
  ghost predicate Built(
      roots: seq<Root>, n: nat, rows: seq<Row>, node: seq<Tree>, first: seq<nat>, queue: seq<ContainerBlock>, open: int)
  {
    RootsDone(roots, n, rows, node) && Expanded(rows, node, first, queue, open) && Parented(n, rows, node, first, queue)
  }

  lemma ChildrenAtAppend(rows: seq<Row>, node: seq<Tree>, k: nat, at: nat, row: Row, t: Tree)
    requires k < |rows| == |node| && ChildrenAt(rows, node, k, at)
    ensures ChildrenAt(rows + [row], node + [t], k, at)
  {
    assert Written(rows + [row], node + [t], ItemsOf(node[k]), FIRST_SID + k, at, |ItemsOf(node[k])|);
  }

  lemma HasParentAppend(rows: seq<Row>, node: seq<Tree>, first: seq<nat>, j: nat, row: Row, t: Tree, at: nat)
    requires j < |rows| == |node| == |first| && HasParent(rows, node, first, j)
    ensures HasParent(rows + [row], node + [t], first + [at], j)
  {
  }

  /** How the queue may grow when row k has been written for item t. */
  ghost predicate Enqueued(queue: seq<ContainerBlock>, queue': seq<ContainerBlock>, t: Tree, k: nat) {
    queue' == if t.Box? then queue + [ContainerBlock(t, FIRST_SID + k)] else queue
  }

  lemma QueueOkAppend(
      rows: seq<Row>, node: seq<Tree>, queue: seq<ContainerBlock>, queue': seq<ContainerBlock>, row: Row, t: Tree)
    requires QueueOk(rows, node, queue) && Enqueued(queue, queue', t, |rows|)
    ensures QueueOk(rows + [row], node + [t], queue')
  {
    forall q | 0 <= q < |queue'| ensures EntryOk(rows + [row], node + [t], queue'[q]) {
      if q < |queue| {
        assert EntryOk(rows, node, queue[q]);
      }
    }
    forall q, q' | 0 <= q < q' < |queue'| ensures queue'[q].id != queue'[q'].id {
      assert EntryOk(rows, node, queue[q]);
    }
  }

  lemma QueuedAppend(rows: seq<Row>, node: seq<Tree>, queue: seq<ContainerBlock>, queue': seq<ContainerBlock>, t: Tree)
    requires QueueOk(rows, node, queue) && Enqueued(queue, queue', t, |rows|)
    ensures forall k: int :: k < |rows| ==> (Queued(queue', k) <==> Queued(queue, k))
    ensures t.Box? ==> Queued(queue', |rows|)
  {
    forall k: int | k < |rows| ensures Queued(queue', k) <==> Queued(queue, k) {
      if Queued(queue, k) {
        var q :| 0 <= q < |queue| && queue[q].id == FIRST_SID + k;
        assert queue'[q].id == FIRST_SID + k;
      }
      if Queued(queue', k) {
        var q :| 0 <= q < |queue'| && queue'[q].id == FIRST_SID + k;
        assert queue[q].id == FIRST_SID + k;
      }
    }
    if t.Box? {
      assert queue'[|queue|].id == FIRST_SID + |rows|;
    }
  }

  lemma ExpandedAtAppend(
      rows: seq<Row>, node: seq<Tree>, first: seq<nat>, queue: seq<ContainerBlock>, queue': seq<ContainerBlock>,
      open: int, k: nat,
      row: Row, t: Tree, at: nat)
    requires k < |rows| == |node| == |first| && ExpandedAt(rows, node, first, queue, open, k)
    requires Queued(queue, k) ==> Queued(queue', k)
    ensures ExpandedAt(rows + [row], node + [t], first + [at], queue', open, k)
  {
    if ChildrenAt(rows, node, k, first[k]) {
      ChildrenAtAppend(rows, node, k, first[k], row, t);
    }
  }

  lemma ExpandedAppend(
      rows: seq<Row>, node: seq<Tree>, first: seq<nat>, queue: seq<ContainerBlock>, queue': seq<ContainerBlock>,
      open: int, row: Row, t: Tree)
    requires Expanded(rows, node, first, queue, open) && Enqueued(queue, queue', t, |rows|) && open < |rows|
    ensures Expanded(rows + [row], node + [t], first + [|rows| + 1], queue', open)
  {
    QueueOkAppend(rows, node, queue, queue', row, t);
    QueuedAppend(rows, node, queue, queue', t);
    var rows', node', first' := rows + [row], node + [t], first + [|rows| + 1];
    forall k | 0 <= k < |rows'| ensures ExpandedAt(rows', node', first', queue', open, k) {
      if k < |rows| {
        ExpandedAtAppend(rows, node, first, queue, queue', open, k, row, t, |rows| + 1);
      }
    }
  }

  lemma ParentedAtAppend(
      rows: seq<Row>, node: seq<Tree>, first: seq<nat>, queue: seq<ContainerBlock>, queue': seq<ContainerBlock>, j: nat,
      row: Row, t: Tree, at: nat)
    requires j < |rows| == |node| == |first| && ParentedAt(rows, node, first, queue, j)
    requires Queued(queue', rows[j].pid - FIRST_SID) ==> Queued(queue, rows[j].pid - FIRST_SID)
    ensures ParentedAt(rows + [row], node + [t], first + [at], queue', j)
  {
    HasParentAppend(rows, node, first, j, row, t, at);
  }

  lemma ParentedAppend(
      n: nat, rows: seq<Row>, node: seq<Tree>, first: seq<nat>, queue: seq<ContainerBlock>,
      queue': seq<ContainerBlock>, row: Row, t: Tree)
    requires QueueOk(rows, node, queue) && Parented(n, rows, node, first, queue) && Enqueued(queue, queue', t, |rows|)
    requires HasParent(rows + [row], node + [t], first + [|rows| + 1], |rows|) && !Queued(queue, row.pid - FIRST_SID)
    ensures Parented(n, rows + [row], node + [t], first + [|rows| + 1], queue')
  {
    QueuedAppend(rows, node, queue, queue', t);
    var rows', node', first' := rows + [row], node + [t], first + [|rows| + 1];
    forall j | n <= j < |rows'| ensures ParentedAt(rows', node', first', queue', j) {
      if j < |rows| {
        assert ParentedAt(rows, node, first, queue, j);
        ParentedAtAppend(rows, node, first, queue, queue', j, row, t, |rows| + 1);
      }
    }
  }

  lemma RootsDoneAppend(roots: seq<Root>, n: nat, rows: seq<Row>, node: seq<Tree>, row: Row, t: Tree)
    requires RootsDone(roots, n, rows, node) && row.sid == FIRST_SID + |rows| && row.rec == t.rec
    ensures RootsDone(roots, n, rows + [row], node + [t])
  {
    forall k | 0 <= k < |rows| + 1 ensures Numbered(rows + [row], node + [t], k) {
      if k < |rows| {
        assert Numbered(rows, node, k);
      }
    }
  }

  /** Writing the row of a root. */
  lemma BuiltRoot(
      roots: seq<Root>, rows: seq<Row>, node: seq<Tree>, first: seq<nat>, queue: seq<ContainerBlock>,
      queue': seq<ContainerBlock>)
    requires Built(roots, |rows|, rows, node, first, queue, -1) && |rows| < |roots|
    requires Enqueued(queue, queue', roots[|rows|].tree, |rows|)
    ensures var Root(pid, t) := roots[|rows|];
      Built(roots, |rows| + 1, rows + [Row(pid, FIRST_SID + |rows|, t.rec)], node + [t], first + [|rows| + 1], queue',
        -1)
  {
    var Root(pid, t) := roots[|rows|];
    var row := Row(pid, FIRST_SID + |rows|, t.rec);
    RootsDoneAppend(roots, |rows|, rows, node, row, t);
    ExpandedAppend(rows, node, first, queue, queue', -1, row, t);
  }

  lemma NewChild(rows: seq<Row>, node: seq<Tree>, first: seq<nat>, open: nat, row: Row, t: Tree)
    requires open < |rows| == |node| == |first| && row.pid == FIRST_SID + open
    requires first[open] <= |rows| < first[open] + |ItemsOf(node[open])|
    ensures HasParent(rows + [row], node + [t], first + [|rows| + 1], |rows|)
  {
  }

  /** Writing the row of a child of row `open`. */
  lemma BuiltChild(
      roots: seq<Root>, rows: seq<Row>, node: seq<Tree>, first: seq<nat>, queue: seq<ContainerBlock>,
      queue': seq<ContainerBlock>,
      open: nat, t: Tree)
    requires Built(roots, |roots|, rows, node, first, queue, open) && Enqueued(queue, queue', t, |rows|)
    requires open < |rows| && first[open] <= |rows| < first[open] + |ItemsOf(node[open])|
    ensures Built(
      roots, |roots|, rows + [Row(FIRST_SID + open, FIRST_SID + |rows|, t.rec)], node + [t], first + [|rows| + 1],
        queue', open)
  {
    var row := Row(FIRST_SID + open, FIRST_SID + |rows|, t.rec);
    RootsDoneAppend(roots, |roots|, rows, node, row, t);
    ExpandedAppend(rows, node, first, queue, queue', open, row, t);
    NewChild(rows, node, first, open, row, t);
    ParentedAppend(|roots|, rows, node, first, queue, queue', row, t);
  }

  lemma QueuedPop(rows: seq<Row>, node: seq<Tree>, queue: seq<ContainerBlock>)
    requires QueueOk(rows, node, queue) && queue != []
    ensures QueueOk(rows, node, queue[1..])
    ensures Queued(queue, queue[0].id - FIRST_SID) && !Queued(queue[1..], queue[0].id - FIRST_SID)
    ensures forall k: int :: k != queue[0].id - FIRST_SID ==> (Queued(queue[1..], k) <==> Queued(queue, k))
  {
    forall k: int | k != queue[0].id - FIRST_SID && Queued(queue, k) ensures Queued(queue[1..], k) {
      var q :| 0 <= q < |queue| && queue[q].id == FIRST_SID + k;
      assert queue[1..][q - 1].id == FIRST_SID + k;
    }
    forall k: int | Queued(queue[1..], k) ensures Queued(queue, k) && k != queue[0].id - FIRST_SID {
      var q :| 0 <= q < |queue[1..]| && queue[1..][q].id == FIRST_SID + k;
      assert queue[q + 1].id == FIRST_SID + k;
    }
    assert queue[0].id == FIRST_SID + (queue[0].id - FIRST_SID);
  }

  lemma ParentedPop(n: nat, rows: seq<Row>, node: seq<Tree>, first: seq<nat>, queue: seq<ContainerBlock>)
    requires QueueOk(rows, node, queue) && queue != [] && Parented(n, rows, node, first, queue)
    ensures Parented(n, rows, node, first[queue[0].id - FIRST_SID := |rows|], queue[1..])
  {
    QueuedPop(rows, node, queue);
    var first' := first[queue[0].id - FIRST_SID := |rows|];
    forall j | n <= j < |rows| ensures ParentedAt(rows, node, first', queue[1..], j) {
      assert ParentedAt(rows, node, first, queue, j);
    }
  }

  lemma ExpandedPop(rows: seq<Row>, node: seq<Tree>, first: seq<nat>, queue: seq<ContainerBlock>)
    requires Expanded(rows, node, first, queue, -1) && queue != []
    ensures var k := queue[0].id - FIRST_SID; Expanded(rows, node, first[k := |rows|], queue[1..], k)
  {
    QueuedPop(rows, node, queue);
    var k := queue[0].id - FIRST_SID;
    var first' := first[k := |rows|];
    forall k' | 0 <= k' < |rows| ensures ExpandedAt(rows, node, first', queue[1..], k, k') {
      assert ExpandedAt(rows, node, first, queue, -1, k');
    }
  }

  /** Taking the next container out of the queue: from here on its children are being written. */
  lemma BuiltPop(roots: seq<Root>, rows: seq<Row>, node: seq<Tree>, first: seq<nat>, queue: seq<ContainerBlock>)
    requires Built(roots, |roots|, rows, node, first, queue, -1) && queue != []
    ensures Writing(
      roots, rows, node, first[queue[0].id - FIRST_SID := |rows|], queue[1..], queue[0].id - FIRST_SID, |rows|, 0)
  {
    ParentedPop(|roots|, rows, node, first, queue);
    ExpandedPop(rows, node, first, queue);
  }

  /** The first i children of row k have been written, from row `start` on. */
  ghost predicate Writing(
      roots: seq<Root>, rows: seq<Row>, node: seq<Tree>, first: seq<nat>, queue: seq<ContainerBlock>, k: nat,
      start: nat, i: nat)
  {
    && Built(roots, |roots|, rows, node, first, queue, k) && |rows| == start + i && k < start && first[k] == start
    && Written(rows, node, ItemsOf(node[k]), FIRST_SID + k, start, i)
  }

  lemma WrittenStep(rows: seq<Row>, node: seq<Tree>, items: seq<Tree>, pid: nat, at: nat, n: nat, row: Row, t: Tree)
    requires Written(rows, node, items, pid, at, n) && |rows| == at + n
    requires n < |items| && row.pid == pid && t == items[n]
    ensures Written(rows + [row], node + [t], items, pid, at, n + 1)
  {
  }

  lemma WritingStep(
      roots: seq<Root>, rows: seq<Row>, node: seq<Tree>, first: seq<nat>, queue: seq<ContainerBlock>,
      queue': seq<ContainerBlock>,
      k: nat, start: nat, i: nat)
    requires Writing(roots, rows, node, first, queue, k, start, i) && i < |ItemsOf(node[k])|
    requires Enqueued(queue, queue', ItemsOf(node[k])[i], |rows|)
    ensures var t := ItemsOf(node[k])[i];
      Writing(roots, rows + [Row(FIRST_SID + k, FIRST_SID + |rows|, t.rec)], node + [t], first + [|rows| + 1], queue',
        k, start, i + 1)
  {
    var t := ItemsOf(node[k])[i];
    BuiltChild(roots, rows, node, first, queue, queue', k, t);
    WrittenStep(rows, node, ItemsOf(node[k]), FIRST_SID + k, start, i, Row(FIRST_SID + k, FIRST_SID + |rows|, t.rec),
      t);
  }

  lemma WritingDone(
      roots: seq<Root>, rows: seq<Row>, node: seq<Tree>, first: seq<nat>, queue: seq<ContainerBlock>, k: nat,
      start: nat)
    requires k < |node| && Writing(roots, rows, node, first, queue, k, start, |ItemsOf(node[k])|)
    ensures Built(roots, |roots|, rows, node, first, queue, -1)
  {
    assert ChildrenAt(rows, node, k, first[k]);
    forall k' | 0 <= k' < |rows| ensures ExpandedAt(rows, node, first, queue, -1, k') {
      assert ExpandedAt(rows, node, first, queue, k, k');
    }
  }

  lemma BuiltAll(roots: seq<Root>, rows: seq<Row>, node: seq<Tree>, first: seq<nat>)
    requires Built(roots, |roots|, rows, node, first, [], -1)
    ensures Layout(roots, rows, node, first)
  {
    forall k | 0 <= k < |rows| ensures ChildrenAt(rows, node, k, first[k]) {
      assert ExpandedAt(rows, node, first, [], -1, k);
    }
    forall j | |roots| <= j < |rows| ensures HasParent(rows, node, first, j) {
      assert ParentedAt(rows, node, first, [], j);
    }
  }

  /** The inner loop of saveItems: one row for each item of the container taken from the queue. */
  method SaveChildren(
      ghost roots: seq<Root>, rows0: seq<Row>, ghost node0: seq<Tree>, ghost first0: seq<nat>,
      queue0: seq<ContainerBlock>,
      cb: ContainerBlock)
    returns (rows: seq<Row>, ghost node: seq<Tree>, ghost first: seq<nat>, queue: seq<ContainerBlock>)
    requires FIRST_SID <= cb.id < FIRST_SID + |rows0|
    requires Writing(roots, rows0, node0, first0, queue0, cb.id - FIRST_SID, |rows0|, 0)
             && node0[cb.id - FIRST_SID] == cb.container
    ensures Built(roots, |roots|, rows, node, first, queue, -1)
    ensures QueueSize(queue) < QueueSize(queue0) + Size(cb.container)
  {
    var items, parentId := ItemsOf(cb.container), cb.id;
    ghost var k, start := parentId - FIRST_SID, |rows0|;
    var runningId := 100 + |rows0|;
    rows, node, first, queue := rows0, node0, first0, queue0;
    for i := 0 to |items|
      invariant runningId == 100 + |rows|
      invariant Writing(roots, rows, node, first, queue, k, start, i) && node[k] == cb.container
      invariant QueueSize(queue) + SizeAll(items[i..]) < QueueSize(queue0) + Size(cb.container)
    {
      var item := items[i];
      runningId := runningId + 1;
      ghost var queue1 := queue;
      if item.Box? {
        queue := queue + [ContainerBlock(item, runningId)];
        QueueSizePush(queue1, ContainerBlock(item, runningId));
      }
      WritingStep(roots, rows, node, first, queue1, queue, k, start, i);
      rows, node, first := rows + [Row(parentId, runningId, item.rec)], node + [item], first + [|rows| + 1];
      assert items[i..][1..] == items[i + 1..];
    }
    WritingDone(roots, rows, node, first, queue, k, start);
  }

  lemma Sids(roots: seq<Root>, rows: seq<Row>, node: seq<Tree>, first: seq<nat>)
    requires Layout(roots, rows, node, first)
    ensures forall k :: 0 <= k < |rows| ==> rows[k].sid == FIRST_SID + k
  {
    forall k | 0 <= k < |rows| ensures rows[k].sid == FIRST_SID + k {
      assert Numbered(rows, node, k);
    }
  }

  method SaveItems(roots: seq<Root>) returns (rows: seq<Row>, ghost node: seq<Tree>, ghost first: seq<nat>)
    ensures Layout(roots, rows, node, first)
    ensures Saves(roots, rows) && forall k :: 0 <= k < |rows| ==> rows[k].sid == FIRST_SID + k
  {
    var runningId := 100;
    var queue: seq<ContainerBlock> := [];
    rows, node, first := [], [], [];
    for i := 0 to |roots|
      invariant runningId == 100 + |rows| && i == |rows|
      invariant Built(roots, i, rows, node, first, queue, -1)
    {
      var pid, item := roots[i].pid, roots[i].tree;
      runningId := runningId + 1;
      ghost var queue0 := queue;
      if item.Box? {
        queue := queue + [ContainerBlock(item, runningId)];
      }
      BuiltRoot(roots, rows, node, first, queue0, queue);
      rows, node, first := rows + [Row(pid, runningId, item.rec)], node + [item], first + [|rows| + 1];
    }
    while queue != []
      invariant Built(roots, |roots|, rows, node, first, queue, -1)
      decreases QueueSize(queue)
    {
      var cb := queue[0];
      BuiltPop(roots, rows, node, first, queue);
      rows, node, first, queue := SaveChildren(roots, rows, node, first[cb.id - FIRST_SID := |rows|], queue[1..], cb);
    }
    BuiltAll(roots, rows, node, first);
    Sids(roots, rows, node, first);
  }

  // ---------------------------------------------------------------- the code: loading

  class Item {
    const rec: Record
    const isContainer: bool
    var itemlist: seq<Item>

    constructor (rec: Record, isContainer: bool)
      ensures this.rec == rec && this.isContainer == isContainer && itemlist == []
    {
      this.rec := rec;
      this.isContainer := isContainer;
      itemlist := [];
    }

    /** Container::internalAddThing. */
    method InternalAddThing(item: Item)
      modifies this
      ensures itemlist == [item] + old(itemlist)
    {
      itemlist := [item] + itemlist;
    }
  }

  datatype Entry = Entry(item: Item, pid: nat)

  /** The item map holds one object of its own for every row of m. */
  ghost predicate Mirrors(types: Types, itemMap: map<nat, Entry>, m: map<nat, Row>) {
    itemMap.Keys == m.Keys &&
    (forall s :: s in m ==>
      itemMap[s].pid == m[s].pid && itemMap[s].item.rec == m[s].rec &&
      itemMap[s].item.isContainer == (m[s].rec.itemtype in types.containers)) &&
    forall s, s' :: s in m && s' in m && s != s' ==> itemMap[s].item != itemMap[s'].item
  }

  method LoadItems(types: Types, result: seq<Row>) returns (itemMap: map<nat, Entry>)
    ensures Mirrors(types, itemMap, MapOf(types, result))
    ensures forall s :: s in itemMap ==> fresh(itemMap[s].item) && itemMap[s].item.itemlist == []
  {
    itemMap := map[];
    for i := 0 to |result|
      invariant Mirrors(types, itemMap, MapOf(types, result[..i]))
      invariant forall s :: s in itemMap ==> fresh(itemMap[s].item) && itemMap[s].item.itemlist == []
    {
      var row := result[i];
      assert result[..i + 1][..i] == result[..i];
      if row.rec.itemtype in types.known {
        var item := new Item(row.rec, row.rec.itemtype in types.containers);
        itemMap := itemMap[row.sid := Entry(item, row.pid)];
      }
    }
    assert result[..|result|] == result;
  }

  /** The sids from lo up to hi whose pid is in `pids`, in ascending order. */
  function Kids(m: map<nat, Row>, pids: set<nat>, lo: nat, hi: nat): (sids: seq<nat>)
    ensures forall i :: 0 <= i < |sids| ==> sids[i] in m
    decreases hi - lo
  {
    if lo >= hi then []
    else (if lo in m && m[lo].pid in pids then [lo] else []) + Kids(m, pids, lo + 1, hi)
  }

  lemma {:induction false} KidsSkip(m: map<nat, Row>, pids: set<nat>, lo: nat, mid: nat, hi: nat)
    requires lo <= mid <= hi
    requires forall s :: lo <= s < mid ==> !(s in m && m[s].pid in pids)
    ensures Kids(m, pids, lo, hi) == Kids(m, pids, mid, hi)
    decreases mid - lo
  {
    if lo < mid {
      KidsSkip(m, pids, lo + 1, mid, hi);
    }
  }

  /** The rows with a sid of at least lo that end up at place p. */
  function PlacedAt(l: Loader, m: map<nat, Row>, p: nat, lo: nat, hi: nat): (sids: seq<nat>)
    ensures forall i :: 0 <= i < |sids| ==> sids[i] in m
  {
    Taken(l, Kids(m, PidsOf(l, p), lo, hi))
  }

  function Items(itemMap: map<nat, Entry>, sids: seq<nat>): (items: seq<Item>)
    requires forall i :: 0 <= i < |sids| ==> sids[i] in itemMap
    ensures |items| == |sids| && forall i :: 0 <= i < |sids| ==> items[i] == itemMap[sids[i]].item
  {
    if sids == [] then [] else [itemMap[sids[0]].item] + Items(itemMap, sids[1..])
  }

  /** What hangs below item s once the rows from sid lo on have been attached. */
  function Attached(l: Loader, types: Types, m: map<nat, Row>, s: nat, lo: nat, hi: nat): (sids: seq<nat>)
    requires s in m
    ensures forall i :: 0 <= i < |sids| ==> sids[i] in m
  {
    if !IsRootPid(l, s) && m[s].rec.itemtype in types.containers then Kids(m, {s}, lo, hi) else []
  }

  ghost predicate AttachedOk(
      l: Loader, types: Types, itemMap: map<nat, Entry>, m: map<nat, Row>, s: nat, lo: nat, hi: nat)
    requires itemMap.Keys == m.Keys && s in m
    reads itemMap[s].item
  {
    itemMap[s].item.itemlist == Items(itemMap, Attached(l, types, m, s, lo, hi))
  }

  ghost predicate AllAttached(l: Loader, types: Types, itemMap: map<nat, Entry>, m: map<nat, Row>, lo: nat, hi: nat)
    reads set s | s in itemMap :: itemMap[s].item
  {
    Mirrors(types, itemMap, m) && forall s :: s in m ==> AttachedOk(l, types, itemMap, m, s, lo, hi)
  }

  ghost predicate PlaceOk(
      l: Loader, itemMap: map<nat, Entry>, m: map<nat, Row>, places: map<nat, seq<Item>>, lo: nat, hi: nat, p: nat)
    requires itemMap.Keys == m.Keys
  {
    (if p in places then places[p] else []) == Items(itemMap, PlacedAt(l, m, p, lo, hi))
  }

  /** The places filled so far. */
  ghost predicate AllPlaced(
      l: Loader, itemMap: map<nat, Entry>, m: map<nat, Row>, places: map<nat, seq<Item>>, lo: nat, hi: nat)
    requires itemMap.Keys == m.Keys
  {
    forall p: nat :: PlaceOk(l, itemMap, m, places, lo, hi, p)
  }

  ghost predicate NonEmpty(places: map<nat, seq<Item>>) {
    forall p :: p in places ==> places[p] != []
  }

  /** A depot chest and the inbox take the item at the front, a slot only when it is still free. */
  function WithPlace(l: Loader, places: map<nat, seq<Item>>, pid: nat, item: Item): map<nat, seq<Item>> {
    match l
    case Depot => places[pid := [item] + if pid in places then places[pid] else []]
    case Slots => if pid in places then places else places[pid := [item]]
    case Inbox => places[0 := [item] + if 0 in places then places[0] else []]
  }

  /** Row x is the highest one below lo. */
  ghost predicate NextRow(m: map<nat, Row>, x: nat, lo: nat, hi: nat) {
    x in m && x < lo <= hi && forall s :: s in m ==> s <= x || lo <= s
  }

  lemma KidsStep(m: map<nat, Row>, pids: set<nat>, x: nat, lo: nat, hi: nat)
    requires NextRow(m, x, lo, hi)
    ensures Kids(m, pids, x, hi) == if m[x].pid in pids then [x] + Kids(m, pids, lo, hi) else Kids(m, pids, lo, hi)
  {
    KidsSkip(m, pids, x + 1, lo, hi);
  }

  /** Attaching row x, the highest one left, to the container it names. */
  lemma AttachStep(l: Loader, types: Types, m: map<nat, Row>, s: nat, x: nat, lo: nat, hi: nat)
    requires s in m && NextRow(m, x, lo, hi)
    ensures Attached(l, types, m, s, x, hi) ==
      if m[x].pid == s && !IsRootPid(l, s) && m[s].rec.itemtype in types.containers
        then [x] + Attached(l, types, m, s, lo, hi)
      else Attached(l, types, m, s, lo, hi)
  {
    KidsStep(m, {s}, x, lo, hi);
  }

  lemma PlaceStep(l: Loader, m: map<nat, Row>, p: nat, x: nat, lo: nat, hi: nat)
    requires NextRow(m, x, lo, hi)
    ensures var before, after := PlacedAt(l, m, p, lo, hi), PlacedAt(l, m, p, x, hi);
      if !IsRootPid(l, m[x].pid) then after == before
      else if l.Slots? then after == if p == m[x].pid && before == [] then [x] else before
      else after == if p == (if l.Inbox? then 0 else m[x].pid) then [x] + before else before
  {
    KidsStep(m, PidsOf(l, p), x, lo, hi);
  }

  lemma ItemsCons(itemMap: map<nat, Entry>, x: nat, sids: seq<nat>)
    requires x in itemMap && forall i :: 0 <= i < |sids| ==> sids[i] in itemMap
    ensures Items(itemMap, [x] + sids) == [itemMap[x].item] + Items(itemMap, sids)
  {
    assert ([x] + sids)[1..] == sids;
  }

  lemma Highest(sids: set<nat>)
    requires sids != {}
    ensures exists x :: x in sids && forall s :: s in sids ==> s <= x
  {
    var y :| y in sids;
    var rest := sids - {y};
    var z := y;
    if rest != {} {
      Highest(rest);
      var x :| x in rest && forall s :: s in rest ==> s <= x;
      z := if x < y then y else x;
    }
    forall s | s in sids ensures s <= z {
      assert s == y || s in rest;
    }
    assert z in sids;
  }

  /**
   * The body of the rebuild loops, for an item that does not go to a place: attach it to its container, if there is
   * one.
   */
  method Attach(
      l: Loader, types: Types, itemMap: map<nat, Entry>, ghost m: map<nat, Row>, x: nat, ghost lo: nat, ghost hi: nat)
    requires AllAttached(l, types, itemMap, m, lo, hi)
    requires NextRow(m, x, lo, hi) && !IsRootPid(l, m[x].pid)
    modifies set s | s in itemMap :: itemMap[s].item
    ensures AllAttached(l, types, itemMap, m, x, hi)
  {
    var item, pid := itemMap[x].item, itemMap[x].pid;
    if pid in itemMap {
      assert AttachedOk(l, types, itemMap, m, pid, lo, hi);
      ItemsCons(itemMap, x, Attached(l, types, m, pid, lo, hi));
      var container := itemMap[pid].item;
      if container.isContainer {
        container.InternalAddThing(item);
      }
    }
    forall s | s in m ensures AttachedOk(l, types, itemMap, m, s, x, hi) {
      AttachStep(l, types, m, s, x, lo, hi);
      assert old(AttachedOk(l, types, itemMap, m, s, lo, hi));
    }
  }

  lemma AttachedSkip(l: Loader, types: Types, itemMap: map<nat, Entry>, m: map<nat, Row>, x: nat, lo: nat, hi: nat)
    requires AllAttached(l, types, itemMap, m, lo, hi)
    requires NextRow(m, x, lo, hi) && IsRootPid(l, m[x].pid)
    ensures AllAttached(l, types, itemMap, m, x, hi)
  {
    forall s | s in m ensures AttachedOk(l, types, itemMap, m, s, x, hi) {
      AttachStep(l, types, m, s, x, lo, hi);
      assert AttachedOk(l, types, itemMap, m, s, lo, hi);
    }
  }

  lemma PlacedSkip(
      l: Loader, itemMap: map<nat, Entry>, m: map<nat, Row>, places: map<nat, seq<Item>>, x: nat, lo: nat, hi: nat)
    requires itemMap.Keys == m.Keys && AllPlaced(l, itemMap, m, places, lo, hi)
    requires NextRow(m, x, lo, hi) && !IsRootPid(l, m[x].pid)
    ensures AllPlaced(l, itemMap, m, places, x, hi)
  {
    forall p: nat ensures PlaceOk(l, itemMap, m, places, x, hi, p) {
      PlaceStep(l, m, p, x, lo, hi);
      assert PlaceOk(l, itemMap, m, places, lo, hi, p);
    }
  }

  lemma PlacedStep(
      l: Loader, itemMap: map<nat, Entry>, m: map<nat, Row>, places: map<nat, seq<Item>>, x: nat, lo: nat, hi: nat)
    requires itemMap.Keys == m.Keys && AllPlaced(l, itemMap, m, places, lo, hi) && NonEmpty(places)
    requires NextRow(m, x, lo, hi) && IsRootPid(l, m[x].pid)
    ensures
      var places' := WithPlace(l, places, m[x].pid, itemMap[x].item);
      AllPlaced(l, itemMap, m, places', x, hi) && NonEmpty(places')
  {
    var places' := WithPlace(l, places, m[x].pid, itemMap[x].item);
    forall p: nat ensures PlaceOk(l, itemMap, m, places', x, hi, p) {
      assert PlaceOk(l, itemMap, m, places, lo, hi, p);
      PlaceStep(l, m, p, x, lo, hi);
      ItemsCons(itemMap, x, PlacedAt(l, m, p, lo, hi));
    }
  }

  /** The body of the rebuild loops: an item goes to a place, or into the container that it names. */
  method PutItem(
      l: Loader, types: Types, itemMap: map<nat, Entry>, ghost m: map<nat, Row>, places: map<nat, seq<Item>>, x: nat,
      ghost lo: nat, ghost hi: nat)
    returns (places': map<nat, seq<Item>>)
    requires AllAttached(l, types, itemMap, m, lo, hi) && AllPlaced(l, itemMap, m, places, lo, hi) && NonEmpty(places)
    requires NextRow(m, x, lo, hi)
    modifies set s | s in itemMap :: itemMap[s].item
    ensures AllAttached(l, types, itemMap, m, x, hi) && AllPlaced(l, itemMap, m, places', x, hi) && NonEmpty(places')
  {
    places' := places;
    var item, pid := itemMap[x].item, itemMap[x].pid;
    if IsRootPid(l, pid) {
      PlacedStep(l, itemMap, m, places, x, lo, hi);
      places' := WithPlace(l, places, pid, item);
      AttachedSkip(l, types, itemMap, m, x, lo, hi);
    } else {
      Attach(l, types, itemMap, m, x, lo, hi);
      PlacedSkip(l, itemMap, m, places, x, lo, hi);
    }
  }

  /** The rows that are left are those below lo. */
  ghost predicate Remaining(all: set<nat>, todo: set<nat>, lo: nat) {
    todo <= all && forall s :: s in all ==> if s in todo then s < lo else lo <= s
  }

  lemma RemainingStep(all: set<nat>, todo: set<nat>, m: map<nat, Row>, x: nat, lo: nat, hi: nat)
    requires Remaining(all, todo, lo) && all == m.Keys && lo <= hi && x in todo && forall s :: s in todo ==> s <= x
    ensures NextRow(m, x, lo, hi) && Remaining(all, todo - {x}, x)
  {
  }

  /** The loops that rebuild the inventory, the depot and the inbox from an item map, highest sid first. */
  method Rebuild(l: Loader, types: Types, itemMap: map<nat, Entry>, ghost m: map<nat, Row>, ghost hi: nat)
    returns (places: map<nat, seq<Item>>)
    requires AllAttached(l, types, itemMap, m, hi, hi) && forall s :: s in m ==> s < hi
    modifies set s | s in itemMap :: itemMap[s].item
    ensures AllAttached(l, types, itemMap, m, 0, hi) && AllPlaced(l, itemMap, m, places, 0, hi)
  {
    places := map[];
    var todo := itemMap.Keys;
    ghost var lo: nat := hi;
    while todo != {}
      invariant Remaining(itemMap.Keys, todo, lo) && lo <= hi
      invariant AllAttached(l, types, itemMap, m, lo, hi)
      invariant AllPlaced(l, itemMap, m, places, lo, hi) && NonEmpty(places)
    {
      Highest(todo);
      var x :| x in todo && forall s :: s in todo ==> s <= x;
      RemainingStep(itemMap.Keys, todo, m, x, lo, hi);
      places := PutItem(l, types, itemMap, m, places, x, lo, hi);
      todo, lo := todo - {x}, x;
    }
    Done(l, types, itemMap, m, places, lo, hi);
  }

  lemma NothingBelow(l: Loader, types: Types, m: map<nat, Row>, k: nat, lo: nat, hi: nat)
    requires lo <= hi && forall s :: s in m ==> lo <= s
    ensures PlacedAt(l, m, k, 0, hi) == PlacedAt(l, m, k, lo, hi)
    ensures k in m ==> Attached(l, types, m, k, 0, hi) == Attached(l, types, m, k, lo, hi)
  {
    KidsSkip(m, {k}, 0, lo, hi);
    KidsSkip(m, PidsOf(l, k), 0, lo, hi);
  }

  lemma Done(
      l: Loader, types: Types, itemMap: map<nat, Entry>, m: map<nat, Row>, places: map<nat, seq<Item>>, lo: nat,
      hi: nat)
    requires AllAttached(l, types, itemMap, m, lo, hi) && AllPlaced(l, itemMap, m, places, lo, hi)
    requires lo <= hi && forall s :: s in m ==> lo <= s
    ensures AllAttached(l, types, itemMap, m, 0, hi) && AllPlaced(l, itemMap, m, places, 0, hi)
  {
    forall s | s in m ensures AttachedOk(l, types, itemMap, m, s, 0, hi) {
      NothingBelow(l, types, m, s, lo, hi);
      assert AttachedOk(l, types, itemMap, m, s, lo, hi);
    }
    forall p: nat ensures PlaceOk(l, itemMap, m, places, 0, hi, p) {
      assert PlaceOk(l, itemMap, m, places, lo, hi, p);
      NothingBelow(l, types, m, p, lo, hi);
    }
  }

  // ---------------------------------------------------------------- save, then load

  /** The object graph below an item is the given tree. */
  ghost predicate Holds(objs: set<Item>, item: Item, t: Tree)
    reads objs
    decreases t
  {
    item in objs && item.rec == t.rec && item.isContainer == t.Box? && |item.itemlist| == |ItemsOf(t)| &&
    (t.Box? ==> forall i :: 0 <= i < |t.kids| ==> Holds(objs, item.itemlist[i], t.kids[i]))
  }

  ghost predicate HoldAll(objs: set<Item>, items: seq<Item>, ts: seq<Tree>)
    reads objs
  {
    |items| == |ts| && forall i :: 0 <= i < |ts| ==> Holds(objs, items[i], ts[i])
  }

  lemma HoldCons(objs: set<Item>, item: Item, items: seq<Item>, t: Tree, ts: seq<Tree>)
    requires Holds(objs, item, t) && HoldAll(objs, items, ts)
    ensures HoldAll(objs, [item] + items, [t] + ts)
  {
  }

  function Objects(itemMap: map<nat, Entry>): set<Item> {
    set s | s in itemMap :: itemMap[s].item
  }

  lemma HoldsBox(objs: set<Item>, item: Item, t: Tree)
    requires item in objs && item.rec == t.rec && item.isContainer == t.Box? && HoldAll(objs, item.itemlist, ItemsOf(t))
    ensures Holds(objs, item, t)
  {
  }

  lemma NamedLater(l: Loader, m: map<nat, Row>, s: nat, hi: nat)
    requires s in m && AllAscending(l, m, hi) && !IsRootPid(l, s)
    ensures s < hi && Kids(m, {s}, 0, hi) == Kids(m, {s}, s + 1, hi)
  {
    assert Ascending(l, m, s, hi);
    forall x | 0 <= x < s + 1 && x in m ensures m[x].pid !in {s} {
      assert Ascending(l, m, x, hi);
    }
    KidsSkip(m, {s}, 0, s + 1, hi);
  }

  /** The item of every row holds the tree of that row, and the items of the rows with given pids hold their trees. */
  lemma {:induction false} HoldsTree(
      l: Loader, types: Types, itemMap: map<nat, Entry>, m: map<nat, Row>, s: nat, hi: nat)
    requires AllAttached(l, types, itemMap, m, 0, hi) && s in m && AllAscending(l, m, hi)
    ensures Holds(Objects(itemMap), itemMap[s].item, TreeOf(l, types, m, s, hi))
    decreases hi - s, 0
  {
    assert AttachedOk(l, types, itemMap, m, s, 0, hi);
    if !IsRootPid(l, s) {
      NamedLater(l, m, s, hi);
      HoldsForest(l, types, itemMap, m, {s}, s + 1, hi);
    }
    HoldsBox(Objects(itemMap), itemMap[s].item, TreeOf(l, types, m, s, hi));
  }

  lemma {:induction false} HoldsForest(
      l: Loader, types: Types, itemMap: map<nat, Entry>, m: map<nat, Row>, pids: set<nat>, lo: nat, hi: nat)
    requires AllAttached(l, types, itemMap, m, 0, hi) && AllAscending(l, m, hi)
    ensures HoldAll(Objects(itemMap), Items(itemMap, Kids(m, pids, lo, hi)), Forest(l, types, m, pids, lo, hi))
    decreases hi - lo, 1
  {
    if lo < hi {
      HoldsForest(l, types, itemMap, m, pids, lo + 1, hi);
      if lo in m && m[lo].pid in pids {
        HoldsTree(l, types, itemMap, m, lo, hi);
        ItemsCons(itemMap, lo, Kids(m, pids, lo + 1, hi));
        HoldCons(
          Objects(itemMap), itemMap[lo].item, Items(itemMap, Kids(m, pids, lo + 1, hi)),
          TreeOf(l, types, m, lo, hi), Forest(l, types, m, pids, lo + 1, hi));
      }
    }
  }

  /** A row is numbered after the row it names. */
  ghost predicate Ascending(l: Loader, m: map<nat, Row>, x: nat, hi: nat)
    requires x in m
  {
    x < hi && (IsRootPid(l, m[x].pid) || m[x].pid < x)
  }

  ghost predicate AllAscending(l: Loader, m: map<nat, Row>, hi: nat) {
    forall x :: x in m ==> Ascending(l, m, x, hi)
  }

  lemma ItemsTaken(l: Loader, itemMap: map<nat, Entry>, sids: seq<nat>)
    requires forall i :: 0 <= i < |sids| ==> sids[i] in itemMap
    ensures Items(itemMap, Taken(l, sids)) == Taken(l, Items(itemMap, sids))
  {
  }

  lemma HoldTaken(l: Loader, objs: set<Item>, items: seq<Item>, ts: seq<Tree>)
    requires HoldAll(objs, items, ts)
    ensures HoldAll(objs, Taken(l, items), Taken(l, ts))
  {
  }

  lemma PlaceHolds(
      l: Loader, types: Types, m: map<nat, Row>, itemMap: map<nat, Entry>, places: map<nat, seq<Item>>, p: nat, hi: nat)
    requires AllAttached(l, types, itemMap, m, 0, hi) && AllAscending(l, m, hi)
             && PlaceOk(l, itemMap, m, places, 0, hi, p)
    ensures HoldAll(Objects(itemMap), if p in places then places[p] else [], Loaded(l, types, m, p, hi))
  {
    var pids := PidsOf(l, p);
    HoldsForest(l, types, itemMap, m, pids, 0, hi);
    ItemsTaken(l, itemMap, Kids(m, pids, 0, hi));
    HoldTaken(l, Objects(itemMap), Items(itemMap, Kids(m, pids, 0, hi)), Forest(l, types, m, pids, 0, hi));
  }

  lemma SavedAscending(
      l: Loader, types: Types, roots: seq<Root>, rows: seq<Row>, node: seq<Tree>, first: seq<nat>, m: map<nat, Row>)
    requires Saved(types, roots, rows, node, first, m) && Placeable(l, roots)
    ensures AllAscending(l, m, FIRST_SID + |rows|)
  {
    forall x | x in m ensures Ascending(l, m, x, FIRST_SID + |rows|) {
      assert m[FIRST_SID + (x - FIRST_SID)] == rows[x - FIRST_SID];
      if |roots| <= x - FIRST_SID {
        assert HasParent(rows, node, first, x - FIRST_SID);
      }
    }
  }

  /** Items that are saved and loaded again are all at their place, with everything that was in them, in order. */
  method SaveAndLoad(l: Loader, types: Types, roots: seq<Root>)
    returns (places: map<nat, seq<Item>>, itemMap: map<nat, Entry>)
    requires AllWellTyped(types, roots) && Placeable(l, roots)
    ensures forall p: nat :: HoldAll(Objects(itemMap), if p in places then places[p] else [], TreesAt(roots, {p}))
  {
    var rows;
    ghost var node, first;
    rows, node, first := SaveItems(roots);
    SavedRowsMap(types, roots, rows, node, first);
    ghost var m, hi := MapOf(types, Descending(rows)), FIRST_SID + |rows|;
    itemMap := LoadItems(types, Descending(rows));
    assert AllAttached(l, types, itemMap, m, hi, hi);
    places := Rebuild(l, types, itemMap, m, hi);
    SavedAscending(l, types, roots, rows, node, first, m);
    forall p: nat ensures HoldAll(Objects(itemMap), if p in places then places[p] else [], TreesAt(roots, {p})) {
      assert PlaceOk(l, itemMap, m, places, 0, hi, p);
      PlaceHolds(l, types, m, itemMap, places, p, hi);
      PlaceReturns(l, types, roots, rows, node, first, m, p);
    }
  }
}