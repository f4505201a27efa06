/**
  The OTB file format (fileloader.cpp): a tree of byte-stuffed nodes, parsed by one pass over the bytes with a
  stack of open nodes.
*/
module OtbLoader {
  import opened Common

  const ESCAPE: Byte := 0xFD
  const START: Byte := 0xFE
  const END: Byte := 0xFF

  /** The identifier in front of the root node. */
  const IDENTIFIER_SIZE := 4

  /** A parsed node; its properties are the bytes from propsBegin up to propsEnd. */
  datatype Node = Node(typ: Byte, propsBegin: nat, propsEnd: nat, children: seq<Node>)

  // ---------------------------------------------------------------- the format

  /** What a file holds for a node: its raw property bytes, and after every child some bytes that are skipped. */
  datatype Raw = Raw(typ: Byte, props: seq<Byte>, kids: seq<Kid>)

  datatype Kid = Kid(node: Raw, junk: seq<Byte>)

  /** Bytes without markers: a marker value only occurs behind an escape. */
  predicate Plain(bs: seq<Byte>) {
    if bs == [] then true
    else if bs[0] == ESCAPE then |bs| >= 2 && Plain(bs[2..])
    else bs[0] < ESCAPE && Plain(bs[1..])
  }

  predicate WellFormed(r: Raw) {
    Plain(r.props) && WellFormedKids(r.kids)
  }

  predicate WellFormedKids(kids: seq<Kid>) {
    kids == [] || (WellFormed(kids[0].node) && Plain(kids[0].junk) && WellFormedKids(kids[1..]))
  }

  function Print(r: Raw): seq<Byte> {
    [START, r.typ] + r.props + PrintKids(r.kids) + [END]
  }

  function PrintKids(kids: seq<Kid>): seq<Byte> {
    if kids == [] then [] else Print(kids[0].node) + kids[0].junk + PrintKids(kids[1..])
  }

  /** The node that r, printed from position pos on, stands for. */
  function NodeAt(r: Raw, pos: nat): Node {
    Node(r.typ, pos + 2, pos + 2 + |r.props|, KidsAt(r.kids, pos + 2 + |r.props|))
  }

  function KidsAt(kids: seq<Kid>, pos: nat): seq<Node> {
    if kids == [] then []
    else [NodeAt(kids[0].node, pos)] + KidsAt(kids[1..], pos + |Print(kids[0].node)| + |kids[0].junk|)
  }

  // ---------------------------------------------------------------- the loop of parseTree, step by step

  /** The open nodes from the root down, and the root once it is closed. */
  datatype State = State(open: seq<Node>, root: Option<Node>)

  /** propsEnd is set where the first child or the end of the node is found. */
  function EndProps(n: Node, pos: nat): Node {
    if n.children == [] then n.(propsEnd := pos) else n
  }

  function AddChild(n: Node, child: Node): Node {
    n.(children := n.children + [child])
  }

  function Closed(s: State, pos: nat): State
    requires s.open != []
  {
    var k := |s.open| - 1;
    var n := EndProps(s.open[k], pos);
    if k == 0 then State([], Some(n)) else State(s.open[..k - 1] + [AddChild(s.open[k - 1], n)], s.root)
  }

  /** The rest of the loop, from position pos on; None is the format error. */
  function Run(file: seq<Byte>, pos: nat, s: State): Option<Node>
    decreases |file| - pos
  {
    if pos >= |file| then
      if s.open == [] then s.root else None
    else if file[pos] == START then
      if s.open == [] || pos + 1 >= |file| then None
      else
        var k := |s.open| - 1;
        Run(file, pos + 2, s.(open := s.open[..k] + [EndProps(s.open[k], pos), Node(file[pos + 1], pos + 2, 0, [])]))
    else if file[pos] == END then
      if s.open == [] then None else Run(file, pos + 1, Closed(s, pos))
    else if file[pos] == ESCAPE then
      if pos + 1 >= |file| then None else Run(file, pos + 2, s)
    else Run(file, pos + 1, s)
  }

  function Parse(file: seq<Byte>): Option<Node>
    requires |file| > IDENTIFIER_SIZE + 3
  {
    if file[IDENTIFIER_SIZE] != START then None
    else Run(file, IDENTIFIER_SIZE + 2, State([Node(file[IDENTIFIER_SIZE + 1], IDENTIFIER_SIZE + 2, 0, [])], None))
  }

  // ---------------------------------------------------------------- what is printed is parsed

  /** Bytes at a position. */
  predicate Has(file: seq<Byte>, pos: nat, bs: seq<Byte>) {
    pos + |bs| <= |file| && forall i :: 0 <= i < |bs| ==> file[pos + i] == bs[i]
  }

  lemma HasSplit(file: seq<Byte>, pos: nat, a: seq<Byte>, b: seq<Byte>)
    ensures Has(file, pos, a + b) <==> Has(file, pos, a) && Has(file, pos + |a|, b)
  {
    if Has(file, pos, a + b) {
      forall i | 0 <= i < |a| ensures file[pos + i] == a[i] {
        assert (a + b)[i] == a[i];
      }
      forall i | 0 <= i < |b| ensures file[pos + |a| + i] == b[i] {
        assert (a + b)[|a| + i] == b[i];
      }
    }
  }

  lemma {:induction false} RunPlain(file: seq<Byte>, pos: nat, bs: seq<Byte>, s: State)
    requires Has(file, pos, bs) && Plain(bs)
    ensures Run(file, pos, s) == Run(file, pos + |bs|, s)
    decreases |bs|
  {
    if bs != [] {
      var k := if bs[0] == ESCAPE then 2 else 1;
      assert bs == bs[..k] + bs[k..] && file[pos + 0] == bs[0];
      HasSplit(file, pos, bs[..k], bs[k..]);
      RunPlain(file, pos + k, bs[k..], s);
    }
  }

  /** The state after a whole child has been read at position pos. */
  function WithChild(s: State, pos: nat, child: Node): State
    requires s.open != []
  {
    var k := |s.open| - 1;
    s.(open := s.open[..k] + [AddChild(EndProps(s.open[k], pos), child)])
  }

  function WithKids(s: State, pos: nat, kids: seq<Kid>): State
    requires s.open != []
    decreases |kids|
  {
    if kids == [] then s
    else
      WithKids(WithChild(s, pos, NodeAt(kids[0].node, pos)), pos + |Print(kids[0].node)| + |kids[0].junk|, kids[1..])
  }

  /** The node on top collects the children and ends its properties where the first of them starts. */
  lemma {:induction false} WithKidsOpen(s: State, pos: nat, kids: seq<Kid>)
    requires s.open != []
    ensures
      var k, s' := |s.open| - 1, WithKids(s, pos, kids);
      var n := s.open[k];
      && s'.root == s.root && |s'.open| == |s.open| && s'.open[..k] == s.open[..k]
      && s'.open[k] == (if kids == [] then n else EndProps(n, pos)).(children := n.children + KidsAt(kids, pos))
    decreases |kids|
  {
    if kids != [] {
      var s1 := WithChild(s, pos, NodeAt(kids[0].node, pos));
      WithKidsOpen(s1, pos + |Print(kids[0].node)| + |kids[0].junk|, kids[1..]);
    }
  }

  /** The state after the start of a node has been read. */
  function Opened(s: State, pos: nat, typ: Byte): State
    requires s.open != []
  {
    var k := |s.open| - 1;
    s.(open := s.open[..k] + [EndProps(s.open[k], pos), Node(typ, pos + 2, 0, [])])
  }

  lemma ClosedNode(s: State, pos: nat, r: Raw)
    requires s.open != []
    ensures var kidsAt := pos + 2 + |r.props|;
      var s' := WithKids(Opened(s, pos, r.typ), kidsAt, r.kids);
      s'.open != [] && Closed(s', kidsAt + |PrintKids(r.kids)|) == WithChild(s, pos, NodeAt(r, pos))
  {
    var kidsAt, k, s1 := pos + 2 + |r.props|, |s.open|, Opened(s, pos, r.typ);
    WithKidsOpen(s1, kidsAt, r.kids);
    var s' := WithKids(s1, kidsAt, r.kids);
    assert EndProps(s'.open[k], kidsAt + |PrintKids(r.kids)|) == NodeAt(r, pos);
    assert s'.open[k - 1] == s'.open[..k][k - 1] == EndProps(s.open[k - 1], pos);
    assert s'.open[..k - 1] == s'.open[..k][..k - 1] == s.open[..k - 1];
  }

  /** Where the parts of a printed node are found. */
  lemma HasNode(file: seq<Byte>, pos: nat, r: Raw)
    requires Has(file, pos, Print(r))
    ensures var kidsAt := pos + 2 + |r.props|;
      && kidsAt + |PrintKids(r.kids)| < |file| && file[pos] == START && file[pos + 1] == r.typ
      && Has(file, pos + 2, r.props) && Has(file, kidsAt, PrintKids(r.kids))
        && file[kidsAt + |PrintKids(r.kids)|] == END
      && pos + |Print(r)| == kidsAt + |PrintKids(r.kids)| + 1
  {
    HasSplit(file, pos, [START, r.typ] + r.props + PrintKids(r.kids), [END]);
    HasSplit(file, pos, [START, r.typ] + r.props, PrintKids(r.kids));
    HasSplit(file, pos, [START, r.typ], r.props);
    assert [START, r.typ][0] == file[pos + 0] && [START, r.typ][1] == file[pos + 1];
    assert [END][0] == file[pos + 2 + |r.props| + |PrintKids(r.kids)| + 0];
  }

  lemma {:induction false} RunNode(file: seq<Byte>, pos: nat, r: Raw, s: State)
    requires Has(file, pos, Print(r)) && WellFormed(r) && s.open != []
    ensures Run(file, pos, s) == Run(file, pos + |Print(r)|, WithChild(s, pos, NodeAt(r, pos)))
    decreases r, 1
  {
    HasNode(file, pos, r);
    var s1, kidsAt := Opened(s, pos, r.typ), pos + 2 + |r.props|;
    assert Run(file, pos, s) == Run(file, pos + 2, s1);
    RunPlain(file, pos + 2, r.props, s1);
    RunKids(file, kidsAt, r.kids, s1);
    ClosedNode(s, pos, r);
    RunEnd(file, kidsAt + |PrintKids(r.kids)|, WithKids(s1, kidsAt, r.kids));
  }

  lemma {:induction false} RunKids(file: seq<Byte>, pos: nat, kids: seq<Kid>, s: State)
    requires Has(file, pos, PrintKids(kids)) && WellFormedKids(kids) && s.open != []
    ensures Run(file, pos, s) == Run(file, pos + |PrintKids(kids)|, WithKids(s, pos, kids))
    decreases kids, 0
  {
    if kids != [] {
      var r, junk := kids[0].node, kids[0].junk;
      HasKids(file, pos, kids);
      RunNode(file, pos, r, s);
      var s1 := WithChild(s, pos, NodeAt(r, pos));
      RunPlain(file, pos + |Print(r)|, junk, s1);
      RunKids(file, pos + |Print(r)| + |junk|, kids[1..], s1);
    }
  }

  lemma HasKids(file: seq<Byte>, pos: nat, kids: seq<Kid>)
    requires kids != [] && Has(file, pos, PrintKids(kids))
    ensures var r, junk := kids[0].node, kids[0].junk;
      && Has(file, pos, Print(r)) && Has(file, pos + |Print(r)|, junk)
      && Has(file, pos + |Print(r)| + |junk|, PrintKids(kids[1..]))
      && |PrintKids(kids)| == |Print(r)| + |junk| + |PrintKids(kids[1..])|
  {
    FirstKid(kids);
    HasThree(file, pos, PrintKids(kids), Print(kids[0].node), kids[0].junk, PrintKids(kids[1..]));
  }

  lemma FirstKid(kids: seq<Kid>)
    requires kids != []
    ensures PrintKids(kids) == Print(kids[0].node) + kids[0].junk + PrintKids(kids[1..])
    ensures |PrintKids(kids)| == |Print(kids[0].node)| + |kids[0].junk| + |PrintKids(kids[1..])|
  {
  }

  lemma HasThree(file: seq<Byte>, pos: nat, s: seq<Byte>, a: seq<Byte>, b: seq<Byte>, c: seq<Byte>)
    requires s == a + b + c && Has(file, pos, s)
    ensures Has(file, pos, a) && Has(file, pos + |a|, b) && Has(file, pos + |a| + |b|, c)
  {
    HasSplit(file, pos, a + b, c);
    HasSplit(file, pos, a, b);
  }

  lemma ClosedRoot(pos: nat, r: Raw)
    ensures var kidsAt := pos + 2 + |r.props|;
      var s' := WithKids(State([Node(r.typ, pos + 2, 0, [])], None), kidsAt, r.kids);
      s'.open != [] && Closed(s', kidsAt + |PrintKids(r.kids)|) == State([], Some(NodeAt(r, pos)))
  {
    var kidsAt, s1 := pos + 2 + |r.props|, State([Node(r.typ, pos + 2, 0, [])], None);
    WithKidsOpen(s1, kidsAt, r.kids);
    assert EndProps(WithKids(s1, kidsAt, r.kids).open[0], kidsAt + |PrintKids(r.kids)|) == NodeAt(r, pos);
  }

  lemma RunEnd(file: seq<Byte>, pos: nat, s: State)
    requires pos < |file| && file[pos] == END && s.open != []
    ensures Run(file, pos, s) == Run(file, pos + 1, Closed(s, pos))
  {
  }

  lemma ParseStarts(file: seq<Byte>, r: Raw)
    requires |file| > IDENTIFIER_SIZE + 3 && Has(file, IDENTIFIER_SIZE, Print(r))
    ensures Parse(file) == Run(file, IDENTIFIER_SIZE + 2, State([Node(r.typ, IDENTIFIER_SIZE + 2, 0, [])], None))
  {
    HasNode(file, IDENTIFIER_SIZE, r);
  }

  lemma RunRoot(file: seq<Byte>, r: Raw)
    requires |file| > IDENTIFIER_SIZE + 3 && Has(file, IDENTIFIER_SIZE, Print(r)) && WellFormed(r)
    ensures Parse(file) == Run(file, IDENTIFIER_SIZE + |Print(r)|, State([], Some(NodeAt(r, IDENTIFIER_SIZE))))
  {
    var pos := IDENTIFIER_SIZE;
    ParseStarts(file, r);
    HasNode(file, pos, r);
    var s1, kidsAt := State([Node(r.typ, pos + 2, 0, [])], None), pos + 2 + |r.props|;
    RunPlain(file, pos + 2, r.props, s1);
    RunKids(file, kidsAt, r.kids, s1);
    ClosedRoot(pos, r);
    RunEnd(file, kidsAt + |PrintKids(r.kids)|, WithKids(s1, kidsAt, r.kids));
  }

  /** A file that holds a printed tree and then bytes without markers parses to that tree. */
  lemma ParsePrinted(file: seq<Byte>, r: Raw, tail: seq<Byte>)
    requires |file| > IDENTIFIER_SIZE + 3 && file[IDENTIFIER_SIZE..] == Print(r) + tail
    requires WellFormed(r) && Plain(tail)
    ensures Parse(file) == Some(NodeAt(r, IDENTIFIER_SIZE))
  {
    var bs := Print(r) + tail;
    forall i | 0 <= i < |bs| ensures file[IDENTIFIER_SIZE + i] == bs[i] {
      assert file[IDENTIFIER_SIZE..][i] == bs[i];
    }
    HasSplit(file, IDENTIFIER_SIZE, Print(r), tail);
    RunRoot(file, r);
    RunPlain(file, IDENTIFIER_SIZE + |Print(r)|, tail, State([], Some(NodeAt(r, IDENTIFIER_SIZE))));
  }

  // ---------------------------------------------------------------- what is parsed has been printed

  /** The bytes of a node that is still open. */
  function PrintOpen(r: Raw): seq<Byte> {
    [START, r.typ] + r.props + PrintKids(r.kids)
  }

  /** An open node on top of the stack, and one below the top, whose next child is being read. */
  function TopAt(r: Raw, pos: nat): Node {
    if r.kids == [] then Node(r.typ, pos + 2, 0, []) else NodeAt(r, pos)
  }

  /** Bytes without markers go to the properties, or behind the last child. */
  function Extend(r: Raw, bs: seq<Byte>): Raw {
    if r.kids == [] then r.(props := r.props + bs) else r.(kids := ExtendLast(r.kids, bs))
  }

  function ExtendLast(kids: seq<Kid>, bs: seq<Byte>): seq<Kid>
    requires kids != []
  {
    if |kids| == 1 then [kids[0].(junk := kids[0].junk + bs)] else [kids[0]] + ExtendLast(kids[1..], bs)
  }

  function AddKid(r: Raw, kid: Raw): Raw {
    r.(kids := r.kids + [Kid(kid, [])])
  }

  lemma {:induction false} PlainAppend(a: seq<Byte>, b: seq<Byte>)
    requires Plain(a) && Plain(b)
    ensures Plain(a + b)
  {
    if a == [] {
      assert a + b == b;
    } else {
      var k := if a[0] == ESCAPE then 2 else 1;
      PlainAppend(a[k..], b);
      assert (a + b)[k..] == a[k..] + b;
    }
  }

  lemma {:induction false} PrintKidsAppend(kids: seq<Kid>, kid: Kid)
    ensures PrintKids(kids + [kid]) == PrintKids(kids) + (Print(kid.node) + kid.junk)
  {
    if kids == [] {
      assert kids + [kid] == [kid] && [kid][1..] == [];
    } else {
      assert (kids + [kid])[1..] == kids[1..] + [kid];
      PrintKidsAppend(kids[1..], kid);
    }
  }

  lemma {:induction false} KidsAtAppend(kids: seq<Kid>, kid: Kid, pos: nat)
    ensures KidsAt(kids + [kid], pos) == KidsAt(kids, pos) + [NodeAt(kid.node, pos + |PrintKids(kids)|)]
  {
    if kids == [] {
      assert kids + [kid] == [kid] && [kid][1..] == [];
    } else {
      assert (kids + [kid])[1..] == kids[1..] + [kid];
      KidsAtAppend(kids[1..], kid, pos + |Print(kids[0].node)| + |kids[0].junk|);
    }
  }

  lemma {:induction false} WellFormedAppend(kids: seq<Kid>, kid: Kid)
    ensures WellFormedKids(kids + [kid]) <==> WellFormedKids(kids) && WellFormed(kid.node) && Plain(kid.junk)
  {
    if kids == [] {
      assert kids + [kid] == [kid] && [kid][1..] == [];
    } else {
      assert (kids + [kid])[1..] == kids[1..] + [kid];
      WellFormedAppend(kids[1..], kid);
    }
  }

  lemma KidsAppend(kids: seq<Kid>, kid: Kid, pos: nat)
    ensures PrintKids(kids + [kid]) == PrintKids(kids) + (Print(kid.node) + kid.junk)
    ensures KidsAt(kids + [kid], pos) == KidsAt(kids, pos) + [NodeAt(kid.node, pos + |PrintKids(kids)|)]
    ensures WellFormedKids(kids + [kid]) <==> WellFormedKids(kids) && WellFormed(kid.node) && Plain(kid.junk)
  {
    PrintKidsAppend(kids, kid);
    KidsAtAppend(kids, kid, pos);
    WellFormedAppend(kids, kid);
  }

  lemma Assoc(a: seq<Byte>, b: seq<Byte>, c: seq<Byte>)
    ensures a + (b + c) == a + b + c && a + [] == a
  {
  }

  lemma {:induction false} ExtendLastPrint(kids: seq<Kid>, bs: seq<Byte>)
    requires kids != []
    ensures ExtendLast(kids, bs) != [] && PrintKids(ExtendLast(kids, bs)) == PrintKids(kids) + bs
  {
    var head := Print(kids[0].node);
    if |kids| == 1 {
      Assoc(head, kids[0].junk, bs);
      Assoc(head + kids[0].junk, [], bs);
      Assoc(head + (kids[0].junk + bs), [], []);
      Assoc(head + kids[0].junk, [], []);
    } else {
      ExtendLastPrint(kids[1..], bs);
      assert ExtendLast(kids, bs)[1..] == ExtendLast(kids[1..], bs);
      Assoc(head + kids[0].junk, PrintKids(kids[1..]), bs);
    }
  }

  lemma {:induction false} ExtendLastFacts(kids: seq<Kid>, bs: seq<Byte>, pos: nat)
    requires kids != [] && WellFormedKids(kids) && Plain(bs)
    ensures WellFormedKids(ExtendLast(kids, bs)) && KidsAt(ExtendLast(kids, bs), pos) == KidsAt(kids, pos)
  {
    if |kids| == 1 {
      PlainAppend(kids[0].junk, bs);
    } else {
      ExtendLastFacts(kids[1..], bs, pos + |Print(kids[0].node)| + |kids[0].junk|);
      assert ExtendLast(kids, bs)[1..] == ExtendLast(kids[1..], bs);
    }
  }

  lemma ExtendFacts(r: Raw, bs: seq<Byte>, pos: nat)
    requires WellFormed(r) && Plain(bs)
    ensures WellFormed(Extend(r, bs)) && PrintOpen(Extend(r, bs)) == PrintOpen(r) + bs
            && TopAt(Extend(r, bs), pos) == TopAt(r, pos)
  {
    if r.kids == [] {
      PlainAppend(r.props, bs);
      Assoc([START, r.typ], r.props, bs);
      Assoc([START, r.typ] + r.props, [], bs);
    } else {
      ExtendLastFacts(r.kids, bs, pos + 2 + |r.props|);
      ExtendLastPrint(r.kids, bs);
      Assoc([START, r.typ] + r.props, PrintKids(r.kids), bs);
    }
  }

  lemma AddKidFacts(r: Raw, kid: Raw, pos: nat)
    requires WellFormed(r) && WellFormed(kid)
    ensures WellFormed(AddKid(r, kid)) && PrintOpen(AddKid(r, kid)) == PrintOpen(r) + Print(kid)
    ensures TopAt(AddKid(r, kid), pos) == AddChild(NodeAt(r, pos), NodeAt(kid, pos + |PrintOpen(r)|))
  {
    KidsAppend(r.kids, Kid(kid, []), pos + 2 + |r.props|);
    Assoc(Print(kid), [], []);
    assert PrintKids(r.kids + [Kid(kid, [])]) == PrintKids(r.kids) + Print(kid);
    Assoc([START, r.typ] + r.props, PrintKids(r.kids), Print(kid));
    assert WellFormedKids(r.kids + [Kid(kid, [])]);
  }

  /** Level i of the stack: the open node `raw`, printed from position `at` up to position `next`. */
  ghost predicate Level(file: seq<Byte>, n: Node, raw: Raw, at: nat, next: nat, top: bool) {
    WellFormed(raw) && Has(file, at, PrintOpen(raw)) && at + |PrintOpen(raw)| == next &&
    n == if top then TopAt(raw, at) else NodeAt(raw, at)
  }

  /** The open nodes are the rightmost spine of what has been read: one inside the other, without gaps. */
  ghost predicate Spine(file: seq<Byte>, pos: nat, s: State, raws: seq<Raw>, at: seq<nat>) {
    |raws| == |at| == |s.open| > 0 && at[0] == IDENTIFIER_SIZE &&
    var k := |raws| - 1;
    Level(file, s.open[k], raws[k], at[k], pos, true) &&
    forall i :: 0 <= i < k ==> Level(file, s.open[i], raws[i], at[i], at[i + 1], false)
  }

  lemma LevelGrow(file: seq<Byte>, n: Node, raw: Raw, raw': Raw, at: nat, pos: nat, bs: seq<Byte>)
    requires Level(file, n, raw, at, pos, true) && Has(file, pos, bs)
    requires WellFormed(raw') && PrintOpen(raw') == PrintOpen(raw) + bs && TopAt(raw', at) == TopAt(raw, at)
    ensures Level(file, n, raw', at, pos + |bs|, true)
  {
    HasSplit(file, at, PrintOpen(raw), bs);
  }

  /** The level of a node when its next child starts. */
  lemma LevelCovered(file: seq<Byte>, n: Node, raw: Raw, at: nat, pos: nat)
    requires Level(file, n, raw, at, pos, true)
    ensures Level(file, EndProps(n, pos), raw, at, pos, false)
  {
  }

  lemma LevelStart(file: seq<Byte>, pos: nat)
    requires pos + 1 < |file| && file[pos] == START
    ensures Level(file, Node(file[pos + 1], pos + 2, 0, []), Raw(file[pos + 1], [], []), pos, pos + 2, true)
  {
    assert PrintOpen(Raw(file[pos + 1], [], [])) == [START, file[pos + 1]];
  }

  lemma SpineTop(file: seq<Byte>, pos: nat, s: State, raws: seq<Raw>, at: seq<nat>, raw: Raw, pos': nat)
    requires Spine(file, pos, s, raws, at)
    requires var k := |raws| - 1; Level(file, s.open[k], raw, at[k], pos', true)
    ensures Spine(file, pos', s, raws[|raws| - 1 := raw], at)
  {
    var k := |raws| - 1;
    var raws' := raws[k := raw];
    forall i | 0 <= i < k ensures Level(file, s.open[i], raws'[i], at[i], at[i + 1], false) {
      assert Level(file, s.open[i], raws[i], at[i], at[i + 1], false);
    }
  }

  lemma SpineExtend(file: seq<Byte>, pos: nat, s: State, raws: seq<Raw>, at: seq<nat>, bs: seq<Byte>)
    requires Spine(file, pos, s, raws, at) && Has(file, pos, bs) && Plain(bs)
    ensures var k := |raws| - 1; Spine(file, pos + |bs|, s, raws[k := Extend(raws[k], bs)], at)
  {
    var k := |raws| - 1;
    ExtendFacts(raws[k], bs, at[k]);
    LevelGrow(file, s.open[k], raws[k], Extend(raws[k], bs), at[k], pos, bs);
    SpineTop(file, pos, s, raws, at, Extend(raws[k], bs), pos + |bs|);
  }

  lemma SpinePush(file: seq<Byte>, pos: nat, s: State, raws: seq<Raw>, at: seq<nat>)
    requires Spine(file, pos, s, raws, at) && pos + 1 < |file| && file[pos] == START
    ensures Spine(file, pos + 2, Opened(s, pos, file[pos + 1]), raws + [Raw(file[pos + 1], [], [])], at + [pos])
  {
    var k := |raws| - 1;
    var s', raws', at' := Opened(s, pos, file[pos + 1]), raws + [Raw(file[pos + 1], [], [])], at + [pos];
    LevelStart(file, pos);
    LevelCovered(file, s.open[k], raws[k], at[k], pos);
    forall i | 0 <= i < k + 1 ensures Level(file, s'.open[i], raws'[i], at'[i], at'[i + 1], false) {
      if i < k {
        assert Level(file, s.open[i], raws[i], at[i], at[i + 1], false);
      }
    }
  }

  lemma SpinePop(file: seq<Byte>, pos: nat, s: State, raws: seq<Raw>, at: seq<nat>)
    requires Spine(file, pos, s, raws, at) && pos < |file| && file[pos] == END
    ensures var k := |raws| - 1;
      && Has(file, at[k], Print(raws[k])) && at[k] + |Print(raws[k])| == pos + 1
      && if k == 0 then Closed(s, pos) == State([], Some(NodeAt(raws[0], IDENTIFIER_SIZE)))
         else Spine(file, pos + 1, Closed(s, pos), raws[..k - 1] + [AddKid(raws[k - 1], raws[k])], at[..k])
  {
    var k := |raws| - 1;
    HasSplit(file, at[k], PrintOpen(raws[k]), [END]);
    assert EndProps(s.open[k], pos) == NodeAt(raws[k], at[k]);
    if k > 0 {
      assert Level(file, s.open[k - 1], raws[k - 1], at[k - 1], at[k], false);
      AddKidFacts(raws[k - 1], raws[k], at[k - 1]);
      HasSplit(file, at[k - 1], PrintOpen(raws[k - 1]), Print(raws[k]));
      var raws', at' := raws[..k - 1] + [AddKid(raws[k - 1], raws[k])], at[..k];
      forall i | 0 <= i < k - 1 ensures Level(file, Closed(s, pos).open[i], raws'[i], at'[i], at'[i + 1], false) {
        assert Level(file, s.open[i], raws[i], at[i], at[i + 1], false);
      }
    }
  }

  lemma {:induction false} RunClosed(file: seq<Byte>, pos: nat, s: State)
    requires s.open == [] && pos <= |file| && Run(file, pos, s).Some?
    ensures Plain(file[pos..]) && Run(file, pos, s) == s.root
    decreases |file| - pos
  {
    if pos < |file| {
      var k := if file[pos] == ESCAPE then 2 else 1;
      assert pos + k <= |file| && Run(file, pos, s) == Run(file, pos + k, s);
      RunClosed(file, pos + k, s);
      assert file[pos..][k..] == file[pos + k..];
    }
  }

  lemma {:induction false} RunSpine(file: seq<Byte>, pos: nat, s: State, raws: seq<Raw>, at: seq<nat>)
    returns (r: Raw, tail: seq<Byte>)
    requires Spine(file, pos, s, raws, at) && IDENTIFIER_SIZE <= pos <= |file| && Run(file, pos, s).Some?
    ensures WellFormed(r) && Plain(tail) && file[IDENTIFIER_SIZE..] == Print(r) + tail
    ensures Run(file, pos, s) == Some(NodeAt(r, IDENTIFIER_SIZE))
    decreases |file| - pos
  {
    var k := |raws| - 1;
    if file[pos] == START {
      SpinePush(file, pos, s, raws, at);
      r, tail := RunSpine(file, pos + 2, Opened(s, pos, file[pos + 1]), raws + [Raw(file[pos + 1], [], [])],
        at + [pos]);
    } else if file[pos] == END {
      SpinePop(file, pos, s, raws, at);
      if k == 0 {
        r, tail := raws[0], file[pos + 1..];
        RunClosed(file, pos + 1, Closed(s, pos));
      } else {
        r, tail := RunSpine(file, pos + 1, Closed(s, pos), raws[..k - 1] + [AddKid(raws[k - 1], raws[k])], at[..k]);
      }
    } else {
      var n := if file[pos] == ESCAPE then 2 else 1;
      var bs := file[pos..pos + n];
      assert bs[n..] == [] && Plain([]);
      SpineExtend(file, pos, s, raws, at, bs);
      r, tail := RunSpine(file, pos + n, s, raws[k := Extend(raws[k], bs)], at);
    }
  }

  /** The file holds, behind its identifier, a printed tree with the nodes of n and then bytes without markers. */
  ghost predicate Holds(file: seq<Byte>, n: Node)
    requires |file| > IDENTIFIER_SIZE
  {
    exists r, tail :: WellFormed(r) && Plain(tail) && file[IDENTIFIER_SIZE..] == Print(r) + tail
      && n == NodeAt(r, IDENTIFIER_SIZE)
  }

  /** parseTree accepts exactly the files of the format, and returns their tree. */
  lemma ParseIff(file: seq<Byte>, n: Node)
    requires |file| > IDENTIFIER_SIZE + 3
    ensures Parse(file) == Some(n) <==> Holds(file, n)
  {
    if Parse(file) == Some(n) {
      var pos, typ := IDENTIFIER_SIZE, file[IDENTIFIER_SIZE + 1];
      var s := State([Node(typ, pos + 2, 0, [])], None);
      LevelStart(file, pos);
      assert Spine(file, pos + 2, s, [Raw(typ, [], [])], [pos]);
      var r, tail := RunSpine(file, pos + 2, s, [Raw(typ, [], [])], [pos]);
    }
    if Holds(file, n) {
      var r, tail :| WellFormed(r) && Plain(tail) && file[IDENTIFIER_SIZE..] == Print(r) + tail
        && n == NodeAt(r, IDENTIFIER_SIZE);
      ParsePrinted(file, r, tail);
    }
  }

  // ---------------------------------------------------------------- properties

  /** The copy_if of getProps: drops every escape that is not itself escaped. */
  function Unescape(raw: seq<Byte>, lastEscaped: bool): seq<Byte> {
    if raw == [] then []
    else
      var escaped := raw[0] == ESCAPE && !lastEscaped;
      (if escaped then [] else [raw[0]]) + Unescape(raw[1..], escaped)
  }

  lemma {:induction false} UnescapeAppend(raw: seq<Byte>, b: Byte, lastEscaped: bool)
    ensures Unescape(raw + [b], lastEscaped) ==
      Unescape(raw, lastEscaped) + if b == ESCAPE && !EndsEscaped(raw, lastEscaped) then [] else [b]
  {
    if raw == [] {
      assert raw + [b] == [b];
    } else {
      assert (raw + [b])[1..] == raw[1..] + [b];
      UnescapeAppend(raw[1..], b, raw[0] == ESCAPE && !lastEscaped);
    }
  }

  /** Whether an escape is pending after the given bytes. */
  function EndsEscaped(raw: seq<Byte>, lastEscaped: bool): bool {
    if raw == [] then lastEscaped else EndsEscaped(raw[1..], raw[0] == ESCAPE && !lastEscaped)
  }

  lemma {:induction false} EndsEscapedAppend(raw: seq<Byte>, b: Byte, lastEscaped: bool)
    ensures EndsEscaped(raw + [b], lastEscaped) == (b == ESCAPE && !EndsEscaped(raw, lastEscaped))
  {
    if raw == [] {
      assert raw + [b] == [b];
    } else {
      assert (raw + [b])[1..] == raw[1..] + [b];
      EndsEscapedAppend(raw[1..], b, raw[0] == ESCAPE && !lastEscaped);
    }
  }

  /** Byte stuffing: a value that could be taken for a marker gets an escape in front. */
  function Stuff(props: seq<Byte>): seq<Byte> {
    if props == [] then []
    else (if props[0] >= ESCAPE then [ESCAPE, props[0]] else [props[0]]) + Stuff(props[1..])
  }

  lemma {:induction false} UnescapeByte(b: Byte, rest: seq<Byte>)
    requires Plain(rest)
    ensures Plain([ESCAPE, b] + rest) && Unescape([ESCAPE, b] + rest, false) == [b] + Unescape(rest, false)
    ensures b < ESCAPE ==> Plain([b] + rest) && Unescape([b] + rest, false) == [b] + Unescape(rest, false)
  {
    assert ([b] + rest)[1..] == rest;
    var bs := [ESCAPE, b] + rest;
    assert bs[2..] == rest && bs[1..] == [b] + rest;
  }

  lemma {:induction false} UnescapeStuff(props: seq<Byte>)
    ensures Plain(Stuff(props)) && Unescape(Stuff(props), false) == props
  {
    if props != [] {
      UnescapeStuff(props[1..]);
      UnescapeByte(props[0], Stuff(props[1..]));
    }
  }

  // ---------------------------------------------------------------- documents

  /** A document: what the writer of a file wants to store. */
  datatype Doc = Doc(typ: Byte, props: seq<Byte>, kids: seq<Doc>)

  function Stuffed(d: Doc): Raw {
    Raw(d.typ, Stuff(d.props), StuffedAll(d.kids))
  }

  function StuffedAll(ds: seq<Doc>): seq<Kid> {
    if ds == [] then [] else [Kid(Stuffed(ds[0]), [])] + StuffedAll(ds[1..])
  }

  function FileOf(identifier: seq<Byte>, d: Doc): seq<Byte> {
    identifier + Print(Stuffed(d))
  }

  /** The node, read through getProps, is the document. */
  ghost predicate Reads(file: seq<Byte>, n: Node, d: Doc)
    decreases d, 1
  {
    n.propsBegin <= n.propsEnd <= |file| && n.typ == d.typ &&
    Unescape(file[n.propsBegin..n.propsEnd], false) == d.props && ReadsAll(file, n.children, d.kids)
  }

  ghost predicate ReadsAll(file: seq<Byte>, ns: seq<Node>, ds: seq<Doc>)
    decreases ds, 0
  {
    |ns| == |ds| && (ds != [] ==> Reads(file, ns[0], ds[0]) && ReadsAll(file, ns[1..], ds[1..]))
  }

  lemma {:induction false} StuffedReads(file: seq<Byte>, pos: nat, d: Doc)
    requires Has(file, pos, Print(Stuffed(d)))
    ensures WellFormed(Stuffed(d)) && Reads(file, NodeAt(Stuffed(d), pos), d)
    decreases d, 1
  {
    StuffedParts(file, pos, d);
    StuffedAllRead(file, pos + 2 + |Stuff(d.props)|, d.kids);
    StuffedNode(file, pos, d);
  }

  /** The parts of a written node, in the file and read back. */
  lemma StuffedParts(file: seq<Byte>, pos: nat, d: Doc)
    requires Has(file, pos, Print(Stuffed(d)))
    ensures var props := Stuff(d.props); var kidsAt := pos + 2 + |props|;
            && kidsAt <= |file| && file[pos + 2..kidsAt] == props && Has(file, kidsAt, PrintKids(StuffedAll(d.kids)))
            && Plain(props) && Unescape(props, false) == d.props
  {
    HasNode(file, pos, Stuffed(d));
    UnescapeStuff(d.props);
    BytesAt(file, pos + 2, Stuff(d.props));
  }

  lemma StuffedNode(file: seq<Byte>, pos: nat, d: Doc)
    requires var props := Stuff(d.props); var kidsAt := pos + 2 + |props|;
             && kidsAt <= |file| && file[pos + 2..kidsAt] == props && Unescape(props, false) == d.props && Plain(props)
             && WellFormedKids(StuffedAll(d.kids)) && ReadsAll(file, KidsAt(StuffedAll(d.kids), kidsAt), d.kids)
    ensures WellFormed(Stuffed(d)) && Reads(file, NodeAt(Stuffed(d), pos), d)
  {
  }

  lemma BytesAt(file: seq<Byte>, pos: nat, bs: seq<Byte>)
    requires Has(file, pos, bs)
    ensures pos + |bs| <= |file| && file[pos..pos + |bs|] == bs
  {
  }

  lemma {:induction false} StuffedAllRead(file: seq<Byte>, pos: nat, ds: seq<Doc>)
    requires Has(file, pos, PrintKids(StuffedAll(ds)))
    ensures WellFormedKids(StuffedAll(ds)) && ReadsAll(file, KidsAt(StuffedAll(ds), pos), ds)
    decreases ds, 0
  {
    if ds != [] {
      var kids := StuffedAll(ds);
      assert kids[1..] == StuffedAll(ds[1..]);
      HasKids(file, pos, kids);
      StuffedReads(file, pos, ds[0]);
      StuffedAllRead(file, pos + |Print(kids[0].node)|, ds[1..]);
    }
  }

  /**
   * A written document is parsed and read back, unless it is a single node without properties, which is too short a
   * file.
   */
  lemma DocumentReturns(identifier: seq<Byte>, d: Doc)
    requires |identifier| == IDENTIFIER_SIZE
    ensures var file := FileOf(identifier, d);
      (|file| > IDENTIFIER_SIZE + 3 <==> d.props != [] || d.kids != []) &&
      (|file| > IDENTIFIER_SIZE + 3 ==> Parse(file).Some? && Reads(file, Parse(file).value, d))
  {
    var file, r := FileOf(identifier, d), Stuffed(d);
    assert file[IDENTIFIER_SIZE..] == Print(r) + [];
    assert Has(file, IDENTIFIER_SIZE, Print(r)) by {
      forall i | 0 <= i < |Print(r)| ensures file[IDENTIFIER_SIZE + i] == Print(r)[i] {
      }
    }
    StuffedReads(file, IDENTIFIER_SIZE, d);
    if d.props != [] || d.kids != [] {
      PrintedSize(d);
      ParsePrinted(file, r, []);
    }
  }

  lemma PrintedSize(d: Doc)
    ensures |Print(Stuffed(d))| >= 3
    ensures |Print(Stuffed(d))| > 3 <==> d.props != [] || d.kids != []
  {
    if d.kids != [] {
      assert |Print(Stuffed(d.kids[0]))| >= 3;
      assert StuffedAll(d.kids)[0].node == Stuffed(d.kids[0]);
    }
  }

  // ---------------------------------------------------------------- the code

  class Loader {
    const fileContents: seq<Byte>
    var propBuffer: seq<Byte>

    ghost predicate Valid() {
      |fileContents| > IDENTIFIER_SIZE + 3
    }

    constructor (contents: seq<Byte>)
      requires |contents| > IDENTIFIER_SIZE + 3
      ensures Valid() && fileContents == contents
    {
      fileContents := contents;
      propBuffer := [];
    }

    /** The checks of the constructor in the source: the size and the identifier of the file. */
    static method Open(contents: seq<Byte>, accepted: seq<Byte>) returns (loader: Loader?)
      requires |accepted| == IDENTIFIER_SIZE
      ensures loader != null <==>
        |contents| > IDENTIFIER_SIZE + 3 &&
        (contents[..IDENTIFIER_SIZE] == accepted || contents[..IDENTIFIER_SIZE] == [0, 0, 0, 0])
      ensures loader != null ==> fresh(loader) && loader.Valid() && loader.fileContents == contents
    {
      loader := null;
      if |contents| <= IDENTIFIER_SIZE + 3 {
        return;
      }
      var identifier := contents[..IDENTIFIER_SIZE];
      if identifier != accepted && identifier != [0, 0, 0, 0] {
        return;
      }
      loader := new Loader(contents);
    }

    method ParseTree() returns (result: Option<Node>)
      requires Valid()
      ensures result == Parse(fileContents)
      ensures result.Some? ==> Holds(fileContents, result.value)
    {
      var it := IDENTIFIER_SIZE;
      if fileContents[it] != START {
        return None;
      }
      it := it + 1;
      var typ := fileContents[it];
      it := it + 1;
      var root: Option<Node> := None;
      var parseStack := [Node(typ, it, 0, [])];
      while it < |fileContents|
        invariant IDENTIFIER_SIZE + 2 <= it <= |fileContents|
        invariant Parse(fileContents) == Run(fileContents, it, State(parseStack, root))
      {
        var b := fileContents[it];
        if b == START {
          if parseStack == [] {
            return None;
          }
          var k := |parseStack| - 1;
          var currentNode := parseStack[k];
          if currentNode.children == [] {
            currentNode := currentNode.(propsEnd := it);
          }
          it := it + 1;
          if it == |fileContents| {
            return None;
          }
          parseStack := parseStack[..k] + [currentNode, Node(fileContents[it], it + 1, 0, [])];
        } else if b == END {
          if parseStack == [] {
            return None;
          }
          var k := |parseStack| - 1;
          var currentNode := parseStack[k];
          if currentNode.children == [] {
            currentNode := currentNode.(propsEnd := it);
          }
          if k == 0 {
            parseStack, root := [], Some(currentNode);
          } else {
            parseStack := parseStack[..k - 1] + [AddChild(parseStack[k - 1], currentNode)];
          }
        } else if b == ESCAPE {
          it := it + 1;
          if it == |fileContents| {
            return None;
          }
        }
        it := it + 1;
      }
      result := if parseStack != [] then None else root;
      if result.Some? {
        ParseIff(fileContents, result.value);
      }
    }

    method GetProps(node: Node) returns (ok: bool, props: seq<Byte>)
      requires node.propsBegin <= node.propsEnd <= |fileContents|
      modifies this`propBuffer
      ensures ok == (node.propsBegin < node.propsEnd)
      ensures ok ==> props == Unescape(fileContents[node.propsBegin..node.propsEnd], false) && props <= propBuffer
    {
      props := [];
      var size := node.propsEnd - node.propsBegin;
      if size == 0 {
        return false, props;
      }
      var buffer := seq(size, _ => 0);
      var lastEscaped := false;
      var count := 0;
      ghost var raw := fileContents[node.propsBegin..node.propsEnd];
      for i := 0 to size
        invariant 0 <= count <= i && |buffer| == size
        invariant buffer[..count] == Unescape(raw[..i], false) && lastEscaped == EndsEscaped(raw[..i], false)
      {
        var b := fileContents[node.propsBegin + i];
        assert raw[..i + 1] == raw[..i] + [b];
        UnescapeAppend(raw[..i], b, false);
        EndsEscapedAppend(raw[..i], b, false);
        lastEscaped := b == ESCAPE && !lastEscaped;
        if !lastEscaped {
          buffer := buffer[count := b];
          count := count + 1;
        }
      }
      assert raw[..size] == raw;
      propBuffer := buffer;
      ok, props := true, propBuffer[..count];
    }
  }
}