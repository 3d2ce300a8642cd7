/**
 * The OTB container format: the grammar of a node tree, the escape encoding of
 * node properties, and the one-pass machine that `Loader::parseTree` runs.
 * The main results relate the machine to the grammar in both directions.
 */
module OtbGrammar {
  import opened Basics

  const ESCAPE: byte := 0xFD
  const START: byte := 0xFE
  const END: byte := 0xFF
  const IDENTIFIER_SIZE := 4
  // identifier, one start marker, one type byte, one end marker
  const MINIMAL_SIZE := 7

  /** A parsed node: its type byte and the half-open range of its raw properties. */
  datatype Tree = Tree(kind: byte, propsBegin: nat, propsEnd: nat, children: seq<Tree>)

  // ----- the grammar -----

  /** A syntax tree. Bytes that follow a child and belong to no child are `junk`:
      the parser reads over them. */
  datatype Form = Form(kind: byte, props: seq<byte>, kids: seq<Kid>)
  datatype Kid = Kid(node: Form, junk: seq<byte>)

  /** No unescaped marker, and no escape without the byte it escapes. */
  predicate Quiet(s: seq<byte>) {
    if s == [] then true
    else if s[0] == ESCAPE then |s| >= 2 && Quiet(s[2..])
    else s[0] != START && s[0] != END && Quiet(s[1..])
  }

  predicate WellFormed(f: Form) {
    Quiet(f.props) && WellFormedKids(f.kids)
  }

  predicate WellFormedKids(ks: seq<Kid>) {
    ks == [] || (WellFormed(ks[0].node) && Quiet(ks[0].junk) && WellFormedKids(ks[1..]))
  }

  /** What follows the type byte of a node, up to and including its end marker. */
  function Body(props: seq<byte>, ks: seq<Kid>): seq<byte>
    decreases ks, 1
  {
    props + KidsText(ks) + [END]
  }

  function Text(f: Form): seq<byte>
    decreases f
  {
    [START, f.kind] + Body(f.props, f.kids)
  }

  function KidsText(ks: seq<Kid>): seq<byte>
    decreases ks, 0
  {
    if ks == [] then [] else Text(ks[0].node) + ks[0].junk + KidsText(ks[1..])
  }

  /** The node a syntax tree stands for when its text begins at offset `i`. */
  function NodeAt(f: Form, i: nat): Tree {
    Tree(f.kind, i + 2, i + 2 + |f.props|, KidsAt(f.kids, i + 2 + |f.props|))
  }

  function KidsAt(ks: seq<Kid>, i: nat): seq<Tree> {
    if ks == [] then []
    else [NodeAt(ks[0].node, i)] + KidsAt(ks[1..], i + |Text(ks[0].node)| + |ks[0].junk|)
  }

  /** `contents` is an identifier, one node, and bytes that carry no marker. */
  ghost predicate Parses(contents: seq<byte>, f: Form, tail: seq<byte>, t: Tree) {
    && |contents| >= IDENTIFIER_SIZE
    && WellFormed(f)
    && Quiet(tail)
    && contents[IDENTIFIER_SIZE..] == Text(f) + tail
    && t == NodeAt(f, IDENTIFIER_SIZE)
  }

  // ----- the machine -----

  /** A node under construction. `end` is set once, when the first child starts. */
  datatype Frame = Frame(kind: byte, begin: nat, end: nat, kids: seq<Tree>)

  datatype Stack = Empty | Push(top: Frame, below: Stack)

  /** The parse stack, and the root once it has been closed. */
  datatype State = State(stack: Stack, root: Option<Tree>)

  /** A node without children ends its properties at the marker seen at `i`. */
  function MarkEnd(fr: Frame, i: nat): Frame {
    if fr.kids == [] then fr.(end := i) else fr
  }

  function Freeze(fr: Frame): Tree {
    Tree(fr.kind, fr.begin, fr.end, fr.kids)
  }

  function Adopt(fr: Frame, t: Tree): Frame {
    fr.(kids := fr.kids + [t])
  }

  /** The state after the node above `below` was closed as `t`. */
  function Attach(below: Stack, t: Tree): State {
    match below
    case Empty => State(Empty, Some(t))
    case Push(top, rest) => State(Push(Adopt(top, t), rest), None)
  }

  /** One turn of the loop at offset `i`: the next offset and state, or None for a
      thrown InvalidOTBFormat. */
  function Turn(s: seq<byte>, i: nat, st: State): Option<(nat, State)>
    requires i < |s|
  {
    if s[i] == START then
      if st.stack == Empty || i + 1 == |s| then None
      else
        Some((i + 2, State(Push(Frame(s[i + 1], i + 2, 0, []), Push(MarkEnd(st.stack.top, i), st.stack.below)),
          st.root)))
    else if s[i] == END then
      if st.stack == Empty then None
      else Some((i + 1, Attach(st.stack.below, Freeze(MarkEnd(st.stack.top, i)))))
    else if s[i] == ESCAPE then
      if i + 1 == |s| then None else Some((i + 2, st))
    else
      Some((i + 1, st))
  }

  function Run(s: seq<byte>, i: nat, st: State): Option<Tree>
    requires i <= |s|
    decreases |s| - i
  {
    if i == |s| then
      if st.stack == Empty then st.root else None
    else
      match Turn(s, i, st)
      case None => None
      case Some((j, st')) => Run(s, j, st')
  }

  /** The state in which the loop is entered, with the root on the stack. */
  function Start(s: seq<byte>): State
    requires |s| > IDENTIFIER_SIZE + 1
  {
    State(Push(Frame(s[IDENTIFIER_SIZE + 1], IDENTIFIER_SIZE + 2, 0, []), Empty), None)
  }

  function Parse(s: seq<byte>): Option<Tree>
    requires |s| > MINIMAL_SIZE
  {
    if s[IDENTIFIER_SIZE] != START then None
    else Run(s, IDENTIFIER_SIZE + 2, Start(s))
  }

  // ----- every text of the grammar is accepted -----

  /** `w` occurs in `s` at offset `i`. */
  predicate At(s: seq<byte>, i: nat, w: seq<byte>) {
    i + |w| <= |s| && s[i..i + |w|] == w
  }

  lemma AtSplit(s: seq<byte>, i: nat, u: seq<byte>, v: seq<byte>)
    requires At(s, i, u + v)
    ensures At(s, i, u) && At(s, i + |u|, v)
  {
    var w := u + v;
    assert w[..|u|] == u && w[|u|..] == v;
    assert s[i..i + |w|][..|u|] == s[i..i + |u|];
    assert s[i..i + |w|][|u|..] == s[i + |u|..i + |u| + |v|];
  }

  lemma AtJoin(s: seq<byte>, i: nat, u: seq<byte>, v: seq<byte>)
    requires At(s, i, u) && At(s, i + |u|, v)
    ensures At(s, i, u + v)
  {
    assert s[i..i + |u| + |v|] == s[i..i + |u|] + s[i + |u|..i + |u| + |v|];
  }

  lemma AtByte(s: seq<byte>, i: nat, w: seq<byte>, k: nat)
    requires At(s, i, w) && k < |w|
    ensures s[i + k] == w[k]
  {
    assert s[i..i + |w|][k] == s[i + k];
  }

  lemma {:induction false} RunQuiet(s: seq<byte>, i: nat, q: seq<byte>, st: State)
    requires At(s, i, q) && Quiet(q)
    ensures Run(s, i, st) == Run(s, i + |q|, st)
    decreases |q|
  {
    if q == [] {
    } else {
      var w := if q[0] == ESCAPE then 2 else 1;
      assert q == q[..w] + q[w..];
      AtSplit(s, i, q[..w], q[w..]);
      AtByte(s, i, q, 0);
      RunQuiet(s, i + w, q[w..], st);
    }
  }

  /** The top frame after the children `ks` were read from `i` on. */
  function Filled(fr: Frame, ks: seq<Kid>, i: nat): Frame {
    if ks == [] then fr else MarkEnd(fr, i).(kids := fr.kids + KidsAt(ks, i))
  }

  /** The node that is closed when its children `ks` begin at `i` and its end marker is at `e`. */
  function Closed(fr: Frame, ks: seq<Kid>, i: nat, e: nat): Tree {
    Freeze(MarkEnd(Filled(fr, ks, i), e))
  }

  lemma FilledStep(fr: Frame, ks: seq<Kid>, i: nat)
    requires ks != []
    ensures Filled(fr, ks, i)
         == Filled(Adopt(MarkEnd(fr, i), NodeAt(ks[0].node, i)), ks[1..], i + |Text(ks[0].node)| + |ks[0].junk|)
  {
    var j := i + |Text(ks[0].node)| + |ks[0].junk|;
    var t := NodeAt(ks[0].node, i);
    assert fr.kids + [t] + KidsAt(ks[1..], j) == fr.kids + ([t] + KidsAt(ks[1..], j));
    if ks[1..] == [] {
      assert fr.kids + [t] + KidsAt(ks[1..], j) == fr.kids + [t];
    }
  }

  lemma StartTurn(s: seq<byte>, i: nat, below: Stack, top: Frame, root: Option<Tree>)
    requires i + 1 < |s| && s[i] == START
    ensures Run(s, i, State(Push(top, below), root))
         == Run(s, i + 2, State(Push(Frame(s[i + 1], i + 2, 0, []), Push(MarkEnd(top, i), below)), root))
  {
  }

  lemma EndTurn(s: seq<byte>, i: nat, below: Stack, top: Frame, root: Option<Tree>)
    requires i < |s| && s[i] == END
    ensures Run(s, i, State(Push(top, below), root)) == Run(s, i + 1, Attach(below, Freeze(MarkEnd(top, i))))
  {
  }

  lemma RunTurn(s: seq<byte>, i: nat, st: State)
    requires i < |s|
    ensures match Turn(s, i, st)
            case None => Run(s, i, st) == None
            case Some((j, st')) => Run(s, i, st) == Run(s, j, st')
  {
  }

  lemma RunAtEnd(s: seq<byte>, st: State)
    ensures Run(s, |s|, st) == if st.stack == Empty then st.root else None
  {
  }

  lemma NodeParts(s: seq<byte>, i: nat, f: Form)
    requires At(s, i, Text(f))
    ensures i + 2 <= |s| && s[i] == START && s[i + 1] == f.kind
    ensures |Text(f)| == 2 + |Body(f.props, f.kids)| && At(s, i + 2, Body(f.props, f.kids))
  {
    AtByte(s, i, Text(f), 0);
    AtByte(s, i, Text(f), 1);
    AtSplit(s, i, [START, f.kind], Body(f.props, f.kids));
  }

  lemma BodyParts(s: seq<byte>, i: nat, q: seq<byte>, ks: seq<Kid>)
    requires At(s, i, Body(q, ks))
    ensures |Body(q, ks)| == |q| + |KidsText(ks)| + 1
    ensures At(s, i, q) && At(s, i + |q|, KidsText(ks))
    ensures i + |Body(q, ks)| <= |s| && s[i + |q| + |KidsText(ks)|] == END
  {
    AtSplit(s, i, q + KidsText(ks), [END]);
    AtSplit(s, i, q, KidsText(ks));
    AtByte(s, i + |q| + |KidsText(ks)|, [END], 0);
  }

  lemma KidsParts(s: seq<byte>, i: nat, ks: seq<Kid>)
    requires ks != [] && At(s, i, KidsText(ks))
    ensures |KidsText(ks)| == |Text(ks[0].node)| + |ks[0].junk| + |KidsText(ks[1..])|
    ensures At(s, i, Text(ks[0].node)) && At(s, i + |Text(ks[0].node)|, ks[0].junk)
    ensures At(s, i + |Text(ks[0].node)| + |ks[0].junk|, KidsText(ks[1..]))
  {
    AtSplit(s, i, Text(ks[0].node) + ks[0].junk, KidsText(ks[1..]));
    AtSplit(s, i, Text(ks[0].node), ks[0].junk);
  }

  lemma {:induction false} RunNode(s: seq<byte>, i: nat, f: Form, below: Stack, top: Frame, root: Option<Tree>)
    requires WellFormed(f) && At(s, i, Text(f))
    ensures Run(s, i, State(Push(top, below), root))
         == Run(s, i + |Text(f)|, State(Push(Adopt(MarkEnd(top, i), NodeAt(f, i)), below), None))
    decreases f
  {
    hide Run;
    NodeParts(s, i, f);
    StartTurn(s, i, below, top, root);
    RunBody(s, i + 2, f.props, f.kids, Push(MarkEnd(top, i), below), Frame(f.kind, i + 2, 0, []), root);
    ClosedIsNode(f, i);
  }

  lemma ClosedIsNode(f: Form, i: nat)
    ensures var m := i + 2 + |f.props|;
            Closed(Frame(f.kind, i + 2, 0, []), f.kids, m, m + |KidsText(f.kids)|) == NodeAt(f, i)
  {
    var m := i + 2 + |f.props|;
    assert [] + KidsAt(f.kids, m) == KidsAt(f.kids, m);
  }

  /** From the properties of the top frame to its end marker. */
  lemma {:induction false} RunBody(s: seq<byte>, i: nat, q: seq<byte>, ks: seq<Kid>, below: Stack, top: Frame,
                                   root: Option<Tree>)
    requires Quiet(q) && WellFormedKids(ks) && At(s, i, Body(q, ks))
    ensures Run(s, i, State(Push(top, below), root))
         == Run(s, i + |Body(q, ks)|, Attach(below, Closed(top, ks, i + |q|, i + |q| + |KidsText(ks)|)))
    decreases ks, 1
  {
    hide Run;
    BodyParts(s, i, q, ks);
    RunQuiet(s, i, q, State(Push(top, below), root));
    RunKids(s, i + |q|, ks, below, top, root);
    EndTurn(s, i + |q| + |KidsText(ks)|, below, Filled(top, ks, i + |q|), if ks == [] then root else None);
  }

  lemma {:induction false} RunKids(s: seq<byte>, i: nat, ks: seq<Kid>, below: Stack, top: Frame, root: Option<Tree>)
    requires WellFormedKids(ks) && At(s, i, KidsText(ks))
    ensures Run(s, i, State(Push(top, below), root))
         == Run(s, i + |KidsText(ks)|, State(Push(Filled(top, ks, i), below), if ks == [] then root else None))
    decreases ks, 0
  {
    hide Run, At, NodeAt, KidsAt, Body;
    if ks == [] {
    } else {
      var f, junk, rest := ks[0].node, ks[0].junk, ks[1..];
      KidsParts(s, i, ks);
      RunNode(s, i, f, below, top, root);
      var top' := Adopt(MarkEnd(top, i), NodeAt(f, i));
      RunQuiet(s, i + |Text(f)|, junk, State(Push(top', below), None));
      RunKids(s, i + |Text(f)| + |junk|, rest, below, top', None);
      FilledStep(top, ks, i);
    }
  }

  // ----- every accepted input is a text of the grammar -----

  /** If the run succeeds with a node open, that node is closed later on, and what
      lies in between is a body of the grammar. */
  lemma {:induction false} FindBody(s: seq<byte>, i: nat, below: Stack, top: Frame, root: Option<Tree>)
    returns (q: seq<byte>, ks: seq<Kid>)
    requires i <= |s| && Run(s, i, State(Push(top, below), root)).Some?
    ensures Quiet(q) && WellFormedKids(ks) && At(s, i, Body(q, ks))
    decreases |s| - i
  {
    if s[i] == START {
      q, ks := FindChild(s, i, below, top, root);
    } else if s[i] == END {
      q, ks := [], [];
      assert Body(q, ks) == [END] && s[i..i + 1] == [END];
    } else {
      var w := if s[i] == ESCAPE then 2 else 1;
      var q1;
      q1, ks := FindBody(s, i + w, below, top, root);
      q := PrependQuiet(s, i, w, q1, ks);
    }
  }

  lemma PrependQuiet(s: seq<byte>, i: nat, w: nat, q1: seq<byte>, ks: seq<Kid>) returns (q: seq<byte>)
    requires i + w <= |s| && At(s, i + w, Body(q1, ks)) && Quiet(q1)
    requires w == (if s[i] == ESCAPE then 2 else 1) && s[i] != START && s[i] != END
    ensures Quiet(q) && At(s, i, Body(q, ks))
  {
    q := s[i..i + w] + q1;
    assert q[w..] == q1;
    AtJoin(s, i, s[i..i + w], Body(q1, ks));
    assert s[i..i + w] + Body(q1, ks) == Body(q, ks);
  }

  /** The case of `FindBody` in which a child starts. */
  lemma {:induction false} FindChild(s: seq<byte>, i: nat, below: Stack, top: Frame, root: Option<Tree>)
    returns (q: seq<byte>, ks: seq<Kid>)
    requires i < |s| && s[i] == START && Run(s, i, State(Push(top, below), root)).Some?
    ensures Quiet(q) && WellFormedKids(ks) && At(s, i, Body(q, ks))
    decreases |s| - i, 0
  {
    StartTurn(s, i, below, top, root);
    var q1, ks1 := FindBody(s, i + 2, Push(MarkEnd(top, i), below), Frame(s[i + 1], i + 2, 0, []), root);
    var f := Form(s[i + 1], q1, ks1);
    JoinNode(s, i, f);
    RunNode(s, i, f, below, top, root);
    var q2, ks2 := FindBody(s, i + |Text(f)|, below, Adopt(MarkEnd(top, i), NodeAt(f, i)), None);
    q, ks := [], [Kid(f, q2)] + ks2;
    JoinKid(s, i, f, q2, ks2);
  }

  lemma JoinNode(s: seq<byte>, i: nat, f: Form)
    requires i + 1 < |s| && s[i] == START && s[i + 1] == f.kind && At(s, i + 2, Body(f.props, f.kids))
    ensures At(s, i, Text(f))
  {
    assert s[i..i + 2] == [START, s[i + 1]];
    AtJoin(s, i, [START, s[i + 1]], Body(f.props, f.kids));
  }

  lemma JoinKid(s: seq<byte>, i: nat, f: Form, junk: seq<byte>, ks: seq<Kid>)
    requires WellFormed(f) && Quiet(junk) && WellFormedKids(ks)
    requires At(s, i, Text(f)) && At(s, i + |Text(f)|, Body(junk, ks))
    ensures WellFormedKids([Kid(f, junk)] + ks) && At(s, i, Body([], [Kid(f, junk)] + ks))
  {
    var all := [Kid(f, junk)] + ks;
    assert all[1..] == ks;
    AtJoin(s, i, Text(f), Body(junk, ks));
    assert Text(f) + Body(junk, ks) == Body([], all);
  }

  /** After the root is closed only quiet bytes may follow. */
  lemma {:induction false} TailIsQuiet(s: seq<byte>, i: nat, root: Option<Tree>)
    requires i <= |s|
    ensures Run(s, i, State(Empty, root)).Some? ==> Quiet(s[i..]) && Run(s, i, State(Empty, root)) == root
    decreases |s| - i
  {
    if i == |s| {
    } else if s[i] == ESCAPE && i + 1 < |s| {
      TailIsQuiet(s, i + 2, root);
      assert s[i..][2..] == s[i + 2..];
    } else if s[i] != START && s[i] != END && s[i] != ESCAPE {
      TailIsQuiet(s, i + 1, root);
      assert s[i..][1..] == s[i + 1..];
    }
  }

  /** Acceptance and the tree built, in both directions: the input must be one node of the
      grammar followed by marker-free bytes, and then the tree is the one it denotes. */
  lemma {:induction false} ParseIffGrammar(s: seq<byte>, t: Tree)
    requires |s| > MINIMAL_SIZE
    ensures Parse(s) == Some(t) <==> exists f, tail :: Parses(s, f, tail, t)
  {
    if Parse(s) == Some(t) {
      var f, tail := ParseSound(s, t);
    }
    forall f, tail | Parses(s, f, tail, t) ensures Parse(s) == Some(t) {
      ParseComplete(s, f, tail);
    }
  }

  lemma AttachLast(t: Tree)
    ensures Attach(Empty, t) == State(Empty, Some(t))
  {
  }

  lemma AtPrefix(s: seq<byte>, i: nat, w: seq<byte>)
    requires At(s, i, w)
    ensures i + |w| <= |s| && s[i..] == w + s[i + |w|..]
  {
    assert s[i..] == s[i..i + |w|] + s[i + |w|..];
  }

  lemma {:induction false} ParseSound(s: seq<byte>, t: Tree) returns (f: Form, tail: seq<byte>)
    requires |s| > MINIMAL_SIZE && Parse(s) == Some(t)
    ensures Parses(s, f, tail, t)
  {
    hide Run, Quiet, KidsText, KidsAt, At, Closed, Attach;
    var k := IDENTIFIER_SIZE;
    var top := Frame(s[k + 1], k + 2, 0, []);
    var q, ks := FindBody(s, k + 2, Empty, top, None);
    f := Form(s[k + 1], q, ks);
    RunBody(s, k + 2, q, ks, Empty, top, None);
    ClosedIsNode(f, k);
    JoinNode(s, k, f);
    var e := k + |Text(f)|;
    AttachLast(NodeAt(f, k));
    AtPrefix(s, k, Text(f));
    TailIsQuiet(s, e, Some(NodeAt(f, k)));
    tail := s[e..];
  }

  lemma {:induction false} ParseComplete(s: seq<byte>, f: Form, tail: seq<byte>)
    requires |s| > MINIMAL_SIZE && WellFormed(f) && Quiet(tail)
    requires s[IDENTIFIER_SIZE..] == Text(f) + tail
    ensures Parse(s) == Some(NodeAt(f, IDENTIFIER_SIZE))
  {
    var k := IDENTIFIER_SIZE;
    var e := k + |Text(f)|;
    assert s[k..k + |Text(f) + tail|] == s[k..];
    AtSplit(s, k, Text(f), tail);
    NodeParts(s, k, f);
    RunBody(s, k + 2, f.props, f.kids, Empty, Frame(f.kind, k + 2, 0, []), None);
    ClosedIsNode(f, k);
    RunQuiet(s, e, tail, State(Empty, Some(NodeAt(f, k))));
  }

  // ----- escaping -----

  predicate IsMarker(b: byte) { b == ESCAPE || b == START || b == END }

  /** How a writer encodes property bytes. */
  function Escaped(p: seq<byte>): seq<byte> {
    if p == [] then []
    else (if IsMarker(p[0]) then [ESCAPE, p[0]] else [p[0]]) + Escaped(p[1..])
  }

  /** `copy_if` with the flag `lastEscaped`, as a function of the flag. */
  function Unescaped(raw: seq<byte>, lastEscaped: bool): seq<byte> {
    if raw == [] then []
    else
      var skip := raw[0] == ESCAPE && !lastEscaped;
      (if skip then [] else [raw[0]]) + Unescaped(raw[1..], skip)
  }

  lemma {:induction false} EscapedIsQuiet(p: seq<byte>)
    ensures Quiet(Escaped(p))
    ensures p == [] <==> Escaped(p) == []
  {
    if p == [] {
    } else {
      EscapedIsQuiet(p[1..]);
      var head := if IsMarker(p[0]) then [ESCAPE, p[0]] else [p[0]];
      assert Escaped(p)[|head|..] == Escaped(p[1..]);
    }
  }

  lemma UnescapeByte(raw: seq<byte>, lastEscaped: bool, rest: seq<byte>)
    requires raw != [] && raw[1..] == rest
    ensures var skip := raw[0] == ESCAPE && !lastEscaped;
            Unescaped(raw, lastEscaped) == (if skip then [] else [raw[0]]) + Unescaped(rest, skip)
  {
  }

  lemma {:induction false} UnescapeInvertsEscape(p: seq<byte>)
    ensures Unescaped(Escaped(p), false) == p
  {
    if p == [] {
    } else {
      UnescapeInvertsEscape(p[1..]);
      var e := Escaped(p);
      var rest := Escaped(p[1..]);
      if IsMarker(p[0]) {
        UnescapeByte(e, false, e[1..]);
        UnescapeByte(e[1..], true, rest);
      } else {
        UnescapeByte(e, false, rest);
      }
    }
  }

  // ----- whole documents -----

  /** A document as a writer holds it: unescaped properties. */
  datatype Doc = Doc(kind: byte, props: seq<byte>, children: seq<Doc>)

  function ToForm(d: Doc): Form { Form(d.kind, Escaped(d.props), ToKids(d.children)) }

  function ToKids(ds: seq<Doc>): seq<Kid> {
    if ds == [] then [] else [Kid(ToForm(ds[0]), [])] + ToKids(ds[1..])
  }

  function Serialize(d: Doc): seq<byte> { Text(ToForm(d)) }

  /** What `getProps` yields: nothing when the property range is empty. */
  function Props(s: seq<byte>, t: Tree): Option<seq<byte>> {
    if t.propsBegin <= t.propsEnd <= |s| && t.propsBegin != t.propsEnd
    then Some(Unescaped(s[t.propsBegin..t.propsEnd], false)) else None
  }

  /** The parsed tree `t` carries the document `d`. */
  predicate Carries(s: seq<byte>, t: Tree, d: Doc) {
    && t.kind == d.kind
    && t.propsBegin <= t.propsEnd <= |s|
    && Props(s, t) == (if d.props == [] then None else Some(d.props))
    && CarriesAll(s, t.children, d.children)
  }

  predicate CarriesAll(s: seq<byte>, ts: seq<Tree>, ds: seq<Doc>) {
    if ds == [] then ts == []
    else ts != [] && Carries(s, ts[0], ds[0]) && CarriesAll(s, ts[1..], ds[1..])
  }

  lemma {:induction false} ToFormWellFormed(d: Doc)
    ensures WellFormed(ToForm(d))
    decreases d
  {
    EscapedIsQuiet(d.props);
    ToKidsWellFormed(d.children);
  }

  lemma {:induction false} ToKidsWellFormed(ds: seq<Doc>)
    ensures WellFormedKids(ToKids(ds))
    decreases ds
  {
    if ds == [] {
    } else {
      ToFormWellFormed(ds[0]);
      ToKidsWellFormed(ds[1..]);
      assert ToKids(ds)[1..] == ToKids(ds[1..]);
    }
  }

  lemma {:induction false} NodeCarries(s: seq<byte>, i: nat, d: Doc)
    requires At(s, i, Serialize(d))
    ensures Carries(s, NodeAt(ToForm(d), i), d)
    decreases d
  {
    hide Quiet, Escaped, Unescaped;
    var f := ToForm(d);
    NodeParts(s, i, f);
    BodyParts(s, i + 2, f.props, f.kids);
    EscapedIsQuiet(d.props);
    UnescapeInvertsEscape(d.props);
    KidsCarry(s, i + 2 + |f.props|, d.children);
  }

  lemma {:induction false} KidsCarry(s: seq<byte>, i: nat, ds: seq<Doc>)
    requires At(s, i, KidsText(ToKids(ds)))
    ensures CarriesAll(s, KidsAt(ToKids(ds), i), ds)
    decreases ds
  {
    if ds == [] {
    } else {
      var ks := ToKids(ds);
      assert ks[1..] == ToKids(ds[1..]);
      assert ks[0].junk == [];
      AtSplit(s, i, Text(ks[0].node) + ks[0].junk, KidsText(ks[1..]));
      assert Text(ks[0].node) + ks[0].junk == Text(ks[0].node);
      NodeCarries(s, i, ds[0]);
      KidsCarry(s, i + |Text(ks[0].node)|, ds[1..]);
      var ts := KidsAt(ks, i);
      assert ts[1..] == KidsAt(ks[1..], i + |Text(ks[0].node)|);
    }
  }

  /** Parsing any serialised document gives it back: the same tree of types, and at every
      node the original properties, or none when they are empty. */
  lemma ParseInvertsSerialize(identifier: seq<byte>, d: Doc)
    requires |identifier| == IDENTIFIER_SIZE && |Serialize(d)| > 3
    ensures var s := identifier + Serialize(d);
            Parse(s).Some? && Carries(s, Parse(s).value, d)
  {
    var s := identifier + Serialize(d);
    ToFormWellFormed(d);
    assert s[IDENTIFIER_SIZE..] == Serialize(d) + [];
    ParseComplete(s, ToForm(d), []);
    assert s[IDENTIFIER_SIZE..IDENTIFIER_SIZE + |Serialize(d)|] == Serialize(d);
    NodeCarries(s, IDENTIFIER_SIZE, d);
  }
}
