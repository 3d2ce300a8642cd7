/**
 * `Loader::parseTree` and `Loader::getProps` as they run: one loop over the file,
 * a stack of pointers to nodes that are filled in place, and children vectors that may
 * move their elements whenever they grow.
 */
module OtbLoader {
  import opened Basics
  import opened OtbGrammar

  const WILDCARD: seq<byte> := [0, 0, 0, 0]

  class Node {
    var kind: byte
    var propsBegin: nat
    var propsEnd: nat
    var children: seq<Node>

    constructor (kind: byte, propsBegin: nat)
      ensures this.kind == kind && this.propsBegin == propsBegin && propsEnd == 0 && children == []
    {
      this.kind, this.propsBegin, propsEnd, children := kind, propsBegin, 0, [];
    }

    /** The same node at another address. */
    constructor Moved(n: Node)
      ensures kind == n.kind && propsBegin == n.propsBegin && propsEnd == n.propsEnd && children == n.children
    {
      kind, propsBegin, propsEnd, children := n.kind, n.propsBegin, n.propsEnd, n.children;
    }
  }

  /** The memory `region` holds the finished tree `t` at `n`. */
  ghost predicate Shows(n: Node, t: Tree, region: set<Node>)
    reads region
    decreases t
  {
    && n in region
    && n.kind == t.kind && n.propsBegin == t.propsBegin && n.propsEnd == t.propsEnd
    && |n.children| == |t.children|
    && forall j :: 0 <= j < |t.children| ==> Shows(n.children[j], t.children[j], region)
  }

  ghost predicate ShowsEach(ns: seq<Node>, ts: seq<Tree>, region: set<Node>)
    reads region
  {
    |ns| == |ts| && forall j :: 0 <= j < |ts| ==> Shows(ns[j], ts[j], region)
  }

  lemma {:induction false} ShowsInLarger(n: Node, t: Tree, region: set<Node>, larger: set<Node>)
    requires Shows(n, t, region) && region <= larger
    ensures Shows(n, t, larger)
    decreases t
  {
    forall j | 0 <= j < |t.children| ensures Shows(n.children[j], t.children[j], larger) {
      ShowsInLarger(n.children[j], t.children[j], region, larger);
    }
  }

  lemma ShowsEachInLarger(ns: seq<Node>, ts: seq<Tree>, region: set<Node>, larger: set<Node>)
    requires ShowsEach(ns, ts, region) && region <= larger
    ensures ShowsEach(ns, ts, larger)
  {
    forall j | 0 <= j < |ts| ensures Shows(ns[j], ts[j], larger) {
      ShowsInLarger(ns[j], ts[j], region, larger);
    }
  }

  /** The node `n` is being built as `fr`; `openChild` holds the child under construction, if any. */
  ghost predicate ShowsFrame(n: Node, fr: Frame, openChild: seq<Node>, region: set<Node>)
    reads n, region
  {
    && n.kind == fr.kind && n.propsBegin == fr.begin && n.propsEnd == fr.end
    && |n.children| == |fr.kids| + |openChild|
    && n.children[|fr.kids|..] == openChild
    && ShowsEach(n.children[..|fr.kids|], fr.kids, region)
  }

  /** The pointers on the parse stack, top last: each points into the children of the one below. */
  ghost predicate ShowsStack(ns: seq<Node>, st: Stack, openChild: seq<Node>, region: set<Node>)
    reads ns, region
    decreases st
  {
    match st
    case Empty => ns == []
    case Push(fr, below) =>
      ns != [] &&
      var n := ns[|ns| - 1];
      && n !in region && n !in ns[..|ns| - 1]
      && ShowsFrame(n, fr, openChild, region)
      && ShowsStack(ns[..|ns| - 1], below, [n], region)
  }

  lemma {:induction false} ShowsStackInLarger(ns: seq<Node>, st: Stack, openChild: seq<Node>, region: set<Node>,
                                              larger: set<Node>)
    requires ShowsStack(ns, st, openChild, region) && region <= larger
    requires forall n :: n in ns ==> n !in larger
    ensures ShowsStack(ns, st, openChild, larger)
    decreases st
  {
    match st
    case Empty =>
    case Push(fr, below) =>
      var n := ns[|ns| - 1];
      ShowsEachInLarger(n.children[..|fr.kids|], fr.kids, region, larger);
      ShowsStackInLarger(ns[..|ns| - 1], below, [n], region, larger);
  }

  class Loader {
    const fileContents: seq<byte>
    const root: Node
    var propBuffer: seq<byte>

    ghost predicate Opened() {
      |fileContents| > MINIMAL_SIZE
    }

    /** Opening a file. None stands for a thrown InvalidOTBFormat. */
    static method Open(contents: seq<byte>, acceptedIdentifier: seq<byte>) returns (r: Option<Loader>)
      requires |acceptedIdentifier| == IDENTIFIER_SIZE
      ensures r.Some? <==> |contents| > MINIMAL_SIZE && contents[..IDENTIFIER_SIZE] in {acceptedIdentifier, WILDCARD}
      ensures r.Some? ==> fresh(r.value) && fresh(r.value.root) && r.value.Opened()
                          && r.value.fileContents == contents && r.value.root.children == []
    {
      if |contents| <= MINIMAL_SIZE {
        return None;
      }
      var fileIdentifier := contents[..IDENTIFIER_SIZE];
      if fileIdentifier != acceptedIdentifier && fileIdentifier != WILDCARD {
        return None;
      }
      var loader := new Loader(contents);
      r := Some(loader);
    }

    constructor (contents: seq<byte>)
      ensures fileContents == contents && root.children == [] && fresh(root)
    {
      fileContents := contents;
      root := new Node(0, 0);
      propBuffer := [];
    }

    /** `emplace_back` on the children of `n`: the vector may move its elements to new
        addresses, so every pointer to an older child is lost. */
    static method EmplaceBack(n: Node, ghost fr: Frame, ghost region: set<Node>, relocate: bool)
      returns (child: Node, ghost grown: set<Node>)
      requires n !in region && ShowsFrame(n, fr, [], region)
      modifies n`children
      ensures fresh(child) && child.children == [] && child.propsEnd == 0
      ensures region <= grown && fresh(grown - region) && child !in grown
      ensures ShowsFrame(n, fr, [child], grown)
    {
      grown := region;
      var moved := [];
      for j := 0 to |n.children|
        invariant |moved| == j && region <= grown && fresh(grown - region)
        invariant forall k :: 0 <= k < j ==> moved[k] in grown
        invariant n.children == old(n.children) && n !in grown
        invariant ShowsEach(moved, fr.kids[..j], grown)
        invariant unchanged(region) && unchanged(n)
      {
        var at := n.children[j];
        if relocate {
          at := new Node.Moved(n.children[j]);
        }
        ghost var larger := grown + {at};
        ShowsEachInLarger(moved, fr.kids[..j], grown, larger);
        ShowsInLarger(n.children[j], fr.kids[j], region, larger);
        assert Shows(at, fr.kids[j], larger);
        assert fr.kids[..j + 1] == fr.kids[..j] + [fr.kids[j]];
        grown, moved := larger, moved + [at];
      }
      assert fr.kids[..|fr.kids|] == fr.kids;
      child := new Node(0, 0);
      n.children := moved + [child];
      assert n.children[..|fr.kids|] == moved && n.children[|fr.kids|..] == [child];
    }

    /** The part of the START case that grows the top node. */
    static method GrowTop(parseStack: seq<Node>, it: nat, ghost st: Stack, ghost region: set<Node>, relocate: bool)
      returns (child: Node, ghost grown: set<Node>)
      requires parseStack != [] && ShowsStack(parseStack, st, [], region)
      requires forall n :: n in parseStack ==> n !in region
      modifies parseStack[|parseStack| - 1]
      ensures fresh(child) && child.children == [] && child.propsEnd == 0
      ensures region <= grown && fresh(grown - region) && child !in grown
      ensures ShowsStack(parseStack, Push(MarkEnd(st.top, it), st.below), [child], grown)
    {
      var currentNode := parseStack[|parseStack| - 1];
      if currentNode.children == [] {
        currentNode.propsEnd := it;
      }
      ghost var lower := parseStack[..|parseStack| - 1];
      child, grown := EmplaceBack(currentNode, MarkEnd(st.top, it), region, relocate);
      ShowsStackInLarger(lower, st.below, [currentNode], region, grown);
    }

    /** The END case: the top node is finished and becomes part of the tree below it. */
    static method CloseTop(parseStack: seq<Node>, it: nat, ghost st: State, ghost region: set<Node>)
      returns (ghost larger: set<Node>)
      requires parseStack != [] && ShowsStack(parseStack, st.stack, [], region)
      requires forall n :: n in parseStack ==> n !in region
      modifies parseStack[|parseStack| - 1]
      ensures larger == region + {parseStack[|parseStack| - 1]}
      ensures var st' := Attach(st.stack.below, Freeze(MarkEnd(st.stack.top, it)));
              && ShowsStack(parseStack[..|parseStack| - 1], st'.stack, [], larger)
              && (st'.stack == Empty ==> Shows(parseStack[|parseStack| - 1], st'.root.value, larger))
    {
      var currentNode := parseStack[|parseStack| - 1];
      if currentNode.children == [] {
        currentNode.propsEnd := it;
      }
      larger := region + {currentNode};
      ghost var fr := MarkEnd(st.stack.top, it);
      ghost var lower := parseStack[..|parseStack| - 1];
      assert currentNode.children[..|fr.kids|] == currentNode.children;
      ShowsEachInLarger(currentNode.children, fr.kids, region, larger);
      assert Shows(currentNode, Freeze(fr), larger);
      if st.stack.below != Empty {
        AdoptOnTop(lower, st.stack.below, currentNode, Freeze(fr), region, larger);
      }
    }

    static lemma AdoptOnTop(ns: seq<Node>, st: Stack, n: Node, t: Tree, region: set<Node>, larger: set<Node>)
      requires st != Empty && ShowsStack(ns, st, [n], region) && region <= larger && Shows(n, t, larger)
      requires forall m :: m in ns ==> m !in larger
      ensures ShowsStack(ns, Push(Adopt(st.top, t), st.below), [], larger)
    {
      var top := ns[|ns| - 1];
      var k := |st.top.kids|;
      ShowsEachInLarger(top.children[..k], st.top.kids, region, larger);
      assert top.children == top.children[..k] + [n];
      assert top.children[..k + 1] == top.children;
      forall j | 0 <= j < k ensures Shows(top.children[j], st.top.kids[j], larger) {
        assert top.children[j] == top.children[..k][j];
      }
      ShowsStackInLarger(ns[..|ns| - 1], st.below, [top], region, larger);
    }

    /** What holds at the head of the loop: the pointers show the machine's state, and the
        machine still computes the answer. */
    ghost predicate LoopState(parseStack: seq<Node>, it: nat, st: State, region: set<Node>)
      requires Opened()
      reads parseStack, region
    {
      && it <= |fileContents|
      && Run(fileContents, it, st) == Parse(fileContents)
      && ShowsStack(parseStack, st.stack, [], region)
      && (forall n :: n in parseStack ==> n !in region)
      && (if parseStack == [] then st.root.Some? && Shows(root, st.root.value, region) else parseStack[0] == root)
    }

    lemma EntersLoop()
      requires Opened() && root.children == [] && root.propsEnd == 0
      requires fileContents[IDENTIFIER_SIZE] == START
      requires root.kind == fileContents[IDENTIFIER_SIZE + 1] && root.propsBegin == IDENTIFIER_SIZE + 2
      ensures LoopState([root], IDENTIFIER_SIZE + 2, Start(fileContents), {})
    {
      var empty: seq<Node> := [];
      assert root.children[..0] == empty && root.children[0..] == empty;
      assert [root][..0] == empty;
    }

    /** The rest of the START case: the child's header, and its pointer on the stack. */
    method PushChild(parseStack: seq<Node>, child: Node, it: nat, ghost before: State, ghost region: set<Node>)
      returns (stack': seq<Node>, ghost st': State)
      requires Opened() && it + 1 < |fileContents| && fileContents[it] == START && before.stack != Empty
      requires Run(fileContents, it, before) == Parse(fileContents)
      requires child !in parseStack && child !in region && child.children == [] && child.propsEnd == 0
      requires parseStack != [] && parseStack[0] == root && forall n :: n in parseStack ==> n !in region
      requires ShowsStack(parseStack, Push(MarkEnd(before.stack.top, it), before.stack.below), [child], region)
      modifies child
      ensures stack' == parseStack + [child] && LoopState(stack', it + 2, st', region)
    {
      child.kind := fileContents[it + 1];
      child.propsBegin := it + 2;
      stack' := parseStack + [child];
      assert stack'[..|stack'| - 1] == parseStack;
      st' := State(Push(Frame(fileContents[it + 1], it + 2, 0, []),
                        Push(MarkEnd(before.stack.top, it), before.stack.below)), before.root);
      StartTurn(fileContents, it, before.stack.below, before.stack.top, before.root);
      assert child.children[..0] == [];
    }

    /** The parser. `relocations` decides at which offsets a growing vector moves. */
    method ParseTree(relocations: nat -> bool) returns (r: Option<Node>, ghost region: set<Node>)
      requires Opened() && root.children == []
      modifies root
      ensures r.Some? <==> Parse(fileContents).Some?
      ensures r.Some? ==> r.value == root && Shows(root, Parse(fileContents).value, region)
    {
      hide Run, Shows, ShowsFrame;
      region := {};
      var it := IDENTIFIER_SIZE;
      if fileContents[it] != START {
        return None, {};
      }
      it := it + 1;
      root.kind := fileContents[it];
      it := it + 1;
      root.propsBegin := it;
      root.propsEnd := 0;
      var parseStack: seq<Node> := [root];
      ghost var st := Start(fileContents);
      EntersLoop();

      while it < |fileContents|
        invariant LoopState(parseStack, it, st, region)
        invariant fresh(region - {root}) && forall n :: n in parseStack ==> n == root || fresh(n)
      {
        RunTurn(fileContents, it, st);
        ghost var was := parseStack;
        if fileContents[it] == START {
          if parseStack == [] {
            return None, {};
          }
          var child;
          assert parseStack[|parseStack| - 1] in parseStack;
          child, region := GrowTop(parseStack, it, st.stack, region, relocations(it));
          if it + 1 == |fileContents| {
            return None, {};
          }
          parseStack, st := PushChild(parseStack, child, it, st, region);
          assert forall n :: n in parseStack ==> n in was || n == child;
          it := it + 1;
        } else if fileContents[it] == END {
          if parseStack == [] {
            return None, {};
          }
          assert parseStack[|parseStack| - 1] in parseStack;
          region := CloseTop(parseStack, it, st, region);
          st := Attach(st.stack.below, Freeze(MarkEnd(st.stack.top, it)));
          parseStack := parseStack[..|parseStack| - 1];
          assert forall n :: n in parseStack ==> n in was;
        } else if fileContents[it] == ESCAPE {
          it := it + 1;
          if it == |fileContents| {
            return None, {};
          }
        }
        it := it + 1;
      }
      RunAtEnd(fileContents, st);
      if parseStack != [] {
        return None, {};
      }
      r := Some(root);
    }

    /** The raw properties of a node without their escapes; false when there are none. */
    method GetProps(node: Node) returns (ok: bool)
      requires node.propsBegin <= node.propsEnd <= |fileContents|
      modifies this
      ensures ok <==> node.propsBegin != node.propsEnd
      ensures ok ==> propBuffer == Unescaped(fileContents[node.propsBegin..node.propsEnd], false)
      ensures !ok ==> propBuffer == old(propBuffer)
    {
      if node.propsEnd - node.propsBegin == 0 {
        return false;
      }
      propBuffer := [];
      var lastEscaped := false;
      var raw := fileContents[node.propsBegin..node.propsEnd];
      for k := 0 to |raw|
        invariant propBuffer + Unescaped(raw[k..], lastEscaped) == Unescaped(raw, false)
      {
        UnescapeNext(propBuffer, raw, k, lastEscaped);
        lastEscaped := raw[k] == ESCAPE && !lastEscaped;
        if !lastEscaped {
          propBuffer := propBuffer + [raw[k]];
        }
      }
      assert raw[|raw|..] == [];
      ok := true;
    }

    static lemma UnescapeNext(buffer: seq<byte>, raw: seq<byte>, k: nat, lastEscaped: bool)
      requires k < |raw|
      ensures buffer + Unescaped(raw[k..], lastEscaped)
           == (if raw[k] == ESCAPE && !lastEscaped then buffer else buffer + [raw[k]])
            + Unescaped(raw[k + 1..], raw[k] == ESCAPE && !lastEscaped)
    {
      UnescapeByte(raw[k..], lastEscaped, raw[k + 1..]);
    }
  }
}
