/** Linearisation of an element tree into one path-string per leaf:
    `tag SEP tag SEP ... SEP tag SEP value`. */
module Traversal {

  import opened Results
  import opened Text

  /** An element of an already parsed document: its tag, its text (absent for an empty
      element) and its child elements in document order. The text of an element that
      has children is never read. */
  datatype Node = Node(tag: string, text: Option<string>, children: seq<Node>)

  predicate IsLeaf(n: Node)
  {
    |n.children| == 0
  }

  /** `"{}".format(node.text)`: an element without text yields the word `None`. */
  function TextOf(n: Node): string
  {
    match n.text
    case Some(t) => t
    case None => "None"
  }

  /** Prepends `p` to every string of `xs`. */
  function PrefixAll(p: string, xs: seq<string>): (r: seq<string>)
    ensures |r| == |xs| && forall i :: 0 <= i < |xs| ==> r[i] == p + xs[i]
  {
    seq(|xs|, i requires 0 <= i < |xs| => p + xs[i])
  }

  /** `traverse_node(nodes)`: a leaf gives `tag + sep + text`; an element with children
      gives `tag + sep + s` for every string `s` its children give. */
  function Traverse(nodes: seq<Node>, sep: string): (r: seq<string>)
    ensures |r| == LeafCount(nodes)
    decreases nodes
  {
    if |nodes| == 0 then []
    else TraverseOne(nodes[0], sep) + Traverse(nodes[1..], sep)
  }

  function TraverseOne(n: Node, sep: string): (r: seq<string>)
    ensures |r| == if IsLeaf(n) then 1 else LeafCount(n.children)
    decreases n
  {
    if !IsLeaf(n) then PrefixAll(n.tag + sep, Traverse(n.children, sep))
    else [n.tag + sep + TextOf(n)]
  }

  /** The leaves in pre-order, left to right, each as its path: the tags from the
      top-level element down to the leaf, then the leaf's text. */
  function Paths(nodes: seq<Node>): (ps: seq<seq<string>>)
    ensures |ps| == LeafCount(nodes)
    ensures forall i :: 0 <= i < |ps| ==> |ps[i]| >= 2
    decreases nodes
  {
    if |nodes| == 0 then []
    else PathsOne(nodes[0]) + Paths(nodes[1..])
  }

  function PathsOne(n: Node): (ps: seq<seq<string>>)
    ensures |ps| == if IsLeaf(n) then 1 else LeafCount(n.children)
    ensures forall i :: 0 <= i < |ps| ==> |ps[i]| >= 2
    decreases n
  {
    if !IsLeaf(n) then
      var below := Paths(n.children);
      seq(|below|, i requires 0 <= i < |below| => [n.tag] + below[i])
    else [[n.tag, TextOf(n)]]
  }

  /** The number of leaves. */
  function LeafCount(nodes: seq<Node>): nat
    decreases nodes
  {
    if |nodes| == 0 then 0
    else (if IsLeaf(nodes[0]) then 1 else LeafCount(nodes[0].children)) + LeafCount(nodes[1..])
  }

  lemma {:induction false} LeafCountPositive(nodes: seq<Node>)
    requires |nodes| > 0
    ensures LeafCount(nodes) > 0
    decreases nodes
  {
    if !IsLeaf(nodes[0]) { LeafCountPositive(nodes[0].children); }
  }

  /** Every tag and every leaf text of the tree can stand between separators. */
  predicate Clean(nodes: seq<Node>, sep: string)
    requires |sep| > 0
    decreases nodes
  {
    |nodes| == 0 || (CleanOne(nodes[0], sep) && Clean(nodes[1..], sep))
  }

  predicate CleanOne(n: Node, sep: string)
    requires |sep| > 0
    decreases n
  {
    Free(n.tag, sep) && (if IsLeaf(n) then !Contains(TextOf(n), sep) else Clean(n.children, sep))
  }

  /** `traverse_node` emits exactly one string per leaf, in pre-order, and each string is
      the join of that leaf's path with the separator. */
  lemma {:induction false} TraverseJoinsPaths(nodes: seq<Node>, sep: string)
    ensures |Traverse(nodes, sep)| == |Paths(nodes)| == LeafCount(nodes)
    ensures forall i :: 0 <= i < |Paths(nodes)| ==> Traverse(nodes, sep)[i] == Join(Paths(nodes)[i], sep)
    decreases nodes
  {
    if |nodes| > 0 {
      TraverseOneJoinsPaths(nodes[0], sep);
      TraverseJoinsPaths(nodes[1..], sep);
      var a, b := TraverseOne(nodes[0], sep), Traverse(nodes[1..], sep);
      var pa, pb := PathsOne(nodes[0]), Paths(nodes[1..]);
      forall i | 0 <= i < |pa + pb| ensures (a + b)[i] == Join((pa + pb)[i], sep) {
        if i >= |pa| { assert (a + b)[i] == b[i - |a|] && (pa + pb)[i] == pb[i - |pa|]; }
      }
    }
  }

  lemma {:induction false} TraverseOneJoinsPaths(n: Node, sep: string)
    ensures |TraverseOne(n, sep)| == |PathsOne(n)|
    ensures forall i :: 0 <= i < |PathsOne(n)| ==> TraverseOne(n, sep)[i] == Join(PathsOne(n)[i], sep)
    decreases n
  {
    if !IsLeaf(n) {
      TraverseJoinsPaths(n.children, sep);
      var below := Paths(n.children);
      forall i | 0 <= i < |below| ensures TraverseOne(n, sep)[i] == Join([n.tag] + below[i], sep) {
        assert ([n.tag] + below[i])[1..] == below[i];
      }
    } else {
      assert [n.tag, TextOf(n)][1..] == [TextOf(n)];
    }
  }

  /** Every path of a clean tree is splittable: all its tags are free and its text holds
      no separator. */
  lemma {:induction false} CleanPathsSplittable(nodes: seq<Node>, sep: string)
    requires |sep| > 0 && Clean(nodes, sep)
    ensures forall i :: 0 <= i < |Paths(nodes)| ==> Splittable(Paths(nodes)[i], sep)
    decreases nodes
  {
    if |nodes| > 0 {
      CleanPathsSplittableOne(nodes[0], sep);
      CleanPathsSplittable(nodes[1..], sep);
      var pa, pb := PathsOne(nodes[0]), Paths(nodes[1..]);
      forall i | 0 <= i < |pa + pb| ensures Splittable((pa + pb)[i], sep) {
        if i >= |pa| { assert (pa + pb)[i] == pb[i - |pa|]; }
      }
    }
  }

  lemma {:induction false} CleanPathsSplittableOne(n: Node, sep: string)
    requires |sep| > 0 && CleanOne(n, sep)
    ensures forall i :: 0 <= i < |PathsOne(n)| ==> Splittable(PathsOne(n)[i], sep)
    decreases n
  {
    if !IsLeaf(n) {
      CleanPathsSplittable(n.children, sep);
      var below := Paths(n.children);
      forall i | 0 <= i < |below| ensures Splittable([n.tag] + below[i], sep) {
        var p := [n.tag] + below[i];
        assert AllButLast(p) == [n.tag] + AllButLast(below[i]);
        assert Last(p) == Last(below[i]);
        forall j | 0 <= j < |AllButLast(p)| ensures Free(AllButLast(p)[j], sep) {
          if j > 0 { assert AllButLast(p)[j] == AllButLast(below[i])[j - 1]; }
        }
      }
    } else {
      assert AllButLast([n.tag, TextOf(n)]) == [n.tag];
    }
  }

  /** For a clean tree, splitting each string of `traverse_node` on the separator gives
      back its leaf's path, so its separator count is the number of tags on that path,
      i.e. the leaf's depth counting the top-level elements as depth 1. */
  lemma {:induction false} TraverseSplitsIntoPaths(nodes: seq<Node>, sep: string)
    requires |sep| > 0 && Clean(nodes, sep)
    ensures |Traverse(nodes, sep)| == |Paths(nodes)|
    ensures forall i :: 0 <= i < |Paths(nodes)| ==>
      Split(Traverse(nodes, sep)[i], sep) == Paths(nodes)[i] &&
      Count(Traverse(nodes, sep)[i], sep) == |Paths(nodes)[i]| - 1
  {
    TraverseJoinsPaths(nodes, sep);
    CleanPathsSplittable(nodes, sep);
    forall i | 0 <= i < |Paths(nodes)|
      ensures Split(Traverse(nodes, sep)[i], sep) == Paths(nodes)[i]
      ensures Count(Traverse(nodes, sep)[i], sep) == |Paths(nodes)[i]| - 1
    {
      SplitJoin(Paths(nodes)[i], sep);
    }
  }

  /** Every string `traverse_node` emits holds the separator: it starts with a tag
      followed by the separator. */
  lemma {:induction false} TraverseHasSeparator(nodes: seq<Node>, sep: string)
    ensures forall i :: 0 <= i < |Traverse(nodes, sep)| ==> Contains(Traverse(nodes, sep)[i], sep)
    decreases nodes
  {
    if |nodes| > 0 {
      var n := nodes[0];
      var a, b := TraverseOne(n, sep), Traverse(nodes[1..], sep);
      TraverseHasSeparator(nodes[1..], sep);
      forall i | 0 <= i < |a| ensures Contains(a[i], sep) {
        if !IsLeaf(n) {
          ContainsAfter(n.tag, sep, Traverse(n.children, sep)[i]);
        } else {
          ContainsAfter(n.tag, sep, TextOf(n));
        }
      }
      forall i | 0 <= i < |a + b| ensures Contains((a + b)[i], sep) {
        if i >= |a| { assert (a + b)[i] == b[i - |a|]; }
      }
    }
  }
}
