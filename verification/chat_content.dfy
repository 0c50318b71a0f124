/** The tree of a chat answer, whose citations are rewritten in place. */
module ChatContent {
  import opened Common
  import opened LinkText
  import opened DocumentLinks

  datatype Kind = Link | Definition | Other

  class Node {
    const kind: Kind
    const children: seq<Node>
    var url: Text
    ghost const depth: nat
    ghost const all: set<Node>

    constructor (kind: Kind, url: Text, children: seq<Node>)
      requires forall c | c in children :: c.Tree()
      requires forall i, j | 0 <= i < j < |children| :: children[i].all !! children[j].all
      requires forall n | n in Below(children) :: allocated(n)
      ensures Tree() && this.kind == kind && this.url == url && this.children == children
      ensures all == {this} + Below(children)
    {
      this.kind, this.url, this.children := kind, url, children;
      depth := 1 + Deepest(children);
      all := {this} + Below(children);
      new;
      DeepestBounds(children);
    }

    /** A parsed tree: no node is reached twice. */
    ghost predicate Tree()
      decreases depth
    {
      && all == {this} + Below(children) && this !in Below(children)
      && (forall c | c in children :: c.depth < depth && c.Tree())
      && (forall i, j | 0 <= i < j < |children| :: children[i].all !! children[j].all)
    }

    method Retarget(net: Net)
      modifies this`url
      ensures url == if kind.Other? then old(url) else Rewrite(old(url), net)
    {
      if kind.Link? || kind.Definition? {
        if !(url != [] && url[0] == '#') && !(HasScheme(url) || TwoSlashes(url)) {
          var path := DocumentLink([], url, net);
          if path.Some? { url := ['/'] + Join(EncodeAll(Split(path.value))); }
        }
      }
    }

    /** `visit`: each local citation in the tree is rewritten, exactly once. */
    method Visit(net: Net)
      requires Tree()
      modifies all
      ensures forall n | n in all ::
        n.url == if n.kind.Other? then old(n.url) else Rewrite(old(n.url), net)
      decreases depth
    {
      Retarget(net);
      forall j | 0 <= j < |children| ensures this !in children[j].all && children[j].all <= all {
        BelowHas(children, j);
      }
      for i := 0 to |children|
        invariant url == if kind.Other? then old(url) else Rewrite(old(url), net)
        invariant forall j, n | 0 <= j < i && n in children[j].all ::
          n.url == if n.kind.Other? then old(n.url) else Rewrite(old(n.url), net)
        invariant forall j, n | i <= j < |children| && n in children[j].all :: n.url == old(n.url)
      {
        children[i].Visit(net);
      }
      forall n | n in all && n != this
        ensures n.url == if n.kind.Other? then old(n.url) else Rewrite(old(n.url), net)
      {
        BelowMeans(children, n);
      }
    }
  }

  ghost function Below(nodes: seq<Node>): set<Node> {
    if nodes == [] then {} else Below(nodes[..|nodes| - 1]) + nodes[|nodes| - 1].all
  }

  ghost function Deepest(nodes: seq<Node>): nat {
    if nodes == [] then 0
    else
      var rest := Deepest(nodes[..|nodes| - 1]);
      if rest < nodes[|nodes| - 1].depth then nodes[|nodes| - 1].depth else rest
  }

  lemma {:induction false} DeepestBounds(nodes: seq<Node>)
    ensures forall c | c in nodes :: c.depth <= Deepest(nodes)
  {
    if nodes != [] {
      DeepestBounds(nodes[..|nodes| - 1]);
      forall c | c in nodes ensures c.depth <= Deepest(nodes) {
        assert c in nodes[..|nodes| - 1] || c == nodes[|nodes| - 1];
      }
    }
  }

  lemma {:induction false} BelowHas(nodes: seq<Node>, i: nat)
    requires i < |nodes|
    ensures nodes[i].all <= Below(nodes)
  {
    if i < |nodes| - 1 { BelowHas(nodes[..|nodes| - 1], i); }
  }

  lemma {:induction false} BelowMeans(nodes: seq<Node>, n: Node)
    requires n in Below(nodes)
    ensures exists i :: 0 <= i < |nodes| && n in nodes[i].all
  {
    if n !in nodes[|nodes| - 1].all { BelowMeans(nodes[..|nodes| - 1], n); }
  }
}
