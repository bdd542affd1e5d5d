/**
 Decoded responses as mutable trees, and the deep copy by which the market-data client keeps its own
 (coinglass_production.py hands out and stores deep copies).
 */
module Payloads {
  /** What a response says, as a value. */
  datatype Tree = Tree(tag: int, kids: seq<Tree>)

  /** A node of a decoded response; callers may change it and everything below it. */
  class Node {
    var tag: int
    var kids: seq<Node>
    ghost var repr: set<Node>

    /** The node and everything below it form a tree within repr. */
    ghost predicate Valid()
      reads this, repr
      decreases repr
    {
      && this in repr
      && forall k :: 0 <= k < |kids| ==>
           kids[k] in repr && kids[k].repr < repr && this !in kids[k].repr && kids[k].Valid()
    }

    ghost function Value(): Tree
      requires Valid()
      reads this, repr
      decreases repr
    {
      Tree(tag, seq(|kids|, k requires 0 <= k < |kids| reads this, repr requires Valid() => kids[k].Value()))
    }

    /** The other tree has the same tags and the same shape, all the way down. */
    ghost predicate Mirrors(other: Node)
      requires Valid() && other.Valid()
      reads this, repr, other, other.repr
      decreases repr
    {
      && tag == other.tag && |kids| == |other.kids|
      && forall k :: 0 <= k < |kids| ==> kids[k].Mirrors(other.kids[k])
    }

    /** Which is what having the same value means. */
    lemma MirrorsIff(other: Node)
      requires Valid() && other.Valid()
      ensures Mirrors(other) <==> Value() == other.Value()
      decreases repr
    {
      forall k | 0 <= k < |kids| && |kids| == |other.kids|
        ensures kids[k].Mirrors(other.kids[k]) <==> Value().kids[k] == other.Value().kids[k]
      {
        kids[k].MirrorsIff(other.kids[k]);
      }
    }

    constructor (tag: int, kids: seq<Node>, ghost below: set<Node>)
      requires forall k :: 0 <= k < |kids| ==> kids[k].Valid() && kids[k].repr <= below
      ensures Valid() && this.tag == tag && this.kids == kids && repr == below + {this}
    {
      this.tag, this.kids, this.repr := tag, kids, below + {this};
    }

    /** A copy that shares nothing with the original. */
    method DeepCopy() returns (copy: Node)
      requires Valid()
      ensures copy.Valid() && fresh(copy.repr) && copy.Value() == Value()
      decreases repr
    {
      var copies: seq<Node> := [];
      ghost var below: set<Node> := {};
      for n := 0 to |kids|
        invariant |copies| == n && fresh(below)
        invariant forall k :: 0 <= k < n ==>
                    copies[k].Valid() && copies[k].repr <= below && copies[k].Value() == kids[k].Value()
      {
        var c := kids[n].DeepCopy();
        copies := copies + [c];
        below := below + c.repr;
      }
      copy := new Node(tag, copies, below);
      assert copy.Value().kids == Value().kids;
    }
  }
}
