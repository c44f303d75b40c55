/** Expiring address ranges in an interval tree (node/data/request_match_list.h). */
module MatchList {
  // Ranges are sorted and merged, and an interval tree in one vector answers membership.
  // Addresses are unsigned numbers of 32 or 128 bits; the source compares their bytes from the
  // most significant one, which is the same order.

  import opened Wrappers

  datatype Range = Range(first: nat, last: nat, expires: nat)

  predicate Hit(r: Range, address: nat, now: nat) { r.first <= address <= r.last && r.expires > now }

  /** The linear scan that the tree has to agree with. */
  ghost predicate AnyHit(ranges: seq<Range>, lo: nat, hi: nat, address: nat, now: nat)
    requires lo <= hi <= |ranges|
  {
    exists i :: lo <= i < hi && Hit(ranges[i], address, now)
  }

  ghost predicate Scan(ranges: seq<Range>, address: nat, now: nat) { AnyHit(ranges, 0, |ranges|, address, now) }

  predicate Sorted(ranges: seq<Range>) { forall i, j :: 0 <= i < j < |ranges| ==> ranges[i].first <= ranges[j].first }

  // ---------------------------------------------------------------------------
  // Sorting and merging
  // ---------------------------------------------------------------------------

  lemma SortedCons(x: Range, s: seq<Range>)
    requires Sorted(s) && forall y :: y in s ==> x.first <= y.first
    ensures Sorted([x] + s)
  {
    var all := [x] + s;
    forall i, j | 0 <= i < j < |all| ensures all[i].first <= all[j].first { assert all[j] in s; }
  }

  function InsertRange(s: seq<Range>, x: Range): (r: seq<Range>)
    requires Sorted(s)
    ensures Sorted(r) && |r| == |s| + 1 && forall y :: y in r <==> y in s || y == x
  {
    if s == [] then [x]
    else if x.first <= s[0].first then SortedCons(x, s); [x] + s
    else var rest := InsertRange(s[1..], x); SortedCons(s[0], rest); [s[0]] + rest
  }

  function SortRanges(s: seq<Range>): (r: seq<Range>)
    ensures Sorted(r) && |r| == |s| && forall y :: y in r <==> y in s
  {
    if s == [] then [] else InsertRange(SortRanges(s[1..]), s[0])
  }

  lemma ScanByMembers(a: seq<Range>, b: seq<Range>, address: nat, now: nat)
    requires forall y :: y in a <==> y in b
    ensures Scan(a, address, now) <==> Scan(b, address, now)
  {
    if Scan(a, address, now) {
      var i :| 0 <= i < |a| && Hit(a[i], address, now);
      assert a[i] in b;
    }
    if Scan(b, address, now) {
      var i :| 0 <= i < |b| && Hit(b[i], address, now);
      assert b[i] in a;
    }
  }

  lemma ScanAppend(s: seq<Range>, x: Range, address: nat, now: nat)
    ensures Scan(s + [x], address, now) <==> Scan(s, address, now) || Hit(x, address, now)
  {
    var all := s + [x];
    if Scan(all, address, now) {
      var i :| 0 <= i < |all| && Hit(all[i], address, now);
      if i < |s| { assert Hit(s[i], address, now); }
    }
    if Scan(s, address, now) {
      var i :| 0 <= i < |s| && Hit(s[i], address, now);
      assert Hit(all[i], address, now);
    }
    if Hit(x, address, now) { assert Hit(all[|s|], address, now); }
  }

  /** Merging overlapping ranges of one expiry covers the same addresses at every time. */
  method Merge(ranges: seq<Range>) returns (merged: seq<Range>)
    requires Sorted(ranges)
    ensures Sorted(merged) && |merged| <= |ranges|
    ensures forall address, now :: Scan(merged, address, now) <==> Scan(ranges, address, now)
  {
    merged := [];
    var i := 0;
    while i < |ranges|
      invariant 0 <= i <= |ranges| && Sorted(merged) && |merged| <= i
      invariant forall x :: x in merged ==> forall j :: i <= j < |ranges| ==> x.first <= ranges[j].first
      invariant forall address, now :: Scan(merged, address, now) <==> Scan(ranges[..i], address, now)
    {
      var item := ranges[i];
      ghost var before := merged;
      assert ranges[..i + 1] == ranges[..i] + [item];
      if merged != [] && item.expires == merged[|merged| - 1].expires && item.first <= merged[|merged| - 1].last {
        var back := merged[|merged| - 1];
        assert back in merged;
        ghost var rest := merged[..|merged| - 1];
        var joined := back.(last := Max(back.last, item.last));
        merged := merged[..|merged| - 1] + [joined];
        assert before == rest + [back];
        forall address, now ensures Scan(merged, address, now) <==> Scan(ranges[..i + 1], address, now) {
          ScanAppend(rest, joined, address, now);
          ScanAppend(rest, back, address, now);
          ScanAppend(ranges[..i], item, address, now);
        }
      } else {
        merged := merged + [item];
        forall address, now ensures Scan(merged, address, now) <==> Scan(ranges[..i + 1], address, now) {
          ScanAppend(before, item, address, now);
          ScanAppend(ranges[..i], item, address, now);
        }
        SortedAppend(before, item);
      }
      i := i + 1;
    }
    assert ranges[..i] == ranges;
  }

  lemma SortedAppend(s: seq<Range>, x: Range)
    requires Sorted(s) && forall y :: y in s ==> y.first <= x.first
    ensures Sorted(s + [x])
  {
    var all := s + [x];
    forall i, j | 0 <= i < j < |all| ensures all[i].first <= all[j].first { if j == |s| { assert all[i] in s; } }
  }

  // ---------------------------------------------------------------------------
  // The tree
  // ---------------------------------------------------------------------------

  /** A child index, or the source's "no node" value. */
  datatype Link = NoNode | At(index: nat)

  datatype Node = Node(value: Range, maximumEnd: nat, maximumExpiry: nat, left: Link, right: Link)

  /** Children come after their parent in the vector. */
  predicate Forward(tree: seq<Node>) {
    forall i :: 0 <= i < |tree| ==>
      (tree[i].left.At? ==> i < tree[i].left.index < |tree|) && (tree[i].right.At? ==> i < tree[i].right.index < |tree|)
  }

  /** The subtree at `link` holds exactly ranges[lo..hi], split in the middle, under upper bounds of
      end and expiry. */
  ghost predicate Subtree(tree: seq<Node>, link: Link, ranges: seq<Range>, lo: nat, hi: nat)
    requires lo <= hi <= |ranges|
    decreases hi - lo
  {
    if lo == hi then link == NoNode
    else
      var middle := lo + (hi - lo) / 2;
      && link.At? && link.index < |tree|
      && tree[link.index].value == ranges[middle]
      && Subtree(tree, tree[link.index].left, ranges, lo, middle)
      && Subtree(tree, tree[link.index].right, ranges, middle + 1, hi)
      && (forall i :: lo <= i < hi ==> ranges[i].last <= tree[link.index].maximumEnd && ranges[i].expires <= tree[link.index].maximumExpiry)
  }

  /** in_tree: prune by the two maxima, then left, then the node and the right. */
  predicate InTree(tree: seq<Node>, link: Link, address: nat, now: nat)
    requires Forward(tree) && (link.At? ==> link.index < |tree|)
    decreases if link.At? then |tree| - link.index else 0
  {
    if link.NoNode? then false
    else
      var node := tree[link.index];
      if node.maximumEnd < address || node.maximumExpiry <= now then false
      else if InTree(tree, node.left, address, now) then true
      else if node.value.first > address then false
      else (address <= node.value.last && node.value.expires > now) || InTree(tree, node.right, address, now)
  }

  lemma AnyHitSplit(ranges: seq<Range>, lo: nat, middle: nat, hi: nat, address: nat, now: nat)
    requires lo <= middle < hi <= |ranges|
    ensures AnyHit(ranges, lo, hi, address, now) <==>
              AnyHit(ranges, lo, middle, address, now) || Hit(ranges[middle], address, now) || AnyHit(ranges, middle + 1, hi, address, now)
  {
  }

  /** The tree refines the linear scan. */
  lemma {:induction false} InTreeIsScan(tree: seq<Node>, link: Link, ranges: seq<Range>, lo: nat, hi: nat, address: nat, now: nat)
    requires lo <= hi <= |ranges| && Sorted(ranges) && Forward(tree) && Subtree(tree, link, ranges, lo, hi)
    ensures InTree(tree, link, address, now) <==> AnyHit(ranges, lo, hi, address, now)
    decreases hi - lo
  {
    if lo < hi {
      var middle := lo + (hi - lo) / 2;
      var node := tree[link.index];
      AnyHitSplit(ranges, lo, middle, hi, address, now);
      InTreeIsScan(tree, node.left, ranges, lo, middle, address, now);
      InTreeIsScan(tree, node.right, ranges, middle + 1, hi, address, now);
    }
  }

  /** A tree only ever grows at its end or in the node under construction. */
  lemma {:induction false} SubtreeKept(tree: seq<Node>, next: seq<Node>, link: Link, ranges: seq<Range>, lo: nat, hi: nat, from: nat)
    requires lo <= hi <= |ranges| && Forward(tree) && Subtree(tree, link, ranges, lo, hi)
    requires |tree| <= |next| && (link.At? ==> from <= link.index)
    requires forall i :: from <= i < |tree| ==> next[i] == tree[i]
    ensures Subtree(next, link, ranges, lo, hi)
    decreases hi - lo
  {
    if lo < hi {
      var middle := lo + (hi - lo) / 2;
      SubtreeKept(tree, next, tree[link.index].left, ranges, lo, middle, from);
      SubtreeKept(tree, next, tree[link.index].right, ranges, middle + 1, hi, from);
    }
  }

  /** The root of a subtree whose children are in place. */
  function Joined(value: Range, tree: seq<Node>, left: Link, right: Link): (node: Node)
    requires (left.At? ==> left.index < |tree|) && (right.At? ==> right.index < |tree|)
    ensures node.value == value && node.left == left && node.right == right
    ensures value.last <= node.maximumEnd && value.expires <= node.maximumExpiry
    ensures left.At? ==> tree[left.index].maximumEnd <= node.maximumEnd && tree[left.index].maximumExpiry <= node.maximumExpiry
    ensures right.At? ==> tree[right.index].maximumEnd <= node.maximumEnd && tree[right.index].maximumExpiry <= node.maximumExpiry
  {
    var own := Node(value, value.last, value.expires, left, right);
    var withLeft :=
      if left.At? then own.(maximumEnd := Max(own.maximumEnd, tree[left.index].maximumEnd),
                            maximumExpiry := Max(own.maximumExpiry, tree[left.index].maximumExpiry))
      else own;
    if right.At? then withLeft.(maximumEnd := Max(withLeft.maximumEnd, tree[right.index].maximumEnd),
                                maximumExpiry := Max(withLeft.maximumExpiry, tree[right.index].maximumExpiry))
    else withLeft
  }

  lemma ChildMaxima(tree: seq<Node>, link: Link, ranges: seq<Range>, lo: nat, hi: nat)
    requires lo <= hi <= |ranges| && Subtree(tree, link, ranges, lo, hi)
    ensures lo < hi ==> link.At? && link.index < |tree|
    ensures link.At? ==>
              forall i :: lo <= i < hi ==> ranges[i].last <= tree[link.index].maximumEnd && ranges[i].expires <= tree[link.index].maximumExpiry
  {
  }

  lemma JoinedIsSubtree(tree: seq<Node>, index: nat, ranges: seq<Range>, lo: nat, hi: nat, left: Link, right: Link)
    requires lo < hi <= |ranges| && Forward(tree) && index < |tree|
    requires (left.At? ==> index < left.index < |tree|) && (right.At? ==> index < right.index < |tree|)
    requires Subtree(tree, left, ranges, lo, lo + (hi - lo) / 2) && Subtree(tree, right, ranges, lo + (hi - lo) / 2 + 1, hi)
    ensures var next := tree[index := Joined(ranges[lo + (hi - lo) / 2], tree, left, right)];
            Forward(next) && Subtree(next, At(index), ranges, lo, hi)
  {
    var middle := lo + (hi - lo) / 2;
    var node := Joined(ranges[middle], tree, left, right);
    var next := tree[index := node];
    ChildMaxima(tree, left, ranges, lo, middle);
    ChildMaxima(tree, right, ranges, middle + 1, hi);
    SubtreeKept(tree, next, left, ranges, lo, middle, index + 1);
    SubtreeKept(tree, next, right, ranges, middle + 1, hi, index + 1);
    forall i | lo <= i < hi ensures ranges[i].last <= node.maximumEnd && ranges[i].expires <= node.maximumExpiry {
      if i < middle { assert ranges[i].last <= tree[left.index].maximumEnd; }
      if middle < i { assert ranges[i].last <= tree[right.index].maximumEnd; }
    }
  }

  /** build_tree: the node is pushed first, its children after it, then it is completed in place. */
  method BuildTree(ranges: seq<Range>, grown: seq<Node>, lo: nat, hi: nat) returns (tree: seq<Node>, link: Link)
    requires lo <= hi <= |ranges| && Forward(grown)
    ensures Forward(tree) && grown <= tree && Subtree(tree, link, ranges, lo, hi)
    ensures |tree| == |grown| + (hi - lo)
    ensures link == if lo == hi then NoNode else At(|grown|)
    decreases hi - lo
  {
    if lo == hi {
      return grown, NoNode;
    }
    var middle, index := lo + (hi - lo) / 2, |grown|;
    var value := ranges[middle];
    var left, right;
    tree := grown + [Node(value, value.last, value.expires, NoNode, NoNode)];
    tree, left := BuildTree(ranges, tree, lo, middle);
    ghost var half := tree;
    tree, right := BuildTree(ranges, tree, middle + 1, hi);
    SubtreeKept(half, tree, left, ranges, lo, middle, index + 1);
    JoinedIsSubtree(tree, index, ranges, lo, hi, left, right);
    tree := tree[index := Joined(value, tree, left, right)];
    link := At(index);
  }
}
