/**
 * The expression-tree builder of ast.py. Nodes are heap objects linked by
 * `left`, `right` and `parent`; a `Tree` keeps its `root` and the `last`
 * node added. `depth` is not set by `Node.__init__`, so it is `None` until
 * `refresh_depth` assigns it.
 *
 * The unbound `node` of `add_op` (ast.py:49-52) is the `Node(item)` built at
 * ast.py:21, and the unbound `node`/`parent` of `refresh_depth`
 * (ast.py:108-109) are `self` and `self.parent`.
 */
module Ast {
  import opened Wrappers

  /** The exceptions the tree code raises. */
  datatype AstError =
    | AttributeError        // reading `depth` before it was assigned, or an attribute of None
    | NameError(name: string)

  /** A token item `(type, value, precedence)`. */
  datatype Item = Item(kind: string, value: string, precedence: int)

  class Node {
    const data: Item
    var left: Node?
    var right: Node?
    var parent: Node?
    var depth: Option<int>

    /** `Node(data, left, right, parent)`. */
    constructor (data: Item, left: Node?, right: Node?, parent: Node?)
      ensures this.data == data && this.left == left && this.right == right && this.parent == parent
      ensures depth == None
    {
      this.data := data;
      this.left := left;
      this.right := right;
      this.parent := parent;
      depth := None;
    }

    /** `refresh_depth`: 0 without a parent, otherwise one more than the parent's depth,
        which raises when the parent's depth was never assigned. A node that is its own
        parent goes one deeper than itself. */
    method RefreshDepth() returns (r: Outcome<AstError>)
      modifies this`depth
      ensures parent == null ==> r == Pass && depth == Some(0)
      ensures parent != null && old(parent.depth).None? ==> r == Fail(AttributeError) && depth == old(depth)
      ensures parent != null && old(parent.depth).Some? ==>
        r == Pass && depth == Some(old(parent.depth).value + 1)
    {
      if parent != null {
        if parent.depth.None? {
          return Fail(AttributeError);
        }
        depth := Some(parent.depth.value + 1);
      } else {
        depth := Some(0);
      }
      r := Pass;
    }

    /** `refresh_depth` as written: its body reads `node`, which is not a name in scope
        (ast.py:108), so every call raises NameError and no depth is ever assigned. */
    method RefreshDepthAsWritten() returns (r: Outcome<AstError>)
      ensures r == Fail(NameError("node"))
    {
      r := Fail(NameError("node"));
    }

    /** The splice of `add_op` (ast.py:49-51): this node goes right above `next`, taking over
        `next`'s parent link. The old parent's child pointer still points at `next`. */
    method SpliceAbove(next: Node)
      modifies this`left, this`parent, next`parent
      ensures left == next && next.parent == this
      ensures next != this ==> parent == old(next.parent)
    {
      left := next;
      parent := next.parent;
      next.parent := this;
    }
  }

  /** `chain` is the list of `chain[0]`'s ancestors, parent after parent, up to one without
      a parent: an acyclic parent chain. */
  predicate ParentChain(chain: seq<Node>)
    reads set i | 0 <= i < |chain| :: chain[i]
  {
    && |chain| > 0
    && chain[|chain| - 1].parent == null
    && forall i :: 0 <= i < |chain| - 1 ==> chain[i].parent == chain[i + 1]
  }

  /** The upward walk of `add_op` (ast.py:29-42): starting from `start`, climb while the
      parent's precedence is strictly greater than `opPrecedence`. The result is the first
      ancestor whose precedence is at most `opPrecedence`, or null past the top; `k` is its
      position in the chain (`|chain|` for null). */
  method Climb(start: Node, opPrecedence: int, ghost chain: seq<Node>) returns (next: Node?, ghost k: nat)
    requires ParentChain(chain) && chain[0] == start
    ensures 1 <= k <= |chain|
    ensures next == if k < |chain| then chain[k] else null
    ensures forall i :: 1 <= i < k ==> chain[i].data.precedence > opPrecedence
    ensures k < |chain| ==> chain[k].data.precedence <= opPrecedence
  {
    var prev := start;
    k := 0;
    while true
      invariant 0 <= k < |chain| && prev == chain[k]
      invariant forall i :: 1 <= i <= k ==> chain[i].data.precedence > opPrecedence
      decreases |chain| - k
    {
      next := prev.parent;
      if next == null {
        k := k + 1;
        break;
      }
      if next.data.precedence > opPrecedence {
        prev := next;
        k := k + 1;
      } else {
        k := k + 1;
        break;
      }
    }
  }

  /** The fields `add_node` writes besides the tree's and the new node's, when the tree has
      a root `R` and a last node `L` whose parent is `P`: `R.left` when `R` is also `L`, then
      either `P.right` (when it was empty) or `L.left`. Every other field of `R`, `L` and `P`
      keeps its value. */
  twostate predicate OnlyLinked(R: Node, L: Node, P: Node, new node: Node)
    reads R, L, P
  {
    && L.left == (if R == L || old(P.right) != null then node else old(L.left))
    && P.right == (if old(P.right) == null then node else old(P.right))
    && (L != P ==> L.right == old(L.right)) && (P != L ==> P.left == old(P.left))
    && (R != L ==> R.left == old(R.left)) && (R != P ==> R.right == old(R.right))
    && R.parent == old(R.parent) && L.parent == old(L.parent) && P.parent == old(P.parent)
    && R.depth == old(R.depth) && L.depth == old(L.depth) && P.depth == old(P.depth)
  }

  class Tree {
    var root: Node?
    var last: Node?
    var depthIndex: seq<Node>

    /** `Tree()`. */
    constructor ()
      ensures root == null && last == null && depthIndex == [] && Valid()
    {
      root := null;
      last := null;
      depthIndex := [];
    }

    /** What every tree built by these methods satisfies: it has a root exactly when it has
        a last node, and the last node has a parent. */
    predicate Valid()
      reads this, last
    {
      && (root == null <==> last == null)
      && (last != null ==> last.parent != null)
    }

    /** The parent of the last node, or null. */
    function LastParent(): Node?
      reads this, last
    {
      if last != null then last.parent else null
    }

    /** The state every tree reaches with its first insert: one node that is its own parent
        and right child, with no depth. */
    predicate Stuck()
      reads this, root
    {
      root != null && last == root && root.parent == root && root.right == root && root.depth.None?
    }

    /** `add_node(node)` for a node not yet linked as the root, the last node or its parent. */
    method AddNode(node: Node) returns (r: Outcome<AstError>)
      requires Valid() && node != root && node != last && node != LastParent()
      modifies this, node, root, last, LastParent()
      ensures Valid() && depthIndex == old(depthIndex)
      ensures old(root) == null ==>
        && root == node && last == node
        && node.left == node && node.parent == node
        && node.right == (if old(node.right) == null then node else old(node.right))
        && (old(node.depth).None? ==> r == Fail(AttributeError) && node.depth == None)
        && (old(node.depth).Some? ==> r == Pass && node.depth == Some(old(node.depth).value + 1))
      ensures old(root) != null ==>
        var R, L, P := old(root), old(last), old(last.parent);
        var Q := if old(P.right) == null then P else L;
        && root == R && OnlyLinked(R, L, P, node)
        && node.parent == Q && node.left == old(node.left) && node.right == old(node.right)
        && (old(Q.depth).None? ==> r == Fail(AttributeError) && last == L && node.depth == old(node.depth))
        && (old(Q.depth).Some? ==> r == Pass && last == node && node.depth == Some(old(Q.depth).value + 1))
      ensures old(root) == null && old(node.right) == null && old(node.depth).None? ==> Stuck()
      ensures old(Stuck()) ==> Stuck() && r == Fail(AttributeError)
    {
      if root == null {
        root := node;
        last := node;
      }
      if root == last {
        root.left := node;
        node.parent := root;
      }
      var p := last.parent;
      if p.right == null {
        p.right := node;
        node.parent := p;
      } else {
        last.left := node;
        node.parent := last;
      }
      r := node.RefreshDepth();
      if r.Fail? {
        return;
      }
      last := node;
    }

    /** `add_op(item)`: a new node for `item` goes in by `add_node`; then, because `last` is
        that node, the precedence test at ast.py:28 compares the operator with itself, the
        walk is skipped and the node is spliced above itself. */
    method AddOp(item: Item) returns (r: Outcome<AstError>, ghost node: Node)
      requires Valid()
      modifies this, root, last, LastParent()
      ensures Valid() && depthIndex == old(depthIndex)
      ensures fresh(node) && node.data == item
      ensures old(root) == null ==>
        && root == node && last == node && r == Fail(AttributeError)
        && node.left == node && node.right == node && node.parent == node && node.depth == None
      ensures old(root) != null ==>
        var R, L, P := old(root), old(last), old(last.parent);
        var Q := if old(P.right) == null then P else L;
        && root == R && OnlyLinked(R, L, P, node) && node.right == null
        && (old(Q.depth).None? ==>
              r == Fail(AttributeError) && last == L && node.parent == Q && node.left == null && node.depth == None)
        && (old(Q.depth).Some? ==>
              && r == Pass && last == node && node.parent == node && node.left == node
              && node.depth == Some(old(Q.depth).value + 2))
      ensures old(Stuck()) ==> Stuck() && r == Fail(AttributeError)
    {
      var n := new Node(item, null, null, null);
      node := n;
      r := AddNode(n);
      if r.Fail? {
        return;
      }
      var p := last.data.precedence;
      var next: Node? := null;
      if p > item.precedence {
        assert false;
      } else {
        next := last;
      }
      n.SpliceAbove(next);
      r := n.RefreshDepth();
    }

    /** `add_op(item)` as written: once `add_node` has returned, the splice at ast.py:49 reads
        `node`, which is not a name in scope, so no call ever returns normally; the tree keeps
        what `add_node` did to it. Only `add_op`'s own unbound `node` is kept as written: the
        `add_node` it calls is `AddNode`, whose `refresh_depth` is read with `self` and
        `self.parent` (taken fully as written, `refresh_depth` raises NameError at ast.py:108
        first, as `Node.RefreshDepthAsWritten` states). */
    method AddOpAsWritten(item: Item) returns (r: Outcome<AstError>, ghost node: Node)
      requires Valid()
      modifies this, root, last, LastParent()
      ensures Valid() && depthIndex == old(depthIndex)
      ensures fresh(node) && node.data == item
      ensures old(root) == null ==>
        && root == node && last == node && r == Fail(AttributeError)
        && node.left == node && node.right == node && node.parent == node && node.depth == None
      ensures old(root) != null ==>
        var R, L, P := old(root), old(last), old(last.parent);
        var Q := if old(P.right) == null then P else L;
        && root == R && OnlyLinked(R, L, P, node)
        && node.parent == Q && node.left == null && node.right == null
        && (old(Q.depth).None? ==> r == Fail(AttributeError) && last == L && node.depth == None)
        && (old(Q.depth).Some? ==>
              r == Fail(NameError("node")) && last == node && node.depth == Some(old(Q.depth).value + 1))
      ensures r.Fail?
      ensures old(Stuck()) ==> Stuck() && r == Fail(AttributeError)
    {
      var n := new Node(item, null, null, null);
      node := n;
      r := AddNode(n);
      if r.Pass? {
        r := Fail(NameError("node"));
      }
    }

    /** `add_value(item)` as written: the unqualified `add_node` at ast.py:64 is not a name in
        scope, so every call raises NameError before anything changes. */
    method AddValue(item: Item) returns (r: Outcome<AstError>)
      ensures r == Fail(NameError("add_node"))
    {
      r := Fail(NameError("add_node"));
    }

    /** `add_value(item)` calling `self.add_node`, as intended: the new node is hung off the
        tree as `add_node` does, and becomes `last` when its parent has a depth. */
    method AddValueFixed(item: Item) returns (r: Outcome<AstError>, ghost node: Node)
      requires Valid()
      modifies this, root, last, LastParent()
      ensures Valid() && depthIndex == old(depthIndex)
      ensures fresh(node) && node.data == item
      ensures old(root) == null ==>
        && root == node && last == node && r == Fail(AttributeError)
        && node.left == node && node.right == node && node.parent == node && node.depth == None
      ensures old(root) != null ==>
        var R, L, P := old(root), old(last), old(last.parent);
        var Q := if old(P.right) == null then P else L;
        && root == R && OnlyLinked(R, L, P, node)
        && node.parent == Q && node.left == null && node.right == null
        && (old(Q.depth).None? ==> r == Fail(AttributeError) && last == L && node.depth == None)
        && (old(Q.depth).Some? ==> r == Pass && last == node && node.depth == Some(old(Q.depth).value + 1))
    {
      var n := new Node(item, null, null, null);
      node := n;
      r := AddNode(n);
    }
  }
}
