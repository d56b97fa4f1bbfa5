/** The generic tree node: a name, a key-to-value dictionary and an ordered list of branch nodes,
    with list and dictionary operations that update the node in place and a pre-order traversal
    with a name filter. */
module TreeStructure {
  import opened Wrappers

  /** `list.remove` of a node the branch list does not hold. */
  datatype TreeError = ValueError

  predicate NoDuplicates<T(==)>(s: seq<T>) {
    forall i, j :: 0 <= i < j < |s| ==> s[i] != s[j]
  }

  /** The position `list.insert(pos, x)` puts `x` at in a list of length `n`: a negative `pos`
      counts from the end, and positions outside the list are clamped to its ends. */
  function InsertIndex(pos: int, n: nat): (k: nat)
    ensures k <= n
  {
    var p := if pos < 0 then pos + n else pos;
    if p < 0 then 0 else if p > n then n else p
  }

  /** Python's indexing: `x` lands before the element that index `pos` denotes, at the end when
      `pos` is past the end and at the front when it is before the start. */
  lemma InsertIndexMeaning(pos: int, n: nat)
    ensures 0 <= pos <= n ==> InsertIndex(pos, n) == pos
    ensures pos > n ==> InsertIndex(pos, n) == n
    ensures pos < 0 && pos + n >= 0 ==> InsertIndex(pos, n) == n + pos
    ensures pos + n < 0 ==> InsertIndex(pos, n) == 0
  {
  }

  /** The index of the first occurrence of `x` in `s`. */
  function FirstIndex<T(==)>(s: seq<T>, x: T): (k: nat)
    requires x in s
    ensures k < |s| && s[k] == x && x !in s[..k]
  {
    if s[0] == x then 0 else 1 + FirstIndex(s[1..], x)
  }

  /** `list.remove(x)` on a list that holds `x`: drops its first occurrence. */
  function RemoveFirst<T(==)>(s: seq<T>, x: T): (r: seq<T>)
    requires x in s
    ensures |r| == |s| - 1
  {
    if s[0] == x then s[1..] else [s[0]] + RemoveFirst(s[1..], x)
  }

  /** Removing `x` cuts the list at its first occurrence: the rest keeps its order. */
  lemma {:induction false} RemoveFirstSplits<T>(s: seq<T>, x: T)
    requires x in s
    ensures RemoveFirst(s, x) == s[..FirstIndex(s, x)] + s[FirstIndex(s, x) + 1..]
  {
    if s[0] != x {
      var rest := s[1..];
      var j := FirstIndex(rest, x);
      RemoveFirstSplits(rest, x);
      assert FirstIndex(s, x) == j + 1;
      assert s[..j + 1] == [s[0]] + rest[..j];
      assert s[j + 2..] == rest[j + 1..];
      assert RemoveFirst(s, x) == [s[0]] + (rest[..j] + rest[j + 1..]);
    }
  }

  /** Removing the first occurrence of `x` removes one `x` and keeps the rest. */
  lemma RemoveFirstCounts<T>(s: seq<T>, x: T)
    requires x in s
    ensures |RemoveFirst(s, x)| == |s| - 1
    ensures multiset(RemoveFirst(s, x)) == multiset(s) - multiset{x}
  {
    RemoveFirstSplits(s, x);
    var k := FirstIndex(s, x);
    var before, after := s[..k], s[k + 1..];
    assert s == before + [x] + after;
    assert multiset(s) == multiset(before) + multiset{x} + multiset(after);
    assert multiset(RemoveFirst(s, x)) == multiset(before) + multiset(after);
  }

  class Node<V> {
    const name: string
    var values: map<string, V>
    var branches: seq<Node<V>>
    /** This node and every node below it. */
    ghost var Repr: set<Node<V>>

    /** The branches form a tree under this node: each branch owns a footprint inside this one
        that does not hold this node, and sibling footprints are disjoint. */
    ghost predicate Valid()
      reads this, Repr
      decreases Repr
    {
      && this in Repr
      && (forall i :: 0 <= i < |branches| ==>
            && branches[i] in Repr
            && branches[i].Repr <= Repr
            && this !in branches[i].Repr
            && branches[i].Valid())
      && (forall i, j :: 0 <= i < j < |branches| ==> branches[i].Repr !! branches[j].Repr)
    }

    /** `__init__`: a node with no branches and its own copy of `valuesin`. */
    constructor (name: string, valuesin: map<string, V>)
      ensures Valid() && fresh(Repr - {this}) && Repr == {this}
      ensures this.name == name && values == valuesin && branches == []
    {
      this.name := name;
      values := valuesin;
      branches := [];
      Repr := {this};
    }

    function NumberBranches(): (r: nat)
      reads this
      ensures r == |branches|
    {
      |branches|
    }

    method AppendBranch(node: Node<V>)
      modifies this
      ensures branches == old(branches) + [node] && values == old(values)
      ensures Repr == old(Repr) + node.Repr
      ensures old(Valid() && node.Valid() && Repr !! node.Repr) ==> Valid()
    {
      branches := branches + [node];
      Repr := Repr + node.Repr;
    }

    method ExtendBranch(nodes: seq<Node<V>>)
      modifies this
      ensures branches == old(branches) + nodes && values == old(values)
      ensures Repr == old(Repr) + Footprint(nodes)
      ensures old(Valid() && Forest(nodes) && Repr !! Footprint(nodes)) ==> Valid()
    {
      if Valid() && Forest(nodes) && Repr !! Footprint(nodes) {
        ExtendKeepsTree(nodes);
      }
      branches := branches + nodes;
      Repr := Repr + Footprint(nodes);
    }

    /** Appending a forest apart from this tree gives branches that fit the grown footprint. */
    lemma ExtendKeepsTree(nodes: seq<Node<V>>)
      requires Valid() && Forest(nodes) && Repr !! Footprint(nodes)
      ensures var grown, all := branches + nodes, Repr + Footprint(nodes);
              && (forall i :: 0 <= i < |grown| ==>
                    grown[i] in all && grown[i].Repr <= all && this !in grown[i].Repr && grown[i].Valid())
              && (forall i, j :: 0 <= i < j < |grown| ==> grown[i].Repr !! grown[j].Repr)
    {
    }

    method InsertBranch(pos: int, node: Node<V>)
      modifies this
      ensures var k := InsertIndex(pos, |old(branches)|);
              branches == old(branches)[..k] + [node] + old(branches)[k..]
      ensures values == old(values)
      ensures Repr == old(Repr) + node.Repr
      ensures old(Valid() && node.Valid() && Repr !! node.Repr) ==> Valid()
    {
      var k := InsertIndex(pos, |branches|);
      if Valid() && node.Valid() && Repr !! node.Repr {
        InsertKeepsTree(k, node);
      }
      branches := branches[..k] + [node] + branches[k..];
      Repr := Repr + node.Repr;
    }

    /** Inserting a tree apart from this one gives branches that fit the grown footprint. */
    lemma InsertKeepsTree(k: nat, node: Node<V>)
      requires Valid() && node.Valid() && Repr !! node.Repr && k <= |branches|
      ensures var grown, all := branches[..k] + [node] + branches[k..], Repr + node.Repr;
              && (forall i :: 0 <= i < |grown| ==>
                    grown[i] in all && grown[i].Repr <= all && this !in grown[i].Repr && grown[i].Valid())
              && (forall i, j :: 0 <= i < j < |grown| ==> grown[i].Repr !! grown[j].Repr)
    {
    }

    /** `removeBranch`: drops the first occurrence of `node`, or fails with `ValueError`. The
        footprint is kept: it still covers every remaining branch. */
    method RemoveBranch(node: Node<V>) returns (r: Result<(), TreeError>)
      modifies this
      ensures r.Failure? <==> node !in old(branches)
      ensures r.Failure? ==> branches == old(branches)
      ensures r.Success? ==> branches == RemoveFirst(old(branches), node)
      ensures values == old(values) && Repr == old(Repr)
      ensures old(Valid()) ==> Valid()
    {
      if node !in branches {
        return Failure(ValueError);
      }
      if Valid() {
        RemoveKeepsSiblingsApart(node);
      }
      branches := RemoveFirst(branches, node);
      return Success(());
    }

    /** The branches left after removing `node` are branches of this node, with footprints still
        pairwise disjoint. */
    lemma RemoveKeepsSiblingsApart(node: Node<V>)
      requires Valid() && node in branches
      ensures var rest := RemoveFirst(branches, node);
              && (forall i :: 0 <= i < |rest| ==>
                    rest[i] in Repr && rest[i].Repr <= Repr && this !in rest[i].Repr && rest[i].Valid())
              && (forall i, j :: 0 <= i < j < |rest| ==> rest[i].Repr !! rest[j].Repr)
    {
      var rest, k := RemoveFirst(branches, node), FirstIndex(branches, node);
      RemoveFirstSplits(branches, node);
      forall i | 0 <= i < |rest| ensures rest[i] == branches[if i < k then i else i + 1] {
      }
      forall i, j | 0 <= i < j < |rest| ensures rest[i].Repr !! rest[j].Repr {
        var i', j' := if i < k then i else i + 1, if j < k then j else j + 1;
        assert rest[i] == branches[i'] && rest[j] == branches[j'] && i' < j';
      }
    }

    /** `clearBranch`: empties the dictionary and the branch list. */
    method ClearBranch()
      modifies this
      ensures values == map[] && branches == [] && Repr == {this}
      ensures Valid()
    {
      values := map[];
      branches := [];
      Repr := {this};
    }

    /** `get`: the stored value, or `default` for a missing key. */
    function Get(key: string, default: V): (r: V)
      reads this
      ensures key in values ==> r == values[key]
      ensures key !in values ==> r == default
    {
      if key in values then values[key] else default
    }

    /** `add`: inserts `key` or overwrites its value; no other key changes. */
    method Add(key: string, value: V)
      modifies this
      ensures values.Keys == old(values.Keys) + {key}
      ensures Get(key, value) == value && values[key] == value
      ensures forall k :: k in old(values) && k != key ==> values[k] == old(values)[k]
      ensures branches == old(branches) && Repr == old(Repr)
    {
      values := values[key := value];
    }

    function Keys(): (r: set<string>)
      reads this
      ensures forall k :: k in r <==> k in values
    {
      values.Keys
    }

    function GetValues(): (r: map<string, V>)
      reads this
      ensures r == values
    {
      values
    }

    /** `name` selects this node under `iter(name)`: no name or `"*"` selects every node. */
    predicate Selects(name: Option<string>) {
      name.None? || name == Some("*") || name == Some(this.name)
    }

    /** `iter(name)`: the pre-order sequence of the selected nodes of this subtree. */
    function Iter(name: Option<string>): (r: seq<Node<V>>)
      reads this, Repr
      requires Valid()
      ensures forall k :: 0 <= k < |r| ==> r[k] in Repr
      ensures Selects(name) ==> |r| > 0 && r[0] == this
      ensures !Selects(name) ==> this !in r
      decreases Repr, |branches| + 1
    {
      var nm := if name == Some("*") then None else name;
      (if nm.None? || nm == Some(this.name) then [this] else []) + IterBranches(0, nm)
    }

    /** The traversals of `branches[i..]`, in branch order. */
    function IterBranches(i: nat, name: Option<string>): (r: seq<Node<V>>)
      reads this, Repr
      requires Valid() && i <= |branches|
      ensures forall k :: 0 <= k < |r| ==> exists j :: i <= j < |branches| && r[k] in branches[j].Repr
      decreases Repr, |branches| - i
    {
      if i == |branches| then []
      else
        var head := branches[i].Iter(name);
        var tail := IterBranches(i + 1, name);
        assert forall k :: 0 <= k < |head| ==> head[k] in branches[i].Repr;
        head + tail
    }

    /** `n` is this node or lies below one of its branches. */
    ghost predicate Below(n: Node<V>)
      reads this, Repr
      requires Valid()
      decreases Repr
    {
      n == this || exists i :: 0 <= i < |branches| && branches[i].Below(n)
    }

    /** `iter()` yields exactly the nodes of the subtree. */
    lemma {:induction false} IterYieldsSubtree(n: Node<V>)
      requires Valid()
      ensures n in Iter(None) <==> Below(n)
      decreases Repr, |branches| + 1
    {
      IterBranchesYieldSubtrees(0, n);
    }

    lemma {:induction false} IterBranchesYieldSubtrees(i: nat, n: Node<V>)
      requires Valid() && i <= |branches|
      ensures n in IterBranches(i, None) <==> exists j :: i <= j < |branches| && branches[j].Below(n)
      decreases Repr, |branches| - i
    {
      if i < |branches| {
        branches[i].IterYieldsSubtree(n);
        IterBranchesYieldSubtrees(i + 1, n);
        assert IterBranches(i, None) == branches[i].Iter(None) + IterBranches(i + 1, None);
      }
    }

    /** `iter(name)` yields no node twice. */
    lemma {:induction false} IterNoDuplicates(name: Option<string>)
      requires Valid()
      ensures NoDuplicates(Iter(name))
      decreases Repr, |branches| + 1
    {
      var nm := if name == Some("*") then None else name;
      IterBranchesNoDuplicates(0, nm);
      var rest := IterBranches(0, nm);
      assert this !in rest;
      var head: seq<Node<V>> := if nm.None? || nm == Some(this.name) then [this] else [];
      NoDuplicatesConcat(head, rest);
    }

    lemma {:induction false} IterBranchesNoDuplicates(i: nat, name: Option<string>)
      requires Valid() && i <= |branches|
      ensures NoDuplicates(IterBranches(i, name))
      decreases Repr, |branches| - i
    {
      if i < |branches| {
        var head, tail := branches[i].Iter(name), IterBranches(i + 1, name);
        branches[i].IterNoDuplicates(name);
        IterBranchesNoDuplicates(i + 1, name);
        forall k | 0 <= k < |head| ensures head[k] !in tail {
          assert head[k] in branches[i].Repr;
        }
        NoDuplicatesConcat(head, tail);
      }
    }

    /** `iter(name)` is the full traversal filtered by name; `"*"` filters nothing. */
    lemma {:induction false} IterFilters(name: string)
      requires Valid()
      ensures name == "*" ==> Iter(Some(name)) == Iter(None)
      ensures name != "*" ==> Iter(Some(name)) == Named(Iter(None), name)
      decreases Repr, |branches| + 1
    {
      if name != "*" {
        IterBranchesFilter(0, name);
        NamedConcat([this], IterBranches(0, None), name);
      }
    }

    lemma {:induction false} IterBranchesFilter(i: nat, name: string)
      requires Valid() && i <= |branches| && name != "*"
      ensures IterBranches(i, Some(name)) == Named(IterBranches(i, None), name)
      decreases Repr, |branches| - i
    {
      if i < |branches| {
        branches[i].IterFilters(name);
        IterBranchesFilter(i + 1, name);
        NamedConcat(branches[i].Iter(None), IterBranches(i + 1, None), name);
      }
    }
  }

  /** Every node of `nodes` and every node below them. */
  ghost function Footprint<V>(nodes: seq<Node<V>>): set<Node<V>>
    reads set i | 0 <= i < |nodes| :: nodes[i]
  {
    set i, n | 0 <= i < |nodes| && n in nodes[i].Repr :: n
  }

  /** Valid trees with pairwise disjoint footprints. */
  ghost predicate Forest<V>(nodes: seq<Node<V>>)
    reads set i | 0 <= i < |nodes| :: nodes[i]
    reads Footprint(nodes)
  {
    && (forall i :: 0 <= i < |nodes| ==> nodes[i].Valid())
    && (forall i, j :: 0 <= i < j < |nodes| ==> nodes[i].Repr !! nodes[j].Repr)
  }

  /** The nodes of `nodes` named `name`, in order. */
  function Named<V>(nodes: seq<Node<V>>, name: string): (r: seq<Node<V>>)
    ensures forall k :: 0 <= k < |r| ==> r[k] in nodes && r[k].name == name
  {
    if |nodes| == 0 then []
    else (if nodes[0].name == name then [nodes[0]] else []) + Named(nodes[1..], name)
  }

  lemma NoDuplicatesConcat<T>(a: seq<T>, b: seq<T>)
    requires NoDuplicates(a) && NoDuplicates(b)
    requires forall k :: 0 <= k < |a| ==> a[k] !in b
    ensures NoDuplicates(a + b)
  {
    var ab := a + b;
    forall i, j | 0 <= i < j < |ab| ensures ab[i] != ab[j] {
      if j >= |a| && i < |a| {
        assert ab[j] == b[j - |a|] && ab[i] == a[i];
      } else if i >= |a| {
        assert ab[i] == b[i - |a|] && ab[j] == b[j - |a|];
      }
    }
  }

  lemma {:induction false} NamedConcat<V>(a: seq<Node<V>>, b: seq<Node<V>>, name: string)
    ensures Named(a + b, name) == Named(a, name) + Named(b, name)
  {
    if |a| > 0 {
      assert (a + b)[1..] == a[1..] + b;
      NamedConcat(a[1..], b, name);
    } else {
      assert a + b == b;
    }
  }
}
