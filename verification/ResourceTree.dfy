/**
 * The resource tree built from the rows of the recursive walk, and the ids collected
 * from it. A resource met on several paths gets several node objects, of which only
 * the last one in the node map receives children.
 */
module ResourceTree {
  import opened Common
  import opened Graphs
  import opened ResourceWalk
  import opened CascadeDestroy

  class TreeNode {
    const id: Node
    var children: seq<TreeNode>

    constructor (id: Node)
      ensures this.id == id && children == []
    {
      this.id := id;
      children := [];
    }
  }

  /** The rows listed under the resource id, in order. */
  function Listed(rows: seq<Row>, id: Node): (indices: seq<nat>)
    ensures forall k :: 0 <= k < |indices| ==> indices[k] < |rows|
    ensures forall j :: j in indices <==> 0 <= j < |rows| && rows[j].childId == Some(id)
  {
    if rows == [] then []
    else
      var n := |rows| - 1;
      Listed(rows[..n], id) + if rows[n].childId == Some(id) then [n] else []
  }

  /** The last row about the resource id: its object is the one that stays in the node map. */
  function LastIndex(rows: seq<Row>, id: Node): (index: Option<nat>)
    ensures index.Some? ==> index.value < |rows| && rows[index.value].id == id
    ensures index == None ==> forall i :: 0 <= i < |rows| ==> rows[i].id != id
  {
    if rows == [] then None
    else
      var n := |rows| - 1;
      if rows[n].id == id then Some(n) else LastIndex(rows[..n], id)
  }

  lemma {:induction false} ListedAscending(rows: seq<Row>, id: Node)
    ensures forall k, l :: 0 <= k < l < |Listed(rows, id)| ==> Listed(rows, id)[k] < Listed(rows, id)[l]
  {
    if rows != [] {
      ListedAscending(rows[..|rows| - 1], id);
    }
  }

  lemma {:induction false} LastIndexIsLast(rows: seq<Row>, id: Node)
    ensures LastIndex(rows, id).Some? ==> forall i :: LastIndex(rows, id).value < i < |rows| ==> rows[i].id != id
  {
    if rows != [] {
      LastIndexIsLast(rows[..|rows| - 1], id);
    }
  }

  ghost function Pick<T>(items: seq<T>, indices: seq<nat>): seq<T>
    requires forall k :: 0 <= k < |indices| ==> indices[k] < |items|
  {
    seq(|indices|, k requires 0 <= k < |indices| => items[indices[k]])
  }

  /** The children of row i's object once the resources outside todo have been given theirs. */
  ghost function Children(rows: seq<Row>, nodes: seq<TreeNode>, todo: set<Node>, i: nat): seq<TreeNode>
    requires i < |rows| == |nodes|
  {
    if LastIndex(rows, rows[i].id) == Some(i) && rows[i].id !in todo then Pick(nodes, Listed(rows, rows[i].id)) else []
  }

  /** One object for each row; exactly the last one of each resource in done holds its children. */
  ghost predicate Shaped(rows: seq<Row>, nodes: seq<TreeNode>, todo: set<Node>)
    reads nodes
  {
    && |nodes| == |rows|
    && Distinct(nodes)
    && forall i :: 0 <= i < |rows| ==> nodes[i].id == rows[i].id && nodes[i].children == Children(rows, nodes, todo, i)
  }

  ghost predicate NodeMapped(rows: seq<Row>, nodes: seq<TreeNode>, nodeMap: map<Node, TreeNode>) {
    && |nodes| == |rows|
    && forall id {:trigger LastIndex(rows, id)} {:trigger id in nodeMap} ::
         match LastIndex(rows, id)
         case None => id !in nodeMap
         case Some(i) => id in nodeMap && nodeMap[id] == nodes[i]
  }

  ghost predicate ChildrenMapped(rows: seq<Row>, nodes: seq<TreeNode>, childrenMap: map<Node, seq<TreeNode>>) {
    && |nodes| == |rows|
    && forall id {:trigger Listed(rows, id)} {:trigger id in childrenMap} ::
         if id in childrenMap then childrenMap[id] == Pick(nodes, Listed(rows, id)) else Listed(rows, id) == []
  }

  lemma NodeMapStep(rows: seq<Row>, row: Row, nodes: seq<TreeNode>, node: TreeNode, nodeMap: map<Node, TreeNode>)
    requires NodeMapped(rows, nodes, nodeMap)
    ensures NodeMapped(rows + [row], nodes + [node], nodeMap[row.id := node])
  {
    assert (rows + [row])[..|rows|] == rows;
    forall id
      ensures LastIndex(rows + [row], id) == if row.id == id then Some(|rows|) else LastIndex(rows, id)
    {
      assert LastIndex(rows + [row], id) == if row.id == id then Some(|rows|) else LastIndex(rows, id);
    }
  }

  function AddChild(childrenMap: map<Node, seq<TreeNode>>, row: Row, node: TreeNode): map<Node, seq<TreeNode>> {
    match row.childId
    case None => childrenMap
    case Some(id) => childrenMap[id := (if id in childrenMap then childrenMap[id] else []) + [node]]
  }

  lemma ChildrenMapStep(rows: seq<Row>, row: Row, nodes: seq<TreeNode>, node: TreeNode,
                        childrenMap: map<Node, seq<TreeNode>>)
    requires ChildrenMapped(rows, nodes, childrenMap)
    ensures ChildrenMapped(rows + [row], nodes + [node], AddChild(childrenMap, row, node))
  {
    var childrenMap' := AddChild(childrenMap, row, node);
    forall id
      ensures if id in childrenMap'
              then childrenMap'[id] == Pick(nodes + [node], Listed(rows + [row], id))
              else Listed(rows + [row], id) == []
    {
      PickSnoc(rows, row, nodes, node, id);
    }
  }

  lemma PickSnoc(rows: seq<Row>, row: Row, nodes: seq<TreeNode>, node: TreeNode, id: Node)
    requires |rows| == |nodes|
    ensures Listed(rows + [row], id) == Listed(rows, id) + if row.childId == Some(id) then [|rows|] else []
    ensures Pick(nodes + [node], Listed(rows + [row], id))
         == Pick(nodes, Listed(rows, id)) + if row.childId == Some(id) then [node] else []
  {
    assert (rows + [row])[..|rows|] == rows;
  }

  /** One object per row, none of which has children yet. */
  ghost predicate Wrapped(rows: seq<Row>, nodes: seq<TreeNode>)
    reads nodes
  {
    |nodes| == |rows| && forall i :: 0 <= i < |rows| ==> nodes[i].id == rows[i].id && nodes[i].children == []
  }

  /** First pass: one object per row, the node map and the lists of children. */
  method BuildMaps(rows: seq<Row>)
    returns (root: TreeNode?, ghost nodes: seq<TreeNode>, nodeMap: map<Node, TreeNode>,
             childrenMap: map<Node, seq<TreeNode>>)
    ensures fresh(nodes) && Distinct(nodes) && Wrapped(rows, nodes)
    ensures NodeMapped(rows, nodes, nodeMap) && ChildrenMapped(rows, nodes, childrenMap)
    ensures RootAmong(rows, nodes, root)
  {
    root, nodes, nodeMap, childrenMap := null, [], map[], map[];
    for k := 0 to |rows|
      invariant fresh(nodes) && Distinct(nodes) && Wrapped(rows[..k], nodes)
      invariant NodeMapped(rows[..k], nodes, nodeMap)
      invariant ChildrenMapped(rows[..k], nodes, childrenMap)
      invariant RootAmong(rows[..k], nodes, root)
    {
      var row := rows[k];
      var node := new TreeNode(row.id);
      assert rows[..k + 1] == rows[..k] + [row];
      NodeMapStep(rows[..k], row, nodes, node, nodeMap);
      ChildrenMapStep(rows[..k], row, nodes, node, childrenMap);
      RootStep(rows[..k], row, nodes, node, root);
      WrappedStep(rows[..k], row, nodes, node);
      nodeMap := nodeMap[row.id := node];
      if row.childId.None? {
        root := node;
      } else {
        childrenMap := AddChild(childrenMap, row, node);
      }
      nodes := nodes + [node];
    }
    assert rows[..|rows|] == rows;
  }

  lemma WrappedStep(rows: seq<Row>, row: Row, nodes: seq<TreeNode>, node: TreeNode)
    requires Wrapped(rows, nodes) && node.id == row.id && node.children == []
    ensures Wrapped(rows + [row], nodes + [node])
  {
  }

  /** The root is the object of the last row without a parent. */
  ghost predicate RootAmong(rows: seq<Row>, nodes: seq<TreeNode>, root: TreeNode?) {
    && |nodes| == |rows|
    && if root == null then forall i :: 0 <= i < |rows| ==> rows[i].childId.Some?
       else exists i :: 0 <= i < |rows| && rows[i].childId == None && nodes[i] == root
  }

  lemma RootStep(rows: seq<Row>, row: Row, nodes: seq<TreeNode>, node: TreeNode, root: TreeNode?)
    requires RootAmong(rows, nodes, root)
    ensures RootAmong(rows + [row], nodes + [node], if row.childId.None? then node else root)
  {
    if row.childId.None? {
      assert (rows + [row])[|rows|].childId == None && (nodes + [node])[|rows|] == node;
    } else if root != null {
      var i :| 0 <= i < |rows| && rows[i].childId == None && nodes[i] == root;
      assert (rows + [row])[i].childId == None && (nodes + [node])[i] == root;
    }
  }

  /** Second pass: each list of children goes to the object its resource has in the node map. */
  method ExtendChildren(rows: seq<Row>, ghost nodes: seq<TreeNode>, nodeMap: map<Node, TreeNode>,
                        childrenMap: map<Node, seq<TreeNode>>)
    requires Distinct(nodes) && Wrapped(rows, nodes)
    requires NodeMapped(rows, nodes, nodeMap) && ChildrenMapped(rows, nodes, childrenMap)
    modifies nodes
    ensures Shaped(rows, nodes, {})
  {
    var todo := childrenMap.Keys;
    forall i | 0 <= i < |rows|
      ensures Children(rows, nodes, todo, i) == []
    {
      if rows[i].id !in childrenMap {
        assert Listed(rows, rows[i].id) == [];
      }
    }
    while todo != {}
      invariant todo <= childrenMap.Keys
      invariant Shaped(rows, nodes, todo)
      decreases todo
    {
      var id :| id in todo;
      todo := ExtendOne(rows, nodes, nodeMap, childrenMap, todo, id);
    }
  }

  method ExtendOne(rows: seq<Row>, ghost nodes: seq<TreeNode>, nodeMap: map<Node, TreeNode>,
                   childrenMap: map<Node, seq<TreeNode>>, todo: set<Node>, id: Node) returns (todo': set<Node>)
    requires NodeMapped(rows, nodes, nodeMap) && ChildrenMapped(rows, nodes, childrenMap)
    requires id in todo && id in childrenMap
    requires Shaped(rows, nodes, todo)
    modifies nodes
    ensures todo' == todo - {id}
    ensures Shaped(rows, nodes, todo')
  {
    todo' := todo - {id};
    ParentIn(rows, nodes, nodeMap, childrenMap, id);
    ghost var before := seq(|rows|, i requires 0 <= i < |rows| => Children(rows, nodes, todo, i));
    if id in nodeMap {
      var parent := nodeMap[id];
      ghost var last := LastIndex(rows, id).value;
      assert parent.children == Children(rows, nodes, todo, last);
      parent.children := parent.children + childrenMap[id];
      assert parent.children == Pick(nodes, Listed(rows, id));
      assert forall i :: 0 <= i < |rows| && i != last ==> nodes[i] != parent && nodes[i].children == before[i];
    }
    OneLess(rows, nodes, before, todo, id);
  }

  /** What the maps hold for one resource. */
  lemma ParentIn(rows: seq<Row>, nodes: seq<TreeNode>, nodeMap: map<Node, TreeNode>, childrenMap: map<Node, seq<TreeNode>>, id: Node)
    requires NodeMapped(rows, nodes, nodeMap) && ChildrenMapped(rows, nodes, childrenMap) && id in childrenMap
    ensures id in nodeMap <==> LastIndex(rows, id).Some?
    ensures id in nodeMap ==> nodeMap[id] == nodes[LastIndex(rows, id).value]
    ensures childrenMap[id] == Pick(nodes, Listed(rows, id))
  {
  }

  /** One more resource has been given its children, and nothing else changed. */
  lemma OneLess(rows: seq<Row>, nodes: seq<TreeNode>, before: seq<seq<TreeNode>>, todo: set<Node>, id: Node)
    requires |rows| == |nodes| == |before| && Distinct(nodes) && id in todo
    requires forall i :: 0 <= i < |rows| ==> nodes[i].id == rows[i].id && before[i] == Children(rows, nodes, todo, i)
    requires forall i :: 0 <= i < |rows| ==>
      nodes[i].children == if LastIndex(rows, id) == Some(i) then Pick(nodes, Listed(rows, id)) else before[i]
    ensures Shaped(rows, nodes, todo - {id})
  {
    forall i | 0 <= i < |rows|
      ensures nodes[i].children == Children(rows, nodes, todo - {id}, i)
    {
      DueNow(rows, nodes, todo, id, i);
    }
  }

  lemma DueNow(rows: seq<Row>, nodes: seq<TreeNode>, todo: set<Node>, id: Node, i: nat)
    requires i < |rows| == |nodes| && id in todo
    ensures Children(rows, nodes, todo - {id}, i)
         == if LastIndex(rows, id) == Some(i) then Pick(nodes, Listed(rows, id)) else Children(rows, nodes, todo, i)
  {
  }

  method GetTree(rows: seq<Row>) returns (root: TreeNode?, ghost nodes: seq<TreeNode>)
    ensures fresh(nodes) && Shaped(rows, nodes, {})
    ensures RootAmong(rows, nodes, root)
  {
    var nodeMap, childrenMap;
    root, nodes, nodeMap, childrenMap := BuildMaps(rows);
    ExtendChildren(rows, nodes, nodeMap, childrenMap);
  }

  /** The rows whose objects are the children of row i's object. */
  ghost function Kids(rows: seq<Row>, i: nat): seq<nat>
    requires i < |rows|
  {
    if LastIndex(rows, rows[i].id) == Some(i) then Listed(rows, rows[i].id) else []
  }

  /** A walk down the objects. */
  ghost predicate Descends(rows: seq<Row>, p: seq<nat>) {
    && p != []
    && (forall k :: 0 <= k < |p| ==> p[k] < |rows|)
    && forall k :: 0 <= k < |p| - 1 ==> p[k + 1] in Kids(rows, p[k])
  }

  /** A walk down from an object that hangs below nothing. */
  ghost predicate Rooted(rows: seq<Row>, p: seq<nat>) {
    Descends(rows, p) && rows[p[0]].childId == None
  }

  /** An object is listed under one other object at most. */
  lemma OneAbove(rows: seq<Row>, i: nat, j: nat, k: nat)
    requires i < |rows| && j < |rows| && k in Kids(rows, i) && k in Kids(rows, j)
    ensures i == j && rows[k].childId.Some?
  {
  }

  /** So no object is met twice on the way down, whatever the links. */
  lemma {:induction false} RootedDistinct(rows: seq<Row>, p: seq<nat>)
    requires Rooted(rows, p)
    ensures Distinct(p)
  {
    var n := |p| - 1;
    if n > 0 {
      assert Rooted(rows, p[..n]);
      RootedDistinct(rows, p[..n]);
      forall x | x in p[..n]
        ensures x !in [p[n]]
      {
        var i :| 0 <= i < n && p[i] == x;
        NotListedAbove(rows, p, i);
      }
      DistinctConcat(p[..n], [p[n]]);
      assert p == p[..n] + [p[n]];
    }
  }

  lemma NotListedAbove(rows: seq<Row>, p: seq<nat>, i: nat)
    requires Rooted(rows, p) && i < |p| - 1 && Distinct(p[..|p| - 1])
    ensures p[i] != p[|p| - 1]
  {
    var n := |p| - 1;
    assert p[n - 1 + 1] in Kids(rows, p[n - 1]);
    if i > 0 {
      assert p[i - 1 + 1] in Kids(rows, p[i - 1]);
      assert p[..n][i - 1] != p[..n][n - 1];
      if p[i] == p[n] {
        OneAbove(rows, p[i - 1], p[n - 1], p[n]);
      }
    }
  }

  lemma RootedShort(rows: seq<Row>, p: seq<nat>)
    requires Rooted(rows, p)
    ensures |p| <= |rows|
  {
    RootedDistinct(rows, p);
    ElementsCardinality(p);
    SubsetCardinality(Elements(p), Upto(|rows|));
  }

  ghost function Upto(n: nat): (indices: set<nat>)
    ensures |indices| == n && forall i: nat :: i in indices <==> i < n
  {
    if n == 0 then {} else Upto(n - 1) + {n - 1}
  }

  ghost function Tip(p: seq<nat>): nat
    requires p != []
  {
    p[|p| - 1]
  }

  /** The walks one longer. */
  lemma RootedOn(rows: seq<Row>, p: seq<nat>, k: nat)
    requires Rooted(rows, p) && k in Kids(rows, Tip(p))
    ensures Rooted(rows, p + [k])
  {
    var q := p + [k];
    forall m | 0 <= m < |q| - 1
      ensures q[m + 1] in Kids(rows, q[m])
    {
      if m < |p| - 1 {
        assert q[m] == p[m] && q[m + 1] == p[m + 1];
      }
    }
    assert forall m :: 0 <= m < |p| ==> q[m] == p[m];
  }

  /** What collect_resource_ids adds to the captured list, object by object; p leads from the root to the object. */
  ghost function Collect(rows: seq<Row>, p: seq<nat>, ids: seq<Node>): seq<Node>
    requires Rooted(rows, p)
    decreases |rows| - |p|, |rows| + 1
  {
    RootedShort(rows, p);
    var own := if rows[Tip(p)].id in ids then ids else ids + [rows[Tip(p)].id];
    CollectAll(rows, p, Kids(rows, Tip(p)), own)
  }

  ghost function CollectAll(rows: seq<Row>, p: seq<nat>, indices: seq<nat>, ids: seq<Node>): seq<Node>
    requires Rooted(rows, p) && forall k :: k in indices ==> k in Kids(rows, Tip(p))
    decreases |rows| - |p|, 0, |indices|
  {
    if indices == [] then ids
    else
      var n := |indices| - 1;
      RootedOn(rows, p, indices[n]);
      RootedShort(rows, p + [indices[n]]);
      Collect(rows, p + [indices[n]], CollectAll(rows, p, indices[..n], ids))
  }

  lemma CollectAllStep(rows: seq<Row>, p: seq<nat>, indices: seq<nat>, k: nat, ids: seq<Node>)
    requires Rooted(rows, p) && k < |indices| && forall k :: k in indices ==> k in Kids(rows, Tip(p))
    ensures Rooted(rows, p + [indices[k]])
    ensures CollectAll(rows, p, indices[..k + 1], ids) == Collect(rows, p + [indices[k]], CollectAll(rows, p, indices[..k], ids))
  {
    assert indices[..k + 1][..k] == indices[..k];
    RootedOn(rows, p, indices[k]);
  }

  method CollectResourceIds(node: TreeNode, resourceIds: seq<Node>, ghost rows: seq<Row>, ghost nodes: seq<TreeNode>,
                            ghost p: seq<nat>)
    returns (ids: seq<Node>)
    requires Shaped(rows, nodes, {}) && Rooted(rows, p) && node == nodes[Tip(p)]
    ensures ids == Collect(rows, p, resourceIds)
    decreases |rows| - |p|, 1
  {
    ids := resourceIds;
    if node.id !in ids {
      ids := ids + [node.id];
    }
    ids := CollectFromChildren(node.children, ids, rows, nodes, p, Kids(rows, Tip(p)));
  }

  /** The loop over the children. */
  method CollectFromChildren(children: seq<TreeNode>, resourceIds: seq<Node>, ghost rows: seq<Row>, ghost nodes: seq<TreeNode>,
                             ghost p: seq<nat>, ghost indices: seq<nat>)
    returns (ids: seq<Node>)
    requires Shaped(rows, nodes, {}) && Rooted(rows, p)
    requires forall k :: k in indices ==> k in Kids(rows, Tip(p))
    requires (forall k :: 0 <= k < |indices| ==> indices[k] < |nodes|) && children == Pick(nodes, indices)
    ensures ids == CollectAll(rows, p, indices, resourceIds)
    decreases |rows| - |p|, 0
  {
    ids := resourceIds;
    for k := 0 to |children|
      invariant ids == CollectAll(rows, p, indices[..k], resourceIds)
    {
      CollectAllStep(rows, p, indices, k, resourceIds);
      RootedShort(rows, p + [indices[k]]);
      ids := CollectResourceIds(children[k], ids, rows, nodes, p + [indices[k]]);
    }
    assert indices[..|indices|] == indices;
  }

  ghost predicate Below(rows: seq<Row>, i: nat, j: nat) {
    exists p :: Descends(rows, p) && p[0] == i && p[|p| - 1] == j
  }

  /** Some object of the resource v hangs below row i's object. */
  ghost predicate Holds(rows: seq<Row>, i: nat, v: Node) {
    exists j: nat :: Below(rows, i, j) && j < |rows| && rows[j].id == v
  }

  lemma BelowSelf(rows: seq<Row>, i: nat)
    requires i < |rows|
    ensures Below(rows, i, i)
  {
    assert Descends(rows, [i]);
  }

  lemma BelowKid(rows: seq<Row>, i: nat, k: nat, j: nat)
    requires i < |rows| && k in Kids(rows, i) && Below(rows, k, j)
    ensures Below(rows, i, j)
  {
    var p :| Descends(rows, p) && p[0] == k && p[|p| - 1] == j;
    var q := [i] + p;
    forall m | 0 <= m < |q| - 1
      ensures q[m + 1] in Kids(rows, q[m])
    {
      if m > 0 {
        assert q[m] == p[m - 1] && q[m + 1] == p[m - 1 + 1];
      }
    }
    assert Descends(rows, q);
  }

  lemma BelowFurther(rows: seq<Row>, i: nat, k: nat, j: nat)
    requires Below(rows, i, k) && k < |rows| && j in Kids(rows, k)
    ensures Below(rows, i, j)
  {
    var p :| Descends(rows, p) && p[0] == i && p[|p| - 1] == k;
    var q := p + [j];
    forall m | 0 <= m < |q| - 1
      ensures q[m + 1] in Kids(rows, q[m])
    {
      if m < |p| - 1 {
        assert q[m] == p[m] && q[m + 1] == p[m + 1];
      }
    }
    assert Descends(rows, q);
  }

  lemma BelowFirst(rows: seq<Row>, i: nat, j: nat) returns (k: nat)
    requires i < |rows| && Below(rows, i, j) && i != j
    ensures k in Kids(rows, i) && Below(rows, k, j)
  {
    var p :| Descends(rows, p) && p[0] == i && p[|p| - 1] == j;
    k := p[1];
    assert p[0 + 1] in Kids(rows, p[0]);
    assert Descends(rows, p[1..]);
  }

  lemma HoldsUnfold(rows: seq<Row>, i: nat, v: Node)
    requires i < |rows|
    ensures Holds(rows, i, v) <==> rows[i].id == v || exists k: nat :: k in Kids(rows, i) && Holds(rows, k, v)
  {
    BelowSelf(rows, i);
    if Holds(rows, i, v) && rows[i].id != v {
      var j: nat :| Below(rows, i, j) && j < |rows| && rows[j].id == v;
      var k := BelowFirst(rows, i, j);
      assert Holds(rows, k, v);
    }
    if exists k: nat :: k in Kids(rows, i) && Holds(rows, k, v) {
      var k: nat :| k in Kids(rows, i) && Holds(rows, k, v);
      var j: nat :| Below(rows, k, j) && j < |rows| && rows[j].id == v;
      BelowKid(rows, i, k, j);
    }
  }

  /** Collecting from an object adds exactly the resources that hang below it, each once. */
  lemma {:induction false} CollectExact(rows: seq<Row>, p: seq<nat>, ids: seq<Node>, v: Node)
    requires Rooted(rows, p) && Distinct(ids)
    ensures Distinct(Collect(rows, p, ids))
    ensures v in Collect(rows, p, ids) <==> v in ids || Holds(rows, Tip(p), v)
    decreases |rows| - |p|, |rows| + 1
  {
    RootedShort(rows, p);
    var i := Tip(p);
    var own := if rows[i].id in ids then ids else ids + [rows[i].id];
    CollectAllExact(rows, p, Kids(rows, i), own, v);
    HoldsUnfold(rows, i, v);
  }

  lemma {:induction false} CollectAllExact(rows: seq<Row>, p: seq<nat>, indices: seq<nat>, ids: seq<Node>, v: Node)
    requires Rooted(rows, p) && Distinct(ids)
    requires forall k :: k in indices ==> k in Kids(rows, Tip(p))
    ensures Distinct(CollectAll(rows, p, indices, ids))
    ensures v in CollectAll(rows, p, indices, ids) <==> v in ids || exists k :: k in indices && Holds(rows, k, v)
    decreases |rows| - |p|, 0, |indices|
  {
    if indices != [] {
      var n := |indices| - 1;
      assert indices == indices[..n] + [indices[n]];
      CollectAllExact(rows, p, indices[..n], ids, v);
      RootedOn(rows, p, indices[n]);
      RootedShort(rows, p + [indices[n]]);
      CollectExact(rows, p + [indices[n]], CollectAll(rows, p, indices[..n], ids), v);
    }
  }

  /** From row j up: to the last row of the resource it is listed under. */
  function Upward(rows: seq<Row>, j: nat): Option<nat>
    requires j < |rows|
  {
    if rows[j].childId.Some? then LastIndex(rows, rows[j].childId.value) else None
  }

  /** Row j leads to row r in n steps up. */
  predicate Climbs(rows: seq<Row>, j: nat, r: nat, n: nat)
    requires j < |rows|
    decreases n
  {
    if n == 0 then j == r else Upward(rows, j).Some? && Climbs(rows, Upward(rows, j).value, r, n - 1)
  }

  ghost predicate RowClimbs(rows: seq<Row>, r: nat, v: Node) {
    exists j: nat, n :: j < |rows| && rows[j].id == v && Climbs(rows, j, r, n)
  }

  /** A resource hangs below row r's object if and only if one of its rows leads up to row r. */
  lemma HoldsIff(rows: seq<Row>, r: nat, v: Node)
    requires r < |rows|
    ensures Holds(rows, r, v) <==> RowClimbs(rows, r, v)
  {
    if Holds(rows, r, v) {
      var j: nat :| Below(rows, r, j) && j < |rows| && rows[j].id == v;
      var p :| Descends(rows, p) && p[0] == r && p[|p| - 1] == j;
      DescentClimbs(rows, p);
      assert Climbs(rows, j, r, |p| - 1);
    }
    if j: nat, n :| j < |rows| && rows[j].id == v && Climbs(rows, j, r, n) {
      ClimbDescends(rows, j, r, n);
    }
  }

  lemma {:induction false} DescentClimbs(rows: seq<Row>, p: seq<nat>)
    requires Descends(rows, p)
    ensures p[|p| - 1] < |rows| && Climbs(rows, p[|p| - 1], p[0], |p| - 1)
  {
    if |p| > 1 {
      var n := |p| - 1;
      assert p[n - 1 + 1] in Kids(rows, p[n - 1]);
      assert Descends(rows, p[..n]);
      DescentClimbs(rows, p[..n]);
    }
  }

  lemma {:induction false} ClimbDescends(rows: seq<Row>, j: nat, r: nat, n: nat)
    requires j < |rows| && r < |rows| && Climbs(rows, j, r, n)
    ensures Below(rows, r, j)
    decreases n
  {
    if n == 0 {
      BelowSelf(rows, r);
    } else {
      var k := Upward(rows, j).value;
      ClimbDescends(rows, k, r, n - 1);
      assert j in Kids(rows, k);
      BelowFurther(rows, r, k, j);
    }
  }

  /** The depth of every resource met. */
  lemma {:induction false} Depths(rows: seq<Row>) returns (depths: map<Node, nat>)
    ensures forall id :: id in depths <==> Met(rows, id)
    ensures forall id :: id in depths ==> DeepestAt(rows, id, depths[id])
  {
    if rows == [] {
      depths := map[];
    } else {
      var n := |rows| - 1;
      var row := rows[n];
      var before := Depths(rows[..n]);
      assert rows == rows[..n] + [row];
      depths := if row.id in before && row.level <= before[row.id] then before else before[row.id := row.level];
      forall id
        ensures id in depths <==> Met(rows, id)
        ensures id in depths ==> DeepestAt(rows, id, depths[id])
      {
        MetStep(rows[..n], row, id);
        if id in before {
          var seen :| seen in rows[..n] && seen.id == id;
          DeepestStep(rows[..n], row, id, before[id], seen.templateId);
        } else if id == row.id {
          FirstMet(rows[..n], row);
        }
      }
    }
  }

  ghost predicate Deepening(rows: seq<Row>, depths: map<Node, nat>) {
    && (forall i :: 0 <= i < |rows| ==> rows[i].id in depths)
    && forall j :: 0 <= j < |rows| && rows[j].childId.Some? ==>
         && LastIndex(rows, rows[j].childId.value).Some?
         && rows[j].childId.value in depths && depths[rows[j].childId.value] < depths[rows[j].id]
  }

  /** The row a resource is listed under is itself met, and less deep. */
  lemma ListedUnderMet(db: Database, root: Node, rows: seq<Row>, depths: map<Node, nat>, row: Row)
    requires IsResult(db, root, rows) && root in db.templates && Acyclic(db, root)
    requires forall id :: id in depths <==> Met(rows, id)
    requires forall id :: id in depths ==> DeepestAt(rows, id, depths[id])
    requires row in rows && row.childId.Some?
    ensures row.id in depths && row.childId.value in depths
    ensures depths[row.childId.value] < depths[row.id]
  {
    OneRowPerSimplePath(db, root, row);
    var n := |row.path| - 1;
    SubPath(db.links, row.path, 0, n);
    var above := RowOf(db, row.path[0..n]);
    OneRowPerSimplePath(db, root, above);
    assert above in rows && above.id == row.childId.value;
    assert (row.path[n - 1], row.path[n - 1 + 1]) in db.links;
    assert Met(rows, row.id) && Met(rows, above.id);
    ChildDeeper(db, root, rows, above.id, row.id, depths[above.id], depths[row.id]);
  }

  lemma DepthsDeepening(db: Database, root: Node, rows: seq<Row>) returns (depths: map<Node, nat>)
    requires IsResult(db, root, rows) && root in db.templates && Acyclic(db, root)
    ensures Deepening(rows, depths)
  {
    depths := Depths(rows);
    forall j | 0 <= j < |rows|
      ensures rows[j].id in depths
      ensures rows[j].childId.Some? ==>
        && LastIndex(rows, rows[j].childId.value).Some?
        && rows[j].childId.value in depths && depths[rows[j].childId.value] < depths[rows[j].id]
    {
      assert rows[j] in rows;
      assert Met(rows, rows[j].id);
      if rows[j].childId.Some? {
        ListedUnderMet(db, root, rows, depths, rows[j]);
        assert Met(rows, rows[j].childId.value);
      }
    }
  }

  /** The object that stays in the node map for a resource always hangs below the root. */
  lemma {:induction false} LastIsBelow(rows: seq<Row>, depths: map<Node, nat>, r: nat, v: Node)
    requires Deepening(rows, depths) && r < |rows|
    requires forall j :: 0 <= j < |rows| && rows[j].childId == None ==> j == r
    requires LastIndex(rows, v).Some?
    ensures Below(rows, r, LastIndex(rows, v).value)
    decreases depths[v]
  {
    var j := LastIndex(rows, v).value;
    if rows[j].childId == None {
      BelowSelf(rows, r);
    } else {
      var u := rows[j].childId.value;
      LastIsBelow(rows, depths, r, u);
      assert j in Kids(rows, LastIndex(rows, u).value);
      BelowFurther(rows, r, LastIndex(rows, u).value, j);
    }
  }

  /** Exactly one row, the root's, is listed under nothing. */
  lemma RootRow(db: Database, root: Node, rows: seq<Row>) returns (r: nat)
    requires IsResult(db, root, rows) && root in db.templates
    ensures r < |rows| && rows[r].id == root && rows[r].childId == None
    ensures forall j :: 0 <= j < |rows| && rows[j].childId == None ==> j == r
  {
    assert SimplePath(db, root, [root]);
    var row := RowOf(db, [root]);
    OneRowPerSimplePath(db, root, row);
    r :| 0 <= r < |rows| && rows[r] == row;
    forall j | 0 <= j < |rows| && rows[j].childId == None
      ensures j == r
    {
      assert rows[j] in rows;
      OneRowPerSimplePath(db, root, rows[j]);
      assert rows[j].path == [root];
      assert rows[j] == row;
    }
  }

  /** The tree holds every reachable resource and nothing else, although shared ones have several objects. */
  lemma TreeHoldsReachable(db: Database, root: Node, rows: seq<Row>, r: nat, v: Node)
    requires IsResult(db, root, rows) && root in db.templates && Acyclic(db, root)
    requires r < |rows| && forall j :: 0 <= j < |rows| && rows[j].childId == None ==> j == r
    ensures Holds(rows, r, v) <==> Reachable(db, root, v)
  {
    if Holds(rows, r, v) {
      var j: nat :| Below(rows, r, j) && j < |rows| && rows[j].id == v;
      assert rows[j] in rows;
      OneRowPerSimplePath(db, root, rows[j]);
    }
    if Reachable(db, root, v) {
      var p :| SimplePath(db, root, p) && Last(p) == v;
      OneRowPerSimplePath(db, root, RowOf(db, p));
      assert RowOf(db, p) in rows;
      var depths := DepthsDeepening(db, root, rows);
      LastIsBelow(rows, depths, r, v);
    }
  }

  /** Every object is in the tree: what a shared resource has too many of are objects without children. */
  lemma EveryObjectHangs(db: Database, root: Node, rows: seq<Row>, r: nat, i: nat)
    requires IsResult(db, root, rows) && root in db.templates && Acyclic(db, root)
    requires r < |rows| && forall j :: 0 <= j < |rows| && rows[j].childId == None ==> j == r
    requires i < |rows|
    ensures Below(rows, r, i)
  {
    if rows[i].childId == None {
      BelowSelf(rows, r);
    } else {
      var depths := DepthsDeepening(db, root, rows);
      var above := LastIndex(rows, rows[i].childId.value).value;
      LastIsBelow(rows, depths, r, rows[i].childId.value);
      assert i in Kids(rows, above);
      BelowFurther(rows, r, above, i);
    }
  }

  /** Row i's object has one child for each resource that depends on row i's, and no other child. */
  ghost predicate CopiedAt(db: Database, rows: seq<Row>, i: nat)
    requires i < |rows|
  {
    && (forall k :: k in Kids(rows, i) ==> (rows[i].id, rows[k].id) in db.links)
    && (forall w :: (rows[i].id, w) in db.links ==> exists k :: k in Kids(rows, i) && rows[k].id == w)
    && forall k, l :: k in Kids(rows, i) && l in Kids(rows, i) && rows[k].id == rows[l].id ==> k == l
  }

  ghost predicate SinglePath(db: Database, root: Node, u: Node) {
    forall p, q :: SimplePath(db, root, p) && SimplePath(db, root, q) && Last(p) == Last(q) == u ==> p == q
  }

  lemma SamePathSameRow(db: Database, root: Node, rows: seq<Row>, i: nat, j: nat)
    requires IsResult(db, root, rows) && i < |rows| && j < |rows| && rows[i].path == rows[j].path
    ensures i == j
  {
    assert rows[i] in rows && rows[j] in rows;
    OneRowPerSimplePath(db, root, rows[i]);
    OneRowPerSimplePath(db, root, rows[j]);
  }

  /** A row listed under a resource records a path to that resource and one link more. */
  lemma ListedPath(db: Database, root: Node, rows: seq<Row>, u: Node, k: nat)
    requires IsResult(db, root, rows) && k in Listed(rows, u)
    ensures |rows[k].path| > 1 && (u, rows[k].id) in db.links
    ensures var p := rows[k].path[..|rows[k].path| - 1]; SimplePath(db, root, p) && Last(p) == u && rows[k].path == p + [rows[k].id]
  {
    var row := rows[k];
    assert row in rows;
    OneRowPerSimplePath(db, root, row);
    var n := |row.path| - 1;
    SubPath(db.links, row.path, 0, n);
    assert row.path[0..n] == row.path[..n];
    assert (row.path[n - 1], row.path[n - 1 + 1]) in db.links;
  }

  /** A resource reached by one path, or one nothing depends on, is copied. */
  lemma SinglePathCopied(db: Database, root: Node, rows: seq<Row>, i: nat)
    requires IsResult(db, root, rows) && root in db.templates && Acyclic(db, root) && i < |rows|
    requires SinglePath(db, root, rows[i].id)
    ensures CopiedAt(db, rows, i)
  {
    var u, j := rows[i].id, LastIndex(rows, rows[i].id).value;
    assert rows[i] in rows && rows[j] in rows;
    OneRowPerSimplePath(db, root, rows[i]);
    OneRowPerSimplePath(db, root, rows[j]);
    SamePathSameRow(db, root, rows, i, j);
    forall k | k in Kids(rows, i)
      ensures rows[k].path == rows[i].path + [rows[k].id] && (u, rows[k].id) in db.links
    {
      ListedPath(db, root, rows, u, k);
    }
    forall k, l | k in Kids(rows, i) && l in Kids(rows, i) && rows[k].id == rows[l].id
      ensures k == l
    {
      SamePathSameRow(db, root, rows, k, l);
    }
    forall w | (u, w) in db.links
      ensures exists k :: k in Kids(rows, i) && rows[k].id == w
    {
      var k := RowOnward(db, root, rows, i, w);
    }
  }

  /** Each link from a row's resource is followed by a row of its own. */
  lemma RowOnward(db: Database, root: Node, rows: seq<Row>, i: nat, w: Node) returns (k: nat)
    requires IsResult(db, root, rows) && root in db.templates && Acyclic(db, root)
    requires i < |rows| && (rows[i].id, w) in db.links
    ensures k in Listed(rows, rows[i].id) && rows[k].id == w
  {
    assert rows[i] in rows;
    OneRowPerSimplePath(db, root, rows[i]);
    var p := rows[i].path + [w];
    ExtendPath(db.links, rows[i].path, w);
    AcyclicWalksSimple(db, root, p);
    OneRowPerSimplePath(db, root, RowOf(db, p));
    k :| 0 <= k < |rows| && rows[k] == RowOf(db, p);
  }

  lemma LeafCopied(db: Database, root: Node, rows: seq<Row>, i: nat)
    requires IsResult(db, root, rows) && i < |rows|
    requires forall w :: (rows[i].id, w) !in db.links
    ensures CopiedAt(db, rows, i)
  {
    forall k | k in Kids(rows, i)
      ensures false
    {
      ListedPath(db, root, rows, rows[i].id, k);
    }
  }

  /**
   * The tree repeats the links exactly, at every object, if and only if each reachable resource that
   * others depend on is reached by a single path. It always does when no resource has two parents.
   */
  lemma TreeIsCopyIffSinglePaths(db: Database, root: Node, rows: seq<Row>)
    requires IsResult(db, root, rows) && root in db.templates && Acyclic(db, root)
    ensures (forall i :: 0 <= i < |rows| ==> CopiedAt(db, rows, i))
       <==> (forall e :: e in ReachableLinks(db, root) ==> SinglePath(db, root, e.0))
  {
    if forall e :: e in ReachableLinks(db, root) ==> SinglePath(db, root, e.0) {
      forall i | 0 <= i < |rows|
        ensures CopiedAt(db, rows, i)
      {
        if w :| (rows[i].id, w) in db.links {
          assert rows[i] in rows;
          OneRowPerSimplePath(db, root, rows[i]);
          assert (rows[i].id, w) in ReachableLinks(db, root);
          SinglePathCopied(db, root, rows, i);
        } else {
          LeafCopied(db, root, rows, i);
        }
      }
    }
    if forall i :: 0 <= i < |rows| ==> CopiedAt(db, rows, i) {
      forall e | e in ReachableLinks(db, root)
        ensures SinglePath(db, root, e.0)
      {
        CopiedSinglePath(db, root, rows, e);
      }
    }
  }

  /** Of two rows about a resource, only one has an object with children. */
  lemma CopiedSinglePath(db: Database, root: Node, rows: seq<Row>, e: (Node, Node))
    requires IsResult(db, root, rows) && e in ReachableLinks(db, root)
    requires forall i :: 0 <= i < |rows| ==> CopiedAt(db, rows, i)
    ensures SinglePath(db, root, e.0)
  {
    forall p, q | SimplePath(db, root, p) && SimplePath(db, root, q) && Last(p) == Last(q) == e.0
      ensures p == q
    {
      OneRowPerSimplePath(db, root, RowOf(db, p));
      OneRowPerSimplePath(db, root, RowOf(db, q));
      var i :| 0 <= i < |rows| && rows[i] == RowOf(db, p);
      var j :| 0 <= j < |rows| && rows[j] == RowOf(db, q);
      assert CopiedAt(db, rows, i) && CopiedAt(db, rows, j);
      assert e == (e.0, e.1);
      assert Kids(rows, i) != [] && Kids(rows, j) != [];
    }
  }

  /** No resource has two parents. */
  lemma SingleParentSinglePath(db: Database, root: Node, p: seq<Node>, q: seq<Node>)
    requires Sound(db) && root in db.templates
    requires forall e, f :: e in ReachableLinks(db, root) && f in ReachableLinks(db, root) && e.1 == f.1 ==> e == f
    requires SimplePath(db, root, p) && SimplePath(db, root, q) && Last(p) == Last(q)
    ensures p == q
  {
    var m, n := |p| - 1, |q| - 1;
    WalkReachable(db, root, p);
    WalkReachable(db, root, q);
    if m > 0 && n > 0 {
      var links := ReachableLinks(db, root);
      assert (p[m - 1], p[m - 1 + 1]) in links && (q[n - 1], q[n - 1 + 1]) in links;
      SubPath(db.links, p, 0, m);
      SubPath(db.links, q, 0, n);
      SingleParentSinglePath(db, root, p[0..m], q[0..n]);
      assert p == p[0..m] + [p[m]] && q == q[0..n] + [q[n]];
    } else if m == n {
      assert p == q;
    }
  }

  lemma SingleParentsCopied(db: Database, root: Node, rows: seq<Row>, i: nat)
    requires IsResult(db, root, rows) && root in db.templates && Acyclic(db, root) && i < |rows|
    requires forall e, f :: e in ReachableLinks(db, root) && f in ReachableLinks(db, root) && e.1 == f.1 ==> e == f
    ensures CopiedAt(db, rows, i)
  {
    forall p, q | SimplePath(db, root, p) && SimplePath(db, root, q) && Last(p) == Last(q) == rows[i].id
      ensures p == q
    {
      SingleParentSinglePath(db, root, p, q);
    }
    SinglePathCopied(db, root, rows, i);
  }

  /** Only reachable resources have rows, so nothing else can be in the tree. */
  lemma HeldReachable(db: Database, root: Node, rows: seq<Row>, r: nat, v: Node)
    requires IsResult(db, root, rows) && r < |rows| && Holds(rows, r, v)
    ensures Reachable(db, root, v)
  {
    var j: nat :| Below(rows, r, j) && j < |rows| && rows[j].id == v;
    assert rows[j] in rows;
    OneRowPerSimplePath(db, root, rows[j]);
  }

  /**
   * The resources a policy with inherits_children applies to. Whatever the links, the collection ends and
   * holds only reachable resources, each once: those in the tree. Without a reachable cycle it holds them all.
   */
  method InheritingResources(ghost db: Database, ghost root: Node, rows: seq<Row>) returns (ids: seq<Node>, ghost r: nat)
    requires IsResult(db, root, rows) && root in db.templates
    ensures Distinct(ids)
    ensures r < |rows| && rows[r].id == root && rows[r].childId == None
    ensures forall v :: v in ids <==> RowClimbs(rows, r, v)
    ensures forall v :: v in ids ==> Reachable(db, root, v)
    ensures Acyclic(db, root) ==> forall v :: v in ids <==> Reachable(db, root, v)
  {
    r := RootRow(db, root, rows);
    var tree, nodes := GetTree(rows);
    ids := CollectResourceIds(tree, [], rows, nodes, [r]);
    forall v
      ensures v in ids <==> RowClimbs(rows, r, v)
      ensures v in ids ==> Reachable(db, root, v)
      ensures Acyclic(db, root) ==> (v in ids <==> Reachable(db, root, v))
    {
      CollectExact(rows, [r], [], v);
      HoldsIff(rows, r, v);
      if v in ids {
        HeldReachable(db, root, rows, r, v);
      }
      if Acyclic(db, root) {
        TreeHoldsReachable(db, root, rows, r, v);
      }
    }
    CollectExact(rows, [r], [], root);
  }

  predicate AllDiffer(root: Node, a: Node, b: Node, c: Node) {
    root != a && root != b && root != c && a != b && a != c && b != c
  }

  /** Four resources: root -> a, root -> b, a -> b, b -> a, a -> c. */
  function CyclicDatabase(root: Node, a: Node, b: Node, c: Node, t: Node): Database {
    Database(map[root := t, a := t, b := t, c := t], {(root, a), (root, b), (a, b), (b, a), (a, c)})
  }

  /** What the query returns for them, by level. */
  function CyclicRows(root: Node, a: Node, b: Node, c: Node, t: Node): seq<Row> {
    [Row(root, t, None, 0, [root]), Row(a, t, Some(root), 1, [root, a]), Row(b, t, Some(root), 1, [root, b]),
     Row(b, t, Some(a), 2, [root, a, b]), Row(c, t, Some(a), 2, [root, a, c]), Row(a, t, Some(b), 2, [root, b, a]),
     Row(c, t, Some(a), 3, [root, b, a, c])]
  }

  /** Where the walk goes on from a row. */
  function Onward(db: Database, row: Row): set<Node> {
    set link | link in db.links && link.0 == row.id && link.1 !in row.path :: link.1
  }

  function Grown(db: Database, row: Row, v: Node): Row
    requires v in db.templates
  {
    Row(v, db.templates[v], Some(row.id), row.level + 1, row.path + [v])
  }

  lemma JoinMember(db: Database, working: set<Row>, row: Row)
    requires Sound(db)
    ensures row in Join(db, working) <==>
      exists before :: before in working && row.id in Onward(db, before) && row == Grown(db, before, row.id)
  {
    if row in Join(db, working) {
      var before, link :| before in working && link in db.links && link.0 == before.id && link.1 !in before.path
        && row == Row(link.1, db.templates[link.1], Some(link.0), before.level + 1, before.path + [link.1]);
      assert row.id in Onward(db, before) && row == Grown(db, before, row.id);
    }
  }

  lemma CyclicOnward(root: Node, a: Node, b: Node, c: Node, t: Node, row: Row)
    requires AllDiffer(root, a, b, c)
    ensures Onward(CyclicDatabase(root, a, b, c, t), row)
         == (if row.id == root then {a, b} else if row.id == a then {b, c} else if row.id == b then {a} else {})
            - Elements(row.path)
  {
    var db := CyclicDatabase(root, a, b, c, t);
    forall v
      ensures v in Onward(db, row) <==> (row.id, v) in db.links && v !in row.path
    {
      if (row.id, v) in db.links && v !in row.path {
        var link := (row.id, v);
        assert link in db.links && link.0 == row.id && link.1 == v;
      }
    }
  }

  /** The level below a set of rows, once the rows each of them grows into are known. */
  lemma JoinIs(db: Database, working: set<Row>, next: set<Row>)
    requires Sound(db)
    requires forall before, v :: before in working && v in Onward(db, before) ==> Grown(db, before, v) in next
    requires forall row :: row in next ==>
      exists before :: before in working && row.id in Onward(db, before) && row == Grown(db, before, row.id)
    ensures Join(db, working) == next
  {
    forall row
      ensures row in Join(db, working) <==> row in next
    {
      JoinMember(db, working, row);
    }
  }

  lemma CyclicStep1(root: Node, a: Node, b: Node, c: Node, t: Node)
    requires AllDiffer(root, a, b, c)
    ensures var db, rows := CyclicDatabase(root, a, b, c, t), CyclicRows(root, a, b, c, t);
            Join(db, {rows[0]}) == {rows[1], rows[2]}
  {
    var db, rows := CyclicDatabase(root, a, b, c, t), CyclicRows(root, a, b, c, t);
    CyclicOnward(root, a, b, c, t, rows[0]);
    assert Onward(db, rows[0]) == {a, b};
    assert Grown(db, rows[0], a) == rows[1] && Grown(db, rows[0], b) == rows[2];
    JoinIs(db, {rows[0]}, {rows[1], rows[2]});
  }

  lemma CyclicStep2(root: Node, a: Node, b: Node, c: Node, t: Node)
    requires AllDiffer(root, a, b, c)
    ensures var db, rows := CyclicDatabase(root, a, b, c, t), CyclicRows(root, a, b, c, t);
            Join(db, {rows[1], rows[2]}) == {rows[3], rows[4], rows[5]}
  {
    var db, rows := CyclicDatabase(root, a, b, c, t), CyclicRows(root, a, b, c, t);
    CyclicOnward(root, a, b, c, t, rows[1]);
    CyclicOnward(root, a, b, c, t, rows[2]);
    assert Onward(db, rows[1]) == {b, c};
    assert Onward(db, rows[2]) == {a};
    assert Grown(db, rows[1], b) == rows[3] && Grown(db, rows[1], c) == rows[4] && Grown(db, rows[2], a) == rows[5];
    JoinIs(db, {rows[1], rows[2]}, {rows[3], rows[4], rows[5]});
  }

  lemma CyclicStep3(root: Node, a: Node, b: Node, c: Node, t: Node)
    requires AllDiffer(root, a, b, c)
    ensures var db, rows := CyclicDatabase(root, a, b, c, t), CyclicRows(root, a, b, c, t);
            Join(db, {rows[3], rows[4], rows[5]}) == {rows[6]} && Join(db, {rows[6]}) == {}
  {
    var db, rows := CyclicDatabase(root, a, b, c, t), CyclicRows(root, a, b, c, t);
    forall i | 3 <= i < 7
      ensures Onward(db, rows[i]) == if i == 5 then {c} else {}
    {
      CyclicOnward(root, a, b, c, t, rows[i]);
    }
    assert Grown(db, rows[5], c) == rows[6];
    JoinIs(db, {rows[3], rows[4], rows[5]}, {rows[6]});
    JoinIs(db, {rows[6]}, {});
  }

  /**
   * With a cycle, a subtree can end up below an object that is detached from the root: the objects of a
   * and b that stay in the node map hang only below each other, and c hangs only below them.
   */
  lemma CyclicRowsDetach(root: Node, a: Node, b: Node, c: Node, t: Node)
    requires AllDiffer(root, a, b, c)
    ensures var db, rows := CyclicDatabase(root, a, b, c, t), CyclicRows(root, a, b, c, t);
            IsResult(db, root, rows) && Reachable(db, root, c) && !Holds(rows, 0, c)
  {
    CyclicRowsAreResult(root, a, b, c, t);
    CyclicRowsMiss(root, a, b, c, t);
  }

  /** The query, read off its successive working tables. */
  lemma TablesHoldResult(db: Database, root: Node, tables: seq<set<Row>>, row: Row)
    requires Sound(db) && root in db.templates
    requires |tables| > 0 && tables[0] == {Row(root, db.templates[root], None, 0, [root])}
    requires forall k :: 0 < k < |tables| ==> tables[k] == Join(db, tables[k - 1])
    requires tables[|tables| - 1] == {}
    ensures row in GetTreeToChildren(db, root) <==> exists k :: 0 <= k < |tables| && row in tables[k]
  {
    StartExact(db, root);
    for k := 1 to |tables|
      invariant forall j :: 0 <= j < k ==> RowsAt(db, root, j, tables[j])
    {
      StepExact(db, root, k - 1, tables[k - 1]);
    }
    OneRowPerSimplePath(db, root, row);
    if row in GetTreeToChildren(db, root) {
      if |row.path| >= |tables| {
        PrefixRow(db, root, |tables| - 1, {}, row.path);
      } else {
        assert row in tables[|row.path| - 1];
      }
    }
  }

  lemma CyclicRowsDistinct(root: Node, a: Node, b: Node, c: Node, t: Node)
    requires AllDiffer(root, a, b, c)
    ensures Distinct(CyclicRows(root, a, b, c, t))
  {
    var rows := CyclicRows(root, a, b, c, t);
    forall i, j | 0 <= i < j < 7
      ensures rows[i] != rows[j]
    {
      assert rows[i].id == rows[j].id && rows[i].level == rows[j].level ==> i == j;
    }
  }

  function ByLevel(rows: seq<Row>): seq<set<Row>>
    requires |rows| == 7
  {
    [{rows[0]}, {rows[1], rows[2]}, {rows[3], rows[4], rows[5]}, {rows[6]}, {}]
  }

  lemma ByLevelHolds(rows: seq<Row>, row: Row)
    requires |rows| == 7
    ensures (exists k :: 0 <= k < 5 && row in ByLevel(rows)[k]) <==> row in rows
  {
    if row in rows {
      var i :| 0 <= i < 7 && rows[i] == row;
      assert row in ByLevel(rows)[if i == 0 then 0 else if i < 3 then 1 else if i < 6 then 2 else 3];
    }
  }

  lemma CyclicTables(root: Node, a: Node, b: Node, c: Node, t: Node)
    requires AllDiffer(root, a, b, c)
    ensures var db, tables := CyclicDatabase(root, a, b, c, t), ByLevel(CyclicRows(root, a, b, c, t));
            forall k :: 0 < k < 5 ==> tables[k] == Join(db, tables[k - 1])
  {
    CyclicStep1(root, a, b, c, t);
    CyclicStep2(root, a, b, c, t);
    CyclicStep3(root, a, b, c, t);
  }

  lemma CyclicRowsAreResult(root: Node, a: Node, b: Node, c: Node, t: Node)
    requires AllDiffer(root, a, b, c)
    ensures var db, rows := CyclicDatabase(root, a, b, c, t), CyclicRows(root, a, b, c, t);
            IsResult(db, root, rows) && Reachable(db, root, c)
  {
    var db, rows := CyclicDatabase(root, a, b, c, t), CyclicRows(root, a, b, c, t);
    CyclicTables(root, a, b, c, t);
    CyclicRowsDistinct(root, a, b, c, t);
    forall row
      ensures row in rows <==> row in GetTreeToChildren(db, root)
    {
      TablesHoldResult(db, root, ByLevel(rows), row);
      ByLevelHolds(rows, row);
    }
    assert rows[4] in rows;
    OneRowPerSimplePath(db, root, rows[4]);
    assert SimplePath(db, root, rows[4].path);
  }

  lemma CyclicRowsMiss(root: Node, a: Node, b: Node, c: Node, t: Node)
    requires AllDiffer(root, a, b, c)
    ensures !Holds(CyclicRows(root, a, b, c, t), 0, c)
  {
    var rows := CyclicRows(root, a, b, c, t);
    LastIndexFromEnd(rows, a, 5);
    LastIndexFromEnd(rows, b, 3);
    LastIndexFromEnd(rows, root, 0);
    if Holds(rows, 0, c) {
      var j: nat :| Below(rows, 0, j) && j < |rows| && rows[j].id == c;
      var p :| Descends(rows, p) && p[0] == 0 && p[|p| - 1] == j;
      StaysIn(rows, p, {0, 1, 2});
    }
  }

  lemma LastIndexFromEnd(rows: seq<Row>, id: Node, i: nat)
    requires i < |rows| && rows[i].id == id
    requires forall k :: i < k < |rows| ==> rows[k].id != id
    ensures LastIndex(rows, id) == Some(i)
  {
    if i < |rows| - 1 {
      LastIndexFromEnd(rows[..|rows| - 1], id, i);
    }
  }

  /** A walk down the objects cannot leave a set that is closed under children. */
  lemma StaysIn(rows: seq<Row>, p: seq<nat>, closed: set<nat>)
    requires Descends(rows, p) && p[0] in closed
    requires forall i, k :: i in closed && i < |rows| && k in Kids(rows, i) ==> k in closed
    ensures p[|p| - 1] in closed
  {
    if |p| > 1 {
      assert p[0 + 1] in Kids(rows, p[0]);
      assert Descends(rows, p[1..]);
      StaysIn(rows, p[1..], closed);
    }
  }
}
