/**
 * Planning a cascade destroy: collapsing the rows of the recursive walk to one step per
 * resource, positioned so that everything that depends on a resource goes before it.
 */
module CascadeDestroy {
  import opened Common
  import opened Graphs
  import opened ResourceWalk

  datatype Step = Step(resourceId: Node, templateId: Node, position: nat)

  /** The greatest level at which the walk met this resource. */
  ghost predicate DeepestAt(rows: seq<Row>, id: Node, depth: int) {
    && (exists row :: row in rows && row.id == id && row.level == depth)
    && forall row :: row in rows && row.id == id ==> row.level <= depth
  }

  ghost predicate Height(rows: seq<Row>, height: int) {
    && (exists row :: row in rows && row.level == height)
    && forall row :: row in rows ==> row.level <= height
  }

  ghost predicate OnePerResource(steps: seq<Step>) {
    forall i, j :: 0 <= i < j < |steps| ==> steps[i].resourceId != steps[j].resourceId
  }

  ghost predicate AscendingPositions(steps: seq<Step>) {
    forall i, j :: 0 <= i < j < |steps| ==> steps[i].position <= steps[j].position
  }

  ghost predicate Met(rows: seq<Row>, id: Node) {
    exists row :: row in rows && row.id == id
  }

  ghost predicate TemplateSeen(rows: seq<Row>, id: Node, templateId: Node) {
    exists row :: row in rows && row.id == id && row.templateId == templateId
  }

  ghost predicate Planned(steps: seq<Step>, id: Node) {
    exists step :: step in steps && step.resourceId == id
  }

  ghost predicate Positioned(rows: seq<Row>, height: int, step: Step) {
    && DeepestAt(rows, step.resourceId, height - step.position)
    && TemplateSeen(rows, step.resourceId, step.templateId)
  }

  /** One step per resource met, the deepest first, in order of position. */
  ghost predicate IsPlan(rows: seq<Row>, height: int, steps: seq<Step>) {
    && Height(rows, height)
    && OnePerResource(steps) && AscendingPositions(steps)
    && (forall id :: Planned(steps, id) <==> Met(rows, id))
    && forall step :: step in steps ==> Positioned(rows, height, step)
  }

  /** Sorted and duplicate-free, stated head first for the sort. */
  ghost predicate Chain(steps: seq<Step>) {
    steps == [] ||
    ((forall s :: s in steps[1..] ==> steps[0].position <= s.position) && Chain(steps[1..]))
  }

  ghost predicate Fresh(steps: seq<Step>) {
    steps == [] ||
    ((forall s :: s in steps[1..] ==> s.resourceId != steps[0].resourceId) && Fresh(steps[1..]))
  }

  function Insert(step: Step, steps: seq<Step>): (r: seq<Step>)
    requires Chain(steps)
    ensures Chain(r)
    ensures forall s :: s in r <==> s == step || s in steps
    ensures Fresh(steps) && (forall s :: s in steps ==> s.resourceId != step.resourceId) ==> Fresh(r)
  {
    if steps == [] || step.position <= steps[0].position then [step] + steps
    else [steps[0]] + Insert(step, steps[1..])
  }

  /** The stable sort by position. */
  function SortByPosition(steps: seq<Step>): (r: seq<Step>)
    ensures Chain(r)
    ensures forall s :: s in r <==> s in steps
    ensures Fresh(steps) ==> Fresh(r)
  {
    if steps == [] then [] else Insert(steps[0], SortByPosition(steps[1..]))
  }

  lemma ChainAscending(steps: seq<Step>)
    requires Chain(steps)
    ensures AscendingPositions(steps)
  {
    forall i, j | 0 <= i < j < |steps|
      ensures steps[i].position <= steps[j].position
    {
      if i == 0 {
        assert steps[j] == steps[1..][j - 1];
      } else {
        ChainAscending(steps[1..]);
        assert steps[i] == steps[1..][i - 1] && steps[j] == steps[1..][j - 1];
      }
    }
  }

  lemma FreshUnique(steps: seq<Step>)
    ensures Fresh(steps) <==> OnePerResource(steps)
  {
    if steps != [] {
      FreshUnique(steps[1..]);
      if Fresh(steps) {
        forall i, j | 0 <= i < j < |steps|
          ensures steps[i].resourceId != steps[j].resourceId
        {
          assert steps[j] == steps[1..][j - 1];
          if i > 0 {
            assert steps[i] == steps[1..][i - 1];
          }
        }
      }
    }
  }

  ghost predicate Collapsed(rows: seq<Row>, order: seq<Node>, maxDepth: map<Node, nat>, templateIds: map<Node, Node>) {
    && Distinct(order)
    && (forall id :: id in order <==> Met(rows, id))
    && (forall id :: id in maxDepth <==> id in order)
    && templateIds.Keys == maxDepth.Keys
    && forall id {:trigger maxDepth[id]} :: id in order ==>
         DeepestAt(rows, id, maxDepth[id]) && TemplateSeen(rows, id, templateIds[id])
  }

  /** The dictionaries after one more row. */
  lemma CollapsedStep(rows: seq<Row>, row: Row, order: seq<Node>, maxDepth: map<Node, nat>, templateIds: map<Node, Node>,
                      order': seq<Node>, maxDepth': map<Node, nat>, templateIds': map<Node, Node>)
    requires Collapsed(rows, order, maxDepth, templateIds)
    requires order' == if row.id in maxDepth then order else order + [row.id]
    requires row.id !in maxDepth || row.level > maxDepth[row.id] ==>
      maxDepth' == maxDepth[row.id := row.level] && templateIds' == templateIds[row.id := row.templateId]
    requires row.id in maxDepth && row.level <= maxDepth[row.id] ==> maxDepth' == maxDepth && templateIds' == templateIds
    ensures Collapsed(rows + [row], order', maxDepth', templateIds')
  {
    forall id
      ensures id in order' <==> Met(rows + [row], id)
    {
      MetStep(rows, row, id);
    }
    assert forall id :: id in order <==> Met(rows, id);
    forall id | id in order'
      ensures DeepestAt(rows + [row], id, maxDepth'[id]) && TemplateSeen(rows + [row], id, templateIds'[id])
    {
      if id in order {
        DeepestStep(rows, row, id, maxDepth[id], templateIds[id]);
      } else {
        FirstMet(rows, row);
      }
    }
  }

  lemma MetStep(rows: seq<Row>, row: Row, id: Node)
    ensures Met(rows + [row], id) <==> Met(rows, id) || row.id == id
  {
    assert row in rows + [row];
    assert forall r :: r in rows ==> r in rows + [row];
  }

  lemma DeepestStep(rows: seq<Row>, row: Row, id: Node, depth: nat, templateId: Node)
    requires DeepestAt(rows, id, depth) && TemplateSeen(rows, id, templateId)
    ensures row.id == id && row.level > depth ==>
      DeepestAt(rows + [row], id, row.level) && TemplateSeen(rows + [row], id, row.templateId)
    ensures !(row.id == id && row.level > depth) ==>
      DeepestAt(rows + [row], id, depth) && TemplateSeen(rows + [row], id, templateId)
  {
    assert row in rows + [row];
    assert forall r :: r in rows + [row] <==> r in rows || r == row;
  }

  lemma FirstMet(rows: seq<Row>, row: Row)
    requires !Met(rows, row.id)
    ensures DeepestAt(rows + [row], row.id, row.level) && TemplateSeen(rows + [row], row.id, row.templateId)
  {
    assert row in rows + [row];
  }

  /** First loop: keep the maximum depth of each node; order is the insertion order of the dictionary. */
  method Deduplicate(rows: seq<Row>)
    returns (order: seq<Node>, maxDepth: map<Node, nat>, templateIds: map<Node, Node>)
    ensures Collapsed(rows, order, maxDepth, templateIds)
  {
    order, maxDepth, templateIds := [], map[], map[];
    for k := 0 to |rows|
      invariant Collapsed(rows[..k], order, maxDepth, templateIds)
    {
      var row := rows[k];
      ghost var before, depths, templates := order, maxDepth, templateIds;
      if row.id !in maxDepth {
        order := order + [row.id];
      }
      if row.id !in maxDepth || row.level > maxDepth[row.id] {
        maxDepth := maxDepth[row.id := row.level];
        templateIds := templateIds[row.id := row.templateId];
      }
      CollapsedStep(rows[..k], row, before, depths, templates, order, maxDepth, templateIds);
      assert rows[..k + 1] == rows[..k] + [row];
    }
    assert rows[..|rows|] == rows;
  }

  /** max(max_depth.values()) */
  method Greatest(rows: seq<Row>, order: seq<Node>, maxDepth: map<Node, nat>, ghost templateIds: map<Node, Node>)
    returns (height: nat)
    requires rows != [] && Collapsed(rows, order, maxDepth, templateIds)
    ensures Height(rows, height)
  {
    assert Met(rows, rows[0].id);
    height := maxDepth[order[0]];
    ghost var top := order[0];
    for k := 1 to |order|
      invariant top in order && height == maxDepth[top]
      invariant forall i :: 0 <= i < k ==> maxDepth[order[i]] <= height
    {
      if maxDepth[order[k]] > height {
        height := maxDepth[order[k]];
        top := order[k];
      }
    }
    assert DeepestAt(rows, top, maxDepth[top]);
    forall row | row in rows
      ensures row.level <= height
    {
      assert Met(rows, row.id);
      assert DeepestAt(rows, row.id, maxDepth[row.id]);
    }
  }

  method CollectDescendantsPostOrder(rows: seq<Row>) returns (steps: seq<Step>)
    ensures rows == [] ==> steps == []
    ensures rows != [] ==> exists height :: IsPlan(rows, height, steps)
  {
    if rows == [] {
      return [];
    }
    var order, maxDepth, templateIds := Deduplicate(rows);
    var height := Greatest(rows, order, maxDepth, templateIds);
    forall id | id in order
      ensures maxDepth[id] <= height
    {
      assert DeepestAt(rows, id, maxDepth[id]);
    }
    var listed := seq(|order|, i requires 0 <= i < |order| =>
      Step(order[i], templateIds[order[i]], height - maxDepth[order[i]]));
    steps := SortByPosition(listed);
    ListedPlan(rows, order, maxDepth, templateIds, height, listed);
  }

  lemma ListedPlan(rows: seq<Row>, order: seq<Node>, maxDepth: map<Node, nat>, templateIds: map<Node, Node>,
                   height: nat, listed: seq<Step>)
    requires Collapsed(rows, order, maxDepth, templateIds) && Height(rows, height)
    requires |listed| == |order|
    requires forall i | 0 <= i < |order| ::
      maxDepth[order[i]] <= height && listed[i] == Step(order[i], templateIds[order[i]], height - maxDepth[order[i]])
    ensures IsPlan(rows, height, SortByPosition(listed))
  {
    assert OnePerResource(listed);
    SortedKeeps(listed);
    ListedPositioned(rows, order, maxDepth, templateIds, height, listed);
    ListedIds(order, listed);
  }

  /** Sorting puts positions in order and keeps which resources are planned. */
  lemma SortedKeeps(listed: seq<Step>)
    requires OnePerResource(listed)
    ensures OnePerResource(SortByPosition(listed)) && AscendingPositions(SortByPosition(listed))
    ensures forall id :: Planned(SortByPosition(listed), id) <==> Planned(listed, id)
  {
    ChainAscending(SortByPosition(listed));
    FreshUnique(listed);
    FreshUnique(SortByPosition(listed));
  }

  lemma ListedPositioned(rows: seq<Row>, order: seq<Node>, maxDepth: map<Node, nat>, templateIds: map<Node, Node>,
                         height: nat, listed: seq<Step>)
    requires Collapsed(rows, order, maxDepth, templateIds) && |listed| == |order|
    requires forall i | 0 <= i < |order| ::
      maxDepth[order[i]] <= height && listed[i] == Step(order[i], templateIds[order[i]], height - maxDepth[order[i]])
    ensures forall step :: step in listed ==> Positioned(rows, height, step)
  {
    forall i | 0 <= i < |order|
      ensures Positioned(rows, height, listed[i])
    {
      assert order[i] in order;
    }
  }

  lemma ListedIds(order: seq<Node>, listed: seq<Step>)
    requires |listed| == |order| && forall i :: 0 <= i < |order| ==> listed[i].resourceId == order[i]
    ensures forall id :: Planned(listed, id) <==> id in order
  {
    forall id
      ensures Planned(listed, id) <==> id in order
    {
      if id in order {
        var i :| 0 <= i < |order| && order[i] == id;
        assert listed[i] in listed;
      }
    }
  }

  /** The rows the query returns for a root, with the plan made from them. */
  ghost predicate Planning(db: Database, root: Node, rows: seq<Row>, height: int, steps: seq<Step>) {
    IsResult(db, root, rows) && root in db.templates && IsPlan(rows, height, steps)
  }

  /** The plan covers exactly the reachable resources. */
  lemma PlanCoversReachable(db: Database, root: Node, rows: seq<Row>, height: int, steps: seq<Step>, id: Node)
    requires Planning(db, root, rows, height, steps)
    ensures Planned(steps, id) <==> Reachable(db, root, id)
  {
    if Met(rows, id) {
      var row :| row in rows && row.id == id;
      OneRowPerSimplePath(db, root, row);
    }
    if Reachable(db, root, id) {
      var p :| SimplePath(db, root, p) && Last(p) == id;
      OneRowPerSimplePath(db, root, RowOf(db, p));
      assert RowOf(db, p) in rows;
    }
  }

  /** In an acyclic graph the kept depth bounds every walk from the root, so a child lies deeper than its parent. */
  lemma ChildDeeper(db: Database, root: Node, rows: seq<Row>, parent: Node, child: Node, depth: int, childDepth: int)
    requires IsResult(db, root, rows) && root in db.templates && Acyclic(db, root)
    requires (parent, child) in db.links
    requires DeepestAt(rows, parent, depth) && DeepestAt(rows, child, childDepth)
    ensures depth < childDepth
  {
    var row :| row in rows && row.id == parent && row.level == depth;
    OneRowPerSimplePath(db, root, row);
    ExtendPath(db.links, row.path, child);
    AcyclicWalksSimple(db, root, row.path + [child]);
    OneRowPerSimplePath(db, root, RowOf(db, row.path + [child]));
    assert RowOf(db, row.path + [child]) in rows;
  }

  /** Every link the walk can follow goes from a later step to an earlier one. */
  ghost predicate ChildrenFirst(db: Database, steps: seq<Step>) {
    forall parent, child | parent in steps && child in steps ::
      (parent.resourceId, child.resourceId) in db.links ==> child.position < parent.position
  }

  lemma PathDescends(db: Database, root: Node, rows: seq<Row>, height: int, steps: seq<Step>, p: seq<Node>,
                     first: Step, last: Step)
    requires Planning(db, root, rows, height, steps) && ChildrenFirst(db, steps)
    requires IsPath(ReachableLinks(db, root), p)
    requires first in steps && first.resourceId == p[0]
    requires last in steps && last.resourceId == Last(p)
    ensures last.position + |p| - 1 <= first.position
  {
    if |p| == 1 {
      SameStep(steps, first, last);
    } else {
      var n := |p| - 1;
      assert (p[n - 1], p[n - 1 + 1]) in ReachableLinks(db, root);
      PlanCoversReachable(db, root, rows, height, steps, p[n - 1]);
      var step :| step in steps && step.resourceId == p[n - 1];
      SubPath(ReachableLinks(db, root), p, 0, n);
      PathDescends(db, root, rows, height, steps, p[0..n], first, step);
    }
  }

  lemma SameStep(steps: seq<Step>, a: Step, b: Step)
    requires OnePerResource(steps) && a in steps && b in steps && a.resourceId == b.resourceId
    ensures a == b
  {
    var i :| 0 <= i < |steps| && steps[i] == a;
    var j :| 0 <= j < |steps| && steps[j] == b;
    assert i == j;
  }

  /** Children come strictly before their parents exactly when no cycle can be reached from the root. */
  lemma ChildrenFirstIffAcyclic(db: Database, root: Node, rows: seq<Row>, height: int, steps: seq<Step>)
    requires Planning(db, root, rows, height, steps)
    ensures ChildrenFirst(db, steps) <==> Acyclic(db, root)
  {
    if Acyclic(db, root) {
      forall parent, child | parent in steps && child in steps
        && (parent.resourceId, child.resourceId) in db.links
        ensures child.position < parent.position
      {
        ChildDeeper(db, root, rows, parent.resourceId, child.resourceId,
                    height - parent.position, height - child.position);
      }
    } else if ChildrenFirst(db, steps) {
      var links := ReachableLinks(db, root);
      var p :| IsPath(links, p) && |p| >= 2 && p[0] == Last(p);
      assert (p[0], p[0 + 1]) in links;
      PlanCoversReachable(db, root, rows, height, steps, p[0]);
      var step :| step in steps && step.resourceId == p[0];
      PathDescends(db, root, rows, height, steps, p, step, step);
      assert false;
    }
  }

  /** Resources destroyed at the same position never depend on one another, directly or not. */
  lemma SamePositionIndependent(db: Database, root: Node, rows: seq<Row>, height: int, steps: seq<Step>,
                                a: Step, b: Step, p: seq<Node>)
    requires Planning(db, root, rows, height, steps) && Acyclic(db, root)
    requires a in steps && b in steps && a.position == b.position && a != b
    ensures !(IsPath(db.links, p) && p[0] == a.resourceId && Last(p) == b.resourceId)
  {
    if IsPath(db.links, p) && p[0] == a.resourceId && Last(p) == b.resourceId {
      ChildrenFirstIffAcyclic(db, root, rows, height, steps);
      PlanCoversReachable(db, root, rows, height, steps, p[0]);
      PathFromReachable(db, root, p);
      PathDescends(db, root, rows, height, steps, p, a, b);
      SameStep(steps, a, b);
      assert false;
    }
  }

  lemma PathFromReachable(db: Database, root: Node, p: seq<Node>)
    requires Sound(db) && IsPath(db.links, p) && Reachable(db, root, p[0])
    ensures IsPath(ReachableLinks(db, root), p) && Reachable(db, root, Last(p))
  {
    if |p| > 1 {
      var n := |p| - 1;
      SubPath(db.links, p, 0, n);
      PathFromReachable(db, root, p[0..n]);
      assert (p[n - 1], p[n - 1 + 1]) in db.links;
      ReachableStep(db, root, p[n - 1], p[n]);
      ExtendPath(ReachableLinks(db, root), p[0..n], p[n]);
      assert p == p[0..n] + [p[n]];
    }
  }

  /** The root is destroyed last, alone at the highest position. */
  lemma RootOnTop(db: Database, root: Node, rows: seq<Row>, height: int, steps: seq<Step>, step: Step)
    requires Planning(db, root, rows, height, steps)
    requires step in steps
    ensures step.position <= height
    ensures step.position == height <==> step.resourceId == root
  {
    var row :| row in rows && row.id == step.resourceId && row.level == height - step.position;
    OneRowPerSimplePath(db, root, row);
    if step.resourceId == root {
      assert row.path[0] == row.path[|row.path| - 1];
    }
  }

  /** Positions leave no gap: every value from 0 to the root's is used. */
  lemma PositionsContiguous(db: Database, root: Node, rows: seq<Row>, height: int, steps: seq<Step>, position: nat)
    returns (step: Step)
    requires Planning(db, root, rows, height, steps) && Acyclic(db, root)
    requires position <= height
    ensures step in steps && step.position == position
  {
    var deepest :| deepest in rows && deepest.level == height;
    OneRowPerSimplePath(db, root, deepest);
    var id := deepest.path[height - position];
    SubPath(db.links, deepest.path, 0, height - position + 1);
    var prefix := deepest.path[0..height - position + 1];
    assert SimplePath(db, root, prefix);
    OneRowPerSimplePath(db, root, RowOf(db, prefix));
    assert Met(rows, id);
    step :| step in steps && step.resourceId == id;
    assert DeepestAt(rows, id, height - step.position);
    assert RowOf(db, prefix).level <= height - step.position;
    NoDetour(db, root, rows, height, deepest, position, step);
  }

  /** A longer walk to a resource, continued as the deepest walk continues, would exceed the height. */
  lemma NoDetour(db: Database, root: Node, rows: seq<Row>, height: nat, deepest: Row, position: nat, step: Step)
    requires IsResult(db, root, rows) && root in db.templates && Acyclic(db, root) && Height(rows, height)
    requires SimplePath(db, root, deepest.path) && |deepest.path| == height + 1 && position <= height
    requires step.resourceId == deepest.path[height - position]
    requires DeepestAt(rows, step.resourceId, height - step.position)
    ensures step.position >= position
  {
    var row :| row in rows && row.id == step.resourceId && row.level == height - step.position;
    OneRowPerSimplePath(db, root, row);
    SubPath(db.links, deepest.path, height - position, height + 1);
    var suffix := deepest.path[height - position..height + 1];
    var detour := row.path + suffix[1..];
    JoinPaths(db.links, row.path, suffix);
    AcyclicWalksSimple(db, root, detour);
    OneRowPerSimplePath(db, root, RowOf(db, detour));
    assert RowOf(db, detour) in rows;
  }
}
