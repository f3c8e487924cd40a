/**
 * The recursive query behind the resource tree and the cascade destroy. A link row
 * (child_id = x, parent_id = y) makes y a child of x, so the walk runs from a resource
 * to everything that depends on it; it is an edge (x, y) here.
 */
module ResourceWalk {
  import opened Common
  import opened Graphs

  /** The two tables the query joins: each resource's template, and the links between resources. */
  datatype Database = Database(templates: map<Node, Node>, links: Edges)

  /** Foreign keys of resource_links. */
  ghost predicate Sound(db: Database) {
    forall e :: e in db.links ==> e.0 in db.templates && e.1 in db.templates
  }

  /** One row of the recursive view; path is the column that records the visited nodes. */
  datatype Row = Row(id: Node, templateId: Node, childId: Option<Node>, level: nat, path: seq<Node>)

  ghost predicate OnPath(db: Database, p: seq<Node>) {
    p != [] && forall v :: v in p ==> v in db.templates
  }

  ghost function RowOf(db: Database, p: seq<Node>): Row
    requires OnPath(db, p)
  {
    Row(Last(p), db.templates[Last(p)], if |p| == 1 then None else Some(p[|p| - 2]), |p| - 1, p)
  }

  /** A walk from the root that visits no resource twice. */
  ghost predicate SimplePath(db: Database, root: Node, p: seq<Node>) {
    OnPath(db, p) && IsPath(db.links, p) && p[0] == root && Distinct(p)
  }

  ghost predicate RowsAt(db: Database, root: Node, level: nat, rows: set<Row>) {
    forall row: Row :: row in rows <==> SimplePath(db, root, row.path) && |row.path| == level + 1 && row == RowOf(db, row.path)
  }

  /** The recursive term: join the working table with the links, skipping nodes already visited. */
  function Join(db: Database, working: set<Row>): set<Row>
    requires Sound(db)
  {
    set row, link | row in working && link in db.links && link.0 == row.id && link.1 !in row.path ::
      Row(link.1, db.templates[link.1], Some(link.0), row.level + 1, row.path + [link.1])
  }

  lemma StepExact(db: Database, root: Node, level: nat, working: set<Row>)
    requires Sound(db) && RowsAt(db, root, level, working)
    ensures RowsAt(db, root, level + 1, Join(db, working))
  {
    forall row | row in Join(db, working)
      ensures SimplePath(db, root, row.path) && |row.path| == level + 2 && row == RowOf(db, row.path)
    {
      var before, link :| before in working && link in db.links && link.0 == before.id && link.1 !in before.path
        && row == Row(link.1, db.templates[link.1], Some(link.0), before.level + 1, before.path + [link.1]);
      ExtendPath(db.links, before.path, link.1);
    }
    forall row: Row | SimplePath(db, root, row.path) && |row.path| == level + 2 && row == RowOf(db, row.path)
      ensures row in Join(db, working)
    {
      var p := row.path[..level + 1];
      var link := (row.path[level], row.path[level + 1]);
      SubPath(db.links, row.path, 0, level + 1);
      assert row.path[0..level + 1] == p;
      assert link in db.links;
      var before := RowOf(db, p);
      assert before in working;
      assert row.path == p + [link.1];
    }
  }

  lemma LevelBounded(db: Database, root: Node, level: nat, rows: set<Row>)
    requires RowsAt(db, root, level, rows) && rows != {}
    ensures level < |db.templates|
  {
    var row := AnyElement(rows);
    assert Elements(row.path) <= db.templates.Keys;
    ElementsCardinality(row.path);
    SubsetCardinality(Elements(row.path), db.templates.Keys);
  }

  /** Iterate the recursive term until the working table is empty: each visited node uses up one resource. */
  function Walk(db: Database, ghost root: Node, ghost level: nat, working: set<Row>): set<Row>
    requires Sound(db) && RowsAt(db, root, level, working)
    decreases |db.templates| - level
  {
    if working == {} then {}
    else
      LevelBounded(db, root, level, working);
      StepExact(db, root, level, working);
      working + Walk(db, root, level + 1, Join(db, working))
  }

  lemma StartExact(db: Database, root: Node)
    requires root in db.templates
    ensures RowsAt(db, root, 0, {Row(root, db.templates[root], None, 0, [root])})
  {
    var start := Row(root, db.templates[root], None, 0, [root]);
    forall row: Row | SimplePath(db, root, row.path) && |row.path| == 1 && row == RowOf(db, row.path)
      ensures row == start
    {
      assert row.path == [root];
    }
    assert SimplePath(db, root, [root]);
  }

  function GetTreeToChildren(db: Database, root: Node): set<Row>
    requires Sound(db)
  {
    if root in db.templates then
      StartExact(db, root);
      Walk(db, root, 0, {Row(root, db.templates[root], None, 0, [root])})
    else {}
  }

  lemma SimplePathStarts(db: Database, root: Node, p: seq<Node>)
    requires SimplePath(db, root, p)
    ensures root in db.templates
  {
    assert p[0] in p;
  }

  /** A longer simple path has a prefix in the working table. */
  lemma PrefixRow(db: Database, root: Node, level: nat, working: set<Row>, p: seq<Node>)
    requires RowsAt(db, root, level, working)
    requires SimplePath(db, root, p) && |p| > level
    ensures working != {}
  {
    SubPath(db.links, p, 0, level + 1);
    assert RowOf(db, p[0..level + 1]) in working;
  }

  lemma {:induction false} WalkExact(db: Database, root: Node, level: nat, working: set<Row>, row: Row)
    requires Sound(db) && RowsAt(db, root, level, working)
    ensures row in Walk(db, root, level, working) <==>
      SimplePath(db, root, row.path) && |row.path| > level && row == RowOf(db, row.path)
    decreases |db.templates| - level
  {
    if working == {} {
      if SimplePath(db, root, row.path) && |row.path| > level && row == RowOf(db, row.path) {
        PrefixRow(db, root, level, working, row.path);
      }
    } else {
      LevelBounded(db, root, level, working);
      StepExact(db, root, level, working);
      WalkExact(db, root, level + 1, Join(db, working), row);
    }
  }

  /** The query returns one row for each simple path from the root, and nothing else. */
  lemma OneRowPerSimplePath(db: Database, root: Node, row: Row)
    requires Sound(db)
    ensures row in GetTreeToChildren(db, root) <==> SimplePath(db, root, row.path) && row == RowOf(db, row.path)
  {
    if root in db.templates {
      StartExact(db, root);
      WalkExact(db, root, 0, {Row(root, db.templates[root], None, 0, [root])}, row);
    } else if SimplePath(db, root, row.path) {
      SimplePathStarts(db, root, row.path);
    }
  }

  /** The rows as a list: consumers may see them in any order. */
  ghost predicate IsResult(db: Database, root: Node, rows: seq<Row>) {
    && Sound(db)
    && Distinct(rows)
    && forall row :: row in rows <==> row in GetTreeToChildren(db, root)
  }

  ghost predicate Reachable(db: Database, root: Node, v: Node) {
    exists p :: SimplePath(db, root, p) && Last(p) == v
  }

  /** Every link leads from a reachable resource to a reachable one. */
  lemma ReachableStep(db: Database, root: Node, u: Node, v: Node)
    requires Sound(db) && Reachable(db, root, u) && (u, v) in db.links
    ensures Reachable(db, root, v)
  {
    var p :| SimplePath(db, root, p) && Last(p) == u;
    if v in p {
      var i :| 0 <= i < |p| && p[i] == v;
      SubPath(db.links, p, 0, i + 1);
      assert SimplePath(db, root, p[0..i + 1]) && Last(p[0..i + 1]) == v;
    } else {
      ExtendPath(db.links, p, v);
      assert SimplePath(db, root, p + [v]);
    }
  }

  /** The links a walk from the root can follow. */
  ghost function ReachableLinks(db: Database, root: Node): Edges {
    set e | e in db.links && Reachable(db, root, e.0)
  }

  ghost predicate Acyclic(db: Database, root: Node) {
    !Cyclic(ReachableLinks(db, root))
  }

  /** Any walk from the root stays within the reachable links. */
  lemma WalkReachable(db: Database, root: Node, p: seq<Node>)
    requires Sound(db) && root in db.templates
    requires IsPath(db.links, p) && p[0] == root
    ensures OnPath(db, p) && Reachable(db, root, Last(p)) && IsPath(ReachableLinks(db, root), p)
  {
    if |p| == 1 {
      assert SimplePath(db, root, [root]);
      assert p == [root];
    } else {
      var n := |p| - 1;
      SubPath(db.links, p, 0, n);
      assert p[0..n] == p[..n];
      WalkReachable(db, root, p[..n]);
      assert (p[n - 1], p[n - 1 + 1]) in db.links;
      ReachableStep(db, root, p[n - 1], p[n]);
      assert p == p[..n] + [p[n]];
      ExtendPath(ReachableLinks(db, root), p[..n], p[n]);
    }
  }

  /** Without cycles every walk from the root is simple, so the query enumerates all walks. */
  lemma AcyclicWalksSimple(db: Database, root: Node, p: seq<Node>)
    requires Sound(db) && root in db.templates && Acyclic(db, root)
    requires IsPath(db.links, p) && p[0] == root
    ensures SimplePath(db, root, p)
  {
    WalkReachable(db, root, p);
    if !Distinct(p) {
      var i, j :| 0 <= i < j < |p| && p[i] == p[j];
      RepeatIsCycle(ReachableLinks(db, root), p, i, j);
    }
  }
}
