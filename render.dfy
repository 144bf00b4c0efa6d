/** render_line.py: the evolution line of one Digimon, drawn as a directed
    graph by a depth-first walk that follows previous links backwards and
    next links forwards and never goes down the stages. */
module Render {
  import opened Common

  /** The columns `digimon_by_id` selects, keyed by `id`; `previous` and
      `next` are the decoded link columns, `[]` when the column is null. */
  datatype Row = Row(name: string, previous: seq<int>, next: seq<int>, stage: Option<int>)

  /** Python's `stage or -1`: a missing stage and stage 0 both rank -1. */
  function Rank(stage: Option<int>): (r: int)
    ensures stage.Some? && stage.value != 0 ==> r == stage.value
    ensures stage.None? || stage.value == 0 ==> r == -1
  {
    match stage
    case Some(s) => if s != 0 then s else -1
    case None => -1
  }

  /** Every linked id has a row: a dangling id makes the `print` after the
      guard index `None`, which the walk does not survive. */
  ghost predicate Closed(table: map<int, Row>)
  {
    && (forall k, i :: k in table && 0 <= i < |table[k].previous| ==> table[k].previous[i] in table)
    && (forall k, i :: k in table && 0 <= i < |table[k].next| ==> table[k].next[i] in table)
  }

  /** The edge `prev -> item` of the backward loop: a stored previous link
      that does not come from a later stage. */
  predicate BackEdge(table: map<int, Row>, e: (int, int))
  {
    e.0 in table && e.1 in table && e.0 in table[e.1].previous
    && Rank(table[e.0].stage) <= Rank(table[e.1].stage)
  }

  /** The edge `item -> next` of the forward loop: a stored next link that
      does not lead to an earlier stage. */
  predicate ForwardEdge(table: map<int, Row>, e: (int, int))
  {
    e.0 in table && e.1 in table && e.1 in table[e.0].next
    && Rank(table[e.1].stage) >= Rank(table[e.0].stage)
  }

  /** Consecutive ids of `path` are edges of the graph. */
  predicate Path(edges: set<(int, int)>, path: seq<int>)
  {
    forall i :: 0 <= i < |path| - 1 ==> (path[i], path[i + 1]) in edges
  }

  /** The graph `G` of render_line.py together with the walk's `seen` set.
      `nodes` lists the `add_node` calls in order, each with its `name`
      attribute. */
  class LineGraph {
    const table: map<int, Row>
    var nodes: seq<(int, string)>
    var edges: set<(int, int)>
    var seen: set<int>

    /** What the walk keeps true: the nodes are the seen ids, each added
        once under its own name, and every edge is a stage-respecting link
        between two nodes. */
    ghost predicate Valid()
      reads this
    {
      Closed(table) && seen <= table.Keys && |nodes| == |seen|
      && (forall i :: 0 <= i < |nodes| ==> nodes[i].0 in seen && nodes[i].1 == table[nodes[i].0].name)
      && (forall i, j :: 0 <= i < j < |nodes| ==> nodes[i].0 != nodes[j].0)
      && (forall e :: e in edges ==> e.0 in seen && e.1 in seen && (BackEdge(table, e) || ForwardEdge(table, e)))
    }

    /** `nx.DiGraph()` and `set()` over the rows of the database. */
    constructor (table: map<int, Row>)
      requires Closed(table)
      ensures this.table == table && nodes == [] && edges == {} && seen == {}
      ensures Valid()
    {
      this.table := table;
      nodes := [];
      edges := {};
      seen := {};
    }

    /** `recursive_add(G, item, seen, do_next, do_previous)` for the row
        with id `id`. */
    method RecursiveAdd(id: int, doNext: bool, doPrev: bool)
      requires Valid() && id in table
      modifies this
      decreases table.Keys - seen, 3
      ensures Valid()
      ensures id in old(seen) ==> seen == old(seen) && nodes == old(nodes) && edges == old(edges)
      ensures id in seen && old(seen) <= seen && old(nodes) <= nodes && old(edges) <= edges
      ensures id !in old(seen) ==> |old(nodes)| < |nodes| && nodes[|old(nodes)|] == (id, table[id].name)
      ensures forall i :: |old(nodes)| <= i < |nodes| ==> nodes[i].0 !in old(seen)
      ensures !doPrev ==> forall e :: e in edges && e !in old(edges) ==> ForwardEdge(table, e)
      ensures !doNext ==> forall e :: e in edges && e !in old(edges) ==> BackEdge(table, e)
      ensures id !in old(seen) && doPrev ==>
                forall p :: p in table[id].previous && Rank(table[p].stage) <= Rank(table[id].stage) ==> (p, id) in edges
      ensures id !in old(seen) && doNext ==>
                forall n :: n in table[id].next && Rank(table[n].stage) >= Rank(table[id].stage) ==> (id, n) in edges
    {
      if id !in seen {
        Walk(id, doNext, doPrev);
      }
    }

    /** `recursive_add` past its `seen` check: add the node, then walk the
        directions asked for. */
    method Walk(id: int, doNext: bool, doPrev: bool)
      requires Valid() && id in table && id !in seen
      modifies this
      decreases table.Keys - seen, 2
      ensures Valid()
      ensures id in seen && old(seen) <= seen && old(nodes) <= nodes && old(edges) <= edges
      ensures |old(nodes)| < |nodes| && nodes[|old(nodes)|] == (id, table[id].name)
      ensures forall i :: |old(nodes)| <= i < |nodes| ==> nodes[i].0 !in old(seen)
      ensures !doPrev ==> forall e :: e in edges && e !in old(edges) ==> ForwardEdge(table, e)
      ensures !doNext ==> forall e :: e in edges && e !in old(edges) ==> BackEdge(table, e)
      ensures doPrev ==>
                forall p :: p in table[id].previous && Rank(table[p].stage) <= Rank(table[id].stage) ==> (p, id) in edges
      ensures doNext ==>
                forall n :: n in table[id].next && Rank(table[n].stage) >= Rank(table[id].stage) ==> (id, n) in edges
    {
      AddNode(id);
      Shrinks(table.Keys, old(seen), seen, id);
      Follow(id, doNext, doPrev);
    }

    /** The two loops of `recursive_add` for the row `id`, which is already
        a node: backwards when `doPrev`, then forwards when `doNext`. */
    method Follow(id: int, doNext: bool, doPrev: bool)
      requires Valid() && id in seen
      modifies this
      decreases (table.Keys - seen) + {id}, 1
      ensures Valid() && old(seen) <= seen && old(nodes) <= nodes && old(edges) <= edges
      ensures forall i :: |old(nodes)| <= i < |nodes| ==> nodes[i].0 !in old(seen)
      ensures !doPrev ==> forall e :: e in edges && e !in old(edges) ==> ForwardEdge(table, e)
      ensures !doNext ==> forall e :: e in edges && e !in old(edges) ==> BackEdge(table, e)
      ensures doPrev ==>
                forall p :: p in table[id].previous && Rank(table[p].stage) <= Rank(table[id].stage) ==> (p, id) in edges
      ensures doNext ==>
                forall n :: n in table[id].next && Rank(table[n].stage) >= Rank(table[id].stage) ==> (id, n) in edges
    {
      if doPrev {
        AddPrevious(id);
      }
      if doNext {
        AddNext(id);
      }
    }

    /** `G.add_node(item[0], name=item[1])` and `seen.add(item[0])` for a
        row not yet seen. */
    method AddNode(id: int)
      requires Valid() && id in table && id !in seen
      modifies this
      ensures Valid() && nodes == old(nodes) + [(id, table[id].name)]
      ensures seen == old(seen) + {id} && edges == old(edges)
    {
      nodes := nodes + [(id, table[id].name)];
      seen := seen + {id};
    }

    /** `G.add_edge` for an edge between two nodes that respects the
        stages. */
    method AddEdge(e: (int, int))
      requires Valid() && e.0 in seen && e.1 in seen && (BackEdge(table, e) || ForwardEdge(table, e))
      modifies this
      ensures Valid() && edges == old(edges) + {e} && nodes == old(nodes) && seen == old(seen)
    {
      edges := edges + {e};
    }

    /** The `do_previous` loop of `recursive_add` for the row `id`, which
        is already a node: each previous link from a stage no later than
        the row's own is walked backwards and drawn as an edge into `id`. */
    method AddPrevious(id: int)
      requires Valid() && id in seen
      modifies this
      decreases (table.Keys - seen) + {id}, 0
      ensures Valid() && old(seen) <= seen && old(nodes) <= nodes && old(edges) <= edges
      ensures forall i :: |old(nodes)| <= i < |nodes| ==> nodes[i].0 !in old(seen)
      ensures forall e :: e in edges && e !in old(edges) ==> BackEdge(table, e)
      ensures forall p :: p in table[id].previous && Rank(table[p].stage) <= Rank(table[id].stage) ==> (p, id) in edges
    {
      var item := table[id];
      var stage := Rank(item.stage);
      for j := 0 to |item.previous|
        invariant Valid() && id in seen && old(seen) <= seen
        invariant old(nodes) <= nodes && old(edges) <= edges
        invariant forall i :: |old(nodes)| <= i < |nodes| ==> nodes[i].0 !in old(seen)
        invariant forall e :: e in edges && e !in old(edges) ==> BackEdge(table, e)
        invariant forall p :: p in item.previous[..j] && Rank(table[p].stage) <= stage ==> (p, id) in edges
      {
        var prevId := item.previous[j];
        if Rank(table[prevId].stage) <= stage {
          Within(table.Keys, old(seen), seen, id);
          RecursiveAdd(prevId, false, true);
          AddEdge((prevId, id));
        }
        assert item.previous[..j + 1] == item.previous[..j] + [prevId];
      }
      assert item.previous[..|item.previous|] == item.previous;
    }

    /** The `do_next` loop of `recursive_add` for the row `id`, which is
        already a node: each next link to a stage no earlier than the row's
        own is walked forwards and drawn as an edge out of `id`. */
    method AddNext(id: int)
      requires Valid() && id in seen
      modifies this
      decreases (table.Keys - seen) + {id}, 0
      ensures Valid() && old(seen) <= seen && old(nodes) <= nodes && old(edges) <= edges
      ensures forall i :: |old(nodes)| <= i < |nodes| ==> nodes[i].0 !in old(seen)
      ensures forall e :: e in edges && e !in old(edges) ==> ForwardEdge(table, e)
      ensures forall n :: n in table[id].next && Rank(table[n].stage) >= Rank(table[id].stage) ==> (id, n) in edges
    {
      var item := table[id];
      var stage := Rank(item.stage);
      for j := 0 to |item.next|
        invariant Valid() && id in seen && old(seen) <= seen
        invariant old(nodes) <= nodes && old(edges) <= edges
        invariant forall i :: |old(nodes)| <= i < |nodes| ==> nodes[i].0 !in old(seen)
        invariant forall e :: e in edges && e !in old(edges) ==> ForwardEdge(table, e)
        invariant forall n :: n in item.next[..j] && Rank(table[n].stage) >= stage ==> (id, n) in edges
      {
        var nextId := item.next[j];
        if Rank(table[nextId].stage) >= stage {
          Within(table.Keys, old(seen), seen, id);
          RecursiveAdd(nextId, true, false);
          AddEdge((id, nextId));
        }
        assert item.next[..j + 1] == item.next[..j] + [nextId];
      }
      assert item.next[..|item.next|] == item.next;
    }
  }

  /** The script: the walk from the row of the named Digimon in both
      directions, starting from an empty `seen` set. */
  method RenderLine(table: map<int, Row>, root: int) returns (g: LineGraph)
    requires Closed(table) && root in table
    ensures fresh(g) && g.table == table && g.Valid()
    ensures root in g.seen && g.nodes[0] == (root, table[root].name)
    ensures forall p :: p in table[root].previous && Rank(table[p].stage) <= Rank(table[root].stage) ==> (p, root) in g.edges
    ensures forall n :: n in table[root].next && Rank(table[n].stage) >= Rank(table[root].stage) ==> (root, n) in g.edges
  {
    g := new LineGraph(table);
    g.RecursiveAdd(root, true, true);
  }

  /** Once `id` is seen, the ids still to visit, with `id`, are no more
      than before it was: the measure of the walk's recursion. */
  lemma Shrinks(keys: set<int>, before: set<int>, after: set<int>, id: int)
    requires id in keys && id !in before && before + {id} <= after
    ensures (keys - after) + {id} <= keys - before
  {
  }

  /** Ids seen since `id` was leave fewer to visit than the measure of a
      loop over `id`'s links. */
  lemma Within(keys: set<int>, before: set<int>, after: set<int>, id: int)
    requires before <= after && id in after
    ensures keys - after < (keys - before) + {id}
  {
    assert id in (keys - before) + {id} && id !in keys - after;
  }

  /** Along any path of the drawn graph the rank never falls: the graph
      orders a line by stage, and a cycle stays within one stage. */
  lemma {:induction false} PathClimbs(table: map<int, Row>, edges: set<(int, int)>, path: seq<int>)
    requires forall e :: e in edges ==> BackEdge(table, e) || ForwardEdge(table, e)
    requires |path| >= 1 && Path(edges, path)
    requires path[0] in table
    ensures path[|path| - 1] in table
    ensures Rank(table[path[0]].stage) <= Rank(table[path[|path| - 1]].stage)
  {
    if |path| > 1 {
      var e := (path[0], path[1]);
      assert e in edges;
      assert Path(edges, path[1..]) by {
        forall i | 0 <= i < |path[1..]| - 1
          ensures (path[1..][i], path[1..][i + 1]) in edges
        {
          assert (path[i + 1], path[i + 2]) in edges;
        }
      }
      PathClimbs(table, edges, path[1..]);
      assert path[1..][|path[1..]| - 1] == path[|path| - 1];
    }
  }

  /** The walk's graph: along any path of edges the stage never falls. */
  lemma GraphClimbs(g: LineGraph, path: seq<int>)
    requires g.Valid() && |path| >= 1 && Path(g.edges, path) && path[0] in g.seen
    ensures path[|path| - 1] in g.table
    ensures Rank(g.table[path[0]].stage) <= Rank(g.table[path[|path| - 1]].stage)
  {
    PathClimbs(g.table, g.edges, path);
  }
}
