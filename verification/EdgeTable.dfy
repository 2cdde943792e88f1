/**
  The edge table of the domain trie (src/match/domain_trie.c): one global
  open-addressed table from (parent node, label hash) to child node, which doubles
  before it becomes 70% full.

  A slot whose hash is 0 is empty; label hashes are never 0.
*/
module EdgeTables {
  import opened Wrappers
  import opened Bits
  import opened Probing
  import opened HashSlots

  datatype EdgeKey = EdgeKey(parent: nat, hash: nat)

  datatype Edge = Edge(parent: nat, child: nat, hash: nat)

  const EMPTY_EDGE := Edge(0, 0, 0)

  function View(e: Edge): (r: Entry<EdgeKey, nat>) {
    if e.hash == 0 then Vacant else Held(EdgeKey(e.parent, e.hash), e.child)
  }

  function Views(es: seq<Edge>): (vs: seq<Entry<EdgeKey, nat>>)
    ensures |vs| == |es| && forall i :: 0 <= i < |es| ==> vs[i] == View(es[i])
  {
    seq(|es|, i requires 0 <= i < |es| => View(es[i]))
  }

  class EdgeTable {
    const home: EdgeKey -> nat
    var edges: array<Edge>
    var used: nat
    ghost var contents: map<EdgeKey, nat>

    /** Probing stops: the chains have no holes, and the table has an empty slot. */
    ghost predicate Probeable()
      reads this, edges
    {
      Table(Keys(Views(edges[..])), home) && Used(Keys(Views(edges[..]))) < edges.Length
    }

    ghost predicate Valid()
      reads this, edges
    {
      && Table(Keys(Views(edges[..])), home)
      && Used(Keys(Views(edges[..]))) == used
      && 16 <= edges.Length && IsPow2(edges.Length)
      && used * 10 < edges.Length * 7
      && Represents(Views(edges[..]), contents)
    }

    constructor (home: EdgeKey -> nat, capacity: nat)
      requires 16 <= capacity && IsPow2(capacity)
      ensures Valid() && fresh(edges)
      ensures this.home == home && contents == map[] && edges.Length == capacity
    {
      this.home := home;
      edges := new Edge[capacity](_ => EMPTY_EDGE);
      used := 0;
      contents := map[];
      new;
      UsedOfEmpty(Keys(Views(edges[..])));
    }

    /**
      Find the slot of an edge, or the empty slot where it would go. The loop has no
      bound of its own: it ends because the table is never full.
    */
    method EdgeSlot(parent: nat, hash: nat) returns (i: nat, found: bool)
      requires Probeable() && hash != 0
      ensures i < edges.Length
      ensures found ==> Keys(Views(edges[..]))[i] == Some(EdgeKey(parent, hash))
      ensures !found ==> edges[i].hash == 0 && !Stored(Keys(Views(edges[..])), EdgeKey(parent, hash))
      ensures !found ==>
        Reachable(Keys(Views(edges[..])), HomeSlot(home, EdgeKey(parent, hash), edges.Length), i)
    {
      ghost var t := Keys(Views(edges[..]));
      ghost var hole := HoleExists(t);
      var key := EdgeKey(parent, hash);
      var start := HomeSlot(home, key, edges.Length);
      i := start;
      while true
        invariant i < edges.Length
        invariant Probed(t, start, i, key) && !Between(start, hole, i)
        decreases Distance(i, hole, edges.Length)
      {
        var e := edges[i];
        assert t[i] == if e.hash == 0 then None else Some(EdgeKey(e.parent, e.hash));
        if e.hash == 0 {
          ProbeMiss(t, home, i, key);
          return i, false;
        }
        if e.hash == hash && e.parent == parent {
          return i, true;
        }
        ProbeStep(t, start, i, key, hole);
        i := Next(i, edges.Length);
      }
    }

    method EdgeFind(parent: nat, hash: nat) returns (child: Option<nat>)
      requires Valid() && hash != 0
      ensures child == if EdgeKey(parent, hash) in contents
                       then Some(contents[EdgeKey(parent, hash)]) else None
    {
      var i, found := EdgeSlot(parent, hash);
      child := if found then Some(edges[i].child) else None;
    }

    /** Doubles the table; no edge is lost, added or redirected. */
    method EdgesGrow()
      requires Valid()
      modifies this
      ensures Valid() && fresh(edges)
      ensures edges.Length == 2 * old(edges.Length)
      ensures contents == old(contents) && used == old(used)
    {
      hide Moved, Represents, Table, Stored, Reachable, Used;
      var from := edges;
      ghost var was, m := edges[..], contents;
      edges := new Edge[2 * from.Length](_ => EMPTY_EDGE);
      MovedNone(Views(edges[..]), home, Views(was), m);
      DoublePow2(from.Length);
      ghost var part: map<EdgeKey, nat> := map[];
      for i := 0 to from.Length
        invariant fresh(edges) && edges.Length == 2 * from.Length
        invariant from[..] == was
        invariant used == old(used) && contents == m
        invariant Moved(Views(edges[..]), home, Views(was), i, m, part)
      {
        if from[i].hash == 0 {
          SkipKeepsMoved(Views(edges[..]), home, Views(was), i, m, part);
        } else {
          MovedProbeable(Views(edges[..]), home, Views(was), i, m, part);
          var s, found := EdgeSlot(from[i].parent, from[i].hash);
          NextIsNew(Views(edges[..]), home, Views(was), i, m, part);
          MoveKeepsMoved(Views(edges[..]), home, Views(was), i, m, part, s);
          ghost var es := edges[..];
          edges[s] := from[i];
          assert edges[..] == es[s := was[i]];
          assert Views(edges[..]) == Views(es)[s := View(was[i])];
          part := part[EdgeKey(was[i].parent, was[i].hash) := was[i].child];
        }
      }
      MovedAll(Views(edges[..]), home, Views(was), m, part);
    }

    /** Adds an edge that is not there yet, or returns the child it already has. */
    method EdgeInsert(parent: nat, hash: nat, child: nat) returns (c: nat)
      requires Valid() && hash != 0
      modifies this, edges
      ensures Valid() && (edges == old(edges) || fresh(edges))
      ensures EdgeKey(parent, hash) in old(contents) ==>
        c == old(contents)[EdgeKey(parent, hash)] && contents == old(contents)
      ensures EdgeKey(parent, hash) !in old(contents) ==>
        c == child && contents == old(contents)[EdgeKey(parent, hash) := child]
    {
      if (used + 1) * 10 >= edges.Length * 7 {
        EdgesGrow();
      }
      var i, found := EdgeSlot(parent, hash);
      if found {
        return edges[i].child;
      }
      var e := Edge(parent, child, hash);
      StoreEntry(Views(edges[..]), home, contents, i, View(e));
      ghost var es := edges[..];
      edges[i] := e;
      assert edges[..] == es[i := e];
      assert Views(edges[..]) == Views(es)[i := View(e)];
      used := used + 1;
      contents := contents[EdgeKey(parent, hash) := child];
      return child;
    }
  }
}
