/** Edges stored as vertex arrays. The source keeps every edge's arrays in a
    two-slot `vertices` array; here slot 0 and slot 1 are fields of their own.
    Vertices are of an opaque type `V`. */
module Edges {

  /** An undirected edge `{x, y}`. Its pair array is the one the caller
      passed in, so setting `x` or `y` writes into the caller's array. */
  class Undirected<V> {
    var pair: array<V>

    predicate Valid()
      reads this
    {
      pair.Length == 2
    }

    constructor (vertexPair: array<V>)
      requires vertexPair.Length == 2
      ensures pair == vertexPair && Valid()
    {
      pair := vertexPair;
    }

    function X(): V
      reads this, pair
      requires Valid()
    {
      pair[0]
    }

    function Y(): V
      reads this, pair
      requires Valid()
    {
      pair[1]
    }

    /** Sets `x`, leaving `y` alone. */
    method SetX(v: V)
      requires Valid()
      modifies pair
      ensures Valid() && X() == v && Y() == old(Y())
    {
      pair[0] := v;
    }

    /** Sets `y`, leaving `x` alone. */
    method SetY(v: V)
      requires Valid()
      modifies pair
      ensures Valid() && X() == old(X()) && Y() == v
    {
      pair[1] := v;
    }

    /** The right orientation `x --> y`, over a fresh array. */
    method ToRight() returns (d: Directed<V>)
      requires Valid()
      ensures fresh(d) && fresh(d.pair) && d.Valid()
      ensures d.H() == X() && d.T() == Y()
    {
      var p := new V[2] [X(), Y()];
      d := new Directed(p);
    }

    /** The left orientation `x <-- y`, over a fresh array. */
    method ToLeft() returns (d: Directed<V>)
      requires Valid()
      ensures fresh(d) && fresh(d.pair) && d.Valid()
      ensures d.H() == Y() && d.T() == X()
    {
      var p := new V[2] [Y(), X()];
      d := new Directed(p);
    }

    /** The right-oriented hyperedge `[x] --> [y]`, over fresh arrays. */
    method ToRightHyperedge() returns (h: DirectedHyperedge<V>)
      requires Valid()
      ensures fresh(h) && fresh(h.head) && fresh(h.tail)
      ensures h.head[..] == [X()] && h.tail[..] == [Y()] && h.Size() == 2
    {
      var head := new V[1] [X()];
      var tail := new V[1] [Y()];
      h := new DirectedHyperedge(head, tail);
    }

    /** The left-oriented hyperedge `[y] --> [x]`, over fresh arrays. */
    method ToLeftHyperedge() returns (h: DirectedHyperedge<V>)
      requires Valid()
      ensures fresh(h) && fresh(h.head) && fresh(h.tail)
      ensures h.head[..] == [Y()] && h.tail[..] == [X()] && h.Size() == 2
    {
      var head := new V[1] [Y()];
      var tail := new V[1] [X()];
      h := new DirectedHyperedge(head, tail);
    }

    /** The undirected hyperedge over the vertex set `[x, y]`. */
    method ToUndirectedHyperedge() returns (h: UndirectedHyperedge<V>)
      requires Valid()
      ensures fresh(h) && fresh(h.members)
      ensures h.members[..] == [X(), Y()] && h.Size() == 2
    {
      var members := new V[2] [X(), Y()];
      h := new UndirectedHyperedge(members);
    }
  }

  /** A directed edge with head `h` and tail `t`, in slots 0 and 1 of its pair. */
  class Directed<V> {
    var pair: array<V>

    predicate Valid()
      reads this
    {
      pair.Length == 2
    }

    constructor (vertexPair: array<V>)
      requires vertexPair.Length == 2
      ensures pair == vertexPair && Valid()
    {
      pair := vertexPair;
    }

    function H(): V
      reads this, pair
      requires Valid()
    {
      pair[0]
    }

    function T(): V
      reads this, pair
      requires Valid()
    {
      pair[1]
    }

    /** Sets the head, leaving the tail alone. */
    method SetH(v: V)
      requires Valid()
      modifies pair
      ensures Valid() && H() == v && T() == old(T())
    {
      pair[0] := v;
    }

    /** Sets the tail, leaving the head alone. */
    method SetT(v: V)
      requires Valid()
      modifies pair
      ensures Valid() && H() == old(H()) && T() == v
    {
      pair[1] := v;
    }

    /** The hyperedge `[h] --> [t]`, over fresh arrays. */
    method ToDirectedHyperedge() returns (e: DirectedHyperedge<V>)
      requires Valid()
      ensures fresh(e) && fresh(e.head) && fresh(e.tail)
      ensures e.head[..] == [H()] && e.tail[..] == [T()] && e.Size() == 2
    {
      var head := new V[1] [H()];
      var tail := new V[1] [T()];
      e := new DirectedHyperedge(head, tail);
    }

    /** The undirected edge with `x = h` and `y = t`, over a fresh array. */
    method ToUndirected() returns (u: Undirected<V>)
      requires Valid()
      ensures fresh(u) && fresh(u.pair) && u.Valid()
      ensures u.X() == H() && u.Y() == T()
    {
      var p := new V[2] [H(), T()];
      u := new Undirected(p);
    }
  }

  /** An undirected hyperedge: a single vertex set, the caller's array. */
  class UndirectedHyperedge<V> {
    var members: array<V>

    constructor (vertices: array<V>)
      ensures members == vertices
    {
      members := vertices;
    }

    /** The number of vertices in the set. */
    function Size(): (n: nat)
      reads this
      ensures n == |members[..]|
    {
      members.Length
    }
  }

  /** A directed hyperedge from the vertex set `head` to the set `tail`. */
  class DirectedHyperedge<V> {
    var head: array<V>
    var tail: array<V>

    constructor (h: array<V>, t: array<V>)
      ensures head == h && tail == t
    {
      head := h;
      tail := t;
    }

    /** Replaces the head set, leaving the tail set alone. */
    method SetH(v: array<V>)
      modifies this
      ensures head == v && tail == old(tail)
    {
      head := v;
    }

    /** Replaces the tail set, leaving the head set alone. */
    method SetT(v: array<V>)
      modifies this
      ensures head == old(head) && tail == v
    {
      tail := v;
    }

    /** The number of vertices in both sets together. */
    function Size(): (n: nat)
      reads this
      ensures n == |head[..] + tail[..]|
    {
      head.Length + tail.Length
    }
  }

  /** Turning a directed edge undirected and back to the right orientation
      restores its head and tail, and leaves the original untouched. */
  method DirectedRoundTrip<V>(d: Directed<V>) returns (back: Directed<V>)
    requires d.Valid()
    ensures back.Valid() && back != d && back.pair != d.pair
    ensures back.H() == d.H() && back.T() == d.T()
  {
    var u := d.ToUndirected();
    back := u.ToRight();
  }

  /** Orienting an undirected edge to the right and forgetting the
      orientation again restores `x` and `y`. */
  method UndirectedRoundTrip<V>(u: Undirected<V>) returns (back: Undirected<V>)
    requires u.Valid()
    ensures back.Valid() && back != u && back.pair != u.pair
    ensures back.X() == u.X() && back.Y() == u.Y()
  {
    var d := u.ToRight();
    back := d.ToUndirected();
  }

  /** Writing into an edge obtained by a conversion leaves the source edge
      as it was. */
  method ConversionIsolated<V>(u: Undirected<V>, v: V) returns (d: Directed<V>)
    requires u.Valid()
    ensures d.Valid() && d.H() == v && d.T() == u.Y()
    ensures u.Valid() && u.X() == old(u.X()) && u.Y() == old(u.Y())
  {
    d := u.ToRight();
    d.SetH(v);
  }
}
