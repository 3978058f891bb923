/** A sequence split in two by a cut index: the lower view holds the
    elements before the cut, the upper view the rest. */
module Dedekind {

  class DedekindCompletion<T> {
    /** The underlying sequence. */
    var S: seq<T>
    /** The number of elements in the lower view. */
    var cut: int

    /** The cut lies within the sequence; the source leaves a cut outside it
        to JavaScript's slice clamping, which is not modelled. */
    predicate Valid()
      reads this
    {
      0 <= cut <= |S|
    }

    /** An empty sequence cut at 0. */
    constructor ()
      ensures S == [] && cut == 0
      ensures Valid()
    {
      S := [];
      cut := 0;
    }

    /** The lower view: the first `cut` elements. */
    function L(): (r: seq<T>)
      reads this
      requires Valid()
      ensures |r| == cut && r <= S
    {
      S[..cut]
    }

    /** The upper view: everything from the cut on. */
    function U(): (r: seq<T>)
      reads this
      requires Valid()
      ensures |r| == |S| - cut
      ensures forall k :: 0 <= k < |r| ==> r[k] == S[cut + k]
    {
      S[cut..]
    }

    /** The number of elements on both sides of the cut together. */
    function Cardinality(): (n: nat)
      reads this
      ensures Valid() ==> n == |L()| + |U()|
    {
      |S|
    }

    /** Whether one of the two views is empty. */
    function OneSided(): (b: bool)
      reads this
      ensures Valid() ==> (b <==> L() == [] || U() == [])
    {
      cut == 0 || cut == |S|
    }

    /** Replaces the lower view, keeping the upper one; the cut moves to the
        end of the new lower view. */
    method SetL(newL: seq<T>)
      modifies this
      requires Valid()
      ensures S == newL + old(U()) && cut == |newL|
      ensures Valid() && L() == newL && U() == old(U())
    {
      S := newL + U();
      cut := |newL|;
    }

    /** Replaces the upper view in place, keeping the lower view and the cut. */
    method SetU(newU: seq<T>)
      modifies this
      requires Valid()
      ensures S == old(L()) + newU && cut == old(cut)
      ensures Valid() && L() == old(L()) && U() == newU
    {
      S := S[..cut] + newU;
    }
  }

  /** The two views always put back together give the whole sequence. */
  lemma ViewsJoin<T>(d: DedekindCompletion<T>)
    requires d.Valid()
    ensures d.L() + d.U() == d.S
  {
  }

  /** Cutting "abcd" after two elements. */
  method CutExample() returns (d: DedekindCompletion<char>)
    ensures fresh(d)
    ensures d.Valid() && d.L() == "ab" && d.U() == "cd" && !d.OneSided()
  {
    d := new DedekindCompletion();
    d.S := "abcd";
    d.cut := 2;
  }

  /** Replacing the lower view of "ab|cd" by "efg". */
  method SetLowerExample() returns (d: DedekindCompletion<char>)
    ensures d.Valid() && d.S == "efgcd" && d.cut == 3
    ensures d.L() == "efg" && d.U() == "cd" && !d.OneSided()
  {
    d := CutExample();
    d.SetL("efg");
  }

  /** Replacing the upper view of "ab|cd" by "efg". */
  method SetUpperExample() returns (d: DedekindCompletion<char>)
    ensures d.Valid() && d.S == "abefg" && d.cut == 2 && d.Cardinality() == 5
    ensures d.L() == "ab" && d.U() == "efg" && !d.OneSided()
  {
    d := CutExample();
    d.SetU("efg");
  }

  /** A cut at either end is one-sided. */
  method OneSidedExample() returns (atEnd: bool, atStart: bool)
    ensures atEnd && atStart
  {
    var d := new DedekindCompletion<char>();
    d.S := "ab";
    d.cut := 2;
    atEnd := d.OneSided();
    d.cut := 0;
    atStart := d.OneSided();
  }
}
