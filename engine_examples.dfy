/** The worked examples of the engine file that are small enough for the
    verifier to evaluate the model on them. */
module EngineExamples {
  import opened EdgeLists
  import opened Simplification

  /** `merge_nodes_left(1, 2, G1) == G2`. */
  lemma MergeExample()
    ensures MergeNodesLeft(Num(1), Num(2), [E(1, 2), E(2, 3), E(2, 4)]) == [E(1, 3), E(1, 4)]
  {
    assert MergeEdge(Num(1), Num(2), E(1, 2)) == [];
  }

  /** `skip_next_node(1, G3) == G4`. */
  lemma SkipExample()
    ensures SkipNextNode(Num(1), [E(1, 3), E(2, 3), E(3, 4)]) == [E(1, 4), E(2, 3), E(3, 4)]
  {
    assert NextOne(Num(3), [E(1, 3), E(2, 3), E(3, 4)]) == Num(4);
  }

  // `simplify_single_node_paths(G_line) == [[1, 5]]`, one edge of one sweep
  // of `transform_graph` at a time: the first sweep fuses 2 into 1 and 4
  // into 3, the second fuses 3 into 1, the third changes nothing, and the
  // unchanged edge count ends the loop after the extra sweep.

  lemma LineSweep1Edge1()
    ensures Sweep(SingleNodePath, [E(1, 2), E(2, 3), E(3, 4), E(4, 5)], [E(1, 2), E(2, 3), E(3, 4), E(4, 5)], []) == Sweep(SingleNodePath, [E(2, 3), E(3, 4), E(4, 5)], [E(1, 3), E(3, 4), E(4, 5)], [Num(2)])
  {
    assert Sweep(SingleNodePath, [E(1, 2), E(2, 3), E(3, 4), E(4, 5)], [E(1, 2), E(2, 3), E(3, 4), E(4, 5)], []) == Sweep(SingleNodePath, [E(2, 3), E(3, 4), E(4, 5)], [E(1, 3), E(3, 4), E(4, 5)], [Num(2)]) by {
      assert [E(1, 2), E(2, 3), E(3, 4), E(4, 5)][1..] == [E(2, 3), E(3, 4), E(4, 5)];
      assert SingleNodePathKernel(Num(1), Num(2), [E(1, 2), E(2, 3), E(3, 4), E(4, 5)], []) == Step([E(1, 3), E(3, 4), E(4, 5)], [Num(2)]);
    }
  }

  lemma LineSweep1Edge2()
    ensures Sweep(SingleNodePath, [E(2, 3), E(3, 4), E(4, 5)], [E(1, 3), E(3, 4), E(4, 5)], [Num(2)]) == Sweep(SingleNodePath, [E(3, 4), E(4, 5)], [E(1, 3), E(3, 4), E(4, 5)], [Num(2)])
  {
    assert Sweep(SingleNodePath, [E(2, 3), E(3, 4), E(4, 5)], [E(1, 3), E(3, 4), E(4, 5)], [Num(2)]) == Sweep(SingleNodePath, [E(3, 4), E(4, 5)], [E(1, 3), E(3, 4), E(4, 5)], [Num(2)]) by {
      assert [E(2, 3), E(3, 4), E(4, 5)][1..] == [E(3, 4), E(4, 5)];
      assert Num(2) in [Num(2)];
    }
  }

  lemma LineSweep1Edge3()
    ensures Sweep(SingleNodePath, [E(3, 4), E(4, 5)], [E(1, 3), E(3, 4), E(4, 5)], [Num(2)]) == Sweep(SingleNodePath, [E(4, 5)], [E(1, 3), E(3, 5)], [Num(2), Num(4)])
  {
    assert Sweep(SingleNodePath, [E(3, 4), E(4, 5)], [E(1, 3), E(3, 4), E(4, 5)], [Num(2)]) == Sweep(SingleNodePath, [E(4, 5)], [E(1, 3), E(3, 5)], [Num(2), Num(4)]) by {
      assert [E(3, 4), E(4, 5)][1..] == [E(4, 5)];
      assert SingleNodePathKernel(Num(3), Num(4), [E(1, 3), E(3, 4), E(4, 5)], [Num(2)]) == Step([E(1, 3), E(3, 5)], [Num(2), Num(4)]);
    }
  }

  lemma LineSweep1Edge4()
    ensures Sweep(SingleNodePath, [E(4, 5)], [E(1, 3), E(3, 5)], [Num(2), Num(4)]) == Step([E(1, 3), E(3, 5)], [Num(2), Num(4)])
  {
    assert Sweep(SingleNodePath, [E(4, 5)], [E(1, 3), E(3, 5)], [Num(2), Num(4)]) == Sweep(SingleNodePath, [], [E(1, 3), E(3, 5)], [Num(2), Num(4)]) by {
      assert [E(4, 5)][1..] == [];
      assert Num(4) in [Num(2), Num(4)];
    }
    assert Sweep(SingleNodePath, [], [E(1, 3), E(3, 5)], [Num(2), Num(4)]) == Step([E(1, 3), E(3, 5)], [Num(2), Num(4)]);
  }

  lemma LineSweep1()
    ensures Sweep(SingleNodePath, [E(1, 2), E(2, 3), E(3, 4), E(4, 5)], [E(1, 2), E(2, 3), E(3, 4), E(4, 5)], []) == Step([E(1, 3), E(3, 5)], [Num(2), Num(4)])
  {
    LineSweep1Edge1();
    LineSweep1Edge2();
    LineSweep1Edge3();
    LineSweep1Edge4();
  }

  lemma LineSweep2Edge1()
    ensures Sweep(SingleNodePath, [E(1, 3), E(3, 5)], [E(1, 3), E(3, 5)], [Num(2), Num(4)]) == Sweep(SingleNodePath, [E(3, 5)], [E(1, 5)], [Num(2), Num(4), Num(3)])
  {
    assert Sweep(SingleNodePath, [E(1, 3), E(3, 5)], [E(1, 3), E(3, 5)], [Num(2), Num(4)]) == Sweep(SingleNodePath, [E(3, 5)], [E(1, 5)], [Num(2), Num(4), Num(3)]) by {
      assert [E(1, 3), E(3, 5)][1..] == [E(3, 5)];
      assert SingleNodePathKernel(Num(1), Num(3), [E(1, 3), E(3, 5)], [Num(2), Num(4)]) == Step([E(1, 5)], [Num(2), Num(4), Num(3)]);
    }
  }

  lemma LineSweep2Edge2()
    ensures Sweep(SingleNodePath, [E(3, 5)], [E(1, 5)], [Num(2), Num(4), Num(3)]) == Step([E(1, 5)], [Num(2), Num(4), Num(3)])
  {
    assert Sweep(SingleNodePath, [E(3, 5)], [E(1, 5)], [Num(2), Num(4), Num(3)]) == Sweep(SingleNodePath, [], [E(1, 5)], [Num(2), Num(4), Num(3)]) by {
      assert [E(3, 5)][1..] == [];
      assert Num(3) in [Num(2), Num(4), Num(3)];
    }
    assert Sweep(SingleNodePath, [], [E(1, 5)], [Num(2), Num(4), Num(3)]) == Step([E(1, 5)], [Num(2), Num(4), Num(3)]);
  }

  lemma LineSweep2()
    ensures Sweep(SingleNodePath, [E(1, 3), E(3, 5)], [E(1, 3), E(3, 5)], [Num(2), Num(4)]) == Step([E(1, 5)], [Num(2), Num(4), Num(3)])
  {
    LineSweep2Edge1();
    LineSweep2Edge2();
  }

  lemma LineSweep3()
    ensures Sweep(SingleNodePath, [E(1, 5)], [E(1, 5)], [Num(2), Num(4), Num(3)]) == Step([E(1, 5)], [Num(2), Num(4), Num(3)])
  {
    assert Sweep(SingleNodePath, [E(1, 5)], [E(1, 5)], [Num(2), Num(4), Num(3)]) == Sweep(SingleNodePath, [], [E(1, 5)], [Num(2), Num(4), Num(3)]) by {
      assert [E(1, 5)][1..] == [];
      assert SingleNodePathKernel(Num(1), Num(5), [E(1, 5)], [Num(2), Num(4), Num(3)]) == Step([E(1, 5)], [Num(2), Num(4), Num(3)]);
    }
  }

  /** The single-node-path transform reduces the path 1 -> 2 -> 3 -> 4 -> 5
      to the single edge 1 -> 5, eliminating 2, 4 and 3 in that order. */
  lemma SingleNodePathsOnLine()
    ensures Transform(SingleNodePath, [E(1, 2), E(2, 3), E(3, 4), E(4, 5)], []) == Step([E(1, 5)], [Num(2), Num(4), Num(3)])
  {
    LineSweep1();
    assert Transform(SingleNodePath, [E(1, 2), E(2, 3), E(3, 4), E(4, 5)], []) == Transform(SingleNodePath, [E(1, 3), E(3, 5)], [Num(2), Num(4)]);
    LineSweep2();
    assert Transform(SingleNodePath, [E(1, 3), E(3, 5)], [Num(2), Num(4)]) == Transform(SingleNodePath, [E(1, 5)], [Num(2), Num(4), Num(3)]);
    LineSweep3();
    assert Transform(SingleNodePath, [E(1, 5)], [Num(2), Num(4), Num(3)]) == Step([E(1, 5)], [Num(2), Num(4), Num(3)]);
  }
}
