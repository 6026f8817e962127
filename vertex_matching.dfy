/**
 * The bookkeeping part of the backend's `find_matching_vertices`. Each mesh's flat vertex
 * list is reshaped into x, y, z rows. A vertex matches when its nearest-neighbour distance
 * to the other mesh is within the threshold. The flags are returned with the match counts
 * and the vertex counts.
 *
 * The nearest-neighbour distances come from a KD-tree query and are inputs here.
 */
module VertexMatching {
  import opened Wrappers
  import opened Meshes

  datatype MatchStats = MatchStats(numMatchingA: nat, numMatchingB: nat, totalVerticesA: nat, totalVerticesB: nat)

  /** `{"matching_vertices_a", "matching_vertices_b", "stats"}`. */
  datatype Matching = Matching(flagsA: seq<bool>, flagsB: seq<bool>, stats: MatchStats)

  /** The start of every error message of this operation; the exception text after it is not modelled. */
  const MatchingErrorPrefix: string := "Matching calculation error: "

  /** `distances <= threshold`, element by element. */
  function Flags(distances: seq<real>, threshold: real): (flags: seq<bool>)
    ensures |flags| == |distances|
    ensures forall i :: 0 <= i < |flags| ==> (flags[i] <==> distances[i] <= threshold)
  {
    seq(|distances|, i requires 0 <= i < |distances| => distances[i] <= threshold)
  }

  /** `int(np.sum(flags))`. */
  function CountTrue(flags: seq<bool>): (n: nat)
    ensures n <= |flags|
  {
    if flags == [] then 0 else CountTrue(flags[..|flags| - 1]) + (if flags[|flags| - 1] then 1 else 0)
  }

  /** The positions of the true flags. */
  function TruePositions(flags: seq<bool>): set<nat> {
    set i: nat | i < |flags| && flags[i]
  }

  /** The count is the number of positions whose flag is true. */
  lemma {:induction false} CountTrueIsSize(flags: seq<bool>)
    ensures CountTrue(flags) == |TruePositions(flags)|
  {
    if flags != [] {
      var init := flags[..|flags| - 1];
      CountTrueIsSize(init);
      if flags[|flags| - 1] {
        assert TruePositions(flags) == TruePositions(init) + {|flags| - 1};
      } else {
        assert TruePositions(flags) == TruePositions(init);
      }
    }
  }

  /**
   * `find_matching_vertices` given the nearest-neighbour distances of A's vertices to B
   * and of B's vertices to A. A vertex list whose length is not a multiple of three fails
   * the reshape; an empty mesh fails the percentage's division.
   */
  function FindMatchingVertices(verticesA: seq<real>, verticesB: seq<real>,
                                distancesA: seq<real>, distancesB: seq<real>, threshold: real): Result<Matching, string>
    requires |distancesA| == |verticesA| / 3 && |distancesB| == |verticesB| / 3
  {
    if |verticesA| % 3 != 0 || |verticesB| % 3 != 0 then Failure(MatchingErrorPrefix)
    else if |verticesA| == 0 || |verticesB| == 0 then Failure(MatchingErrorPrefix)
    else
      var flagsA, flagsB := Flags(distancesA, threshold), Flags(distancesB, threshold);
      Success(Matching(flagsA, flagsB, MatchStats(CountTrue(flagsA), CountTrue(flagsB), |verticesA| / 3, |verticesB| / 3)))
  }

  /**
   * The result: an error exactly when a vertex list does not reshape or is empty.
   * Otherwise there is one flag per vertex, flag `i` says whether vertex `i`'s distance is
   * within the threshold, and the count is the number of true flags.
   */
  lemma FindMatchingSpec(verticesA: seq<real>, verticesB: seq<real>,
                         distancesA: seq<real>, distancesB: seq<real>, threshold: real)
    requires |distancesA| == |verticesA| / 3 && |distancesB| == |verticesB| / 3
    ensures var r := FindMatchingVertices(verticesA, verticesB, distancesA, distancesB, threshold);
      && (r.Success? <==> |verticesA| % 3 == 0 && |verticesB| % 3 == 0 && verticesA != [] && verticesB != [])
      && (r.Success? ==>
            && |r.value.flagsA| == r.value.stats.totalVerticesA == |verticesA| / 3
            && |r.value.flagsB| == r.value.stats.totalVerticesB == |verticesB| / 3
            && (forall i :: 0 <= i < |r.value.flagsA| ==> (r.value.flagsA[i] <==> distancesA[i] <= threshold))
            && (forall i :: 0 <= i < |r.value.flagsB| ==> (r.value.flagsB[i] <==> distancesB[i] <= threshold))
            && r.value.stats.numMatchingA == |TruePositions(r.value.flagsA)| <= r.value.stats.totalVerticesA
            && r.value.stats.numMatchingB == |TruePositions(r.value.flagsB)| <= r.value.stats.totalVerticesB)
  {
    var r := FindMatchingVertices(verticesA, verticesB, distancesA, distancesB, threshold);
    if r.Success? {
      CountTrueIsSize(r.value.flagsA);
      CountTrueIsSize(r.value.flagsB);
    }
  }
}
