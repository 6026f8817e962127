/**
 * The geometry the client derives when it shows the match overlay: a per-vertex colour
 * buffer that tells matched from unmatched vertices, and the index list of the triangles
 * whose three corners all matched. Flags are read as JavaScript reads them: an index past
 * the end of the flag array yields `undefined`, which counts as false.
 */
module OverlayGeometry {
  import opened Meshes

  /** A vertex colour. */
  datatype Rgb = Rgb(r: real, g: real, b: real)

  /** Bright green, for a matched vertex in either slot. */
  const MatchColor := Rgb(0.4, 1.0, 0.4)
  /** Red, for an unmatched vertex of A. */
  const NonMatchA := Rgb(1.0, 0.267, 0.267)
  /** Blue, for an unmatched vertex of B. */
  const NonMatchB := Rgb(0.267, 0.267, 1.0)

  /** `flags[i]` as a truth value: a position outside the array reads as false. */
  predicate FlagAt(flags: seq<bool>, i: int) {
    0 <= i < |flags| && flags[i]
  }

  /** The colour of a vertex: the match colour exactly for a matched vertex, otherwise the slot's own colour. */
  function ColorOf(slot: Slot, matched: bool): (c: Rgb)
    ensures c == MatchColor <==> matched
    ensures !matched ==> (c == NonMatchA <==> slot == A) && (c == NonMatchB <==> slot == B)
  {
    assert NonMatchA.r != NonMatchB.r && MatchColor.r != NonMatchB.r && MatchColor.g != NonMatchA.g;
    if matched then MatchColor
    else match slot
      case A => NonMatchA
      case B => NonMatchB
  }

  function Components(c: Rgb): seq<real> {
    [c.r, c.g, c.b]
  }

  /** The colour buffer of the first `n` vertices: three entries per vertex. */
  function ColorBuffer(slot: Slot, flags: seq<bool>, n: nat): (buf: seq<real>)
    ensures |buf| == 3 * n
  {
    if n == 0 then [] else ColorBuffer(slot, flags, n - 1) + Components(ColorOf(slot, FlagAt(flags, n - 1)))
  }

  /** Vertex `i`'s three entries are its colour. */
  lemma {:induction false} ColorBufferAt(slot: Slot, flags: seq<bool>, n: nat, i: nat)
    requires i < n
    ensures ColorBuffer(slot, flags, n)[3 * i..3 * i + 3] == Components(ColorOf(slot, FlagAt(flags, i)))
  {
    var prefix := ColorBuffer(slot, flags, n - 1);
    if i < n - 1 {
      ColorBufferAt(slot, flags, n - 1, i);
      assert ColorBuffer(slot, flags, n)[3 * i..3 * i + 3] == prefix[3 * i..3 * i + 3];
    } else {
      assert ColorBuffer(slot, flags, n)[3 * i..] == Components(ColorOf(slot, FlagAt(flags, i)));
    }
  }

  /** A vertex shows the match colour in the buffer exactly when its flag is set. */
  lemma ColorBufferMatch(slot: Slot, flags: seq<bool>, n: nat, i: nat)
    requires i < n
    ensures ColorBuffer(slot, flags, n)[3 * i..3 * i + 3] == Components(MatchColor) <==> FlagAt(flags, i)
    ensures !FlagAt(flags, i) ==> ColorBuffer(slot, flags, n)[3 * i..3 * i + 3] == Components(if slot == A then NonMatchA else NonMatchB)
  {
    ColorBufferAt(slot, flags, n, i);
    var c := ColorOf(slot, FlagAt(flags, i));
    assert Components(c) == Components(MatchColor) ==> c == MatchColor by {
      if Components(c) == Components(MatchColor) {
        assert c.r == Components(c)[0] && c.g == Components(c)[1] && c.b == Components(c)[2];
      }
    }
  }

  /** The loop that fills the `Float32Array` of colours, one vertex at a time. */
  method FillColors(slot: Slot, flags: seq<bool>, vertexCount: nat) returns (colors: array<real>)
    ensures colors[..] == ColorBuffer(slot, flags, vertexCount)
  {
    colors := new real[3 * vertexCount];
    for i := 0 to vertexCount
      invariant colors[..3 * i] == ColorBuffer(slot, flags, i)
    {
      var c := ColorOf(slot, FlagAt(flags, i));
      colors[3 * i] := c.r;
      colors[3 * i + 1] := c.g;
      colors[3 * i + 2] := c.b;
      assert colors[..3 * i + 3] == colors[..3 * i] + Components(c);
    }
    assert colors[..] == colors[..3 * vertexCount];
  }

  /** `Uint32Array(indices)`: each index converted modulo 2^32. */
  function IndexBuffer(indices: seq<int>): (buf: seq<nat>)
    ensures |buf| == |indices|
    ensures forall k :: 0 <= k < |buf| ==> buf[k] < 0x1_0000_0000 && (buf[k] - indices[k]) % 0x1_0000_0000 == 0
  {
    seq(|indices|, k requires 0 <= k < |indices| => indices[k] % 0x1_0000_0000)
  }

  /** An index list that holds only valid 32-bit indices passes through unchanged. */
  lemma IndexBufferSame(indices: seq<int>)
    requires forall k :: 0 <= k < |indices| ==> 0 <= indices[k] < 0x1_0000_0000
    ensures IndexBuffer(indices) == indices
  {
    var buf := IndexBuffer(indices);
    forall k | 0 <= k < |indices|
      ensures buf[k] == indices[k]
    {
    }
  }

  /** Whether corner `j` of the index list exists and its vertex is flagged. */
  predicate CornerFlagged(flags: seq<bool>, index: seq<nat>, j: nat) {
    j < |index| && FlagAt(flags, index[j])
  }

  /** Triangle `t` (index entries 3t, 3t+1, 3t+2) is kept: all three of its vertices are flagged. */
  predicate Kept(flags: seq<bool>, index: seq<nat>, t: nat) {
    CornerFlagged(flags, index, 3 * t) && CornerFlagged(flags, index, 3 * t + 1) && CornerFlagged(flags, index, 3 * t + 2)
  }

  /** Triangle `t` of an index list. */
  function Tri(index: seq<nat>, t: nat): seq<nat>
    requires 3 * t + 3 <= |index|
  {
    index[3 * t..3 * t + 3]
  }

  /** The number of passes of `for (i = 0; i < len; i += 3)`. */
  function Passes(len: nat): nat {
    (len + 2) / 3
  }

  /** The matching-only index list built from the first `n` triangles. */
  function MatchingOnly(flags: seq<bool>, index: seq<nat>, n: nat): (kept: seq<nat>)
    ensures |kept| % 3 == 0 && |kept| <= 3 * n
  {
    if n == 0 then []
    else MatchingOnly(flags, index, n - 1) + (if Kept(flags, index, n - 1) then Tri(index, n - 1) else [])
  }

  /** The triangle filter loop, which pushes a triangle's three indices when all three vertices match. */
  method MatchingOnlyIndices(flags: seq<bool>, index: seq<nat>) returns (kept: seq<nat>)
    ensures kept == MatchingOnly(flags, index, Passes(|index|))
  {
    kept := [];
    var i, t := 0, 0;
    while i < |index|
      invariant i == 3 * t && i <= |index| + 2
      invariant kept == MatchingOnly(flags, index, t)
    {
      if FlagAt(flags, index[i]) && CornerFlagged(flags, index, i + 1) && CornerFlagged(flags, index, i + 2) {
        assert Kept(flags, index, t) && [index[i], index[i + 1], index[i + 2]] == Tri(index, t);
        kept := kept + [index[i], index[i + 1], index[i + 2]];
      } else {
        assert !Kept(flags, index, t);
      }
      i, t := i + 3, t + 1;
    }
  }

  /** Building from more triangles only appends: the first `m` triangles' output is a prefix. */
  lemma {:induction false} MatchingOnlyPrefix(flags: seq<bool>, index: seq<nat>, m: nat, n: nat)
    requires m <= n
    ensures MatchingOnly(flags, index, m) <= MatchingOnly(flags, index, n)
  {
    if m < n {
      MatchingOnlyPrefix(flags, index, m, n - 1);
    }
  }

  /** Output triangle `p` is some kept triangle among the first `n` of the input. */
  predicate FromInput(flags: seq<bool>, index: seq<nat>, n: nat, kept: seq<nat>, p: nat)
    requires 3 * p + 3 <= |kept|
  {
    exists t: nat :: t < n && Kept(flags, index, t) && Tri(kept, p) == Tri(index, t)
  }

  /** Every output triangle is a kept input triangle, so every vertex the output names is flagged. */
  lemma {:induction false} MatchingOnlySound(flags: seq<bool>, index: seq<nat>, n: nat)
    ensures forall p: nat :: p < |MatchingOnly(flags, index, n)| / 3 ==> FromInput(flags, index, n, MatchingOnly(flags, index, n), p)
    ensures forall k :: 0 <= k < |MatchingOnly(flags, index, n)| ==> FlagAt(flags, MatchingOnly(flags, index, n)[k])
  {
    if n > 0 {
      MatchingOnlySound(flags, index, n - 1);
      var prefix := MatchingOnly(flags, index, n - 1);
      var kept := MatchingOnly(flags, index, n);
      forall p: nat | p < |kept| / 3
        ensures FromInput(flags, index, n, kept, p)
      {
        if p < |prefix| / 3 {
          assert FromInput(flags, index, n - 1, prefix, p);
          var t: nat :| t < n - 1 && Kept(flags, index, t) && Tri(prefix, p) == Tri(index, t);
          assert Tri(kept, p) == Tri(prefix, p);
        } else {
          assert Tri(kept, p) == Tri(index, n - 1);
        }
      }
    }
  }

  /** Every kept input triangle appears in the output, at the place its predecessors leave for it, so order is kept. */
  lemma MatchingOnlyComplete(flags: seq<bool>, index: seq<nat>, n: nat, t: nat)
    requires t < n && Kept(flags, index, t)
    ensures var before := |MatchingOnly(flags, index, t)|;
      before + 3 <= |MatchingOnly(flags, index, n)| && MatchingOnly(flags, index, n)[before..before + 3] == Tri(index, t)
  {
    var before := MatchingOnly(flags, index, t);
    var upTo := MatchingOnly(flags, index, t + 1);
    assert upTo == before + Tri(index, t);
    MatchingOnlyPrefix(flags, index, t + 1, n);
    assert MatchingOnly(flags, index, n)[|before|..|before| + 3] == upTo[|before|..|before| + 3];
  }

  /** A triangle with an unflagged or missing corner contributes nothing. */
  lemma MatchingOnlySkip(flags: seq<bool>, index: seq<nat>, t: nat)
    requires !Kept(flags, index, t)
    ensures MatchingOnly(flags, index, t + 1) == MatchingOnly(flags, index, t)
  {
  }
}
