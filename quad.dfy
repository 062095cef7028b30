/**
 * CPU side of src/gfx/quad.hpp: a quad buffer whose counters and index
 * array are filled in place, one quad at a time. The GPU vertex and index
 * buffers are not modelled; `Render` returns the draw call it would issue.
 */
module Quad {

  /** The index pattern of one quad: two triangles sharing corners 0 and 2. */
  const Pattern: seq<int> := [0, 1, 2, 2, 3, 0]

  /** The value a run of NextQuad calls from zero leaves at index-buffer slot k. */
  function IndexAt(k: nat): int {
    4 * (k / 6) + Pattern[k % 6]
  }

  /** The first n index-buffer slots follow the quad pattern. */
  ghost predicate FilledUpTo(s: seq<int>, n: nat) {
    n <= |s| && forall k :: 0 <= k < n ==> s[k] == IndexAt(k)
  }

  /** Writing quad q's six indices after q filled quads gives q + 1 filled quads. */
  lemma FilledExtend(s: seq<int>, t: seq<int>, q: nat)
    requires |s| == |t| && 6 * q + 6 <= |s|
    requires FilledUpTo(s, 6 * q)
    requires forall k :: 0 <= k < 6 * q ==> t[k] == s[k]
    requires forall j :: 0 <= j < 6 ==> t[6 * q + j] == 4 * q + Pattern[j]
    ensures FilledUpTo(t, 6 * q + 6)
  {
    forall k | 6 * q <= k < 6 * q + 6 ensures t[k] == IndexAt(k) {
      assert k / 6 == q && k % 6 == k - 6 * q;
    }
  }

  /** Writes one quad's six indices, for first vertex v, at slot i of the index array. */
  method WriteQuadIndices(a: array<int>, i: nat, v: int)
    requires i + 6 <= a.Length
    modifies a
    ensures forall j :: 0 <= j < 6 ==> a[i + j] == v + Pattern[j]
    ensures forall k :: 0 <= k < a.Length && !(i <= k < i + 6) ==> a[k] == old(a[k])
  {
    a[i], a[i + 1], a[i + 2] := v, v + 1, v + 2;
    a[i + 3], a[i + 4], a[i + 5] := v + 2, v + 3, v;
  }

  /** What `Render` hands to the GPU: the first index and the number of indices drawn. */
  datatype DrawCall = DrawCall(firstIndex: nat, indexCount: nat)

  class QuadRenderData<Q(0)> {
    var quadCount: nat
    var vertexCount: nat
    var indexCount: nat
    var quads: array<Q>
    var indices: array<int>

    /** Four vertices and six indices per quad; six index slots per quad slot. */
    ghost predicate Valid()
      reads this
    {
      && vertexCount == 4 * quadCount
      && indexCount == 6 * quadCount
      && indices.Length == 6 * quads.Length
    }

    /** Every index written so far follows the quad pattern. */
    ghost predicate Filled()
      reads this, indices
    {
      FilledUpTo(indices[..], indexCount)
    }

    /** `QuadRenderData(numQuads)`; the default constructor is the case numQuads == 0. */
    constructor (numQuads: nat)
      ensures Valid() && Filled()
      ensures quadCount == 0 && quads.Length == numQuads && indices.Length == 6 * numQuads
      ensures fresh(quads) && fresh(indices)
      ensures forall k :: 0 <= k < indices.Length ==> indices[k] == 0
    {
      quadCount, vertexCount, indexCount := 0, 0, 0;
      quads := new Q[numQuads];
      indices := new int[6 * numQuads](_ => 0);
    }

    /**
     * `quads.resize(n)` and `indices.resize(6n)`: the common prefix keeps its
     * contents, new index slots are zero. The counters are not touched.
     */
    method CreateBuffers(numQuads: nat)
      requires Valid()
      modifies this
      ensures Valid() && fresh(quads) && fresh(indices)
      ensures quads.Length == numQuads && indices.Length == 6 * numQuads
      ensures quadCount == old(quadCount)
      ensures forall k :: 0 <= k < numQuads && k < old(quads.Length) ==> quads[k] == old(quads[k])
      ensures forall k :: 0 <= k < indices.Length ==>
        indices[k] == if k < old(indices.Length) then old(indices[k]) else 0
      ensures old(Filled()) && old(quadCount) <= numQuads ==> Filled()
    {
      var newQuads := new Q[numQuads];
      var i := 0;
      while i < numQuads && i < quads.Length
        modifies newQuads
        invariant 0 <= i <= numQuads && i <= quads.Length
        invariant forall k :: 0 <= k < i ==> newQuads[k] == quads[k]
      {
        newQuads[i] := quads[i];
        i := i + 1;
      }
      var newIndices := new int[6 * numQuads](_ => 0);
      i := 0;
      while i < 6 * numQuads && i < indices.Length
        modifies newIndices
        invariant 0 <= i <= 6 * numQuads && i <= indices.Length
        invariant forall k :: 0 <= k < 6 * numQuads ==>
          newIndices[k] == if k < i then indices[k] else 0
      {
        newIndices[i] := indices[i];
        i := i + 1;
      }
      quads, indices := newQuads, newIndices;
    }

    method ResetCounts()
      modifies this`quadCount, this`vertexCount, this`indexCount
      ensures quadCount == 0 && vertexCount == 0 && indexCount == 0
      ensures Valid() == (indices.Length == 6 * quads.Length)
      ensures Filled()
    {
      quadCount, vertexCount, indexCount := 0, 0, 0;
    }

    /**
     * Claims the next quad slot and writes its six indices. Returns the slot
     * the caller then fills with the quad's vertices.
     */
    method NextQuad() returns (slot: nat)
      requires Valid() && quadCount < quads.Length
      modifies this`quadCount, this`vertexCount, this`indexCount, indices
      ensures Valid()
      ensures slot == old(quadCount) && slot < quads.Length
      ensures quadCount == old(quadCount) + 1
      ensures vertexCount == old(vertexCount) + 4 && indexCount == old(indexCount) + 6
      ensures forall j :: 0 <= j < 6 ==> indices[old(indexCount) + j] == old(vertexCount) + Pattern[j]
      ensures forall k :: 0 <= k < indices.Length && !(old(indexCount) <= k < indexCount) ==>
        indices[k] == old(indices[k])
      ensures old(Filled()) ==> Filled()
    {
      slot := quadCount;
      var i, v := indexCount, vertexCount;
      WriteQuadIndices(indices, i, v);
      quadCount := quadCount + 1;
      vertexCount := vertexCount + 4;
      indexCount := indexCount + 6;
      if old(Filled()) {
        FilledExtend(old(indices[..]), indices[..], slot);
      }
    }

    /**
     * The draw of `size` quads from quad `offset` (in units of quads); a
     * size of 0 stands for the whole count.
     */
    function Render(offset: nat, size: nat): (d: DrawCall)
      reads this
      requires offset <= quadCount && size <= quadCount
      ensures d.firstIndex == 6 * offset
      ensures size != 0 ==> d.indexCount == 6 * size
      ensures size == 0 ==> d.indexCount == 6 * quadCount
    {
      DrawCall(offset * 6, (if size == 0 then quadCount else size) * 6)
    }
  }

  /**
   * A draw of quads [offset, offset + size) over an index buffer written by
   * NextQuad refers exactly to those quads' vertices.
   */
  lemma {:induction false} DrawnIndicesInRange<Q(0)>(data: QuadRenderData<Q>, offset: nat, size: nat)
    requires data.Valid() && data.Filled()
    requires 0 < size && offset + size <= data.quadCount
    ensures var d := data.Render(offset, size);
      d.firstIndex + d.indexCount <= data.indexCount &&
      forall k :: d.firstIndex <= k < d.firstIndex + d.indexCount ==>
        4 * offset <= data.indices[k] < 4 * (offset + size)
  {
    forall k | 6 * offset <= k < 6 * offset + 6 * size
      ensures 4 * offset <= data.indices[k] < 4 * (offset + size)
    {
      var q := k / 6;
      assert offset <= q < offset + size;
      assert data.indices[..][k] == 4 * q + Pattern[k % 6];
    }
  }

  /**
   * The size-0 shorthand means "all quads", so with a non-zero offset the
   * draw reaches past the written indices: callers must not pass size 0
   * for a partial range.
   */
  lemma SizeZeroWithOffsetOverruns<Q(0)>(data: QuadRenderData<Q>, offset: nat)
    requires data.Valid() && 0 < offset <= data.quadCount
    ensures var d := data.Render(offset, 0);
      d.firstIndex + d.indexCount > data.indexCount
  {
  }
}
