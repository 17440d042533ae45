/**
 * Circle radius and node coordinates (`get_position`). All arithmetic is Python's integer
 * floor division on non-negative operands, which Dafny's `/` computes.
 */
module Positions {
  import opened Wrappers
  import opened Genome

  datatype Point = Point(x: int, y: int)

  /** Everything `get_position` reads: the three node lists, the canvas size, the radius and `maxLayers`. */
  datatype Layout = Layout(inputs: seq<string>, outputs: seq<string>, hidden: seq<HiddenEntry>,
                           width: nat, height: nat, radius: int, maxLayers: nat)

  function Min(a: nat, b: nat): nat {
    if a < b then a else b
  }

  lemma FloorDivBound(n: nat, d: nat, q: nat)
    requires d > 0
    ensures d * q <= n <==> q <= n / d
  {
    if q <= n / d {
      assert d * q <= d * (n / d);
    } else {
      assert q >= n / d + 1;
      assert d * q >= d * (n / d + 1);
    }
  }

  /**
   * The circle radius `min(w//30, h//30, w//(5*|inputs|), h//(5*|outputs|))`: the largest
   * integer for which 30 radii fit across and down the canvas, five per input fit across it
   * and five per output fit down it. There is no lower clamp, so it can be 0.
   */
  function Radius(width: nat, height: nat, inputCount: nat, outputCount: nat): (r: nat)
    requires inputCount > 0 && outputCount > 0
    ensures 30 * r <= width && 30 * r <= height && 5 * inputCount * r <= width && 5 * outputCount * r <= height
    ensures !(30 * (r + 1) <= width && 30 * (r + 1) <= height &&
              5 * inputCount * (r + 1) <= width && 5 * outputCount * (r + 1) <= height)
  {
    var r := Min(Min(width / 30, height / 30), Min(width / (inputCount * 5), height / (outputCount * 5)));
    FloorDivBound(width, 30, r);
    FloorDivBound(height, 30, r);
    FloorDivBound(width, inputCount * 5, r);
    FloorDivBound(height, outputCount * 5, r);
    FloorDivBound(width, 30, r + 1);
    FloorDivBound(height, 30, r + 1);
    FloorDivBound(width, inputCount * 5, r + 1);
    FloorDivBound(height, outputCount * 5, r + 1);
    r
  }

  /** The y coordinate of entry `index` of a list of `count`: `offset * index + offset // 2` with `offset = extent // count`. */
  function Slot(index: nat, count: nat, extent: nat): int
    requires count > 0
  {
    (extent / count) * index + (extent / count) / 2
  }

  /** `(maxLayers + 1 - depth) * (width // (maxLayers + 1))`, the x coordinate of a hidden node. */
  function HiddenX(depth: int, maxLayers: nat, width: nat): int {
    (maxLayers + 1 - depth) * (width / (maxLayers + 1))
  }

  function InputCentre(L: Layout, i: nat): Point
    requires |L.inputs| > 0
  {
    Point(L.radius, Slot(i, |L.inputs|, L.height))
  }

  function OutputCentre(L: Layout, i: nat): Point
    requires |L.outputs| > 0
  {
    Point(L.width - L.radius, Slot(i, |L.outputs|, L.height))
  }

  function HiddenCentre(L: Layout, i: nat): Point
    requires i < |L.hidden|
  {
    Point(HiddenX(L.hidden[i].depth, L.maxLayers, L.width), Slot(i, |L.hidden|, L.height))
  }

  /**
   * `get_position`: inputs are looked up first, then outputs, then the hidden entries in order;
   * the first occurrence of the key decides its index. A key in none of them has no position.
   */
  function Position(key: string, L: Layout): (p: Option<Point>)
    ensures p.Some? <==> key in L.inputs || key in L.outputs || key in HiddenKeys(L.hidden)
    ensures key in L.inputs ==> p.value.x == L.radius
    ensures key !in L.inputs && key in L.outputs ==> p.value.x == L.width - L.radius
    ensures key !in L.inputs && key !in L.outputs && key in HiddenKeys(L.hidden) ==>
              exists i :: 0 <= i < |L.hidden| && L.hidden[i].key == key &&
                (forall j :: 0 <= j < i ==> L.hidden[j].key != key) &&
                p.value.x == HiddenX(L.hidden[i].depth, L.maxLayers, L.width)
  {
    if key in L.inputs then Some(InputCentre(L, IndexOf(L.inputs, key)))
    else if key in L.outputs then Some(OutputCentre(L, IndexOf(L.outputs, key)))
    else if key in HiddenKeys(L.hidden) then
      HiddenKeysAt(L.hidden);
      Some(HiddenCentre(L, IndexOf(HiddenKeys(L.hidden), key)))
    else None
  }

  /** Every slot lies inside the canvas height. */
  lemma SlotInRange(index: nat, count: nat, extent: nat)
    requires index < count && extent > 0
    ensures 0 <= Slot(index, count, extent) < extent
  {
    var offset := extent / count;
    if offset > 0 {
      MulLeftMono(offset, index, count - 1);
      assert offset * (count - 1) == offset * count - offset;
      FloorDivBound(extent, count, offset);
      assert count * offset <= extent;
    }
  }

  lemma MulLeftMono(a: nat, b: nat, c: nat)
    requires b <= c
    ensures a * b <= a * c
  {
  }

  /** Slots are evenly spaced by `offset`, so they increase strictly with the index whenever `offset > 0`. */
  lemma SlotSpacing(i: nat, j: nat, count: nat, extent: nat)
    requires count > 0 && i <= j
    ensures Slot(j, count, extent) - Slot(i, count, extent) == (j - i) * (extent / count)
    ensures i < j && extent / count > 0 ==> Slot(i, count, extent) < Slot(j, count, extent)
  {
    var offset := extent / count;
    assert offset * j - offset * i == (j - i) * offset;
    if i < j && offset > 0 {
      assert (j - i) * offset > 0;
    }
  }

  /** A hidden node of depth `0 <= d <= maxLayers` lies between `width // (maxLayers + 1)` and `width`. */
  lemma HiddenXInRange(depth: int, maxLayers: nat, width: nat)
    requires 0 <= depth <= maxLayers
    ensures width / (maxLayers + 1) <= HiddenX(depth, maxLayers, width) <= width
  {
    var offset := width / (maxLayers + 1);
    var k: nat := maxLayers + 1 - depth;
    MulRightMono(1, k, offset);
    MulRightMono(k, maxLayers + 1, offset);
    FloorDivBound(width, maxLayers + 1, offset);
  }

  lemma MulRightMono(b: nat, c: nat, a: nat)
    requires b <= c
    ensures b * a <= c * a
  {
  }

  /**
   * A hidden node of depth 0 is drawn at x == width, one column past the last pixel, whenever
   * `maxLayers + 1` divides the width (for instance `maxLayers == 0`).
   */
  lemma DepthZeroOnRightEdge(maxLayers: nat, width: nat)
    requires width % (maxLayers + 1) == 0
    ensures HiddenX(0, maxLayers, width) == width
  {
    assert width == (maxLayers + 1) * (width / (maxLayers + 1)) + width % (maxLayers + 1);
  }

  /** Layers are `width // (maxLayers + 1)` apart: a deeper node is drawn further left. */
  lemma HiddenXSpacing(d1: int, d2: int, maxLayers: nat, width: nat)
    requires d1 <= d2
    ensures HiddenX(d1, maxLayers, width) - HiddenX(d2, maxLayers, width) == (d2 - d1) * (width / (maxLayers + 1))
  {
    var offset := width / (maxLayers + 1);
    assert (maxLayers + 1 - d1) * offset - (maxLayers + 1 - d2) * offset == (d2 - d1) * offset;
  }

  /** The layout facts the drawer establishes before it looks up positions. */
  predicate WellFormed(L: Layout) {
    L.height > 0 && 0 <= L.radius && 30 * L.radius <= L.width &&
    forall i :: 0 <= i < |L.hidden| ==> 0 <= L.hidden[i].depth <= L.maxLayers
  }

  predicate InCanvas(p: Point, width: nat, height: nat) {
    0 <= p.x <= width && 0 <= p.y < height
  }

  /** Every position `get_position` returns lies in the canvas (a depth-0 hidden node may sit on its right edge). */
  lemma PositionInCanvas(key: string, L: Layout)
    requires WellFormed(L)
    ensures Position(key, L).Some? ==> InCanvas(Position(key, L).value, L.width, L.height)
  {
    if key in L.inputs {
      SlotInRange(IndexOf(L.inputs, key), |L.inputs|, L.height);
    } else if key in L.outputs {
      SlotInRange(IndexOf(L.outputs, key), |L.outputs|, L.height);
    } else if key in HiddenKeys(L.hidden) {
      var i := IndexOf(HiddenKeys(L.hidden), key);
      SlotInRange(i, |L.hidden|, L.height);
      HiddenXInRange(L.hidden[i].depth, L.maxLayers, L.width);
    }
  }

  /**
   * The drawer's circle loops place entry `i` of each list where `get_position` places its key,
   * as long as the lists have no duplicates and an output is not also an input (inputs win),
   * nor a hidden key an input or an output.
   */
  lemma CentresAgreeWithPositions(L: Layout)
    ensures NoDup(L.inputs) ==>
              forall i :: 0 <= i < |L.inputs| ==> Position(L.inputs[i], L) == Some(InputCentre(L, i))
    ensures NoDup(L.outputs) ==>
              forall i :: 0 <= i < |L.outputs| && L.outputs[i] !in L.inputs ==>
                Position(L.outputs[i], L) == Some(OutputCentre(L, i))
    ensures NoDup(HiddenKeys(L.hidden)) ==>
              forall i :: 0 <= i < |L.hidden| && L.hidden[i].key !in L.inputs && L.hidden[i].key !in L.outputs ==>
                Position(L.hidden[i].key, L) == Some(HiddenCentre(L, i))
  {
    if NoDup(L.inputs) {
      forall i | 0 <= i < |L.inputs| ensures Position(L.inputs[i], L) == Some(InputCentre(L, i)) {
        IndexOfNoDup(L.inputs, i);
      }
    }
    if NoDup(L.outputs) {
      forall i | 0 <= i < |L.outputs| && L.outputs[i] !in L.inputs
        ensures Position(L.outputs[i], L) == Some(OutputCentre(L, i))
      {
        IndexOfNoDup(L.outputs, i);
      }
    }
    var keys := HiddenKeys(L.hidden);
    if NoDup(keys) {
      forall i | 0 <= i < |L.hidden| && L.hidden[i].key !in L.inputs && L.hidden[i].key !in L.outputs
        ensures Position(L.hidden[i].key, L) == Some(HiddenCentre(L, i))
      {
        assert keys[i] == L.hidden[i].key;
        IndexOfNoDup(keys, i);
      }
    }
  }
}
