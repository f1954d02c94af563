/** The integer helpers of the image segmenter: the distinct labels of a
    segmentation map with their class names, the PASCAL VOC colour map,
    and the colouring of a label map through it. */
module Segmentation {
  import opened Wrappers

  /** The 21 PASCAL VOC class names; label l names class l. */
  const LabelNames: seq<string> := [
    "background", "aeroplane", "bicycle", "bird", "boat", "bottle", "bus",
    "car", "cat", "chair", "cow", "diningtable", "dog", "horse", "motorbike",
    "person", "pottedplant", "sheep", "sofa", "train", "tv"]

  // -----------------------------------------------------------------------
  // Label collection

  /** The cells of a label map, row by row. */
  function Flatten(m: seq<seq<int>>): seq<int> {
    if m == [] then [] else Flatten(m[..|m| - 1]) + m[|m| - 1]
  }

  /** The labels collected after scanning xs: each positive value not
      collected before is appended. */
  function Collected(xs: seq<int>): seq<int> {
    if xs == [] then []
    else
      var prev := Collected(xs[..|xs| - 1]);
      var l := xs[|xs| - 1];
      if l > 0 && l !in prev then prev + [l] else prev
  }

  /** The label-collection loops of the segmenter. */
  method CollectLabels(segMap: seq<seq<int>>) returns (labels: seq<int>)
    ensures labels == Collected(Flatten(segMap))
  {
    labels := [];
    for i := 0 to |segMap|
      invariant labels == Collected(Flatten(segMap[..i]))
    {
      labels := CollectRow(labels, Flatten(segMap[..i]), segMap[i]);
      FlattenStep(segMap, i);
    }
    assert segMap[..|segMap|] == segMap;
  }

  /** The inner loop: the labels of one row, appended to those collected
      from the rows before it. */
  method CollectRow(labels: seq<int>, ghost before: seq<int>, row: seq<int>) returns (out: seq<int>)
    requires labels == Collected(before)
    ensures out == Collected(before + row)
  {
    out := labels;
    assert before + row[..0] == before;
    for j := 0 to |row|
      invariant out == Collected(before + row[..j])
    {
      var l := row[j];
      CollectedAppend(before + row[..j], l);
      assert before + row[..j + 1] == (before + row[..j]) + [l];
      if l > 0 && l !in out {
        out := out + [l];
      }
    }
    assert row[..|row|] == row;
  }

  lemma CollectedAppend(xs: seq<int>, l: int)
    ensures Collected(xs + [l]) == if l > 0 && l !in Collected(xs) then Collected(xs) + [l] else Collected(xs)
  {
    assert (xs + [l])[..|xs|] == xs;
  }

  lemma FlattenStep(m: seq<seq<int>>, i: nat)
    requires i < |m|
    ensures Flatten(m[..i + 1]) == Flatten(m[..i]) + m[i]
  {
    assert m[..i + 1][..i] == m[..i];
  }

  /** The index of the first occurrence of l in xs. */
  function FirstIndex(xs: seq<int>, l: int): (k: nat)
    requires l in xs
    ensures k < |xs| && xs[k] == l && l !in xs[..k]
  {
    if xs[0] == l then 0
    else
      var k := 1 + FirstIndex(xs[1..], l);
      assert xs[..k] == [xs[0]] + xs[1..][..k - 1];
      k
  }

  /** The collected labels are positive and pairwise distinct, and they are
      exactly the positive values of the scan. */
  lemma {:induction false} CollectedSpec(xs: seq<int>)
    ensures forall i :: 0 <= i < |Collected(xs)| ==> Collected(xs)[i] > 0
    ensures forall i, j :: 0 <= i < j < |Collected(xs)| ==> Collected(xs)[i] != Collected(xs)[j]
    ensures forall l :: l in Collected(xs) <==> l > 0 && l in xs
    decreases |xs|
  {
    if xs != [] {
      var init := xs[..|xs| - 1];
      CollectedSpec(init);
      assert xs == init + [xs[|xs| - 1]];
    }
  }

  /** The collected labels stand in the order of their first occurrences. */
  lemma {:induction false} CollectedOrder(xs: seq<int>)
    ensures forall i, j :: 0 <= i < j < |Collected(xs)| ==>
      Collected(xs)[i] in xs && Collected(xs)[j] in xs &&
      FirstIndex(xs, Collected(xs)[i]) < FirstIndex(xs, Collected(xs)[j])
    decreases |xs|
  {
    if xs != [] {
      var init := xs[..|xs| - 1];
      var l := xs[|xs| - 1];
      CollectedOrder(init);
      CollectedSpec(init);
      var prev := Collected(init);
      assert xs == init + [l];
      forall y | y in init
        ensures FirstIndex(xs, y) == FirstIndex(init, y)
      {
        FirstIndexExtend(init, l, y);
      }
      var c := Collected(xs);
      if l > 0 && l !in prev {
        assert l !in init;
        FirstIndexLast(init, l);
        assert c == prev + [l];
      } else {
        assert c == prev;
      }
      forall i, j | 0 <= i < j < |c|
        ensures c[i] in xs && c[j] in xs && FirstIndex(xs, c[i]) < FirstIndex(xs, c[j])
      {
        assert prev[i] in prev && prev[i] in init;
        if j < |prev| {
          assert prev[j] in prev && prev[j] in init;
        } else {
          assert c[j] == l;
        }
      }
    } else {
      assert Collected(xs) == [];
    }
  }

  lemma FirstIndexExtend(xs: seq<int>, l: int, y: int)
    requires y in xs
    ensures FirstIndex(xs + [l], y) == FirstIndex(xs, y)
  {
    var k := FirstIndex(xs, y);
    var ys := xs + [l];
    assert ys[k] == y && ys[..k] == xs[..k];
    FirstIndexUnique(ys, y, k);
  }

  lemma FirstIndexLast(xs: seq<int>, l: int)
    requires l !in xs
    ensures FirstIndex(xs + [l], l) == |xs|
  {
    var ys := xs + [l];
    assert ys[..|xs|] == xs;
    FirstIndexUnique(ys, l, |xs|);
  }

  /** The first occurrence is the only position with no earlier occurrence. */
  lemma FirstIndexUnique(xs: seq<int>, l: int, k: nat)
    requires k < |xs| && xs[k] == l && l !in xs[..k]
    ensures FirstIndex(xs, l) == k
  {
  }

  /** `LABEL_NAMES[l]` with the host language's indexing: negative indices
      down to -21 count from the end, anything else outside fails. */
  function LabelName(l: int): Option<string> {
    if 0 <= l < |LabelNames| then Some(LabelNames[l])
    else if -|LabelNames| <= l < 0 then Some(LabelNames[|LabelNames| + l])
    else None
  }

  /** The class names of the labels, in the same order; none when a label
      is out of range. */
  function NameLabels(labels: seq<int>): (r: Option<seq<string>>)
    ensures r.Some? <==> forall i :: 0 <= i < |labels| ==> LabelName(labels[i]).Some?
    ensures r.Some? ==> (|r.value| == |labels| &&
      forall i :: 0 <= i < |labels| ==> r.value[i] == LabelName(labels[i]).value)
  {
    if labels == [] then Some([])
    else
      match (LabelName(labels[0]), NameLabels(labels[1..]))
      case (Some(n), Some(ns)) => Some([n] + ns)
      case _ => None
  }

  /** The collected labels of a map all have names exactly when no cell
      holds a label above 20; each collected label is then named by the
      class list. */
  lemma CollectedNames(m: seq<seq<int>>)
    ensures var labels := Collected(Flatten(m));
      && (NameLabels(labels).Some? <==> forall l :: l in Flatten(m) ==> l <= 20)
      && (NameLabels(labels).Some? ==>
            forall i :: 0 <= i < |labels| ==>
              0 < labels[i] <= 20 && NameLabels(labels).value[i] == LabelNames[labels[i]])
  {
    var xs := Flatten(m);
    var labels := Collected(xs);
    CollectedSpec(xs);
    if forall l :: l in xs ==> l <= 20 {
      forall i | 0 <= i < |labels|
        ensures 0 < labels[i] <= 20
      {
        assert labels[i] in labels;
      }
    }
    if NameLabels(labels).Some? {
      forall l | l in xs
        ensures l <= 20
      {
        if l > 0 {
          var i :| 0 <= i < |labels| && labels[i] == l;
          assert LabelName(labels[i]).Some?;
        }
      }
    }
  }

  // -----------------------------------------------------------------------
  // The PASCAL colour map

  /** The row index of the colour map after j passes that each shift it
      right by three bits. */
  function IndexAfter(r: bv8, j: nat): bv8 {
    if j == 0 then r else IndexAfter(r, j - 1) >> 3
  }

  /** Bit `ch` of x, moved to bit `shift`. */
  function ChannelBit(x: bv8, ch: nat, shift: nat): bv8
    requires ch < 3 && shift < 8
  {
    ((x >> ch) & 1) << shift
  }

  /** Channel ch of row r after the passes for shifts 7 .. 8 - j. */
  function ChannelAfter(r: bv8, ch: nat, j: nat): bv8
    requires ch < 3 && j <= 8
  {
    if j == 0 then 0
    else OrBit(ChannelAfter(r, ch, j - 1), IndexAfter(r, j - 1), ch, 8 - j)
  }

  /** v with bit `ch` of x OR-ed in at bit `shift`. */
  function OrBit(v: bv8, x: bv8, ch: nat, shift: nat): bv8
    requires ch < 3 && shift < 8
  {
    v | ChannelBit(x, ch, shift)
  }

  lemma ChannelStep(r: bv8, ch: nat, j: nat)
    requires ch < 3 && j < 8
    ensures ChannelAfter(r, ch, j + 1) == OrBit(ChannelAfter(r, ch, j), IndexAfter(r, j), ch, 7 - j)
  {
    assert 8 - (j + 1) == 7 - j;
  }

  /** The colour-map entry of row r, channel ch. */
  function Colormap(r: bv8, ch: nat): bv8
    requires ch < 3
  {
    ChannelAfter(r, ch, 8)
  }

  /** `create_pascal_label_colormap`: a 256 x 3 array, zero at first; for
      each shift from 7 down to 0, bit `ch` of every row index is OR-ed into
      bit `shift` of channel ch, and then the indices are shifted right by 3. */
  method CreatePascalLabelColormap() returns (colormap: array2<bv8>)
    ensures fresh(colormap)
    ensures colormap.Length0 == 256 && colormap.Length1 == 3
    ensures forall r, ch :: 0 <= r < 256 && 0 <= ch < 3 ==> colormap[r, ch] == Colormap(r as bv8, ch)
  {
    colormap := new bv8[256, 3]((r, ch) => 0);
    var ind := new bv8[256](r requires 0 <= r < 256 => r as bv8);
    var j := 0;
    forall r, ch | 0 <= r < 256 && 0 <= ch < 3
      ensures colormap[r, ch] == ChannelAfter(r as bv8, ch, 0)
    {
    }
    while j < 8
      invariant 0 <= j <= 8
      invariant forall r, ch :: 0 <= r < 256 && 0 <= ch < 3 ==> colormap[r, ch] == ChannelAfter(r as bv8, ch, j)
      invariant forall r :: 0 <= r < 256 ==> ind[r] == IndexAfter(r as bv8, j)
    {
      OrChannels(colormap, ind, j);
      ShiftRight(ind);
      forall r | 0 <= r < 256
        ensures ind[r] == IndexAfter(r as bv8, j + 1)
      {
      }
      j := j + 1;
    }
  }

  /** The pass for shift 7 - j: every channel takes its bit of the current
      row indices. */
  method OrChannels(colormap: array2<bv8>, ind: array<bv8>, j: nat)
    requires colormap.Length0 == 256 && colormap.Length1 == 3 && ind.Length == 256 && j < 8
    requires forall r, ch :: 0 <= r < 256 && 0 <= ch < 3 ==> colormap[r, ch] == ChannelAfter(r as bv8, ch, j)
    requires forall r :: 0 <= r < 256 ==> ind[r] == IndexAfter(r as bv8, j)
    modifies colormap
    ensures forall r, ch :: 0 <= r < 256 && 0 <= ch < 3 ==> colormap[r, ch] == ChannelAfter(r as bv8, ch, j + 1)
  {
    var shift := 7 - j;
    for channel := 0 to 3
      invariant forall r, ch :: 0 <= r < 256 && 0 <= ch < 3 ==>
        colormap[r, ch] == ChannelAfter(r as bv8, ch, if ch < channel then j + 1 else j)
    {
      OrColumn(colormap, ind, channel, shift);
      forall r, ch | 0 <= r < 256 && 0 <= ch < 3
        ensures colormap[r, ch] == ChannelAfter(r as bv8, ch, if ch < channel + 1 then j + 1 else j)
      {
        if ch == channel {
          ChannelStep(r as bv8, ch, j);
        }
      }
    }
  }

  /** ORs bit `channel` of each row's current index into bit `shift` of
      that row's entry in column `channel`; the other columns stay as they
      were. */
  method OrColumn(colormap: array2<bv8>, ind: array<bv8>, channel: nat, shift: nat)
    requires colormap.Length0 == ind.Length && colormap.Length1 == 3
    requires channel < 3 && shift < 8
    modifies colormap
    ensures forall q :: 0 <= q < colormap.Length0 ==>
      colormap[q, channel] == OrBit(old(colormap[q, channel]), ind[q], channel, shift)
    ensures forall q, ch :: 0 <= q < colormap.Length0 && 0 <= ch < 3 && ch != channel ==>
      colormap[q, ch] == old(colormap[q, ch])
  {
    for r := 0 to colormap.Length0
      invariant forall q :: 0 <= q < r ==>
        colormap[q, channel] == OrBit(old(colormap[q, channel]), ind[q], channel, shift)
      invariant forall q :: r <= q < colormap.Length0 ==> colormap[q, channel] == old(colormap[q, channel])
      invariant forall q, ch :: 0 <= q < colormap.Length0 && 0 <= ch < 3 && ch != channel ==>
        colormap[q, ch] == old(colormap[q, ch])
    {
      colormap[r, channel] := OrBit(colormap[r, channel], ind[r], channel, shift);
    }
  }

  /** Shifts every row's current index right by three bits, dropping the
      three bits the pass has just used. */
  method ShiftRight(ind: array<bv8>)
    modifies ind
    ensures forall q :: 0 <= q < ind.Length ==> ind[q] == old(ind[q]) >> 3
  {
    for r := 0 to ind.Length
      invariant forall q :: 0 <= q < ind.Length ==> ind[q] == if q < r then old(ind[q]) >> 3 else old(ind[q])
    {
      ind[r] := ind[r] >> 3;
    }
  }

  /** The colour of row r: bit 3k + ch of r becomes bit 7 - k of channel
      ch, for every k with 3k + ch < 8. */
  function Interleaved(r: bv8, ch: nat): bv8
    requires ch < 3
  {
    (((r >> ch) & 1) << 7)
    | (((r >> (ch + 3)) & 1) << 6)
    | (if ch + 6 < 8 then ((r >> (ch + 6)) & 1) << 5 else 0)
  }

  /** The colour map is the bit interleaving of the row index. */
  lemma ColormapInterleaves(r: bv8, ch: nat)
    requires ch < 3
    ensures Colormap(r, ch) == Interleaved(r, ch)
  {
    IndexAfterVanishes(r);
    ChannelFirstPasses(r, ch);
    assert ChannelAfter(r, ch, 8) == ChannelAfter(r, ch, 3) by {
      ChannelSettles(r, ch, 4);
      ChannelSettles(r, ch, 5);
      ChannelSettles(r, ch, 6);
      ChannelSettles(r, ch, 7);
      ChannelSettles(r, ch, 8);
    }
  }

  /** The first three passes set the three bits the index has to give. */
  lemma ChannelFirstPasses(r: bv8, ch: nat)
    requires ch < 3
    ensures ChannelAfter(r, ch, 3) == Interleaved(r, ch)
  {
    assert IndexAfter(r, 1) == r >> 3;
    assert IndexAfter(r, 2) == (r >> 3) >> 3;
    assert ChannelAfter(r, ch, 1) == 0 | ChannelBit(r, ch, 7);
    assert ChannelAfter(r, ch, 3)
      == 0 | ChannelBit(r, ch, 7) | ChannelBit(r >> 3, ch, 6) | ChannelBit((r >> 3) >> 3, ch, 5);
    InterleaveBits(r, ch);
  }

  lemma InterleaveBits(r: bv8, ch: nat)
    requires ch < 3
    ensures 0 | ChannelBit(r, ch, 7) | ChannelBit(r >> 3, ch, 6) | ChannelBit((r >> 3) >> 3, ch, 5)
      == Interleaved(r, ch)
  {
    if ch == 0 {
    } else if ch == 1 {
    } else {
    }
  }

  /** Three right shifts by three bits leave nothing of an 8-bit index. */
  lemma IndexAfterVanishes(r: bv8)
    ensures forall j :: 3 <= j <= 8 ==> IndexAfter(r, j) == 0
  {
    assert IndexAfter(r, 1) == r >> 3;
    assert IndexAfter(r, 2) == (r >> 3) >> 3;
    assert IndexAfter(r, 3) == ((r >> 3) >> 3) >> 3 == 0;
    assert IndexAfter(r, 4) == 0;
    assert IndexAfter(r, 5) == 0;
    assert IndexAfter(r, 6) == 0;
    assert IndexAfter(r, 7) == 0;
    assert IndexAfter(r, 8) == 0;
  }

  lemma ChannelSettles(r: bv8, ch: nat, j: nat)
    requires ch < 3 && 3 < j <= 8 && IndexAfter(r, j - 1) == 0
    ensures ChannelAfter(r, ch, j) == ChannelAfter(r, ch, j - 1)
  {
  }

  /** The row index read back from its colour. */
  function RowOf(red: bv8, green: bv8, blue: bv8): bv8 {
    ((red >> 7) & 1) | (((green >> 7) & 1) << 1) | (((blue >> 7) & 1) << 2)
    | (((red >> 6) & 1) << 3) | (((green >> 6) & 1) << 4) | (((blue >> 6) & 1) << 5)
    | (((red >> 5) & 1) << 6) | (((green >> 5) & 1) << 7)
  }

  /** Distinct labels get distinct colours: the row index is recovered from
      the colour of its row. */
  lemma ColormapRowsDistinct(r: bv8)
    ensures RowOf(Colormap(r, 0), Colormap(r, 1), Colormap(r, 2)) == r
  {
    ColormapInterleaves(r, 0);
    ColormapInterleaves(r, 1);
    ColormapInterleaves(r, 2);
  }

  /** Row 0 is black and row 1 is (128, 0, 0). */
  lemma ColormapFirstRows(r: bv8)
    requires r <= 1
    ensures Colormap(r, 0) == (if r == 0 then 0 else 128)
    ensures Colormap(r, 1) == 0 && Colormap(r, 2) == 0
  {
    ColormapInterleaves(r, 0);
    ColormapInterleaves(r, 1);
    ColormapInterleaves(r, 2);
  }

  // -----------------------------------------------------------------------
  // Colouring a labelMap map

  datatype SegmentationError = NotRank2 | EmptyLabel | LabelTooLarge | IndexOutOfRange

  /** The labelMap map converts to a 2-D array: at least one row, all rows of
      the same length. */
  predicate Rank2(labelMap: seq<seq<int>>) {
    |labelMap| > 0 && forall i :: 0 <= i < |labelMap| ==> |labelMap[i]| == |labelMap[0]|
  }

  function MaxOf(xs: seq<int>): (m: int)
    requires |xs| > 0
    ensures m in xs && forall i :: 0 <= i < |xs| ==> xs[i] <= m
  {
    if |xs| == 1 then xs[0]
    else
      var rest := MaxOf(xs[1..]);
      if xs[0] >= rest then xs[0] else rest
  }

  /** The colour-map row of labelMap l under the host's array indexing,
      where a negative labelMap counts from the end. */
  function ColorOf(l: int): seq<bv8>
    requires -256 <= l < 256
  {
    var r := (if l < 0 then l + 256 else l) as bv8;
    [Colormap(r, 0), Colormap(r, 1), Colormap(r, 2)]
  }

  /** `label_to_color_image`: the labelMap map must be 2-D and non-empty, and
      its largest labelMap below 256; a labelMap below -256 indexes outside the
      colour map. The result gives each cell its colour-map row. */
  function LabelToColorImage(labelMap: seq<seq<int>>): (r: Result<seq<seq<seq<bv8>>>, SegmentationError>)
    ensures r.Success? <==>
      Rank2(labelMap) && |labelMap[0]| > 0 && MaxOf(Flatten(labelMap)) < 256
      && forall l :: l in Flatten(labelMap) ==> l >= -256
    ensures r.Success? ==>
      && |r.value| == |labelMap|
      && forall i :: 0 <= i < |labelMap| ==>
           |r.value[i]| == |labelMap[i]|
           && forall j :: 0 <= j < |labelMap[i]| ==> -256 <= labelMap[i][j] < 256 && r.value[i][j] == ColorOf(labelMap[i][j])
  {
    if !Rank2(labelMap) then Failure(NotRank2)
    else if |labelMap[0]| == 0 then
      FlattenEmpty(labelMap);
      Failure(EmptyLabel)
    else
      FlattenHasCells(labelMap);
      if MaxOf(Flatten(labelMap)) >= 256 then Failure(LabelTooLarge)
      else if exists l :: l in Flatten(labelMap) && l < -256 then Failure(IndexOutOfRange)
      else
        FlattenCells(labelMap);
        Success(seq(|labelMap|, i requires 0 <= i < |labelMap| =>
          seq(|labelMap[i]|, j requires 0 <= j < |labelMap[i]| && -256 <= labelMap[i][j] < 256 => ColorOf(labelMap[i][j]))))
  }

  /** Every cell of the map is in its flattening. */
  lemma {:induction false} FlattenCells(m: seq<seq<int>>)
    ensures forall i, j :: 0 <= i < |m| && 0 <= j < |m[i]| ==> m[i][j] in Flatten(m)
    ensures forall l :: l in Flatten(m) ==> exists i, j :: 0 <= i < |m| && 0 <= j < |m[i]| && m[i][j] == l
    decreases |m|
  {
    if m != [] {
      var init := m[..|m| - 1];
      FlattenCells(init);
      assert forall i :: 0 <= i < |init| ==> init[i] == m[i];
    }
  }

  lemma FlattenHasCells(m: seq<seq<int>>)
    requires |m| > 0 && |m[0]| > 0
    ensures |Flatten(m)| > 0
  {
    FlattenCells(m);
    assert m[0][0] in Flatten(m);
  }

  lemma FlattenEmpty(m: seq<seq<int>>)
    requires Rank2(m) && |m[0]| == 0
    ensures Flatten(m) == []
  {
    FlattenCells(m);
  }
}
