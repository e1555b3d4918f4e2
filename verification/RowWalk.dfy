/** The row pointers the software codecs hand to the JPEG library, 16 luma and 8 chroma rows a call, over a
    planar YUV420 image. Pointers are offsets from the start of the image. The library is assumed to consume
    16 lines per call. */
module RowWalk {
  import opened Common

  datatype Call = Call(y: seq<int>, u: seq<int>, v: seq<int>)

  /** A planar image of `width` by `height` luma samples. */
  datatype Image = Image(width: nat, height: nat) {
    function Stride(): nat { width / 2 }
    function ChromaRows(): nat { height / 2 }
    function UStart(): nat { width * height }
    function VStart(): nat { UStart() + Stride() * ChromaRows() }
    function End(): nat { VStart() + Stride() * ChromaRows() }
  }

  /** Where row `k` of each plane starts. */
  function YRow(im: Image, k: int): int { im.width * k }
  function URow(im: Image, k: int): int { im.UStart() + im.Stride() * k }
  function VRow(im: Image, k: int): int { im.VStart() + im.Stride() * k }

  function CallCount(im: Image): nat {
    (im.height + 15) / 16
  }

  lemma Scale(w: nat, a: int, b: int)
    requires a <= b
    ensures w * a <= w * b
  {
  }

  /** Taking the lower of two row pointers is taking the lower row. */
  lemma MinOfRows(im: Image, a: int, b: int)
    ensures Min(YRow(im, a), YRow(im, b)) == YRow(im, Min(a, b))
    ensures Min(URow(im, a), URow(im, b)) == URow(im, Min(a, b))
    ensures Min(VRow(im, a), VRow(im, b)) == VRow(im, Min(a, b))
  {
    if a <= b {
      Scale(im.width, a, b);
      Scale(im.Stride(), a, b);
    } else {
      Scale(im.width, b, a);
      Scale(im.Stride(), b, a);
    }
  }

  lemma NextRow(im: Image, k: int)
    ensures YRow(im, k + 1) == YRow(im, k) + im.width
    ensures URow(im, k + 1) == URow(im, k) + im.Stride()
    ensures VRow(im, k + 1) == VRow(im, k) + im.Stride()
  {
    assert im.width * (k + 1) == im.width * k + im.width;
    assert im.Stride() * (k + 1) == im.Stride() * k + im.Stride();
  }

  // ---- The geometry of the image -----------------------------------------------------------

  lemma Quarter(w: nat, h: nat)
    ensures 4 * ((w / 2) * (h / 2)) == (w - w % 2) * (h - h % 2)
  {
    var a, b := w / 2, h / 2;
    assert w - w % 2 == 2 * a && h - h % 2 == 2 * b;
    assert (2 * a) * (2 * b) == 4 * (a * b);
  }

  /** The planes follow each other without a gap: a sample of luma for each pixel, then two of chroma for each
      whole two-by-two square. So an image of even width and height takes up exactly three halves of its luma
      plane. */
  lemma PlanesTile(im: Image)
    ensures im.UStart() == im.width * im.height
    ensures 4 * (im.VStart() - im.UStart()) == (im.width - im.width % 2) * (im.height - im.height % 2)
    ensures im.End() - im.VStart() == im.VStart() - im.UStart()
    ensures im.width % 2 == im.height % 2 == 0 ==> 2 * im.End() == 3 * im.width * im.height
  {
    Quarter(im.width, im.height);
  }

  /** Rows follow each other without a gap too, a luma row of the image's width and chroma rows of half that, and
      as many as fill their planes. */
  lemma RowsTile(im: Image, k: int)
    ensures YRow(im, 0) == 0 && YRow(im, k + 1) - YRow(im, k) == im.width && YRow(im, im.height) == im.UStart()
    ensures URow(im, 0) == im.UStart() && URow(im, im.height / 2) == im.VStart()
    ensures VRow(im, 0) == im.VStart() && VRow(im, im.height / 2) == im.End()
    ensures 2 * (URow(im, k + 1) - URow(im, k)) == im.width - im.width % 2
    ensures VRow(im, k) - URow(im, k) == im.VStart() - im.UStart()
  {
    NextRow(im, k);
  }

  /** The offsets in a 640 by 480 image. */
  lemma VgaOffsets()
    ensures var im := Image(640, 480);
            && URow(im, 0) == 307200 && URow(im, 1) == 307520 && VRow(im, 0) == 384000 && im.End() == 460800
  {
  }

  // ---- The walks ---------------------------------------------------------------------------

  /** The encoder's call number `c`, by rows: each pointer is the row asked for, or the plane's last. */
  ghost predicate EncoderCall(im: Image, c: nat, call: Call) {
    && |call.y| == 16 && |call.u| == |call.v| == 8
    && (forall i :: 0 <= i < 16 ==> call.y[i] == YRow(im, Min(16 * c + i, im.height - 1)))
    && (forall i :: 0 <= i < 8 ==> call.u[i] == URow(im, Min(8 * c + i, im.ChromaRows() - 1)))
    && (forall i :: 0 <= i < 8 ==> call.v[i] == VRow(im, Min(8 * c + i, im.ChromaRows() - 1)))
  }

  /** The decoder's call number `c`: the row asked for, wherever that is. */
  ghost predicate DecoderCall(im: Image, c: nat, call: Call) {
    && |call.y| == 16 && |call.u| == |call.v| == 8
    && (forall i :: 0 <= i < 16 ==> call.y[i] == YRow(im, 16 * c + i))
    && (forall i :: 0 <= i < 8 ==> call.u[i] == URow(im, 8 * c + i))
    && (forall i :: 0 <= i < 8 ==> call.v[i] == VRow(im, 8 * c + i))
  }

  lemma LastRows(im: Image)
    ensures im.width * im.height - im.width == YRow(im, im.height - 1)
    ensures im.VStart() - im.Stride() == URow(im, im.ChromaRows() - 1)
    ensures im.VStart() - im.Stride() + im.Stride() * im.ChromaRows() == VRow(im, im.ChromaRows() - 1)
  {
    NextRow(im, im.height - 1);
    NextRow(im, im.ChromaRows() - 1);
  }

  method EncodeLuma(im: Image, ghost c: nat, start: int) returns (rows: seq<int>, row: int)
    requires start == YRow(im, 16 * c)
    ensures |rows| == 16 && row == YRow(im, 16 * (c + 1))
    ensures forall i :: 0 <= i < 16 ==> rows[i] == YRow(im, Min(16 * c + i, im.height - 1))
  {
    hide YRow;
    rows, row := [], start;
    var yMax := im.width * im.height - im.width;
    assert yMax == YRow(im, im.height - 1) by { LastRows(im); }
    for i := 0 to 16
      invariant |rows| == i && row == YRow(im, 16 * c + i)
      invariant forall j :: 0 <= j < i ==> rows[j] == YRow(im, Min(16 * c + j, im.height - 1))
    {
      MinOfRows(im, 16 * c + i, im.height - 1);
      NextRow(im, 16 * c + i);
      rows := rows + [Min(row, yMax)];
      row := row + im.width;
    }
  }

  method EncodeChroma(im: Image, ghost c: nat, uStart: int, vStart: int)
    returns (us: seq<int>, vs: seq<int>, u: int, v: int)
    requires uStart == URow(im, 8 * c) && vStart == VRow(im, 8 * c)
    ensures |us| == |vs| == 8 && u == URow(im, 8 * (c + 1)) && v == VRow(im, 8 * (c + 1))
    ensures forall i :: 0 <= i < 8 ==> us[i] == URow(im, Min(8 * c + i, im.ChromaRows() - 1))
    ensures forall i :: 0 <= i < 8 ==> vs[i] == VRow(im, Min(8 * c + i, im.ChromaRows() - 1))
  {
    hide URow, VRow;
    us, vs, u, v := [], [], uStart, vStart;
    var uMax := im.VStart() - im.Stride();
    var vMax := uMax + im.Stride() * im.ChromaRows();
    LastRows(im);
    for i := 0 to 8
      invariant |us| == |vs| == i && u == URow(im, 8 * c + i) && v == VRow(im, 8 * c + i)
      invariant forall j :: 0 <= j < i ==> us[j] == URow(im, Min(8 * c + j, im.ChromaRows() - 1))
      invariant forall j :: 0 <= j < i ==> vs[j] == VRow(im, Min(8 * c + j, im.ChromaRows() - 1))
    {
      MinOfRows(im, 8 * c + i, im.ChromaRows() - 1);
      NextRow(im, 8 * c + i);
      us, vs := us + [Min(u, uMax)], vs + [Min(v, vMax)];
      u, v := u + im.Stride(), v + im.Stride();
    }
  }

  lemma Origins(im: Image)
    ensures YRow(im, 0) == 0 && URow(im, 0) == im.UStart() && VRow(im, 0) == im.VStart()
  {
  }

  lemma FitsEncoder(im: Image, c: nat, ys: seq<int>, us: seq<int>, vs: seq<int>)
    requires |ys| == 16 && |us| == |vs| == 8
    requires forall i :: 0 <= i < 16 ==> ys[i] == YRow(im, Min(16 * c + i, im.height - 1))
    requires forall i :: 0 <= i < 8 ==> us[i] == URow(im, Min(8 * c + i, im.ChromaRows() - 1))
    requires forall i :: 0 <= i < 8 ==> vs[i] == VRow(im, Min(8 * c + i, im.ChromaRows() - 1))
    ensures EncoderCall(im, c, Call(ys, us, vs))
  {
  }

  /** The row-pointer loop of the encoder. */
  method EncodeWalk(im: Image) returns (calls: seq<Call>)
    ensures |calls| == CallCount(im)
    ensures forall c :: 0 <= c < |calls| ==> EncoderCall(im, c, calls[c])
  {
    hide YRow, URow, VRow, EncoderCall;
    calls := [];
    var nextScanline, y, u, v := 0, 0, im.UStart(), im.VStart();
    Origins(im);
    while nextScanline < im.height
      invariant nextScanline == 16 * |calls| && |calls| <= CallCount(im)
      invariant y == YRow(im, 16 * |calls|) && u == URow(im, 8 * |calls|) && v == VRow(im, 8 * |calls|)
      invariant forall c :: 0 <= c < |calls| ==> EncoderCall(im, c, calls[c])
    {
      ghost var c := |calls|;
      var ys, us, vs;
      ys, y := EncodeLuma(im, c, y);
      us, vs, u, v := EncodeChroma(im, c, u, v);
      assert EncoderCall(im, c, Call(ys, us, vs)) by { FitsEncoder(im, c, ys, us, vs); }
      calls := calls + [Call(ys, us, vs)];
      nextScanline := nextScanline + 16;
    }
  }

  /** The row-pointer loop of the decoder. The inner guards read the library's line count, which does not
      move between calls. */
  method DecodeWalk(im: Image) returns (calls: seq<Call>)
    ensures |calls| == CallCount(im)
    ensures forall c :: 0 <= c < |calls| ==> DecoderCall(im, c, calls[c])
  {
    hide YRow, URow, VRow;
    calls := [];
    var outputScanline, y, u, v := 0, 0, im.UStart(), im.VStart();
    Origins(im);
    while outputScanline < im.height
      invariant outputScanline == 16 * |calls| && |calls| <= CallCount(im)
      invariant y == YRow(im, 16 * |calls|) && u == URow(im, 8 * |calls|) && v == VRow(im, 8 * |calls|)
      invariant forall c :: 0 <= c < |calls| ==> DecoderCall(im, c, calls[c])
    {
      ghost var c := |calls|;
      var ys, us, vs := [], [], [];
      for i := 0 to 16
        invariant |ys| == i && y == YRow(im, 16 * c + i)
        invariant forall j :: 0 <= j < i ==> ys[j] == YRow(im, 16 * c + j)
      {
        NextRow(im, 16 * c + i);
        ys, y := ys + [y], y + im.width;
      }
      for i := 0 to 8
        invariant |us| == |vs| == i && u == URow(im, 8 * c + i) && v == VRow(im, 8 * c + i)
        invariant forall j :: 0 <= j < i ==> us[j] == URow(im, 8 * c + j) && vs[j] == VRow(im, 8 * c + j)
      {
        NextRow(im, 8 * c + i);
        us, vs := us + [u], vs + [v];
        u, v := u + im.Stride(), v + im.Stride();
      }
      calls := calls + [Call(ys, us, vs)];
      outputScanline := outputScanline + 16;
    }
  }

  // ---- What the offsets mean ---------------------------------------------------------------

  /** A whole row of a plane lies between two offsets. */
  predicate Inside(row: int, stride: nat, start: int, end: int) {
    start <= row && row + stride <= end
  }

  ghost predicate CallInPlanes(im: Image, call: Call) {
    && (forall i :: 0 <= i < |call.y| ==> Inside(call.y[i], im.width, 0, im.UStart()))
    && (forall i :: 0 <= i < |call.u| ==> Inside(call.u[i], im.Stride(), im.UStart(), im.VStart()))
    && (forall i :: 0 <= i < |call.v| ==> Inside(call.v[i], im.Stride(), im.VStart(), im.End()))
  }

  /** Rows 0 .. rows - 1 of a plane are inside it, and no others (if rows have any width). */
  lemma RowInside(stride: nat, rows: nat, start: int, k: int)
    ensures 0 <= k < rows ==> Inside(start + stride * k, stride, start, start + stride * rows)
    ensures stride > 0 && Inside(start + stride * k, stride, start, start + stride * rows) ==> 0 <= k < rows
  {
    assert stride * (k + 1) == stride * k + stride;
    if 0 <= k < rows {
      Scale(stride, 0, k);
      Scale(stride, k + 1, rows);
    } else if k < 0 {
      Scale(stride, k, -1);
      assert stride * -1 == 0 - stride;
    } else {
      Scale(stride, rows, k);
    }
  }

  lemma PlaneRows(im: Image, k: int)
    requires im.width >= 2
    ensures Inside(YRow(im, k), im.width, 0, im.UStart()) <==> 0 <= k < im.height
    ensures Inside(URow(im, k), im.Stride(), im.UStart(), im.VStart()) <==> 0 <= k < im.ChromaRows()
    ensures Inside(VRow(im, k), im.Stride(), im.VStart(), im.End()) <==> 0 <= k < im.ChromaRows()
  {
    RowInside(im.width, im.height, 0, k);
    RowInside(im.Stride(), im.ChromaRows(), im.UStart(), k);
    RowInside(im.Stride(), im.ChromaRows(), im.VStart(), k);
  }

  lemma EncoderCallInPlanes(im: Image, c: nat, call: Call)
    requires im.width >= 2 && im.height >= 2 && EncoderCall(im, c, call)
    ensures CallInPlanes(im, call)
  {
    hide URow, VRow, YRow, Inside;
    forall i | 0 <= i < 16
      ensures Inside(call.y[i], im.width, 0, im.UStart())
    {
      PlaneRows(im, Min(16 * c + i, im.height - 1));
    }
    forall i | 0 <= i < 8
      ensures Inside(call.u[i], im.Stride(), im.UStart(), im.VStart())
      ensures Inside(call.v[i], im.Stride(), im.VStart(), im.End())
    {
      PlaneRows(im, Min(8 * c + i, im.ChromaRows() - 1));
    }
  }

  /** The encoder never leaves a plane exactly when the image is at least two rows high. */
  lemma EncoderStaysInPlanes(im: Image, calls: seq<Call>)
    requires im.width >= 2 && im.height >= 1
    requires |calls| == CallCount(im) && forall c :: 0 <= c < |calls| ==> EncoderCall(im, c, calls[c])
    ensures (forall c :: 0 <= c < |calls| ==> CallInPlanes(im, calls[c])) <==> im.height >= 2
  {
    if im.height >= 2 {
      forall c | 0 <= c < |calls|
        ensures CallInPlanes(im, calls[c])
      {
        EncoderCallInPlanes(im, c, calls[c]);
      }
    } else {
      hide URow, VRow, YRow, Inside;
      assert EncoderCall(im, 0, calls[0]);
      assert calls[0].u[0] == URow(im, -1);
      PlaneRows(im, -1);
      assert !CallInPlanes(im, calls[0]);
    }
  }

  lemma DecoderIsEncoder(im: Image, c: nat, call: Call)
    requires im.height % 16 == 0 && c < CallCount(im) && DecoderCall(im, c, call)
    ensures EncoderCall(im, c, call)
  {
    hide URow, VRow, YRow;
    assert 16 * (c + 1) <= im.height && 8 * (c + 1) <= im.ChromaRows();
  }

  /** Pointer `i` of call `c` is row `k`. */
  predicate PointsAt(rows: seq<int>, i: nat, row: int) {
    i < |rows| && rows[i] == row
  }

  /** The encoder's walk points at each luma row in its turn, and at the last one ever after; so it leaves out no
      row, whatever the height. The same holds for the chroma rows, eight a call. */
  lemma EncoderCoversRows(im: Image, calls: seq<Call>, k: nat)
    requires im.width >= 2 && im.height >= 2
    requires |calls| == CallCount(im) && forall c :: 0 <= c < |calls| ==> EncoderCall(im, c, calls[c])
    ensures k < 16 * |calls| ==>
              PointsAt(calls[k / 16].y, k % 16, if k < im.height then im.width * k else im.width * (im.height - 1))
    ensures k < 8 * |calls| ==>
              var row := if k < im.height / 2 then k else im.height / 2 - 1;
              && PointsAt(calls[k / 8].u, k % 8, im.UStart() + im.width / 2 * row)
              && PointsAt(calls[k / 8].v, k % 8, im.VStart() + im.width / 2 * row)
    ensures im.height <= 16 * |calls| < im.height + 16 && im.height / 2 <= 8 * |calls|
  {
    if k < 16 * |calls| {
      assert EncoderCall(im, k / 16, calls[k / 16]);
    }
    if k < 8 * |calls| {
      assert EncoderCall(im, k / 8, calls[k / 8]);
    }
  }

  /** The decoder stays inside the planes exactly when the height is a multiple of 16, and then passes the
      very pointers the encoder passes. At any other height it hands over pointers past the luma
      plane. */
  lemma DecoderStaysInPlanesIff(im: Image, calls: seq<Call>)
    requires im.width >= 2 && im.height >= 1
    requires |calls| == CallCount(im) && forall c :: 0 <= c < |calls| ==> DecoderCall(im, c, calls[c])
    ensures (forall c :: 0 <= c < |calls| ==> CallInPlanes(im, calls[c])) <==> im.height % 16 == 0
    ensures im.height % 16 == 0 ==> forall c :: 0 <= c < |calls| ==> EncoderCall(im, c, calls[c])
  {
    if im.height % 16 == 0 {
      forall c | 0 <= c < |calls|
        ensures EncoderCall(im, c, calls[c]) && CallInPlanes(im, calls[c])
      {
        DecoderIsEncoder(im, c, calls[c]);
        EncoderCallInPlanes(im, c, calls[c]);
      }
    } else {
      hide URow, VRow, YRow, Inside;
      var c := |calls| - 1;
      assert DecoderCall(im, c, calls[c]);
      assert calls[c].y[15] == YRow(im, 16 * c + 15);
      PlaneRows(im, 16 * c + 15);
      assert !CallInPlanes(im, calls[c]);
    }
  }

  /** The failing family has members one meets: at 1080 rows the last call's pointers run past the luma plane
      from its ninth row on. */
  lemma HighDefinitionLeavesThePlane(im: Image, calls: seq<Call>)
    requires im.width >= 2 && im.height == 1080
    requires |calls| == CallCount(im) && forall c :: 0 <= c < |calls| ==> DecoderCall(im, c, calls[c])
    ensures |calls| == 68 && |calls[67].y| == 16
    ensures forall i :: 0 <= i < 16 ==> (Inside(calls[67].y[i], im.width, 0, im.UStart()) <==> i < 8)
  {
    hide URow, VRow, YRow, Inside;
    assert DecoderCall(im, 67, calls[67]);
    forall i | 0 <= i < 16
      ensures Inside(calls[67].y[i], im.width, 0, im.UStart()) <==> i < 8
    {
      PlaneRows(im, 1072 + i);
    }
  }

  /** Rows of a plane with any width start at different places. */
  lemma RowsDiffer(stride: nat, start: int, j: int, k: int)
    requires stride > 0 && start + stride * j == start + stride * k
    ensures j == k
  {
    if j < k {
      Scale(stride, j + 1, k);
    } else if k < j {
      Scale(stride, k + 1, j);
    }
  }

  /** The luma pointer of row `k` is pointer `k % 16` of call `k / 16`, and no other. */
  lemma LumaRowOnce(im: Image, calls: seq<Call>, k: nat, c: nat, i: nat)
    requires im.width >= 2 && im.height % 16 == 0 && |calls| == CallCount(im) && k < im.height && c < |calls|
    requires forall c :: 0 <= c < |calls| ==> DecoderCall(im, c, calls[c])
    ensures PointsAt(calls[c].y, i, YRow(im, k)) <==> c == k / 16 && i == k % 16
  {
    assert DecoderCall(im, c, calls[c]);
    if PointsAt(calls[c].y, i, YRow(im, k)) {
      RowsDiffer(im.width, 0, 16 * c + i, k);
    }
  }

  lemma ChromaRowOnce(im: Image, calls: seq<Call>, k: nat, c: nat, i: nat)
    requires im.width >= 2 && im.height % 16 == 0 && |calls| == CallCount(im) && k < im.ChromaRows() && c < |calls|
    requires forall c :: 0 <= c < |calls| ==> DecoderCall(im, c, calls[c])
    ensures PointsAt(calls[c].u, i, URow(im, k)) <==> c == k / 8 && i == k % 8
    ensures PointsAt(calls[c].v, i, VRow(im, k)) <==> c == k / 8 && i == k % 8
  {
    assert DecoderCall(im, c, calls[c]);
    if PointsAt(calls[c].u, i, URow(im, k)) {
      RowsDiffer(im.Stride(), im.UStart(), 8 * c + i, k);
    }
    if PointsAt(calls[c].v, i, VRow(im, k)) {
      RowsDiffer(im.Stride(), im.VStart(), 8 * c + i, k);
    }
  }

  /** At a height that is a multiple of 16 the walk points at each row of each plane exactly once, and has as
      many pointers as there are rows. */
  lemma DecoderCoversRows(im: Image, calls: seq<Call>, k: nat, c: nat, i: nat)
    requires im.width >= 2 && im.height % 16 == 0 && |calls| == CallCount(im)
    requires forall c :: 0 <= c < |calls| ==> DecoderCall(im, c, calls[c])
    ensures k < im.height ==> k / 16 < |calls|
    ensures k < im.height && c < |calls| ==> (PointsAt(calls[c].y, i, YRow(im, k)) <==> c == k / 16 && i == k % 16)
    ensures k < im.ChromaRows() ==> k / 8 < |calls|
    ensures k < im.ChromaRows() && c < |calls| ==>
              && (PointsAt(calls[c].u, i, URow(im, k)) <==> c == k / 8 && i == k % 8)
              && (PointsAt(calls[c].v, i, VRow(im, k)) <==> c == k / 8 && i == k % 8)
    ensures 16 * |calls| == im.height && 8 * |calls| == im.ChromaRows()
  {
    hide URow, VRow, YRow, DecoderCall, PointsAt;
    if k < im.height && c < |calls| {
      LumaRowOnce(im, calls, k, c, i);
    }
    if k < im.ChromaRows() && c < |calls| {
      ChromaRowOnce(im, calls, k, c, i);
    }
  }
}
