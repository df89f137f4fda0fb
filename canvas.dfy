/**
 * The accumulation buffer a render pass draws into: a height x width x 3
 * array of colour channels (row-major, as ndarray's standard layout stores
 * it) plus a counter of how many passes have been summed into it.
 */
module Canvases {
  import opened Vectors

  newtype byte = b: int | 0 <= b < 256

  datatype RgbPixel = RgbPixel(r: byte, g: byte, b: byte)

  /** The contents of a canvas, as a value. */
  datatype CanvasValue = CanvasValue(height: nat, width: nat, data: seq<real>, layers: nat)

  predicate Shaped(v: CanvasValue) {
    |v.data| == v.height * v.width * 3
  }

  predicate SameShape(a: CanvasValue, b: CanvasValue) {
    Shaped(a) && Shaped(b) && a.height == b.height && a.width == b.width
  }

  /** Position of the pixel at row `j`, column `i` in row-major order. */
  function PixelIndex(width: nat, i: nat, j: nat): nat {
    j * width + i
  }

  /** Index of channel 0 of the pixel at row `j`, column `i`. */
  function Offset(width: nat, i: nat, j: nat): nat {
    3 * PixelIndex(width, i, j)
  }

  lemma OffsetInside(height: nat, width: nat, i: nat, j: nat)
    requires i < width && j < height
    ensures Offset(width, i, j) + 3 <= height * width * 3
    ensures PixelIndex(width, i, j) < height * width
  {
    assert j * width + i < (j + 1) * width;
    assert (j + 1) * width <= height * width by {
      assert j + 1 <= height;
    }
  }

  lemma OffsetsApart(width: nat, i: nat, j: nat, i2: nat, j2: nat)
    requires i < width && i2 < width && (i != i2 || j != j2)
    ensures Offset(width, i, j) + 3 <= Offset(width, i2, j2) || Offset(width, i2, j2) + 3 <= Offset(width, i, j)
  {
    if j < j2 {
      assert j * width + i < (j + 1) * width <= j2 * width;
    } else if j2 < j {
      assert j2 * width + i2 < (j2 + 1) * width <= j * width;
    }
  }

  lemma ChannelsPerPixel(v: CanvasValue)
    requires Shaped(v)
    ensures |v.data| % 3 == 0 && |v.data| / 3 == v.height * v.width
  {
    var n := v.height * v.width;
    assert |v.data| == 3 * n;
  }

  /** The colour stored at row `j`, column `i`. */
  function PixelAt(v: CanvasValue, i: nat, j: nat): Vec3
    requires Shaped(v) && i < v.width && j < v.height
  {
    OffsetInside(v.height, v.width, i, j);
    var o := Offset(v.width, i, j);
    Vec3(v.data[o], v.data[o + 1], v.data[o + 2])
  }

  /** `Canvas::new_initialized`: an all-zero buffer that holds no pass yet. */
  function Zero(height: nat, width: nat): (v: CanvasValue)
    ensures Shaped(v) && v.height == height && v.width == width && v.layers == 0
    ensures forall k :: 0 <= k < |v.data| ==> v.data[k] == 0.0
  {
    CanvasValue(height, width, seq(height * width * 3, _ => 0.0), 0)
  }

  /** `set_pixel`: the three channels of one pixel are overwritten, nothing else. */
  function SetPixelValue(v: CanvasValue, i: nat, j: nat, color: Vec3): (r: CanvasValue)
    requires Shaped(v) && i < v.width && j < v.height
    ensures Shaped(r) && r.height == v.height && r.width == v.width
    ensures r.layers == if v.layers == 0 then 1 else v.layers
    ensures Offset(v.width, i, j) + 3 <= |r.data|
    ensures r.data[Offset(v.width, i, j)] == color.x
    ensures r.data[Offset(v.width, i, j) + 1] == color.y
    ensures r.data[Offset(v.width, i, j) + 2] == color.z
    ensures forall k :: 0 <= k < |v.data| && !(Offset(v.width, i, j) <= k < Offset(v.width, i, j) + 3) ==> r.data[k] == v.data[k]
  {
    OffsetInside(v.height, v.width, i, j);
    var o := Offset(v.width, i, j);
    v.(data := v.data[o := color.x][o + 1 := color.y][o + 2 := color.z],
       layers := if v.layers == 0 then 1 else v.layers)
  }

  /** Writing a pixel changes that pixel to the colour and leaves every other pixel as it was. */
  lemma SetPixelOnlyThatPixel(v: CanvasValue, i: nat, j: nat, color: Vec3, i2: nat, j2: nat)
    requires Shaped(v) && i < v.width && j < v.height && i2 < v.width && j2 < v.height
    ensures PixelAt(SetPixelValue(v, i, j, color), i2, j2) == if i2 == i && j2 == j then color else PixelAt(v, i2, j2)
  {
    OffsetInside(v.height, v.width, i2, j2);
    if i2 != i || j2 != j {
      OffsetsApart(v.width, i, j, i2, j2);
    }
  }

  /** `normalize`: when more than one pass is summed, divide by their number. */
  function NormalizeValue(v: CanvasValue): (r: CanvasValue)
    ensures r.height == v.height && r.width == v.width && |r.data| == |v.data|
    ensures v.layers <= 1 ==> r == v
    ensures v.layers > 1 ==> r.layers == 1 && forall k :: 0 <= k < |v.data| ==> r.data[k] * (v.layers as real) == v.data[k]
  {
    if v.layers > 1 then
      v.(data := seq(|v.data|, k requires 0 <= k < |v.data| => v.data[k] / (v.layers as real)), layers := 1)
    else
      v
  }

  lemma NormalizeIdempotent(v: CanvasValue)
    ensures NormalizeValue(NormalizeValue(v)) == NormalizeValue(v)
  {
  }

  /** `gamma_correction`: the square root of every channel; `layers` is kept. */
  function GammaValue(v: CanvasValue, sqrt: real -> real): (r: CanvasValue)
    ensures r.height == v.height && r.width == v.width && r.layers == v.layers && |r.data| == |v.data|
    ensures forall k :: 0 <= k < |v.data| ==> r.data[k] == sqrt(v.data[k])
  {
    v.(data := seq(|v.data|, k requires 0 <= k < |v.data| => sqrt(v.data[k])))
  }

  /** Applying the gamma correction twice differs from applying it once. */
  lemma GammaNotIdempotent(m: Maths)
    requires SqrtLaw(m)
    ensures var v := CanvasValue(1, 1, [4.0, 4.0, 4.0], 1);
            GammaValue(GammaValue(v, m.sqrt), m.sqrt) != GammaValue(v, m.sqrt)
  {
    var v := CanvasValue(1, 1, [4.0, 4.0, 4.0], 1);
    var once := GammaValue(v, m.sqrt);
    var s := m.sqrt(4.0);
    assert once.data[0] == s;
    assert s * s == 4.0;
    var t := m.sqrt(s);
    assert t * t == s;
    assert t != s;
    assert GammaValue(once, m.sqrt).data[0] == t;
  }

  /** `Add`: element-wise sum with the layer counts added; dimensions are the left operand's. */
  function AddValue(a: CanvasValue, b: CanvasValue): (r: CanvasValue)
    requires SameShape(a, b)
    ensures SameShape(r, a) && r.layers == a.layers + b.layers
    ensures forall k :: 0 <= k < |a.data| ==> r.data[k] == a.data[k] + b.data[k]
  {
    a.(data := seq(|a.data|, k requires 0 <= k < |a.data| => a.data[k] + b.data[k]), layers := a.layers + b.layers)
  }

  lemma AddCommutative(a: CanvasValue, b: CanvasValue)
    requires SameShape(a, b)
    ensures AddValue(a, b) == AddValue(b, a)
  {
    assert AddValue(a, b).data == AddValue(b, a).data;
  }

  lemma AddAssociative(a: CanvasValue, b: CanvasValue, c: CanvasValue)
    requires SameShape(a, b) && SameShape(b, c)
    ensures AddValue(AddValue(a, b), c) == AddValue(a, AddValue(b, c))
  {
    assert AddValue(AddValue(a, b), c).data == AddValue(a, AddValue(b, c)).data;
  }

  /** Every canvas in `passes` has the given dimensions. */
  predicate AllShaped(height: nat, width: nat, passes: seq<CanvasValue>) {
    forall k :: 0 <= k < |passes| ==> Shaped(passes[k]) && passes[k].height == height && passes[k].width == width
  }

  function LayerSum(passes: seq<CanvasValue>): nat {
    if |passes| == 0 then 0 else passes[0].layers + LayerSum(passes[1..])
  }

  function ChannelSum(passes: seq<CanvasValue>, k: nat): real
    requires forall q :: 0 <= q < |passes| ==> k < |passes[q].data|
  {
    if |passes| == 0 then 0.0 else passes[0].data[k] + ChannelSum(passes[1..], k)
  }

  /** Adding the passes one after another into `acc`, left to right. */
  function Accumulate(acc: CanvasValue, passes: seq<CanvasValue>): (r: CanvasValue)
    requires Shaped(acc) && AllShaped(acc.height, acc.width, passes)
    ensures SameShape(r, acc) && r.layers == acc.layers + LayerSum(passes)
    ensures forall k :: 0 <= k < |acc.data| ==> r.data[k] == acc.data[k] + ChannelSum(passes, k)
    decreases |passes|
  {
    if |passes| == 0 then acc else Accumulate(AddValue(acc, passes[0]), passes[1..])
  }

  lemma AccumulateAppend(acc: CanvasValue, xs: seq<CanvasValue>, ys: seq<CanvasValue>)
    requires Shaped(acc) && AllShaped(acc.height, acc.width, xs) && AllShaped(acc.height, acc.width, ys)
    ensures AllShaped(acc.height, acc.width, xs + ys)
    ensures Accumulate(acc, xs + ys) == Accumulate(Accumulate(acc, xs), ys)
    decreases |xs|
  {
    if |xs| == 0 {
      assert xs + ys == ys;
    } else {
      assert (xs + ys)[0] == xs[0];
      assert (xs + ys)[1..] == xs[1..] + ys;
      AccumulateAppend(AddValue(acc, xs[0]), xs[1..], ys);
    }
  }

  lemma AddSwap(a: CanvasValue, x: CanvasValue, y: CanvasValue)
    requires SameShape(a, x) && SameShape(a, y)
    ensures AddValue(AddValue(a, x), y) == AddValue(AddValue(a, y), x)
  {
    assert AddValue(AddValue(a, x), y).data == AddValue(AddValue(a, y), x).data;
  }

  lemma AccumulateAddFirst(acc: CanvasValue, xs: seq<CanvasValue>, x: CanvasValue)
    requires Shaped(acc) && AllShaped(acc.height, acc.width, xs) && SameShape(acc, x)
    ensures Accumulate(AddValue(acc, x), xs) == AddValue(Accumulate(acc, xs), x)
    decreases |xs|
  {
    if |xs| > 0 {
      AddSwap(acc, x, xs[0]);
      AccumulateAddFirst(AddValue(acc, xs[0]), xs[1..], x);
    }
  }

  /** Adding `p` between `front` and `back` is adding it at the end. */
  lemma AccumulateMiddle(acc: CanvasValue, front: seq<CanvasValue>, p: CanvasValue, back: seq<CanvasValue>)
    requires Shaped(acc) && AllShaped(acc.height, acc.width, front) && AllShaped(acc.height, acc.width, back)
    requires SameShape(acc, p)
    ensures AllShaped(acc.height, acc.width, front + [p] + back)
    ensures AllShaped(acc.height, acc.width, front + back)
    ensures Accumulate(acc, front + [p] + back) == AddValue(Accumulate(acc, front + back), p)
  {
    AccumulateAppend(acc, front, [p]);
    AccumulateAppend(acc, front + [p], back);
    AccumulateAddFirst(Accumulate(acc, front), back, p);
    AccumulateAppend(acc, front, back);
  }

  /** Where the first element of `ps` sits in a permutation `qs` of it. */
  lemma SplitAtFirst<T>(ps: seq<T>, qs: seq<T>) returns (front: seq<T>, back: seq<T>)
    requires |ps| > 0 && multiset(ps) == multiset(qs)
    ensures qs == front + [ps[0]] + back
    ensures multiset(ps[1..]) == multiset(front + back)
  {
    var p := ps[0];
    assert p in multiset(qs);
    var k :| 0 <= k < |qs| && qs[k] == p;
    front, back := qs[..k], qs[k + 1..];
    assert qs == front + [p] + back;
    assert ps == [p] + ps[1..];
    assert multiset(ps) == multiset{p} + multiset(ps[1..]);
    assert multiset(qs) == multiset(front) + multiset{p} + multiset(back);
    assert multiset(front + back) == multiset(front) + multiset(back);
    calc {
      multiset(ps[1..]);
      multiset(ps) - multiset{p};
      multiset(qs) - multiset{p};
      multiset(front + back);
    }
  }

  /** Summing passes gives the same canvas whatever order they arrive in. */
  lemma {:induction false} AccumulateOrderIrrelevant(acc: CanvasValue, ps: seq<CanvasValue>, qs: seq<CanvasValue>)
    requires Shaped(acc) && AllShaped(acc.height, acc.width, ps) && AllShaped(acc.height, acc.width, qs)
    requires multiset(ps) == multiset(qs)
    ensures Accumulate(acc, ps) == Accumulate(acc, qs)
    decreases |ps|
  {
    if |ps| == 0 {
      assert |qs| == |multiset(qs)| == 0;
    } else {
      var p := ps[0];
      var front, back := SplitAtFirst(ps, qs);
      assert AllShaped(acc.height, acc.width, front) && AllShaped(acc.height, acc.width, back) by {
        forall x | 0 <= x < |front| ensures front[x] == qs[x] { }
        forall x | 0 <= x < |back| ensures back[x] == qs[|front| + 1 + x] { }
      }
      AccumulateMiddle(acc, front, p, back);
      AccumulateOrderIrrelevant(acc, ps[1..], front + back);
      AccumulateAddFirst(acc, ps[1..], p);
    }
  }

  /** `f32::clamp(x, 0.0, 0.999)`. */
  function Clamp(x: real): (r: real)
    ensures 0.0 <= r <= 0.999
    ensures 0.0 <= x <= 0.999 ==> r == x
  {
    if x < 0.0 then 0.0 else if x > 0.999 then 0.999 else x
  }

  /** A channel value in [0, 1] as a byte: `(256 * clamp(x, 0, 0.999)) as u8`. */
  function Quantize(x: real): (q: byte)
    ensures x <= 0.0 ==> q == 0
    ensures x >= 0.999 ==> q == 255
    ensures q as real <= 256.0 * Clamp(x) < q as real + 1.0
  {
    (256.0 * Clamp(x)).Floor as byte
  }

  /** The older quantiser `(256 * min(0.999, max(0, x))) as u8`. */
  function QuantizeLegacy(x: real): (q: byte)
    ensures q == Quantize(x)
  {
    (256.0 * Min(0.999, Max(0.0, x))).Floor as byte
  }

  function QuantizePixel(c: Vec3): RgbPixel {
    RgbPixel(Quantize(c.x), Quantize(c.y), Quantize(c.z))
  }

  /** `get_pixels`: the buffer cut into chunks of three channels, each quantised. */
  function Pixels(data: seq<real>): (ps: seq<RgbPixel>)
    requires |data| % 3 == 0
    ensures |ps| == |data| / 3
    decreases |data|
  {
    if |data| == 0 then [] else [RgbPixel(Quantize(data[0]), Quantize(data[1]), Quantize(data[2]))] + Pixels(data[3..])
  }

  /** `get_pixels` of the older canvas, with its own quantiser. */
  function LegacyPixels(data: seq<real>): (ps: seq<RgbPixel>)
    requires |data| % 3 == 0
    decreases |data|
  {
    if |data| == 0 then []
    else [RgbPixel(QuantizeLegacy(data[0]), QuantizeLegacy(data[1]), QuantizeLegacy(data[2]))] + LegacyPixels(data[3..])
  }

  lemma {:induction false} LegacyPixelsAgree(data: seq<real>)
    requires |data| % 3 == 0
    ensures LegacyPixels(data) == Pixels(data)
    decreases |data|
  {
    if |data| > 0 {
      LegacyPixelsAgree(data[3..]);
    }
  }

  lemma {:induction false} PixelsAt(data: seq<real>, p: nat)
    requires |data| % 3 == 0 && p < |data| / 3
    ensures Pixels(data)[p] == RgbPixel(Quantize(data[3 * p]), Quantize(data[3 * p + 1]), Quantize(data[3 * p + 2]))
    decreases p
  {
    if p > 0 {
      PixelsAt(data[3..], p - 1);
    }
  }

  /** Pixel number `j * width + i` of `get_pixels` is the quantised colour at row `j`, column `i`. */
  lemma PixelsRowMajor(v: CanvasValue, i: nat, j: nat)
    requires Shaped(v) && i < v.width && j < v.height
    ensures |Pixels(v.data)| == v.height * v.width
    ensures PixelIndex(v.width, i, j) < |Pixels(v.data)|
    ensures Pixels(v.data)[PixelIndex(v.width, i, j)] == QuantizePixel(PixelAt(v, i, j))
  {
    ChannelsPerPixel(v);
    OffsetInside(v.height, v.width, i, j);
    PixelsAt(v.data, PixelIndex(v.width, i, j));
  }

  /** Every pixel of `get_pixels`, in row-major order. */
  lemma AllPixelsRowMajor(v: CanvasValue)
    requires Shaped(v)
    ensures |Pixels(v.data)| == v.width * v.height
    ensures forall i: nat, j: nat :: i < v.width && j < v.height ==>
      PixelIndex(v.width, i, j) < |Pixels(v.data)| && Pixels(v.data)[PixelIndex(v.width, i, j)] == QuantizePixel(PixelAt(v, i, j))
  {
    ChannelsPerPixel(v);
    forall i: nat, j: nat | i < v.width && j < v.height
      ensures PixelIndex(v.width, i, j) < |Pixels(v.data)| && Pixels(v.data)[PixelIndex(v.width, i, j)] == QuantizePixel(PixelAt(v, i, j))
    {
      PixelsRowMajor(v, i, j);
    }
  }

  function QuantizeAll(s: seq<real>): (q: seq<byte>)
    ensures |q| == |s|
  {
    seq(|s|, k requires 0 <= k < |s| => Quantize(s[k]))
  }

  /** `write_rgba_to_buffer`: every chunk of up to three channels, quantised, followed by alpha 255. */
  function Rgba(data: seq<real>): seq<byte>
    decreases |data|
  {
    if |data| == 0 then []
    else
      var n := if |data| < 3 then |data| else 3;
      QuantizeAll(data[..n]) + [255] + Rgba(data[n..])
  }

  /** The RGBA bytes are the pixels of `get_pixels`, each followed by an opaque alpha byte. */
  lemma {:induction false} RgbaMatchesPixels(data: seq<real>)
    requires |data| % 3 == 0
    ensures |Rgba(data)| == 4 * (|data| / 3)
    ensures forall p :: 0 <= p < |data| / 3 ==> RgbaPixelAt(data, p)
    decreases |data|
  {
    if |data| > 0 {
      var rest := data[3..];
      RgbaMatchesPixels(rest);
      var head := QuantizeAll(data[..3]) + [255];
      assert Rgba(data) == head + Rgba(rest);
      forall p | 0 <= p < |data| / 3
        ensures RgbaPixelAt(data, p)
      {
        if p > 0 {
          assert RgbaPixelAt(rest, p - 1);
          assert Pixels(data)[p] == Pixels(rest)[p - 1];
          ShiftedQuad(head, Rgba(rest), p);
        }
      }
    }
  }

  /** Four RGBA bytes starting at `4 * p` are pixel `p` of `get_pixels` and an opaque alpha. */
  predicate RgbaPixelAt(data: seq<real>, p: nat)
    requires |data| % 3 == 0 && p < |data| / 3
  {
    4 * p + 3 < |Rgba(data)| &&
    Rgba(data)[4 * p] == Pixels(data)[p].r && Rgba(data)[4 * p + 1] == Pixels(data)[p].g &&
    Rgba(data)[4 * p + 2] == Pixels(data)[p].b && Rgba(data)[4 * p + 3] == 255
  }

  lemma ShiftedQuad(head: seq<byte>, tail: seq<byte>, p: nat)
    requires |head| == 4 && 0 < p && 4 * p + 3 < |head| + |tail|
    ensures (head + tail)[4 * p] == tail[4 * (p - 1)] && (head + tail)[4 * p + 1] == tail[4 * (p - 1) + 1]
    ensures (head + tail)[4 * p + 2] == tail[4 * (p - 1) + 2] && (head + tail)[4 * p + 3] == tail[4 * (p - 1) + 3]
  {
  }

  /** A byte buffer owned by the caller of `write_rgba_to_buffer`. */
  class ByteBuffer {
    var bytes: seq<byte>

    constructor ()
      ensures bytes == []
    {
      bytes := [];
    }
  }

  /**
   * `Canvas` (both the library canvas and its older copy): a flat
   * row-major buffer of `height * width * 3` channels and the number of
   * passes summed into it.
   */
  class Canvas {
    const height: nat
    const width: nat
    const data: array<real>
    var layers: nat

    ghost predicate Valid()
      reads this
    {
      data.Length == height * width * 3
    }

    function Value(): CanvasValue
      reads this, data
    {
      CanvasValue(height, width, data[..], layers)
    }

    constructor NewInitialized(height: nat, width: nat)
      ensures Valid() && fresh(data) && Value() == Zero(height, width)
    {
      this.height := height;
      this.width := width;
      data := new real[height * width * 3](_ => 0.0);
      layers := 0;
      new;
      assert data[..] == Zero(height, width).data;
    }

    /** A canvas holding the given value, as produced by `Add` on two canvases. */
    constructor FromValue(v: CanvasValue)
      requires Shaped(v)
      ensures Valid() && fresh(data) && Value() == v
    {
      height := v.height;
      width := v.width;
      data := new real[|v.data|](k requires 0 <= k < |v.data| => v.data[k]);
      layers := v.layers;
      new;
      assert data[..] == v.data;
    }

    method SetPixel(i: nat, j: nat, color: Vec3)
      requires Valid() && i < width && j < height
      modifies this, data
      ensures Valid()
      ensures Value() == SetPixelValue(old(Value()), i, j, color)
    {
      if layers == 0 {
        layers := 1;
      }
      OffsetInside(height, width, i, j);
      var o := 3 * (j * width + i);
      data[o] := color.x;
      data[o + 1] := color.y;
      data[o + 2] := color.z;
      assert data[..] == SetPixelValue(old(Value()), i, j, color).data;
    }

    method GammaCorrection(sqrt: real -> real)
      requires Valid()
      modifies data
      ensures Valid()
      ensures Value() == GammaValue(old(Value()), sqrt)
    {
      var k := 0;
      while k < data.Length
        invariant 0 <= k <= data.Length
        invariant forall q :: 0 <= q < k ==> data[q] == sqrt(old(data[q]))
        invariant forall q :: k <= q < data.Length ==> data[q] == old(data[q])
      {
        data[k] := sqrt(data[k]);
        k := k + 1;
      }
      assert data[..] == GammaValue(old(Value()), sqrt).data;
    }

    method Normalize()
      requires Valid()
      modifies this, data
      ensures Valid()
      ensures Value() == NormalizeValue(old(Value()))
    {
      if layers > 1 {
        var n := layers as real;
        var k := 0;
        while k < data.Length
          invariant 0 <= k <= data.Length
          invariant forall q :: 0 <= q < k ==> data[q] == old(data[q]) / n
          invariant forall q :: k <= q < data.Length ==> data[q] == old(data[q])
        {
          data[k] := data[k] / n;
          k := k + 1;
        }
        layers := 1;
        assert data[..] == NormalizeValue(old(Value())).data;
      }
    }

    /** `+=`: add another pass, moved in as a value, channel by channel. */
    method AddAssign(other: CanvasValue)
      requires Valid() && Shaped(other) && other.height == height && other.width == width
      modifies this, data
      ensures Valid()
      ensures Value() == AddValue(old(Value()), other)
    {
      var k := 0;
      while k < data.Length
        invariant 0 <= k <= data.Length
        invariant layers == old(layers)
        invariant forall q :: 0 <= q < k ==> data[q] == old(data[q]) + other.data[q]
        invariant forall q :: k <= q < data.Length ==> data[q] == old(data[q])
      {
        data[k] := data[k] + other.data[k];
        k := k + 1;
      }
      layers := layers + other.layers;
      assert data[..] == AddValue(old(Value()), other).data;
    }

    method Clone() returns (c: Canvas)
      requires Valid()
      ensures fresh(c) && fresh(c.data) && c.Valid() && c.Value() == Value()
    {
      c := new Canvas.NewInitialized(height, width);
      forall k | 0 <= k < data.Length {
        c.data[k] := data[k];
      }
      c.layers := layers;
      assert c.data[..] == data[..];
    }

    /** `get_dim`: width first, then height. */
    function GetDim(): (dims: (nat, nat))
      reads this
      ensures dims == (width, height)
    {
      (width, height)
    }

    /** `get_pixels`: `width * height` pixels in row-major order. */
    function GetPixels(): (ps: seq<RgbPixel>)
      requires Valid()
      reads this, data
      ensures |ps| == GetDim().0 * GetDim().1
      ensures forall i: nat, j: nat :: i < width && j < height ==>
        PixelIndex(width, i, j) < |ps| && ps[PixelIndex(width, i, j)] == QuantizePixel(PixelAt(Value(), i, j))
    {
      AllPixelsRowMajor(Value());
      Pixels(data[..])
    }

    method WriteRgbaToBuffer(buf: ByteBuffer)
      requires Valid()
      modifies buf
      ensures buf.bytes == Rgba(data[..])
      ensures |buf.bytes| == 4 * (height * width)
    {
      ChannelsPerPixel(Value());
      RgbaMatchesPixels(data[..]);
      buf.bytes := Rgba(data[..]);
    }
  }
}
