/** The pixel side of `loadImage` (diffusion_image_gen.js:109-127): the canvas hands over
    a 256 x 256 RGBA byte buffer, the loop repacks it as RGB, and the tensor divides by 255. */
module ImageLoading {
  import opened Tensors

  /** Width and height of the canvas every image is drawn onto. */
  const Side: nat := 256
  const PixelCount: nat := Side * Side

  /** The RGB buffer the repacking loop leaves behind: entry `m` is channel `m % 3`
      of pixel `m / 3`, read from the four-byte group of that pixel. */
  function Repacked(data: seq<byte>): (pixels: seq<byte>)
    requires |data| == 4 * PixelCount
    ensures |pixels| == 3 * PixelCount
  {
    seq(3 * PixelCount, m requires 0 <= m < 3 * PixelCount => data[4 * (m / 3) + m % 3])
  }

  /** Channel `c` of pixel `p` in the RGB buffer is channel `c` of pixel `p` in the RGBA buffer. */
  lemma RepackedAt(data: seq<byte>, p: nat, c: nat)
    requires |data| == 4 * PixelCount && p < PixelCount && c < 3
    ensures 3 * p + c < 3 * PixelCount
    ensures Repacked(data)[3 * p + c] == data[4 * p + c]
  {
    assert (3 * p + c) / 3 == p && (3 * p + c) % 3 == c;
  }

  /** Offset `c` inside the four-byte group of pixel `p`. */
  lemma GroupOffset(p: int, c: int)
    requires 0 <= c < 4
    ensures (4 * p + c) % 4 == c && (4 * p + c) / 4 == p
  {
  }

  /** The fourth (alpha) byte of each RGBA group is never read: two buffers that
      differ only there repack to the same RGB buffer. */
  lemma AlphaByteIgnored(data: seq<byte>, other: seq<byte>)
    requires |data| == |other| == 4 * PixelCount
    requires forall i :: 0 <= i < |data| && i % 4 != 3 ==> data[i] == other[i]
    ensures Repacked(data) == Repacked(other)
  {
    forall m | 0 <= m < 3 * PixelCount
      ensures Repacked(data)[m] == Repacked(other)[m]
    {
      var p, c := m / 3, m % 3;
      GroupOffset(p, c);
    }
  }

  /** The strided copy of diffusion_image_gen.js:118-123 into a fresh Uint8Array of
      3 * 256 * 256 entries, with the two counters `i += 4` and `j += 3`. */
  method RgbaToRgb(data: seq<byte>) returns (pixels: array<byte>)
    requires |data| == 4 * PixelCount
    ensures pixels.Length == 3 * PixelCount
    ensures pixels[..] == Repacked(data)
  {
    pixels := new byte[3 * PixelCount];
    var i, j := 0, 0;
    while i < |data|
      invariant 0 <= i <= |data| && i % 4 == 0
      invariant j == 3 * (i / 4)
      invariant forall m :: 0 <= m < j ==> pixels[m] == data[4 * (m / 3) + m % 3]
    {
      pixels[j] := data[i];          // red
      pixels[j + 1] := data[i + 1];  // green
      pixels[j + 2] := data[i + 2];  // blue
      i, j := i + 4, j + 3;
    }
  }

  /** The float tensor built from the RGB bytes, divided by 255: each byte as a fraction of 255. */
  function Normalize(pixels: seq<byte>): (r: Tensor)
    ensures |r| == |pixels|
    ensures forall i :: 0 <= i < |r| ==> 0.0 <= r[i] <= 1.0 && r[i] * 255.0 == pixels[i] as real
  {
    seq(|pixels|, i requires 0 <= i < |pixels| => pixels[i] as real / 255.0)
  }

  /** The tensor `loadImage` returns for the canvas buffer `data`. */
  function LoadedImage(data: seq<byte>): Tensor
    requires |data| == 4 * PixelCount
  {
    Normalize(Repacked(data))
  }

  /** The pixel-handling part of `loadImage`: repack in place, then normalise. */
  method LoadImage(data: seq<byte>) returns (tensor: Tensor)
    requires |data| == 4 * PixelCount
    ensures tensor == LoadedImage(data)
    ensures |tensor| == 3 * PixelCount
    ensures forall m :: 0 <= m < |tensor| ==>
      0.0 <= tensor[m] <= 1.0 && tensor[m] * 255.0 == data[4 * (m / 3) + m % 3] as real
  {
    var pixels := RgbaToRgb(data);
    tensor := Normalize(pixels[..]);
  }

  /** Channel `c` of pixel `p` of the loaded tensor is the RGBA byte over 255. */
  lemma LoadedImageAt(data: seq<byte>, p: nat, c: nat)
    requires |data| == 4 * PixelCount && p < PixelCount && c < 3
    ensures 3 * p + c < |LoadedImage(data)|
    ensures LoadedImage(data)[3 * p + c] == data[4 * p + c] as real / 255.0
  {
    RepackedAt(data, p, c);
  }

  /** The RGBA pixel (10, 200, 50, 255) becomes (10/255, 200/255, 50/255); its alpha byte is dropped. */
  lemma ExamplePixel(data: seq<byte>)
    requires |data| == 4 * PixelCount && data[..4] == [10, 200, 50, 255]
    ensures LoadedImage(data)[..3] == [10.0 / 255.0, 200.0 / 255.0, 50.0 / 255.0]
  {
    LoadedImageAt(data, 0, 0);
    LoadedImageAt(data, 0, 1);
    LoadedImageAt(data, 0, 2);
    assert data[0] == 10 && data[1] == 200 && data[2] == 50;
  }
}
