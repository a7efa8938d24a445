/** `maskToImageData` of client/src/ai/utils/postprocess.js: reshape a flat
    segmentation mask of `width * height` values in [0, 1] into an RGBA byte
    buffer whose colour channels are 0 and whose alpha is the mask value
    scaled to a byte. */
module MaskImage {
  import opened JsMath

  newtype byte = x: int | 0 <= x < 256

  /** How far byte `c` lies from the integer `n`. */
  function Distance(c: byte, n: int): nat {
    if c as int <= n then n - c as int else c as int - n
  }

  /** Storing an integer into a Uint8ClampedArray: the byte nearest to it. */
  function Clamp(n: int): (b: byte)
    ensures forall c: byte :: Distance(b, n) <= Distance(c, n)
  {
    if n < 0 then 0 else if n > 255 then 255 else n as byte
  }

  /** Clamping keeps the order of its inputs. */
  lemma ClampMonotone(m: int, n: int)
    requires m <= n
    ensures Clamp(m) <= Clamp(n)
  {
  }

  /** `maskData[j + 3] = Math.round(mask[i] * 255)`. Past the end of the mask
      `mask[i]` is undefined, the product NaN, and the clamped array stores 0.
      A mask value within [0, 1] needs no clamping. */
  function Alpha(mask: seq<real>, i: nat): (a: byte)
    ensures i >= |mask| ==> a == 0
    ensures i < |mask| && 0.0 <= mask[i] <= 1.0 ==> a as int == Round(mask[i] * 255.0)
  {
    if i < |mask| then Clamp(Round(mask[i] * 255.0)) else 0
  }

  /** The byte at offset `k` of the finished buffer: only the alpha byte of a
      pixel the mask covers can be non-zero. */
  function PixelByte(mask: seq<real>, k: nat): (b: byte)
    ensures b != 0 ==> k % 4 == 3 && k / 4 < |mask|
  {
    if k % 4 == 3 then Alpha(mask, k / 4) else 0
  }

  /** Alpha maps the mask's range onto the whole byte range, monotonically:
      0 is transparent, 1 opaque, values below 0 or above 1 clamp. */
  lemma AlphaScale(x: real, y: real)
    ensures x <= 0.0 ==> Alpha([x], 0) == 0
    ensures x >= 1.0 ==> Alpha([x], 0) == 255
    ensures x <= y ==> Alpha([x], 0) <= Alpha([y], 0)
  {
    if x <= y {
      assert Round(x * 255.0) <= Round(y * 255.0);
      ClampMonotone(Round(x * 255.0), Round(y * 255.0));
    }
  }

  /** The four offsets of pixel `i`'s block and where they sit in it. */
  lemma Block(i: nat)
    ensures (4 * i) % 4 == 0 && (4 * i) / 4 == i
    ensures (4 * i + 1) % 4 == 1 && (4 * i + 2) % 4 == 2
    ensures (4 * i + 3) % 4 == 3 && (4 * i + 3) / 4 == i
  {
  }

  /** Pixel `i` reads mask entry `i` and nothing else: masks that agree there
      give it the same four bytes. */
  lemma PixelReadsOwnEntry(mask: seq<real>, mask': seq<real>, i: nat)
    requires i < |mask| && i < |mask'| && mask[i] == mask'[i]
    ensures PixelByte(mask, 4 * i) == PixelByte(mask', 4 * i) == 0
    ensures PixelByte(mask, 4 * i + 1) == PixelByte(mask', 4 * i + 1) == 0
    ensures PixelByte(mask, 4 * i + 2) == PixelByte(mask', 4 * i + 2) == 0
    ensures PixelByte(mask, 4 * i + 3) == PixelByte(mask', 4 * i + 3)
  {
    Block(i);
  }

  /** Each pixel reads its own mask entry and nothing else, and only the
      first `n` entries matter to an `n`-pixel buffer. */
  lemma OnlyOwnEntryRead(mask: seq<real>, mask': seq<real>, n: nat)
    requires n <= |mask| && n <= |mask'|
    ensures forall i :: 0 <= i < n && mask[i] == mask'[i] ==>
      && PixelByte(mask, 4 * i) == PixelByte(mask', 4 * i)
      && PixelByte(mask, 4 * i + 1) == PixelByte(mask', 4 * i + 1)
      && PixelByte(mask, 4 * i + 2) == PixelByte(mask', 4 * i + 2)
      && PixelByte(mask, 4 * i + 3) == PixelByte(mask', 4 * i + 3)
    ensures mask[..n] == mask'[..n] ==>
      forall k :: 0 <= k < 4 * n ==> PixelByte(mask, k) == PixelByte(mask', k)
  {
    forall i | 0 <= i < n && mask[i] == mask'[i]
      ensures PixelByte(mask, 4 * i + 3) == PixelByte(mask', 4 * i + 3)
      ensures PixelByte(mask, 4 * i) == PixelByte(mask', 4 * i)
      ensures PixelByte(mask, 4 * i + 1) == PixelByte(mask', 4 * i + 1)
      ensures PixelByte(mask, 4 * i + 2) == PixelByte(mask', 4 * i + 2)
    {
      PixelReadsOwnEntry(mask, mask', i);
    }
    if mask[..n] == mask'[..n] {
      forall k | 0 <= k < 4 * n
        ensures PixelByte(mask, k) == PixelByte(mask', k)
      {
        var i := k / 4;
        Tiling(n, k);
        assert mask[i] == mask[..n][i] == mask'[..n][i] == mask'[i];
      }
    }
  }

  /** Offset `k < 4n` is position `k % 4` of the block of pixel `k / 4`. */
  lemma Tiling(n: nat, k: int)
    requires 0 <= k < 4 * n
    ensures 0 <= k / 4 < n && 0 <= k % 4 < 4 && k == 4 * (k / 4) + k % 4
  {
  }

  /** `maskToImageData(mask, width, height)` up to the ImageData wrapper.
      The ghost `written` lists every offset the loop stores to, in order:
      each offset of the buffer exactly once. */
  method MaskToImageData(mask: seq<real>, width: nat, height: nat)
    returns (maskData: array<byte>, ghost written: seq<int>)
    ensures fresh(maskData)
    ensures maskData.Length == width * height * 4
    ensures forall k :: 0 <= k < maskData.Length ==> maskData[k] == PixelByte(mask, k)
    ensures written == seq(maskData.Length, k => k)
  {
    var n := width * height;
    maskData := new byte[n * 4];
    written := [];
    var i := 0;
    while i < n
      invariant 0 <= i <= n && maskData.Length == 4 * n
      invariant forall p :: 0 <= p < i ==>
        maskData[4 * p] == 0 && maskData[4 * p + 1] == 0 && maskData[4 * p + 2] == 0 &&
        maskData[4 * p + 3] == Alpha(mask, p)
      invariant written == seq(4 * i, k => k)
    {
      var j := i * 4;
      maskData[j] := 0;
      maskData[j + 1] := 0;
      maskData[j + 2] := 0;
      maskData[j + 3] := Alpha(mask, i);
      written := written + [j, j + 1, j + 2, j + 3];
      i := i + 1;
    }
    forall k | 0 <= k < maskData.Length
      ensures maskData[k] == PixelByte(mask, k)
    {
      Tiling(n, k);
      var p := k / 4;
      assert 4 * p + k % 4 == k;
    }
  }
}
