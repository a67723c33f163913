/** LoadNoise sizes its voxel buffer as `resolution * resolution * resolution`,
    evaluated in C#'s unchecked 32-bit `int` arithmetic. This module models
    that expression as written and shows where it stops being the volume of
    the texture; the rest of the model uses the unbounded length r * r * r
    (CloudNoiseGen.AssembleVolume). */
module Int32Overflow {
  import opened Engine
  import opened Volume
  import opened CloudNoiseGen

  const TwoTo31: int := 0x8000_0000
  const TwoTo32: int := 0x1_0000_0000

  /** Unchecked `int` arithmetic: keep the low 32 bits of the exact result and
      read them as a two's complement number. */
  function Wrap32(x: int): (w: int)
    ensures -TwoTo31 <= w < TwoTo31
    ensures (x - w) % TwoTo32 == 0
    ensures -TwoTo31 <= x < TwoTo31 ==> w == x
  {
    (x + TwoTo31) % TwoTo32 - TwoTo31
  }

  /** The length of `new Color[resolution * resolution * resolution]` as the
      product is evaluated: left to right, each step wrapped to 32 bits. */
  function AllocatedLengthAsWritten(resolution: int): (length: int) {
    Wrap32(Wrap32(resolution * resolution) * resolution)
  }

  /** Up to 1290 the 32-bit product is the exact volume. */
  lemma AllocatedLengthExact(resolution: nat)
    requires resolution <= 1290
    ensures AllocatedLengthAsWritten(resolution) == resolution * resolution * resolution
  {
    var r := resolution;
    MulMono(r, 1290, r);
    MulMono(r, 1290, 1290);
    assert r * r <= 1290 * 1290;
    MulMono(r * r, 1290 * 1290, r);
    MulMono(r, 1290, 1290 * 1290);
    assert r * r * r <= 1290 * 1290 * 1290;
  }

  /** At 1291 the product passes 2^31 - 1 and wraps to a negative length, which
      `new Color[...]` refuses. */
  lemma AllocatedLengthNegativeAt1291()
    ensures 1291 * 1291 * 1291 >= TwoTo31
    ensures AllocatedLengthAsWritten(1291) == 1291 * 1291 * 1291 - TwoTo32 < 0
  {
  }

  /** At 1626 the product wraps past 2^32 to a small positive length: a folder
      of 1626 slices of 1626 by 1626 pixels passes every check of LoadNoise, yet
      its pixels do not fit in the buffer the copy loop writes them into. */
  lemma AllocatedLengthTooShortAt1626(folders: map<string, seq<Slice>>, isEditor: bool, folderName: string, shade: Shader)
    ensures LoadAccepts(folders[folderName := GeneratedEntry(1626, shade)], isEditor, folderName, 1626)
    ensures AllocatedLengthAsWritten(1626) == 3975080
    ensures 0 <= AllocatedLengthAsWritten(1626) < |Flatten(GeneratedEntry(1626, shade))|
  {
    GeneratedEntryAccepted(folders, isEditor, folderName, 1626, shade);
    VolumeSize(GeneratedEntry(1626, shade), 1626);
  }
}
