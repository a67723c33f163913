/** The layout of an assembled noise volume: the slices' pixel arrays laid
    end to end, slice 0 first, as LoadNoise copies them into one array. */
module Volume {
  import opened Engine

  /** The pixels of all slices, concatenated in slice order. */
  function Flatten(slices: seq<Slice>): (pixels: seq<Color>) {
    if slices == [] then [] else Flatten(slices[..|slices| - 1]) + slices[|slices| - 1].pixels
  }

  /** Every slice holds exactly `n` pixels. */
  predicate UniformSize(slices: seq<Slice>, n: nat) {
    forall k :: 0 <= k < |slices| ==> |slices[k].pixels| == n
  }

  /** Flattening distributes over concatenation of slice sequences. */
  lemma {:induction false} FlattenConcat(a: seq<Slice>, b: seq<Slice>)
    ensures Flatten(a + b) == Flatten(a) + Flatten(b)
    decreases |b|
  {
    if b == [] {
      assert a + b == a;
    } else {
      var m := |b| - 1;
      assert (a + b)[..|a + b| - 1] == a + b[..m];
      FlattenConcat(a, b[..m]);
    }
  }

  lemma MulMono(a: nat, b: nat, n: nat)
    requires a <= b
    ensures a * n <= b * n
  {
    assert b * n == a * n + (b - a) * n;
  }

  lemma {:induction false} FlattenLength(slices: seq<Slice>, n: nat)
    requires UniformSize(slices, n)
    ensures |Flatten(slices)| == |slices| * n
  {
    if slices != [] {
      var m := |slices| - 1;
      FlattenLength(slices[..m], n);
      assert |slices| * n == m * n + n;
    }
  }

  /** Element `k * n + i` of the volume is pixel `i` of slice `k`. */
  lemma {:induction false} FlattenAt(slices: seq<Slice>, n: nat, k: nat, i: nat)
    requires UniformSize(slices, n)
    requires k < |slices| && i < n
    ensures k * n + i < |Flatten(slices)|
    ensures Flatten(slices)[k * n + i] == slices[k].pixels[i]
  {
    var m := |slices| - 1;
    var front := slices[..m];
    FlattenLength(front, n);
    FlattenLength(slices, n);
    assert |slices| * n == m * n + n;
    if k == m {
      assert Flatten(slices) == Flatten(front) + slices[m].pixels;
    } else {
      FlattenAt(front, n, k, i);
      MulMono(k + 1, m, n);
      assert (k + 1) * n == k * n + n;
    }
  }

  /** The volume of side `r` read as Texture3D.SetPixels does (x fastest, then
      y, then z): voxel (x, y, z) is pixel (x, y) of slice z. */
  lemma VoxelAt(slices: seq<Slice>, r: nat, x: nat, y: nat, z: nat)
    requires |slices| == r
    requires forall k :: 0 <= k < r ==> slices[k].width == r && slices[k].height == r
    requires x < r && y < r && z < r
    ensures x + y * r < r * r && x + y * r + z * (r * r) < |Flatten(slices)| &&
      Flatten(slices)[x + y * r + z * (r * r)] == slices[z].pixels[x + y * r]
  {
    assert UniformSize(slices, r * r);
    MulMono(y + 1, r, r);
    assert (y + 1) * r == y * r + r;
    FlattenAt(slices, r * r, z, x + y * r);
  }
}
