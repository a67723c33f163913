/** What the importer loop at the end of GenerateNoise does to the importers of
    one folder, stated on the importers' settings as values: every slice
    importer it finds ends with the canonical settings, and it reimports
    exactly the slices whose settings were not canonical yet. */
module ImportPolicy {
  import opened Engine
  import opened SliceNaming

  /** `p` is the importer path of one of slices 0 .. resolution - 1 of `folderName`. */
  ghost predicate IsSlicePath(p: string, folderName: string, resolution: int) {
    exists u: nat :: u < resolution && p == ImporterPath(folderName, u)
  }

  /** Slices 0 .. u are slices 0 .. u - 1 and slice u. */
  lemma IsSlicePathStep(p: string, folderName: string, u: nat)
    ensures IsSlicePath(p, folderName, u + 1) <==> IsSlicePath(p, folderName, u) || p == ImporterPath(folderName, u)
  {
    if IsSlicePath(p, folderName, u + 1) && p != ImporterPath(folderName, u) {
      var v: nat :| v < u + 1 && p == ImporterPath(folderName, v);
      assert v < u;
    }
    if p == ImporterPath(folderName, u) {
      assert u < u + 1;
    }
  }

  /** `m` with the importer paths of slices 0 .. |values| - 1 of the folder
      bound, in slice order, to `values`. */
  function Overlay<V>(m: map<string, V>, folderName: string, values: seq<V>): (overlaid: map<string, V>)
  {
    if values == [] then m
    else Overlay(m, folderName, values[..|values| - 1])[ImporterPath(folderName, |values| - 1) := values[|values| - 1]]
  }

  /** Overlaying adds exactly the slice paths and keeps every other binding. */
  lemma {:induction false} OverlayKeeps<V>(m: map<string, V>, folderName: string, values: seq<V>, p: string)
    ensures p in Overlay(m, folderName, values) <==> p in m || IsSlicePath(p, folderName, |values|)
    ensures p in m && !IsSlicePath(p, folderName, |values|) ==> Overlay(m, folderName, values)[p] == m[p]
  {
    if values != [] {
      var n := |values| - 1;
      OverlayKeeps(m, folderName, values[..n], p);
      IsSlicePathStep(p, folderName, n);
    }
  }

  /** The path of slice `v` is bound to the `v`-th value. */
  lemma {:induction false} OverlayAt<V>(m: map<string, V>, folderName: string, values: seq<V>, v: nat)
    requires v < |values|
    ensures ImporterPath(folderName, v) in Overlay(m, folderName, values)
    ensures Overlay(m, folderName, values)[ImporterPath(folderName, v)] == values[v]
  {
    var n := |values| - 1;
    if v < n {
      OverlayAt(m, folderName, values[..n], v);
      if ImporterPath(folderName, v) == ImporterPath(folderName, n) {
        ImporterPathInjective(folderName, v, n);
      }
    }
  }

  /** The settings after normalising every slice importer of the folder. */
  ghost function NormalizedAt(state: map<string, ImportSettings>, folderName: string, resolution: int): (normalized: map<string, ImportSettings>) {
    map p | p in state :: if IsSlicePath(p, folderName, resolution) then Canonical else state[p]
  }

  /** The asset paths the loop reimports, in slice order: those whose importer
      exists and differs from the canonical settings. */
  function PendingImports(state: map<string, ImportSettings>, folderName: string, resolution: int): (pending: seq<string>)
    decreases resolution
  {
    if resolution <= 0 then []
    else
      var p := ImporterPath(folderName, resolution - 1);
      PendingImports(state, folderName, resolution - 1)
        + (if p in state && state[p] != Canonical then [p] else [])
  }

  /** The importer paths of slices 0 .. resolution - 1, in slice order. */
  function SlicePaths(folderName: string, resolution: int): (paths: seq<string>)
    decreases resolution
  {
    if resolution <= 0 then [] else SlicePaths(folderName, resolution - 1) + [ImporterPath(folderName, resolution - 1)]
  }

  /** A negative resolution names no slice: the loop does nothing. */
  lemma NoSlicesBelowZero(state: map<string, ImportSettings>, folderName: string, resolution: int)
    requires resolution < 0
    ensures NormalizedAt(state, folderName, resolution) == NormalizedAt(state, folderName, 0) == state
    ensures PendingImports(state, folderName, resolution) == PendingImports(state, folderName, 0) == []
  {
  }

  /** One more turn of the loop: from the settings after slices 0 .. u - 1,
      normalising the importer of slice `u` (when there is one) gives the
      settings after slices 0 .. u, and that importer needs a change exactly
      when it needed one at the start. */
  lemma NormalizedAtStep(start: map<string, ImportSettings>, current: map<string, ImportSettings>, folderName: string, u: nat)
    requires current == NormalizedAt(start, folderName, u)
    ensures var path := ImporterPath(folderName, u);
      (if path in current then current[path := Canonical] else current) == NormalizedAt(start, folderName, u + 1)
    ensures var path := ImporterPath(folderName, u);
      PendingImports(start, folderName, u + 1) ==
        PendingImports(start, folderName, u) + if path in current && current[path] != Canonical then [path] else []
  {
    var path := ImporterPath(folderName, u);
    if IsSlicePath(path, folderName, u) {
      var v: nat :| v < u && path == ImporterPath(folderName, v);
      ImporterPathInjective(folderName, u, v);
    }
    forall p
      ensures IsSlicePath(p, folderName, u + 1) <==> IsSlicePath(p, folderName, u) || p == path
    {
      IsSlicePathStep(p, folderName, u);
    }
  }

  /** Every path the loop reimports is a slice path whose importer needed a change,
      and every such path is reimported. */
  lemma {:induction false} PendingImportsMembers(state: map<string, ImportSettings>, folderName: string, resolution: int, p: string)
    ensures p in PendingImports(state, folderName, resolution) <==>
      IsSlicePath(p, folderName, resolution) && p in state && state[p] != Canonical
    decreases resolution
  {
    if resolution > 0 {
      var n := resolution - 1;
      var last := ImporterPath(folderName, n);
      var tail := if last in state && state[last] != Canonical then [last] else [];
      assert PendingImports(state, folderName, resolution) == PendingImports(state, folderName, n) + tail;
      PendingImportsMembers(state, folderName, n, p);
      if p in PendingImports(state, folderName, n) {
        var v: nat :| v < n && p == ImporterPath(folderName, v);
        assert IsSlicePath(p, folderName, resolution);
      } else if p == last {
        assert IsSlicePath(p, folderName, resolution);
      }
      if IsSlicePath(p, folderName, resolution) && p != last {
        var v: nat :| v < resolution && p == ImporterPath(folderName, v);
        assert v != n;
        assert IsSlicePath(p, folderName, n);
      }
    }
  }

  /** When every slice importer already has the canonical settings, nothing is reimported. */
  lemma {:induction false} NothingPendingWhenCanonical(state: map<string, ImportSettings>, folderName: string, resolution: int)
    requires forall u: nat :: u < resolution && ImporterPath(folderName, u) in state ==> state[ImporterPath(folderName, u)] == Canonical
    ensures PendingImports(state, folderName, resolution) == []
    decreases resolution
  {
    if resolution > 0 {
      NothingPendingWhenCanonical(state, folderName, resolution - 1);
    }
  }

  /** Normalisation is idempotent: a second pass over the same folder changes
      no setting and reimports nothing. */
  lemma SecondPassChangesNothing(state: map<string, ImportSettings>, folderName: string, resolution: int)
    ensures NormalizedAt(NormalizedAt(state, folderName, resolution), folderName, resolution) == NormalizedAt(state, folderName, resolution)
    ensures PendingImports(NormalizedAt(state, folderName, resolution), folderName, resolution) == []
  {
    var after := NormalizedAt(state, folderName, resolution);
    forall u: nat | u < resolution && ImporterPath(folderName, u) in after
      ensures after[ImporterPath(folderName, u)] == Canonical
    {
      assert IsSlicePath(ImporterPath(folderName, u), folderName, resolution);
    }
    NothingPendingWhenCanonical(after, folderName, resolution);
  }

  /** When every slice importer starts from the same settings, the loop
      reimports either no slice or every slice, in slice order. */
  lemma {:induction false} PendingImportsUniform(state: map<string, ImportSettings>, folderName: string, resolution: int, initial: ImportSettings)
    requires forall u: nat :: u < resolution ==> ImporterPath(folderName, u) in state && state[ImporterPath(folderName, u)] == initial
    ensures PendingImports(state, folderName, resolution) == if initial == Canonical then [] else SlicePaths(folderName, resolution)
    decreases resolution
  {
    if resolution > 0 {
      PendingImportsUniform(state, folderName, resolution - 1, initial);
    }
  }
}
