/** The static class CloudNoiseGen: loading a noise volume from its slice
    textures, generating and storing those slices, and the policy that decides
    between the two. The GPU noise shader is an opaque function from
    (resolution, slice, pixel) to a colour; `isEditor` stands for the
    UNITY_EDITOR compilation symbol. */
module CloudNoiseGen {
  import opened Engine
  import opened SliceNaming
  import opened Volume
  import opened ImportPolicy

  /** CloudNoiseGen.Mode: whether InitializeNoise may generate. */
  datatype Mode = LoadAvailableElseGenerate | LoadAvailableElseAbort | ForceGenerate

  /** The colour the noise shader renders into pixel `i` of slice `u` at a resolution. */
  type Shader = (nat, nat, nat) -> Color

  /** What Resources.LoadAll returns for a folder: its slices, or none at all. */
  function StoredSlices(folders: map<string, seq<Slice>>, folderName: string): (slices: seq<Slice>) {
    if folderName in folders then folders[folderName] else []
  }

  /** The three checks LoadNoise passes before it reads a pixel: the folder
      exists (checked in the editor only), it holds `resolution` slices, and
      every slice is `resolution` by `resolution`. */
  predicate LoadAccepts(folders: map<string, seq<Slice>>, isEditor: bool, folderName: string, resolution: int) {
    var slices := StoredSlices(folders, folderName);
    && (isEditor ==> folderName in folders)
    && |slices| == resolution
    && forall k :: 0 <= k < |slices| ==> slices[k].width == resolution && slices[k].height == resolution
  }

  /** A validated folder of `r` slices of `r` by `r` pixels flattens to `r * r * r` pixels. */
  lemma VolumeSize(slices: seq<Slice>, r: nat)
    requires |slices| == r
    requires forall k :: 0 <= k < |slices| ==> slices[k].width == r && slices[k].height == r
    ensures |Flatten(slices)| == r * r * r
  {
    assert UniformSize(slices, r * r);
    FlattenLength(slices, r * r);
  }

  /** Copying slice `k` extends the flattened prefix by its pixels and stays within the volume. */
  lemma FlattenStep(slices: seq<Slice>, k: nat)
    requires k < |slices|
    ensures Flatten(slices[..k + 1]) == Flatten(slices[..k]) + slices[k].pixels
    ensures |Flatten(slices[..k + 1])| <= |Flatten(slices)|
  {
    assert slices[..k + 1][..k] == slices[..k];
    assert slices == slices[..k + 1] + slices[k + 1..];
    FlattenConcat(slices[..k + 1], slices[k + 1..]);
  }

  /** Loads the noise volume stored in `folderName`. `noiseTexture` is the
      caller's `ref` argument: it is returned unchanged on failure. */
  method LoadNoise(folders: map<string, seq<Slice>>, isEditor: bool, noiseTexture: Option<Texture3D>, folderName: string, resolution: int)
    returns (ok: bool, texture: Option<Texture3D>)
    ensures isEditor && folderName !in folders ==> !ok
    ensures !isEditor && folderName !in folders ==> (ok <==> resolution == 0)
    ensures |StoredSlices(folders, folderName)| != resolution ==> !ok
    ensures (exists k :: 0 <= k < |StoredSlices(folders, folderName)| &&
              (StoredSlices(folders, folderName)[k].width != resolution || StoredSlices(folders, folderName)[k].height != resolution))
            ==> !ok
    ensures ok <==> LoadAccepts(folders, isEditor, folderName, resolution)
    ensures !ok ==> texture == noiseTexture
    ensures ok ==> texture == Some(Texture3D(resolution, resolution, resolution, Flatten(StoredSlices(folders, folderName))))
    ensures ok ==> |texture.value.pixels| == resolution * resolution * resolution
  {
    var validFolder := if isEditor then folderName in folders else true;
    if !validFolder {
      return false, noiseTexture;
    }

    // Reject a folder whose slice count or slice sizes differ from the resolution
    var slices := StoredSlices(folders, folderName);
    if resolution != |slices| {
      return false, noiseTexture;
    }
    var s := 0;
    while s < |slices|
      invariant 0 <= s <= |slices|
      invariant forall j :: 0 <= j < s ==> slices[j].width == resolution && slices[j].height == resolution
    {
      if resolution != slices[s].width || resolution != slices[s].height {
        return false, noiseTexture;
      }
      s := s + 1;
    }

    var r: nat := resolution;
    var colors := AssembleVolume(slices, r);
    VolumeSize(slices, r);
    return true, Some(Texture3D(r, r, r, colors));
  }

  /** The assembly part of LoadNoise: allocate `resolution`^3 colours, default
      them to white, then copy every slice's pixels in order through the
      running write index `u`. Every write is in bounds, and the array ends
      exactly full (its length is VolumeSize's). */
  method AssembleVolume(slices: seq<Slice>, resolution: nat) returns (colors: seq<Color>)
    requires |slices| == resolution
    requires forall k :: 0 <= k < |slices| ==> slices[k].width == resolution && slices[k].height == resolution
    ensures colors == Flatten(slices)
  {
    VolumeSize(slices, resolution);
    var colorArray := new Color[resolution * resolution * resolution];

    // Every voxel starts out white
    var p := 0;
    while p < colorArray.Length
      invariant 0 <= p <= colorArray.Length
      invariant forall j :: 0 <= j < p ==> colorArray[j] == White
    {
      colorArray[p] := White;
      p := p + 1;
    }

    // Copy the slices one after the other, advancing the write index u
    var u := 0;
    var k := 0;
    while k < |slices|
      invariant 0 <= k <= |slices|
      invariant u == |Flatten(slices[..k])| <= colorArray.Length
      invariant colorArray[..u] == Flatten(slices[..k])
    {
      var pixels := slices[k].pixels;
      FlattenStep(slices, k);
      ghost var copied := colorArray[..u];
      var i := 0;
      while i < |pixels|
        invariant 0 <= i <= |pixels|
        invariant u == |copied| + i <= colorArray.Length
        invariant colorArray[..u] == copied + pixels[..i]
      {
        colorArray[u] := pixels[i];
        assert colorArray[..u + 1] == colorArray[..u] + [pixels[i]];
        assert pixels[..i + 1] == pixels[..i] + [pixels[i]];
        u := u + 1;
        i := i + 1;
      }
      assert pixels[..i] == pixels;
      k := k + 1;
    }
    assert slices[..k] == slices;
    assert u == colorArray.Length;
    colors := colorArray[..];
  }

  /** Slice `u` as GenerateNoise renders and writes it: `resolution` square,
      named by its zero-padded file number. */
  function GeneratedSlice(resolution: nat, shade: Shader, u: nat): (slice: Slice) {
    Texture2D("ZSlice_" + FileNumber(u), resolution, resolution, seq(resolution * resolution, i requires 0 <= i => shade(resolution, u, i)))
  }

  /** The folder contents GenerateNoise leaves behind: slices 0 .. resolution - 1 in order. */
  function GeneratedEntry(resolution: int, shade: Shader): (entry: seq<Slice>) {
    if resolution < 0 then [] else seq(resolution, u requires 0 <= u => GeneratedSlice(resolution, shade, u))
  }

  lemma GeneratedEntryPrefix(resolution: int, shade: Shader, u: nat)
    requires u < resolution
    ensures GeneratedEntry(resolution, shade)[..u + 1] == GeneratedEntry(resolution, shade)[..u] + [GeneratedSlice(resolution, shade, u)]
  {
    var entry := GeneratedEntry(resolution, shade);
    assert entry[..u + 1] == entry[..u] + [entry[u]];
  }

  /** A load right after generating accepts the folder exactly when the
      resolution is not negative. */
  lemma GeneratedEntryAccepted(folders: map<string, seq<Slice>>, isEditor: bool, folderName: string, resolution: int, shade: Shader)
    ensures LoadAccepts(folders[folderName := GeneratedEntry(resolution, shade)], isEditor, folderName, resolution) <==> resolution >= 0
  {
  }

  /** Round trip: in the volume a load assembles from the generated folder,
      pixel `i` of layer `z` is what the shader rendered for slice `z`. */
  lemma GeneratedEntryRoundTrip(resolution: nat, shade: Shader, z: nat, i: nat)
    requires z < resolution && i < resolution * resolution
    ensures var volume := Flatten(GeneratedEntry(resolution, shade));
      z * (resolution * resolution) + i < |volume| &&
      volume[z * (resolution * resolution) + i] == shade(resolution, z, i)
  {
    var entry := GeneratedEntry(resolution, shade);
    var area := resolution * resolution;
    assert UniformSize(entry, area);
    VolumeSize(entry, resolution);
    FlattenAt(entry, area, z, i);
    assert entry[z].pixels[i] == shade(resolution, z, i);
  }

  /** One turn of GenerateNoise's write loop: append slice `u` to the folder;
      the engine gives the new file an importer with its default settings. */
  method WriteSlice(db: AssetDatabase, folderName: string, u: nat, slice: Slice, defaults: ImportSettings)
    returns (importer: TextureImporter)
    requires db.Valid() && folderName in db.folders
    modifies db
    ensures db.Valid()
    ensures db.folders == old(db.folders)[folderName := old(db.folders)[folderName] + [slice]]
    ensures db.imported == old(db.imported)
    ensures fresh(importer) && importer.Settings() == defaults
    ensures db.importers == old(db.importers)[ImporterPath(folderName, u) := importer]
  {
    db.folders := db.folders[folderName := db.folders[folderName] + [slice]];
    importer := new TextureImporter(defaults);
    db.importers := db.importers[ImporterPath(folderName, u) := importer];
  }

  /** The first half of GenerateNoise, up to the Refresh: replace the folder by freshly rendered
      slices, one per loop turn; each written file gets, when Refresh imports
      it, a new importer with the engine's default settings. */
  method WriteSlices(db: AssetDatabase, folderName: string, resolution: int, shade: Shader, defaults: ImportSettings)
    requires db.Valid()
    modifies db
    ensures db.Valid()
    ensures db.folders == old(db.folders)[folderName := GeneratedEntry(resolution, shade)]
    ensures db.imported == old(db.imported)
    ensures forall u: nat :: u < resolution ==>
      ImporterPath(folderName, u) in db.importers &&
      fresh(db.importers[ImporterPath(folderName, u)]) &&
      db.importers[ImporterPath(folderName, u)].Settings() == defaults
    ensures forall p :: p in old(db.importers) && !IsSlicePath(p, folderName, resolution) ==>
      p in db.importers && db.importers[p] == old(db.importers[p])
    ensures forall p :: p in db.importers ==> p in old(db.importers) || IsSlicePath(p, folderName, resolution)
  {
    ghost var count: nat := if resolution < 0 then 0 else resolution;
    ghost var entry := GeneratedEntry(resolution, shade);
    assert |entry| == count;
    // The old folder and its slices are gone; an empty folder takes their place
    db.folders := db.folders[folderName := []];
    ghost var created: seq<TextureImporter> := [];
    var u := 0;
    while u < resolution
      invariant 0 <= u <= count && |created| == u
      invariant db.Valid()
      invariant db.folders == old(db.folders)[folderName := entry[..u]]
      invariant db.imported == old(db.imported)
      invariant db.importers == Overlay(old(db.importers), folderName, created)
      invariant forall v :: 0 <= v < u ==> fresh(created[v]) && created[v].Settings() == defaults
    {
      // Render slice u and write it as ZSlice_<file number>.png
      var slice := GeneratedSlice(resolution, shade, u);
      GeneratedEntryPrefix(resolution, shade, u);
      var importer := WriteSlice(db, folderName, u, slice, defaults);
      assert (created + [importer])[..u] == created;
      created := created + [importer];
      u := u + 1;
    }
    assert entry[..u] == entry;
    forall p
      ensures p in db.importers <==> p in old(db.importers) || IsSlicePath(p, folderName, resolution)
      ensures p in old(db.importers) && !IsSlicePath(p, folderName, resolution) ==> db.importers[p] == old(db.importers[p])
    {
      OverlayKeeps(old(db.importers), folderName, created, p);
    }
    forall v: nat | v < resolution
      ensures ImporterPath(folderName, v) in db.importers && db.importers[ImporterPath(folderName, v)] == created[v]
    {
      OverlayAt(old(db.importers), folderName, created, v);
    }
  }

  /** The body of GenerateNoise's importer loop for one importer: force the three import flags to the canonical values and
      report whether any of them had to change. */
  method NormalizeImporter(importer: TextureImporter) returns (changed: bool)
    modifies importer
    ensures importer.Settings() == Canonical
    ensures changed <==> old(importer.Settings()) != Canonical
  {
    changed := false;
    if importer.textureCompression != Uncompressed {
      importer.textureCompression := Uncompressed;
      changed := true;
    }
    if importer.sRGBTexture != false {
      importer.sRGBTexture := false;
      changed := true;
    }
    if importer.isReadable != true {
      importer.isReadable := true;
      changed := true;
    }
  }

  /** Normalising the importer found under `path` changes the settings recorded
      under that path alone, since no other path shares the importer. */
  method NormalizeAt(db: AssetDatabase, path: string) returns (changed: bool)
    requires db.Valid() && path in db.importers
    modifies db.importers[path]
    ensures db.ImportState() == old(db.ImportState())[path := Canonical]
    ensures changed <==> old(db.ImportState())[path] != Canonical
  {
    var importer := db.importers[path];
    changed := NormalizeImporter(importer);
    forall q | q in db.importers && q != path
      ensures db.importers[q] != importer
    {
    }
  }

  /** One turn of GenerateNoise's importer loop: recompute the path of slice `u`,
      normalise its importer if there is one, and reimport the slice when
      that changed anything. `start` holds the settings before the loop and
      `log` the reimports before it. */
  method NormalizeSlice(db: AssetDatabase, folderName: string, u: nat, ghost start: map<string, ImportSettings>, ghost log: seq<string>)
    requires db.Valid()
    requires db.ImportState() == NormalizedAt(start, folderName, u)
    requires db.imported == log + PendingImports(start, folderName, u)
    modifies db`imported, if ImporterPath(folderName, u) in db.importers then {db.importers[ImporterPath(folderName, u)]} else {}
    ensures db.folders == old(db.folders) && db.importers == old(db.importers)
    ensures db.ImportState() == NormalizedAt(start, folderName, u + 1)
    ensures db.imported == log + PendingImports(start, folderName, u + 1)
  {
    NormalizedAtStep(start, db.ImportState(), folderName, u);
    var path := ImporterPath(folderName, u);
    if path in db.importers {
      var changed := NormalizeAt(db, path);
      if changed {
        db.imported := db.imported + [path];
        assert db.imported == log + (PendingImports(start, folderName, u) + [path]);
      }
    }
  }

  /** The importers GenerateNoise's importer loop can reach: those found under the
      recomputed path of one of the folder's slices. */
  ghost function SliceImporters(importers: map<string, TextureImporter>, folderName: string, resolution: int): (reachable: set<TextureImporter>) {
    set u: nat | u < resolution && ImporterPath(folderName, u) in importers :: importers[ImporterPath(folderName, u)]
  }

  /** The second half of GenerateNoise, its importer loop: for every slice, recompute its path, normalise its
      importer if there is one, and reimport it when that changed anything. */
  method ApplyImportSettings(db: AssetDatabase, folderName: string, resolution: int)
    requires db.Valid()
    modifies db`imported, SliceImporters(db.importers, folderName, resolution)
    ensures db.Valid()
    ensures db.folders == old(db.folders) && db.importers == old(db.importers)
    ensures db.ImportState() == NormalizedAt(old(db.ImportState()), folderName, resolution)
    ensures db.imported == old(db.imported) + PendingImports(old(db.ImportState()), folderName, resolution)
  {
    ghost var start := db.ImportState();
    ghost var count: nat := if resolution < 0 then 0 else resolution;
    var u := 0;
    while u < resolution
      invariant 0 <= u <= count
      invariant db.folders == old(db.folders) && db.importers == old(db.importers)
      invariant db.ImportState() == NormalizedAt(start, folderName, u)
      invariant db.imported == old(db.imported) + PendingImports(start, folderName, u)
    {
      if ImporterPath(folderName, u) in db.importers {
        assert db.importers[ImporterPath(folderName, u)] in SliceImporters(db.importers, folderName, resolution);
      }
      NormalizeSlice(db, folderName, u, start, old(db.imported));
      u := u + 1;
    }
    if resolution < 0 {
      NoSlicesBelowZero(start, folderName, resolution);
    } else {
      assert u == resolution;
    }
  }

  /** GenerateNoise: the folder is replaced by `resolution` rendered slices,
      every new slice importer ends with the canonical settings, and each new
      slice is reimported exactly when the engine's defaults were not canonical. */
  method GenerateNoise(db: AssetDatabase, folderName: string, resolution: int, shade: Shader, defaults: ImportSettings)
    requires db.Valid()
    modifies db
    ensures db.Valid()
    ensures db.folders == old(db.folders)[folderName := GeneratedEntry(resolution, shade)]
    ensures forall u: nat :: u < resolution ==>
      ImporterPath(folderName, u) in db.importers && db.importers[ImporterPath(folderName, u)].Settings() == Canonical
    ensures forall p :: p in old(db.importers) && !IsSlicePath(p, folderName, resolution) ==>
      p in db.importers && db.importers[p] == old(db.importers[p])
    ensures forall p :: p in db.importers ==> p in old(db.importers) || IsSlicePath(p, folderName, resolution)
    ensures unchanged(old(db.importers).Values)
    ensures db.imported == old(db.imported) + (if defaults == Canonical then [] else SlicePaths(folderName, resolution))
  {
    WriteSlices(db, folderName, resolution, shade, defaults);
    ghost var written := db.ImportState();
    PendingImportsUniform(written, folderName, resolution, defaults);
    ApplyImportSettings(db, folderName, resolution);
    forall u: nat | u < resolution
      ensures ImporterPath(folderName, u) in db.importers && db.importers[ImporterPath(folderName, u)].Settings() == Canonical
    {
      assert IsSlicePath(ImporterPath(folderName, u), folderName, resolution);
      assert db.ImportState()[ImporterPath(folderName, u)] == Canonical;
    }
  }

  /** InitializeNoise: load, generate when the (effective) mode asks for it,
      and reload once after generating. The ghost results record the outcome
      of each LoadNoise call in order, whether GenerateNoise was called, and whether
      the fatal error was logged. */
  method InitializeNoise(db: AssetDatabase, isEditor: bool, folderName: string, resolution: int, shade: Shader, defaults: ImportSettings,
                         mode: Mode := LoadAvailableElseGenerate)
    returns (noiseLoaded: bool, noiseTexture: Option<Texture3D>, ghost loads: seq<bool>, ghost generated: bool, ghost errorLogged: bool)
    requires db.Valid()
    modifies db
    ensures db.Valid()
    // Which mode generates
    ensures generated <==> (isEditor &&
      (mode == ForceGenerate || (mode == LoadAvailableElseGenerate && !LoadAccepts(old(db.folders), isEditor, folderName, resolution))))
    // ForceGenerate in the editor skips the first load; every other run starts with one
    ensures isEditor && mode == ForceGenerate ==> |loads| == 1
    ensures !(isEditor && mode == ForceGenerate) ==> |loads| >= 1 && loads[0] == LoadAccepts(old(db.folders), isEditor, folderName, resolution)
    // Every generation is followed by exactly one reload, and the result is that of the last load
    ensures |loads| == (if isEditor && mode == ForceGenerate then 0 else 1) + (if generated then 1 else 0)
    ensures generated ==> loads[|loads| - 1] == LoadAccepts(db.folders, isEditor, folderName, resolution)
    ensures noiseLoaded == loads[|loads| - 1]
    ensures errorLogged <==> generated && !noiseLoaded
    ensures generated ==> (noiseLoaded <==> resolution >= 0)
    // The store
    ensures generated ==> db.folders == old(db.folders)[folderName := GeneratedEntry(resolution, shade)]
    ensures generated ==> forall u: nat :: u < resolution ==>
      ImporterPath(folderName, u) in db.importers && db.importers[ImporterPath(folderName, u)].Settings() == Canonical
    ensures generated ==> forall p :: p in old(db.importers) && !IsSlicePath(p, folderName, resolution) ==>
      p in db.importers && db.importers[p] == old(db.importers[p])
    ensures generated ==> forall p :: p in db.importers ==> p in old(db.importers) || IsSlicePath(p, folderName, resolution)
    ensures generated ==> unchanged(old(db.importers).Values)
    ensures generated ==> db.imported == old(db.imported) + (if defaults == Canonical then [] else SlicePaths(folderName, resolution))
    ensures !generated ==> db.folders == old(db.folders) && db.importers == old(db.importers) && db.imported == old(db.imported)
    // The texture handed back
    ensures noiseLoaded ==> LoadAccepts(db.folders, isEditor, folderName, resolution)
    ensures noiseLoaded ==> noiseTexture == Some(Texture3D(resolution, resolution, resolution, Flatten(StoredSlices(db.folders, folderName))))
    ensures !noiseLoaded ==> noiseTexture == None
  {
    noiseTexture := None;

    // Outside the editor nothing can be generated
    var effectiveMode := mode;
    if !isEditor {
      effectiveMode := LoadAvailableElseAbort;
    }

    noiseLoaded := false;
    loads, generated, errorLogged := [], false, false;

    // First load, skipped when generation is forced
    if effectiveMode != ForceGenerate {
      noiseLoaded, noiseTexture := LoadNoise(db.folders, isEditor, noiseTexture, folderName, resolution);
      loads := loads + [noiseLoaded];
    }

    if isEditor {
      if (!noiseLoaded && effectiveMode == LoadAvailableElseGenerate) || effectiveMode == ForceGenerate {
        GenerateNoise(db, folderName, resolution, shade, defaults);
        generated := true;
        GeneratedEntryAccepted(old(db.folders), isEditor, folderName, resolution, shade);

        noiseLoaded, noiseTexture := LoadNoise(db.folders, isEditor, noiseTexture, folderName, resolution);
        loads := loads + [noiseLoaded];

        // Loading right after generating must not fail
        if !noiseLoaded {
          errorLogged := true;
        }
      }
    }
  }
}
