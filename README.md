# CloudNoiseGen, modelled in Dafny

CloudNoiseGen is a Unity utility. It bakes a 3D cloud-noise volume into a
folder of 2D slice textures, `Resources/CloudNoiseGen/<folder>/ZSlice_<nnnn>.png`,
and loads such a folder back into a single `Texture3D`. This project models the
sequential logic of its static class `CloudNoiseGen` and proves properties of it.
The engine and the GPU are replaced by abstract values.

- **Loading** (`CloudNoiseGen.LoadNoise`, `CloudNoiseGen.AssembleVolume`)
  - It validates a stored folder: the folder exists (checked only in the editor), the slice count is `resolution`, and every slice is `resolution` by `resolution`.
  - It then copies the slices' pixels, one slice after another, into a `resolution`³ buffer through a running write index.
  - The buffer is a Dafny `array`, filled in place as the source fills it.
  - Its contents are specified by `Volume.Flatten`, the slices' pixel sequences laid end to end.
- **Slice naming** (`SliceNaming`)
  - The file number is the if-chain that pads `u` with zeros to four digits.
  - Lemmas prove that it denotes `u`, that it is injective, and that it sorts in slice order below 10000 and no longer from 10000 on.
- **Generation** (`CloudNoiseGen.GenerateNoise`)
  - The folder is replaced by `resolution` slices. Slice `u` holds what the (opaque) shader renders for it.
  - Every written file receives an importer with the engine's default settings.
  - The importer loop then forces each slice importer to uncompressed, linear (non-sRGB) and readable. It reimports exactly the slices whose settings changed (`ImportPolicy`).
- **Load-or-generate policy** (`CloudNoiseGen.InitializeNoise`)
  - In the editor it loads unless the mode is `ForceGenerate`. Outside the editor the mode becomes `LoadAvailableElseAbort`, so it always loads.
  - In the editor it generates when the mode asks for it, then reloads once.
  - If that reload fails, it records the fatal error.

Modelling choices:
- The asset database is the class `Engine.AssetDatabase`, with three fields:
  - the folders, as a map from folder name to slices in load order;
  - the importers, as a map from asset path to `TextureImporter` objects that the source updates in place;
  - the log of `ImportAsset` calls.
- The `UNITY_EDITOR` symbol is the boolean `isEditor`.
- The shader is a function from (resolution, slice, pixel index) to a colour.
- The `ref Texture3D` argument is an `Option<Texture3D>` passed in and returned.
- Integers are unbounded everywhere except in module `Int32Overflow`. That module models the 32-bit size computation of the buffer; see Findings.

The doc comments of LoadNoise, GenerateNoise and InitializeNoise name the folder
`Resources/3DNoise`, but the code reads and writes `Resources/CloudNoiseGen`. The
model follows the code.

Two further facts of the code shape the model:
- Outside the editor, LoadNoise does not check that the folder exists; a TODO comment in LoadNoise says so.
- Slice numbers from 1000 on are written unpadded. So the names sort in slice order only below 10000 (`SliceNaming.FileNumberOrder`, `SliceNaming.FileNumberOrderEndsAt10000`).

## Model

| member | source | states |
|---|---|---|
| CloudNoiseGen.LoadNoise | Assets/CloudNoiseGen/Scripts/CloudNoiseGen.cs:107-163 | Rejects a missing folder in the editor. Outside the editor a missing folder loads only at resolution 0. Rejects a slice-count mismatch and any slice whose width or height differs from the resolution. Succeeds exactly when LoadAccepts holds. On failure the texture argument is returned untouched. On success the texture is resolution³ and holds the slices' pixels concatenated in order. |
| CloudNoiseGen.AssembleVolume | Assets/CloudNoiseGen/Scripts/CloudNoiseGen.cs:133-154 | The white-filled buffer of resolution³ colours ends equal to Flatten(slices), whose length VolumeSize shows is resolution³. So every write through the running index is in bounds, the index finishes at the buffer's end, and the default fill is entirely overwritten. |
| CloudNoiseGen.VolumeSize | Assets/CloudNoiseGen/Scripts/CloudNoiseGen.cs:121-134 | A folder that passes the checks holds exactly resolution³ pixels, the size of the buffer. |
| Volume.FlattenAt | Assets/CloudNoiseGen/Scripts/CloudNoiseGen.cs:146-154 | Element k·n + i of the assembled volume is pixel i of slice k when every slice has n pixels. |
| Volume.VoxelAt | Assets/CloudNoiseGen/Scripts/CloudNoiseGen.cs:146-159 | Voxel (x, y, z) at index x + y·r + z·r², in SetPixels order, is pixel (x, y) of slice z. |
| Volume.FlattenLength | Assets/CloudNoiseGen/Scripts/CloudNoiseGen.cs:146-154 | Concatenating slices of n pixels each gives slice count times n pixels. |
| SliceNaming.DecimalStringValue | Assets/CloudNoiseGen/Scripts/CloudNoiseGen.cs:222-231 | The decimal text of u (u.ToString()) is all digits and reads back as u. |
| SliceNaming.DecimalStringLength | Assets/CloudNoiseGen/Scripts/CloudNoiseGen.cs:222-231 | u.ToString() has 1, 2, 3 or 4 digits in the ranges the if-chain tests, and at least 4 from 1000 on. |
| SliceNaming.FileNumberShape | Assets/CloudNoiseGen/Scripts/CloudNoiseGen.cs:222-231 | The if-chain is a left zero-pad to four digits. Below 10000 the number has exactly 4 characters. Below 1000 it starts with '0'. From 1000 on it is the plain decimal string. |
| SliceNaming.FileNumberValue | Assets/CloudNoiseGen/Scripts/CloudNoiseGen.cs:222-231 | The file number is all digits and denotes exactly u. |
| SliceNaming.FileNumberInjective | Assets/CloudNoiseGen/Scripts/CloudNoiseGen.cs:222-231 | Distinct slices get distinct file numbers. |
| SliceNaming.FileNumberOrder | Assets/CloudNoiseGen/Scripts/CloudNoiseGen.cs:222-231 | For u, v < 10000, u < v if and only if the name of u sorts (ordinally) before the name of v. |
| SliceNaming.FileNumberOrderEndsAt10000 | Assets/CloudNoiseGen/Scripts/CloudNoiseGen.cs:222-231 | From 10000 on the names no longer sort in slice order: "10000" sorts before "9999". |
| SliceNaming.LexLessDigits | Assets/CloudNoiseGen/Scripts/CloudNoiseGen.cs:222-231 | For digit strings of equal length, ordinal order is numeric order. |
| SliceNaming.ImporterPathInjective | Assets/CloudNoiseGen/Scripts/CloudNoiseGen.cs:250-261 | The path the importer loop recomputes for slice u is different for each u, so no two slices share an importer lookup. |
| ImportPolicy.NormalizedAtStep | Assets/CloudNoiseGen/Scripts/CloudNoiseGen.cs:247-292 | One more loop turn normalises exactly the importer of slice u. That importer needs a change exactly when it needed one before the loop, so the reimport list grows by that path alone. |
| ImportPolicy.PendingImportsMembers | Assets/CloudNoiseGen/Scripts/CloudNoiseGen.cs:262-288 | A path is reimported if and only if it is a slice path of the folder with an importer whose settings were not canonical. |
| ImportPolicy.NothingPendingWhenCanonical | Assets/CloudNoiseGen/Scripts/CloudNoiseGen.cs:262-292 | When every slice importer is already canonical, nothing is reimported. |
| ImportPolicy.SecondPassChangesNothing | Assets/CloudNoiseGen/Scripts/CloudNoiseGen.cs:247-294 | Normalisation is idempotent: a second pass leaves every setting as it is and reimports nothing. |
| ImportPolicy.PendingImportsUniform | Assets/CloudNoiseGen/Scripts/CloudNoiseGen.cs:244-292 | When all slice importers start from the same settings, the loop reimports no slice (if those settings are canonical) or every slice in order. |
| ImportPolicy.OverlayKeeps | Assets/CloudNoiseGen/Scripts/CloudNoiseGen.cs:207-244 | Writing the slices adds importers under exactly the slice paths and keeps every other importer. |
| ImportPolicy.OverlayAt | Assets/CloudNoiseGen/Scripts/CloudNoiseGen.cs:207-244 | After writing, the path of slice v is bound to the importer created for slice v. |
| CloudNoiseGen.NormalizeImporter | Assets/CloudNoiseGen/Scripts/CloudNoiseGen.cs:264-279 | Afterwards the settings are Canonical: compression is Uncompressed, sRGB is off and the importer is readable. `changed` is true if and only if the settings beforehand were not Canonical, that is, at least one of the three differed. |
| CloudNoiseGen.NormalizeAt | Assets/CloudNoiseGen/Scripts/CloudNoiseGen.cs:261-279 | Normalising the importer under one path changes the recorded settings of that path alone, and reports a change exactly when they were not canonical. |
| CloudNoiseGen.NormalizeSlice | Assets/CloudNoiseGen/Scripts/CloudNoiseGen.cs:249-292 | One turn of the importer loop: the settings reach the state normalised through slice u, and the reimport log grows as PendingImports prescribes. |
| CloudNoiseGen.ApplyImportSettings | Assets/CloudNoiseGen/Scripts/CloudNoiseGen.cs:247-294 | Leaves folders and importer bindings alone. Settings become NormalizedAt: slice importers canonical, everything else unchanged. Reimports exactly PendingImports of the settings before the loop, in slice order. |
| CloudNoiseGen.WriteSlice | Assets/CloudNoiseGen/Scripts/CloudNoiseGen.cs:207-244 | Appends one slice to the folder, and binds its path to a new importer with the engine's default settings. |
| CloudNoiseGen.WriteSlices | Assets/CloudNoiseGen/Scripts/CloudNoiseGen.cs:188-244 | The folder becomes exactly slices 0 .. resolution − 1 in order. Every slice path has a new importer with the default settings. Other importers are kept, and no importer appears under any other path. |
| CloudNoiseGen.GeneratedEntryAccepted | Assets/CloudNoiseGen/Scripts/CloudNoiseGen.cs:121-131 | A load right after generating accepts the folder if and only if the resolution is not negative. |
| CloudNoiseGen.GeneratedEntryRoundTrip | Assets/CloudNoiseGen/Scripts/CloudNoiseGen.cs:207-232 | Generate then load round trip: in the assembled volume, pixel i of layer z (index z·resolution² + i) is what the shader rendered for slice z. |
| CloudNoiseGen.GenerateNoise | Assets/CloudNoiseGen/Scripts/CloudNoiseGen.cs:186-298 | The folder holds the generated slices. Every slice importer ends canonical. Other importers are kept and unmodified, and no importer appears under a path that is neither an old path nor a slice path. The slices are reimported (all of them, in order) exactly when the engine defaults were not canonical. |
| CloudNoiseGen.InitializeNoise | Assets/CloudNoiseGen/Scripts/CloudNoiseGen.cs:309-341 | The mode defaults to LoadAvailableElseGenerate. Generates only in the editor: always under ForceGenerate, never under LoadAvailableElseAbort, and under LoadAvailableElseGenerate exactly when the first load failed. In the editor, ForceGenerate skips the first load. Each generation is followed by exactly one reload. The result is the last load's. The error is logged exactly when the post-generation reload fails, which in the model happens only for a negative resolution. The texture starts reset to null and, on success, holds the stored volume. After a generation the store is GenerateNoise's result: slice importers canonical, other importers kept, no other new paths, and the reimport log as GenerateNoise states. Without one the store is unchanged. |
| Int32Overflow.Wrap32 | Assets/CloudNoiseGen/Scripts/CloudNoiseGen.cs:134 | Unchecked 32-bit int arithmetic: the result is in int range and congruent to the exact value modulo 2³², and it equals the exact value when that is in range. |
| Int32Overflow.AllocatedLengthExact | Assets/CloudNoiseGen/Scripts/CloudNoiseGen.cs:134 | Up to resolution 1290 the 32-bit size computation is the exact volume. |
| Int32Overflow.AllocatedLengthNegativeAt1291 | Assets/CloudNoiseGen/Scripts/CloudNoiseGen.cs:134 | At resolution 1291 the size wraps to a negative length. |
| Int32Overflow.AllocatedLengthTooShortAt1626 | Assets/CloudNoiseGen/Scripts/CloudNoiseGen.cs:121-153 | At resolution 1626 a folder passes every check of LoadNoise, yet the buffer (3975080 colours) is shorter than its pixels. |

## Left out

- The noise itself is not modelled: GetSlice, the generator material and its lazy initialiser, UpdateGenerator and GetParams, and the static perlin, worley and previewSliceZ settings. The maths lives in a shader that is not part of this model, so the rendered colours are an opaque function `Shader`.
- The float slice coordinate `(u + 0.5) / resolution` is not modelled. Slice `u` is rendered for index `u`.
- Render textures, ReadPixels, EncodeToPNG, File.WriteAllBytes, Texture3D.SetPixels and Apply, and the texture format and mipmaps are engine I/O. A slice is its name, size and pixel sequence, and a Texture3D is its sizes and pixels.
- Folder creation and deletion (including the parent folders `Resources` and `Resources/CloudNoiseGen`) are collapsed into replacing the folder's entry.
- `AssetDatabase.Refresh`'s detection of the new files is folded into the write loop: each written file gets a fresh importer with the engine's default settings.
- GenerateNoise: does not model importers of files deleted with the old folder. They stay bound in the importer map, which the model does not clean up.
- Resources.LoadAll is assumed to return a folder's slices in the order they were written. SliceNaming.FileNumberOrder proves that the names sort in that order below 10000; the engine's actual listing order is not modelled.
- WriteSlices: for a resolution of 0 or below it models an empty folder. The engine's behaviour when GenerateNoise creates a render texture and a 2D texture of that size (zero or negative) is not modelled. For a negative size it fails before any slice is written.
- LoadNoise: at resolution 0 it models success with an empty volume, both for a stored empty folder and, outside the editor, for a missing one. The engine's behaviour for `new Texture3D(0, 0, 0, ...)` and a render texture of size 0 is not modelled. So `CloudNoiseGen.GeneratedEntryAccepted` and InitializeNoise's reload also succeed at 0.
- LoadNoise: does not consult the slice importers. In the engine, GetPixels fails on a texture that is not readable, and compression or sRGB decoding changes the pixels read back. The model reads every stored slice exactly as written. GenerateNoise's contract states that every slice importer ends canonical (uncompressed, linear, readable), which is the condition under which that exact read-back holds. But `CloudNoiseGen.GeneratedEntryRoundTrip` and InitializeNoise's reload result do not depend on those settings in the model.
- Progress bars (DisplayProgressBar, ClearProgressBar) have no effect on the modelled state.
- Debug.LogError is reduced to the ghost flag `errorLogged` of InitializeNoise.
- InitializeNoise: the outcome of each LoadNoise call is returned as a ghost sequence `loads`, instead of being observable through logging.
- Wrap-around of the remaining int arithmetic (the running write index and the slice counters) is not modelled. The write index stays below the buffer length, so it cannot wrap before the size computation does (see Findings).

## Findings

| source | as written | input that shows it | evidently intended | confidence | as-written member | corrected member |
|---|---|---|---|---|---|---|
| Assets/CloudNoiseGen/Scripts/CloudNoiseGen.cs:134 | The buffer length `resolution * resolution * resolution` is computed in 32-bit int, which wraps silently in C#'s default unchecked context. | resolution 1291 gives a negative length. resolution 1626 gives 3975080 slots for the 4298942376 pixels of a valid folder. | A buffer of exactly resolution³ colours, computed without wrap-around or guarded by a check. | not executed; low practical impact, since volumes that large exceed memory long before | Int32Overflow.AllocatedLengthTooShortAt1626 | CloudNoiseGen.AssembleVolume |
