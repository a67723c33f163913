/** The parts of the Unity engine that the noise utility talks to, reduced to
    the values and objects its logic depends on: colours, 2D and 3D textures,
    texture importers and the asset folders under Resources/CloudNoiseGen. */
module Engine {

  datatype Option<T> = None | Some(value: T)

  /** An RGBA colour. The channels are opaque to the utility: it only copies them. */
  datatype Color = Color(r: real, g: real, b: real, a: real)

  /** `new Color(1, 1, 1, 1)`, the value every voxel is defaulted to before loading. */
  const White: Color := Color(1.0, 1.0, 1.0, 1.0)

  /** A 2D texture as Resources.LoadAll returns it: its asset name, its size and
      its pixels in GetPixels order. */
  datatype Texture2D = Texture2D(name: string, width: nat, height: nat, pixels: seq<Color>)

  /** GetPixels always yields width * height pixels. */
  type Slice = t: Texture2D | |t.pixels| == t.width * t.height witness Texture2D("", 0, 0, [])

  /** A 3D texture after SetPixels: its three sizes and its pixels. */
  datatype Texture3D = Texture3D(width: nat, height: nat, depth: nat, pixels: seq<Color>)

  /** TextureImporterCompression. */
  datatype Compression = Uncompressed | Compressed | CompressedHQ | CompressedLQ

  /** The three importer flags the utility cares about, as one value. */
  datatype ImportSettings = ImportSettings(compression: Compression, sRGBTexture: bool, isReadable: bool)

  /** The settings a noise slice must be imported with: raw, linear, CPU-readable. */
  const Canonical: ImportSettings := ImportSettings(Uncompressed, false, true)

  /** The importer of one texture asset; the utility sets its fields in place. */
  class TextureImporter {
    var textureCompression: Compression
    var sRGBTexture: bool
    var isReadable: bool

    /** The importer the engine creates for a newly detected asset. */
    constructor (defaults: ImportSettings)
      ensures Settings() == defaults
    {
      textureCompression := defaults.compression;
      sRGBTexture := defaults.sRGBTexture;
      isReadable := defaults.isReadable;
    }

    function Settings(): (settings: ImportSettings)
      reads this
    {
      ImportSettings(textureCompression, sRGBTexture, isReadable)
    }
  }

  /** The editor's asset database, restricted to what the utility touches. */
  class AssetDatabase {
    /** Folder name under Resources/CloudNoiseGen to the slices it holds, in load order. */
    var folders: map<string, seq<Slice>>
    /** Asset path to the importer of that asset. */
    var importers: map<string, TextureImporter>
    /** The asset paths passed to ImportAsset, oldest first. */
    var imported: seq<string>

    /** Every asset has its own importer. */
    ghost predicate Valid()
      reads this`importers
    {
      forall p, q :: p in importers && q in importers && p != q ==> importers[p] != importers[q]
    }

    /** The current settings of every importer, by asset path. */
    ghost function ImportState(): (state: map<string, ImportSettings>)
      reads this`importers, importers.Values
    {
      map p | p in importers :: importers[p].Settings()
    }
  }
}
