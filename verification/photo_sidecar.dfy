/** The JSON sidecar savePhoto writes next to a photo. */
module PhotoSidecar {
  import opened CText
  import opened PresetCatalog
  import opened PhotoIndex
  import opened SettingsText
  import JsonObject

  function Named(key: string, text: string): JsonObject.Member {
    JsonObject.Member(key, JsonObject.Text(text))
  }

  function Counted(key: string, n: int): JsonObject.Member {
    JsonObject.Member(key, JsonObject.Number(n))
  }

  function Flagged(key: string, truth: bool): JsonObject.Member {
    JsonObject.Member(key, JsonObject.Truth(truth))
  }

  function Picture(e: PhotoEntry, intensity: int, a: Adjustment): seq<JsonObject.Member> {
    [Named("type", "preview-resolution derivative"), Named("preset", PresetId(e.presetIndex)),
     Counted("width", 320), Counted("height", 240), Counted("intensity", intensity),
     Counted("contrastAdjustment", a.contrast), Counted("grainAdjustment", a.grain),
     Counted("motionAdjustment", a.motion)]
  }

  function Origin(e: PhotoEntry, model: string, version: string): seq<JsonObject.Member> {
    [Counted("sourceTimestampMs", e.timestampMs), Flagged("favorite", e.favorite), Flagged("originalPreserved", true),
     Flagged("originalPathKnown", false), Named("cameraModel", CString(model)),
     Named("applicationVersion", CString(version))]
  }

  /** The members, in the order they are printed. */
  function Members(e: PhotoEntry, intensity: int, a: Adjustment, model: string, version: string)
    : seq<JsonObject.Member>
  {
    Picture(e, intensity, a) + Origin(e, model, version)
  }

  function Manifest(e: PhotoEntry, intensity: int, a: Adjustment, model: string, version: string): (text: string)
    ensures text != ""
  {
    JsonObject.PrintedObject(Members(e, intensity, a, model, version))
  }

  /** A reader of JSON gets back what the photo was taken with: preset, intensity, adjustments, time, favorite, and
      the model and version strings up to their first NUL, whatever bytes they hold. */
  lemma ManifestIsRead(e: PhotoEntry, intensity: int, a: Adjustment, model: string, version: string)
    ensures JsonObject.ReadObject(Manifest(e, intensity, a, model, version))
            == Some(Members(e, intensity, a, model, version))
  {
    hide JsonObject.PrintedObject, JsonObject.ReadObject, JsonObject.PlainKey, PresetId;
    PictureKeys(e, intensity, a);
    OriginKeys(e, model, version);
    JsonObject.ObjectRoundTrip(Members(e, intensity, a, model, version));
  }

  lemma PictureKeys(e: PhotoEntry, intensity: int, a: Adjustment)
    ensures JsonObject.PlainKeys(Picture(e, intensity, a))
  {
    hide PresetId;
  }

  lemma OriginKeys(e: PhotoEntry, model: string, version: string)
    ensures JsonObject.PlainKeys(Origin(e, model, version))
  {
    hide CString, JsonObject.PlainKey;
    PlainOriginKeys();
  }

  lemma PlainOriginKeys()
    ensures JsonObject.PlainKey("sourceTimestampMs") && JsonObject.PlainKey("favorite")
    ensures JsonObject.PlainKey("originalPreserved") && JsonObject.PlainKey("originalPathKnown")
    ensures JsonObject.PlainKey("cameraModel") && JsonObject.PlainKey("applicationVersion")
  {}
}
