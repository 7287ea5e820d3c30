/**
 * The program's constant tables: the file extensions of each language, the
 * patterns excluded from every scan, and the weights of the score.
 */
module Constants {

  /** `fileTypeExtensions.js`. */
  const JsExtensions: seq<string> := [".js", ".mjs", ".cjs", ".jsx"]

  /** `fileTypeExtensions.ts`. */
  const TsExtensions: seq<string> := [".ts", ".tsx"]

  /** `fileTypeExtensions.vue`. */
  const VueExtensions: seq<string> := [".vue"]

  /** `allFileExtensions`: the three lists spread one after the other. */
  const AllFileExtensions: seq<string> := JsExtensions + TsExtensions + VueExtensions

  /** `defaultExcludedFilePatterns`, the glob patterns every scan ignores. */
  const DefaultExcludedFilePatterns: seq<string> := ["**/node_modules", "**/dist", "**/build", "**/.*"]

  /**
   * The weights of the score, `fileWeighting = 0.3` and `locWeighting = 0.7`,
   * in tenths.
   */
  const FileWeighting: nat := 3
  const LocWeighting: nat := 7
  const WeightScale: nat := 10

  /** An extension is supported exactly when one of the three lists holds it. */
  lemma SupportedExtensions(extension: string)
    ensures extension in AllFileExtensions
        <==> extension in JsExtensions || extension in TsExtensions || extension in VueExtensions
  {
  }

  /** No extension belongs to two languages. */
  lemma ExtensionListsDisjoint(extension: string)
    ensures !(extension in JsExtensions && extension in TsExtensions)
    ensures !(extension in JsExtensions && extension in VueExtensions)
    ensures !(extension in TsExtensions && extension in VueExtensions)
  {
  }

  /** The two weights add up to one whole. */
  lemma WeightsAddUpToOne()
    ensures FileWeighting + LocWeighting == WeightScale
  {
  }
}
