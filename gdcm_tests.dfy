/**
 * The GDCM backend's command table (GDCMTests::RegisterCommands): one suite
 * command that runs every GDCM feature and ten single-feature commands, all in
 * module "GDCM" and all returning 0 whatever the feature did. Built without
 * GDCM, the hook registers nothing.
 */
module GDCMTests {
  import opened FeatureSteps
  import opened CommandRegistry

  /** What `test-gdcm` runs, in order. */
  const SuiteSteps: seq<Step> := [
    TagInspection, Anonymization, Decompression, UIDRewrite, DatasetDump, JPEG2000Transcode,
    RLETranscode, JPEGLSTranscode, PixelStatistics, DirectoryScan, PreviewExport
  ]

  const TestGdcm := Command("test-gdcm", "GDCM", "Run all GDCM feature tests", Feature(SuiteSteps, 0))
  const Tags := Command("gdcm:tags", "GDCM", "Inspect common tags and print patient identifiers", Feature([TagInspection], 0))
  const Anonymize := Command("gdcm:anonymize", "GDCM", "Strip PHI fields and write anonymized copy", Feature([Anonymization], 0))
  const TranscodeJ2k := Command("gdcm:transcode-j2k", "GDCM", "Transcode to JPEG2000 (lossless) to validate codec support", Feature([JPEG2000Transcode], 0))
  const JpegLs := Command("gdcm:jpegls", "GDCM", "Transcode to JPEG-LS Lossless to validate codec support", Feature([JPEGLSTranscode], 0))
  const RetagUids := Command("gdcm:retag-uids", "GDCM", "Regenerate Study/Series/SOP Instance UIDs and save copy", Feature([UIDRewrite], 0))
  const Dump := Command("gdcm:dump", "GDCM", "Write a verbose dataset dump to text for QA", Feature([DatasetDump], 0))
  const TranscodeRle := Command("gdcm:transcode-rle", "GDCM", "Transcode to RLE Lossless for encapsulated transfer syntax validation", Feature([RLETranscode], 0))
  const Stats := Command("gdcm:stats", "GDCM", "Compute min/max/mean pixel stats and write to text", Feature([PixelStatistics], 0))
  const Scan := Command("gdcm:scan", "GDCM", "Scan an input directory and index studies/series to CSV", Feature([DirectoryScan], 0))
  const Preview := Command("gdcm:preview", "GDCM", "Export an 8-bit PGM preview from the first slice", Feature([PreviewExport], 0))

  /** The registrations in source order. */
  const Commands: seq<Command> := [
    TestGdcm, Tags, Anonymize, TranscodeJ2k, JpegLs, RetagUids, Dump, TranscodeRle, Stats, Scan, Preview
  ]

  /** Eleven commands with distinct names: the suite and ten names under "gdcm:". */
  lemma Names()
    ensures |Commands| == 11
    ensures UniqueNames(Commands)
  {
  }

  /** Apart from the suite, every name starts with "gdcm:". */
  lemma Prefixed()
    ensures Namespaced(Commands, "gdcm:", "test-gdcm")
  {
  }

  /** Every command has a name and an action, belongs to module "GDCM" and returns 0. */
  lemma Table()
    ensures forall k :: 0 <= k < |Commands| ==>
              Acceptable(Commands[k]) && Commands[k].moduleName == "GDCM" &&
              Commands[k].action.Feature? && Commands[k].action.status == 0
  {
  }

  /** `test-gdcm` runs all eleven features, each once, in source order. */
  lemma Suite()
    ensures Commands[0].name == "test-gdcm" && Commands[0].action.steps == SuiteSteps
    ensures |SuiteSteps| == 11 && Distinct(SuiteSteps)
  {
  }

  /** Every other command runs exactly one of the suite's features, no two the same, and never Decompression. */
  lemma SingleSteps()
    ensures forall k :: 1 <= k < |Commands| ==>
              |Commands[k].action.steps| == 1 && Commands[k].action.steps[0] in SuiteSteps &&
              Commands[k].action.steps[0] != Decompression
    ensures forall j, k :: 1 <= j < k < |Commands| ==> Commands[j].action.steps != Commands[k].action.steps
  {
  }

  /** Every feature of the suite except Decompression has a command of its own. */
  lemma Standalone()
    ensures forall i :: 0 <= i < |SuiteSteps| && SuiteSteps[i] != Decompression ==>
              exists k :: 1 <= k < |Commands| && Commands[k].action.steps == [SuiteSteps[i]]
  {
    var standalone := [1, 2, 0, 5, 6, 3, 7, 4, 8, 9, 10];
    assert forall i :: 0 <= i < |SuiteSteps| && i != 2 ==>
      1 <= standalone[i] < |Commands| && Commands[standalone[i]].action.steps == [SuiteSteps[i]];
  }

  /** GDCMTests::RegisterCommands; `enabled` says whether the tool was built with GDCM. */
  method RegisterCommands(registry: Registry, enabled: bool)
    requires registry.Valid()
    modifies registry
    ensures registry.Valid()
    ensures registry.ordered == AdmitAll(old(registry.ordered), if enabled then Commands else [])
    ensures !enabled ==> registry.index == old(registry.index)
  {
    if enabled {
      ghost var start := registry.ordered;
      registry.Register(TestGdcm);
      registry.Register(Tags);
      registry.Register(Anonymize);
      registry.Register(TranscodeJ2k);
      registry.Register(JpegLs);
      registry.Register(RetagUids);
      registry.Register(Dump);
      registry.Register(TranscodeRle);
      registry.Register(Stats);
      registry.Register(Scan);
      registry.Register(Preview);
      AdmitAll11(start, TestGdcm, Tags, Anonymize, TranscodeJ2k, JpegLs, RetagUids, Dump, TranscodeRle, Stats, Scan, Preview);
    }
  }
}
