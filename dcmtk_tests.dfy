/**
 * The DCMTK backend's command table (DCMTKTests::RegisterCommands): one suite
 * command that runs every DCMTK feature and one command per feature, all in
 * module "DCMTK" and all returning 0 whatever the feature did. Built without
 * DCMTK, the hook registers nothing.
 */
module DCMTKTests {
  import opened FeatureSteps
  import opened CommandRegistry

  /** What `test-dcmtk` runs, in order. */
  const SuiteSteps: seq<Step> := [
    TagModification, PixelDataExtraction, LosslessJPEGReencode, JPEGBaseline, RLEReencode,
    RawDump, ExplicitVRRewrite, MetadataReport, BMPPreview, DICOMDIRGeneration
  ]

  const TestDcmtk := Command("test-dcmtk", "DCMTK", "Run DCMTK feature tests", Feature(SuiteSteps, 0))
  const Modify := Command("dcmtk:modify", "DCMTK", "Modify basic tags and persist a sanitized copy", Feature([TagModification], 0))
  const Ppm := Command("dcmtk:ppm", "DCMTK", "Export pixel data to portable map format", Feature([PixelDataExtraction], 0))
  const JpegLossless := Command("dcmtk:jpeg-lossless", "DCMTK", "Re-encode to JPEG Lossless to validate JPEG codec support", Feature([LosslessJPEGReencode], 0))
  const JpegBaseline := Command("dcmtk:jpeg-baseline", "DCMTK", "Re-encode to JPEG Baseline (Process 1) to test lossy codecs", Feature([JPEGBaseline], 0))
  const Rle := Command("dcmtk:rle", "DCMTK", "Re-encode to RLE Lossless", Feature([RLEReencode], 0))
  const RawDumpCommand := Command("dcmtk:raw-dump", "DCMTK", "Dump raw pixel buffer for quick regression checks", Feature([RawDump], 0))
  const ExplicitVr := Command("dcmtk:explicit-vr", "DCMTK", "Rewrite using Explicit VR Little Endian to validate transcoding", Feature([ExplicitVRRewrite], 0))
  const Metadata := Command("dcmtk:metadata", "DCMTK", "Export common metadata fields to text", Feature([MetadataReport], 0))
  const Bmp := Command("dcmtk:bmp", "DCMTK", "Export an 8-bit BMP preview frame", Feature([BMPPreview], 0))
  const Dicomdir := Command("dcmtk:dicomdir", "DCMTK", "Generate a simple DICOMDIR for the input series", Feature([DICOMDIRGeneration], 0))

  /** The registrations in source order. */
  const Commands: seq<Command> := [
    TestDcmtk, Modify, Ppm, JpegLossless, JpegBaseline, Rle, RawDumpCommand, ExplicitVr, Metadata, Bmp, Dicomdir
  ]

  /** Eleven commands with distinct names. */
  lemma Names()
    ensures |Commands| == 11
    ensures UniqueNames(Commands)
  {
  }

  /** Apart from the suite, every name starts with "dcmtk:". */
  lemma Prefixed()
    ensures Namespaced(Commands, "dcmtk:", "test-dcmtk")
  {
  }

  /** Every command has a name and an action, belongs to module "DCMTK" and returns 0. */
  lemma Table()
    ensures forall k :: 0 <= k < |Commands| ==>
              Acceptable(Commands[k]) && Commands[k].moduleName == "DCMTK" &&
              Commands[k].action.Feature? && Commands[k].action.status == 0
  {
  }

  /** `test-dcmtk` runs all ten features, each once, in source order. */
  lemma Suite()
    ensures Commands[0].name == "test-dcmtk" && Commands[0].action.steps == SuiteSteps
    ensures |SuiteSteps| == 10 && Distinct(SuiteSteps)
  {
  }

  /** The other commands run the suite's features one each, in the suite's order: every feature has a command of its own. */
  lemma SingleSteps()
    ensures forall k :: 1 <= k < |Commands| ==> Commands[k].action.steps == [SuiteSteps[k - 1]]
  {
  }

  /** DCMTKTests::RegisterCommands; `enabled` says whether the tool was built with DCMTK. */
  method RegisterCommands(registry: Registry, enabled: bool)
    requires registry.Valid()
    modifies registry
    ensures registry.Valid()
    ensures registry.ordered == AdmitAll(old(registry.ordered), if enabled then Commands else [])
    ensures !enabled ==> registry.index == old(registry.index)
  {
    if enabled {
      ghost var start := registry.ordered;
      registry.Register(TestDcmtk);
      registry.Register(Modify);
      registry.Register(Ppm);
      registry.Register(JpegLossless);
      registry.Register(JpegBaseline);
      registry.Register(Rle);
      registry.Register(RawDumpCommand);
      registry.Register(ExplicitVr);
      registry.Register(Metadata);
      registry.Register(Bmp);
      registry.Register(Dicomdir);
      AdmitAll11(start, TestDcmtk, Modify, Ppm, JpegLossless, JpegBaseline, Rle, RawDumpCommand, ExplicitVr, Metadata, Bmp, Dicomdir);
    }
  }
}
