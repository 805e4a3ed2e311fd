/**
 * The ITK backend's command table (ITKTests::RegisterCommands): one suite
 * command that runs every ITK feature and five single-feature commands, all
 * in module "ITK" and all returning 0 whatever the feature did. Built without
 * ITK, the hook registers nothing.
 */
module ITKTests {
  import opened FeatureSteps
  import opened CommandRegistry

  /** What `test-itk` runs, in order. */
  const SuiteSteps: seq<Step> := [
    CannyEdgeDetection, GaussianSmoothing, MedianFilter, BinaryThresholding,
    Resampling, AdaptiveHistogram, SliceExtraction, NRRDExport
  ]

  /** The suite's features that have no command of their own. */
  const SuiteOnly: seq<Step> := [GaussianSmoothing, BinaryThresholding, Resampling]

  const TestItk := Command("test-itk", "ITK", "Run all ITK feature tests", Feature(SuiteSteps, 0))
  const Canny := Command("itk:canny", "ITK", "Run 3D canny edge detection and write DICOM", Feature([CannyEdgeDetection], 0))
  const Histogram := Command("itk:histogram", "ITK", "Adaptive histogram equalization for contrast boost", Feature([AdaptiveHistogram], 0))
  const Slice := Command("itk:slice", "ITK", "Extract middle axial slice to PNG", Feature([SliceExtraction], 0))
  const Median := Command("itk:median", "ITK", "Median smoothing for salt-and-pepper noise removal", Feature([MedianFilter], 0))
  const Nrrd := Command("itk:nrrd", "ITK", "Export the volume to NRRD for interchange", Feature([NRRDExport], 0))

  /** The registrations in source order. */
  const Commands: seq<Command> := [TestItk, Canny, Histogram, Slice, Median, Nrrd]

  /** Six commands with distinct names. */
  lemma Names()
    ensures |Commands| == 6
    ensures UniqueNames(Commands)
  {
  }

  /** Apart from the suite, every name starts with "itk:". */
  lemma Prefixed()
    ensures Namespaced(Commands, "itk:", "test-itk")
  {
  }

  /** Every command has a name and an action, belongs to module "ITK" and returns 0. */
  lemma Table()
    ensures forall k :: 0 <= k < |Commands| ==>
              Acceptable(Commands[k]) && Commands[k].moduleName == "ITK" &&
              Commands[k].action.Feature? && Commands[k].action.status == 0
  {
  }

  /** `test-itk` runs all eight features, each once, in source order. */
  lemma Suite()
    ensures Commands[0].name == "test-itk" && Commands[0].action.steps == SuiteSteps
    ensures |SuiteSteps| == 8 && Distinct(SuiteSteps)
  {
  }

  /** Every other command runs exactly one of the suite's features, no two the same, and none of SuiteOnly. */
  lemma SingleSteps()
    ensures forall k :: 1 <= k < |Commands| ==>
              |Commands[k].action.steps| == 1 && Commands[k].action.steps[0] in SuiteSteps &&
              Commands[k].action.steps[0] !in SuiteOnly
    ensures forall j, k :: 1 <= j < k < |Commands| ==> Commands[j].action.steps != Commands[k].action.steps
  {
  }

  /** Every feature of the suite outside SuiteOnly has a command of its own. */
  lemma Standalone()
    ensures forall i :: 0 <= i < |SuiteSteps| && SuiteSteps[i] !in SuiteOnly ==>
              exists k :: 1 <= k < |Commands| && Commands[k].action.steps == [SuiteSteps[i]]
  {
    var standalone := [1, 0, 4, 0, 0, 2, 3, 5];
    assert forall i :: 0 <= i < |SuiteSteps| && i != 1 && i != 3 && i != 4 ==>
      1 <= standalone[i] < |Commands| && Commands[standalone[i]].action.steps == [SuiteSteps[i]];
  }

  /** ITKTests::RegisterCommands; `enabled` says whether the tool was built with ITK. */
  method RegisterCommands(registry: Registry, enabled: bool)
    requires registry.Valid()
    modifies registry
    ensures registry.Valid()
    ensures registry.ordered == AdmitAll(old(registry.ordered), if enabled then Commands else [])
    ensures !enabled ==> registry.index == old(registry.index)
  {
    if enabled {
      ghost var start := registry.ordered;
      registry.Register(TestItk);
      registry.Register(Canny);
      registry.Register(Histogram);
      registry.Register(Slice);
      registry.Register(Median);
      registry.Register(Nrrd);
      AdmitAll6(start, TestItk, Canny, Histogram, Slice, Median, Nrrd);
    }
  }
}
