/**
 * The VTK backend's command table (VTKTests::RegisterCommands): one suite
 * command that runs every VTK feature and four single-feature commands, all
 * in module "VTK" and all returning 0 whatever the feature did. Built without
 * VTK, the hook registers nothing.
 */
module VTKTests {
  import opened FeatureSteps
  import opened CommandRegistry

  /** What `test-vtk` runs, in order. */
  const SuiteSteps: seq<Step> := [ImageExport, IsosurfaceExtraction, MPR, ThresholdMask, MetadataExport]

  const TestVtk := Command("test-vtk", "VTK", "Run all VTK feature tests", Feature(SuiteSteps, 0))
  const Export := Command("vtk:export", "VTK", "Convert to VTI volume", Feature([ImageExport], 0))
  const Isosurface := Command("vtk:isosurface", "VTK", "Generate STL mesh with marching cubes", Feature([IsosurfaceExtraction], 0))
  const Mask := Command("vtk:mask", "VTK", "Binary threshold to create a segmentation mask", Feature([ThresholdMask], 0))
  const Metadata := Command("vtk:metadata", "VTK", "Export patient/study metadata to text", Feature([MetadataExport], 0))

  /** The registrations in source order. */
  const Commands: seq<Command> := [TestVtk, Export, Isosurface, Mask, Metadata]

  /** Five commands with distinct names. */
  lemma Names()
    ensures |Commands| == 5
    ensures UniqueNames(Commands)
  {
  }

  /** Apart from the suite, every name starts with "vtk:". */
  lemma Prefixed()
    ensures Namespaced(Commands, "vtk:", "test-vtk")
  {
  }

  /** Every command has a name and an action, belongs to module "VTK" and returns 0. */
  lemma Table()
    ensures forall k :: 0 <= k < |Commands| ==>
              Acceptable(Commands[k]) && Commands[k].moduleName == "VTK" &&
              Commands[k].action.Feature? && Commands[k].action.status == 0
  {
  }

  /** `test-vtk` runs all five features, each once, in source order. */
  lemma Suite()
    ensures Commands[0].name == "test-vtk" && Commands[0].action.steps == SuiteSteps
    ensures |SuiteSteps| == 5 && Distinct(SuiteSteps)
  {
  }

  /** Every other command runs exactly one of the suite's features, no two the same, and never MPR. */
  lemma SingleSteps()
    ensures forall k :: 1 <= k < |Commands| ==>
              |Commands[k].action.steps| == 1 && Commands[k].action.steps[0] in SuiteSteps &&
              Commands[k].action.steps[0] != MPR
    ensures forall j, k :: 1 <= j < k < |Commands| ==> Commands[j].action.steps != Commands[k].action.steps
  {
  }

  /** Every feature of the suite except MPR has a command of its own. */
  lemma Standalone()
    ensures forall i :: 0 <= i < |SuiteSteps| && SuiteSteps[i] != MPR ==>
              exists k :: 1 <= k < |Commands| && Commands[k].action.steps == [SuiteSteps[i]]
  {
    var standalone := [1, 2, 0, 3, 4];
    assert forall i :: 0 <= i < |SuiteSteps| && i != 2 ==>
      1 <= standalone[i] < |Commands| && Commands[standalone[i]].action.steps == [SuiteSteps[i]];
  }

  /** VTKTests::RegisterCommands; `enabled` says whether the tool was built with VTK. */
  method RegisterCommands(registry: Registry, enabled: bool)
    requires registry.Valid()
    modifies registry
    ensures registry.Valid()
    ensures registry.ordered == AdmitAll(old(registry.ordered), if enabled then Commands else [])
    ensures !enabled ==> registry.index == old(registry.index)
  {
    if enabled {
      ghost var start := registry.ordered;
      registry.Register(TestVtk);
      registry.Register(Export);
      registry.Register(Isosurface);
      registry.Register(Mask);
      registry.Register(Metadata);
      AdmitAll5(start, TestVtk, Export, Isosurface, Mask, Metadata);
    }
  }
}
