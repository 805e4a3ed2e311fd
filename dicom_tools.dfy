/**
 * The executable's top level (src/main.cpp): the catalogue that the four
 * backend hooks and the aggregate "all" build, and the chain of early returns
 * from the parsed options to the exit code.
 *
 * Which backends the tool was built with is a parameter, and so are the two
 * filesystem calls main makes: the path FindFirstDicom returns and whether
 * EnsureOutputDir succeeds.
 */
module DicomTools {
  import opened Status
  import opened FeatureSteps
  import opened CommandRegistry
  import opened CLIOptions
  import CLIParser
  import GDCMTests
  import DCMTKTests
  import ITKTests
  import VTKTests

  /** The USE_GDCM, USE_DCMTK, USE_ITK and USE_VTK build switches. */
  datatype Backends = Backends(gdcm: bool, dcmtk: bool, itk: bool, vtk: bool)

  const Everything := Backends(true, true, true, true)
  const Nothing := Backends(false, false, false, false)

  /** What "all" runs, in order. */
  const Suites: seq<string> := ["test-gdcm", "test-dcmtk", "test-itk", "test-vtk"]

  /** The aggregate main registers after the hooks. */
  const AllCommand := Command("all", "General", "Run every module suite", RunAll(Suites))

  // ---------------------------------------------------------------------------
  // The catalogue
  // ---------------------------------------------------------------------------

  /** What a hook registers: its table when its backend is built in, nothing otherwise. */
  function Part(on: bool, table: seq<Command>): seq<Command> {
    if on then table else []
  }

  /** The commands of the four hooks, in hook order. */
  function Hooks(b: Backends): seq<Command> {
    Part(b.gdcm, GDCMTests.Commands) + Part(b.dcmtk, DCMTKTests.Commands) +
    Part(b.itk, ITKTests.Commands) + Part(b.vtk, VTKTests.Commands)
  }

  /** Every table's commands, then "all". */
  function Catalogue(b: Backends): seq<Command> {
    Hooks(b) + [AllCommand]
  }

  /** "all" is namespaced on its own: its only name is "all". */
  lemma AllPrefixed()
    ensures Namespaced([AllCommand], "all", "all")
  {
  }

  /** No two tables share a name, and none holds "all". */
  lemma TablesApart()
    ensures Unregistered(GDCMTests.Commands, DCMTKTests.Commands)
    ensures Unregistered(GDCMTests.Commands, ITKTests.Commands)
    ensures Unregistered(DCMTKTests.Commands, ITKTests.Commands)
    ensures Unregistered(GDCMTests.Commands, VTKTests.Commands)
    ensures Unregistered(DCMTKTests.Commands, VTKTests.Commands)
    ensures Unregistered(ITKTests.Commands, VTKTests.Commands)
  {
    GDCMTests.Prefixed();
    DCMTKTests.Prefixed();
    ITKTests.Prefixed();
    VTKTests.Prefixed();
    Apart(GDCMTests.Commands, "gdcm:", "test-gdcm", DCMTKTests.Commands, "dcmtk:", "test-dcmtk");
    Apart(GDCMTests.Commands, "gdcm:", "test-gdcm", ITKTests.Commands, "itk:", "test-itk");
    Apart(DCMTKTests.Commands, "dcmtk:", "test-dcmtk", ITKTests.Commands, "itk:", "test-itk");
    Apart(GDCMTests.Commands, "gdcm:", "test-gdcm", VTKTests.Commands, "vtk:", "test-vtk");
    Apart(DCMTKTests.Commands, "dcmtk:", "test-dcmtk", VTKTests.Commands, "vtk:", "test-vtk");
    Apart(ITKTests.Commands, "itk:", "test-itk", VTKTests.Commands, "vtk:", "test-vtk");
  }

  lemma AllApart()
    ensures Unregistered(GDCMTests.Commands, [AllCommand])
    ensures Unregistered(DCMTKTests.Commands, [AllCommand])
    ensures Unregistered(ITKTests.Commands, [AllCommand])
    ensures Unregistered(VTKTests.Commands, [AllCommand])
  {
    GDCMTests.Prefixed();
    DCMTKTests.Prefixed();
    ITKTests.Prefixed();
    VTKTests.Prefixed();
    AllPrefixed();
    Apart(GDCMTests.Commands, "gdcm:", "test-gdcm", [AllCommand], "all", "all");
    Apart(DCMTKTests.Commands, "dcmtk:", "test-dcmtk", [AllCommand], "all", "all");
    Apart(ITKTests.Commands, "itk:", "test-itk", [AllCommand], "all", "all");
    Apart(VTKTests.Commands, "vtk:", "test-vtk", [AllCommand], "all", "all");
  }

  /** Strings that start with different letters are not prefixes of one another. */
  lemma NotPrefix(p: string, n: string)
    requires p != "" && n != "" && p[0] != n[0]
    ensures !(p <= n)
  {
  }

  lemma UnregisteredPart(a: seq<Command>, on: bool, xs: seq<Command>)
    requires Unregistered(a, xs)
    ensures Unregistered(Part(on, a), xs)
  {
  }

  /** Non-empty names, non-empty actions, no name twice: a table Register accepts in full. */
  predicate Admissible(cs: seq<Command>) {
    UniqueNames(cs) && forall k :: 0 <= k < |cs| ==> Acceptable(cs[k])
  }

  lemma UnregisteredOne(cs: seq<Command>, c: Command)
    requires Unregistered(cs, [c])
    ensures !Named(cs, c.name)
  {
    assert [c][0] == c;
  }

  lemma AdmitTable(cs: seq<Command>, table: seq<Command>)
    requires Admissible(table) && Unregistered(cs, table)
    ensures AdmitAll(cs, table) == cs + table
  {
    AdmitAllFresh(cs, table);
  }

  lemma UniqueTable(cs: seq<Command>, table: seq<Command>)
    requires UniqueNames(cs) && Admissible(table) && Unregistered(cs, table)
    ensures UniqueNames(cs + table)
  {
    UniqueAppend(cs, table);
  }

  /**
   * Registering four admissible tables with no name in common and then "all"
   * accepts every registration, in order.
   */
  lemma Assembly(g: seq<Command>, d: seq<Command>, i: seq<Command>, v: seq<Command>)
    requires Admissible(g) && Admissible(d) && Admissible(i) && Admissible(v)
    requires Unregistered(g, d) && Unregistered(g + d, i) && Unregistered(g + d + i, v)
    requires Unregistered(g + d + i + v, [AllCommand])
    ensures Admit(AdmitAll(AdmitAll(AdmitAll(AdmitAll([], g), d), i), v), AllCommand) == g + d + i + v + [AllCommand]
  {
    assert Unregistered([], g);
    AdmitTable([], g);
    assert [] + g == g;
    AdmitTable(g, d);
    AdmitTable(g + d, i);
    AdmitTable(g + d + i, v);
    UnregisteredOne(g + d + i + v, AllCommand);
  }

  /** The assembled catalogue has no name twice. */
  lemma AssemblyUnique(g: seq<Command>, d: seq<Command>, i: seq<Command>, v: seq<Command>)
    requires Admissible(g) && Admissible(d) && Admissible(i) && Admissible(v)
    requires Unregistered(g, d) && Unregistered(g + d, i) && Unregistered(g + d + i, v)
    requires Unregistered(g + d + i + v, [AllCommand])
    ensures UniqueNames(g + d + i + v + [AllCommand])
  {
    UniqueTable(g, d);
    UniqueTable(g + d, i);
    UniqueTable(g + d + i, v);
    assert Admissible([AllCommand]);
    UniqueTable(g + d + i + v, [AllCommand]);
  }

  /** Each hook's contribution is admissible. */
  lemma PartsAdmissible(b: Backends)
    ensures Admissible(Part(b.gdcm, GDCMTests.Commands)) && Admissible(Part(b.dcmtk, DCMTKTests.Commands))
    ensures Admissible(Part(b.itk, ITKTests.Commands)) && Admissible(Part(b.vtk, VTKTests.Commands))
  {
    GDCMTests.Names();
    GDCMTests.Table();
    DCMTKTests.Names();
    DCMTKTests.Table();
    ITKTests.Names();
    ITKTests.Table();
    VTKTests.Names();
    VTKTests.Table();
  }

  /** Each hook's contribution shares no name with the earlier ones, and none holds "all". */
  lemma PartsApart(g: seq<Command>, d: seq<Command>, i: seq<Command>, v: seq<Command>, b: Backends)
    requires g == Part(b.gdcm, GDCMTests.Commands) && d == Part(b.dcmtk, DCMTKTests.Commands)
    requires i == Part(b.itk, ITKTests.Commands) && v == Part(b.vtk, VTKTests.Commands)
    ensures Unregistered(g, d) && Unregistered(g + d, i) && Unregistered(g + d + i, v)
    ensures Unregistered(g + d + i + v, [AllCommand])
  {
    TablesApart();
    AllApart();
    UnregisteredPart(GDCMTests.Commands, b.gdcm, d);
    UnregisteredPart(GDCMTests.Commands, b.gdcm, i);
    UnregisteredPart(DCMTKTests.Commands, b.dcmtk, i);
    UnregisteredAppend(g, d, i);
    UnregisteredPart(GDCMTests.Commands, b.gdcm, v);
    UnregisteredPart(DCMTKTests.Commands, b.dcmtk, v);
    UnregisteredPart(ITKTests.Commands, b.itk, v);
    UnregisteredAppend(g, d, v);
    UnregisteredAppend(g + d, i, v);
    UnregisteredPart(GDCMTests.Commands, b.gdcm, [AllCommand]);
    UnregisteredPart(DCMTKTests.Commands, b.dcmtk, [AllCommand]);
    UnregisteredPart(ITKTests.Commands, b.itk, [AllCommand]);
    UnregisteredPart(VTKTests.Commands, b.vtk, [AllCommand]);
    UnregisteredAppend(g, d, [AllCommand]);
    UnregisteredAppend(g + d, i, [AllCommand]);
    UnregisteredAppend(g + d + i, v, [AllCommand]);
  }

  /**
   * main's registrations, one hook after another and then "all", are all
   * accepted: the registry ends up holding exactly the catalogue, whose names
   * are pairwise distinct.
   */
  lemma Registrations(b: Backends)
    ensures Admit(AdmitAll(AdmitAll(AdmitAll(AdmitAll([], Part(b.gdcm, GDCMTests.Commands)),
                                             Part(b.dcmtk, DCMTKTests.Commands)),
                                    Part(b.itk, ITKTests.Commands)),
                           Part(b.vtk, VTKTests.Commands)),
                  AllCommand) == Catalogue(b)
    ensures UniqueNames(Catalogue(b))
  {
    var g, d := Part(b.gdcm, GDCMTests.Commands), Part(b.dcmtk, DCMTKTests.Commands);
    var i, v := Part(b.itk, ITKTests.Commands), Part(b.vtk, VTKTests.Commands);
    PartsAdmissible(b);
    PartsApart(g, d, i, v, b);
    Assembly(g, d, i, v);
    AssemblyUnique(g, d, i, v);
  }

  /** main's CommandRegistry after the four hooks and the registration of "all" (src/main.cpp:18-35). */
  method BuildRegistry(b: Backends) returns (registry: Registry)
    ensures fresh(registry) && registry.Valid()
    ensures registry.ordered == Catalogue(b)
  {
    registry := new Registry();
    GDCMTests.RegisterCommands(registry, b.gdcm);
    DCMTKTests.RegisterCommands(registry, b.dcmtk);
    ITKTests.RegisterCommands(registry, b.itk);
    VTKTests.RegisterCommands(registry, b.vtk);
    registry.Register(AllCommand);
    Registrations(b);
  }

  /** The catalogue: 34 commands with every backend, only "all" with none. */
  lemma CatalogueSize(b: Backends)
    ensures |Catalogue(b)| ==
              (if b.gdcm then 11 else 0) + (if b.dcmtk then 11 else 0) +
              (if b.itk then 6 else 0) + (if b.vtk then 5 else 0) + 1
    ensures |Catalogue(Everything)| == 34
    ensures Catalogue(Nothing) == [AllCommand]
  {
    GDCMTests.Names();
    DCMTKTests.Names();
    ITKTests.Names();
    VTKTests.Names();
  }

  /** A name is in the catalogue exactly when an enabled table has it or it is "all". */
  lemma CatalogueNamed(b: Backends, n: string)
    ensures Named(Catalogue(b), n) <==>
              (b.gdcm && Named(GDCMTests.Commands, n)) || (b.dcmtk && Named(DCMTKTests.Commands, n)) ||
              (b.itk && Named(ITKTests.Commands, n)) || (b.vtk && Named(VTKTests.Commands, n)) ||
              n == "all"
  {
    var g, d := Part(b.gdcm, GDCMTests.Commands), Part(b.dcmtk, DCMTKTests.Commands);
    var i, v := Part(b.itk, ITKTests.Commands), Part(b.vtk, VTKTests.Commands);
    NamedAppend(g, d, n);
    NamedAppend(g + d, i, n);
    NamedAppend(g + d + i, v, n);
    NamedAppend(g + d + i + v, [AllCommand], n);
    assert Named([AllCommand], n) <==> n == "all" by {
      if n == "all" { assert [AllCommand][0].name == n; }
    }
  }

  /** Each suite name belongs to its own table only. */
  lemma GdcmSuiteHome()
    ensures !Named(DCMTKTests.Commands, "test-gdcm") && !Named(ITKTests.Commands, "test-gdcm") && !Named(VTKTests.Commands, "test-gdcm")
  {
    DCMTKTests.Prefixed();
    NotPrefix("dcmtk:", "test-gdcm");
    Outside(DCMTKTests.Commands, "dcmtk:", "test-dcmtk", "test-gdcm");
    ITKTests.Prefixed();
    NotPrefix("itk:", "test-gdcm");
    Outside(ITKTests.Commands, "itk:", "test-itk", "test-gdcm");
    VTKTests.Prefixed();
    NotPrefix("vtk:", "test-gdcm");
    Outside(VTKTests.Commands, "vtk:", "test-vtk", "test-gdcm");
  }

  lemma DcmtkSuiteHome()
    ensures !Named(GDCMTests.Commands, "test-dcmtk") && !Named(ITKTests.Commands, "test-dcmtk") && !Named(VTKTests.Commands, "test-dcmtk")
  {
    GDCMTests.Prefixed();
    NotPrefix("gdcm:", "test-dcmtk");
    Outside(GDCMTests.Commands, "gdcm:", "test-gdcm", "test-dcmtk");
    ITKTests.Prefixed();
    NotPrefix("itk:", "test-dcmtk");
    Outside(ITKTests.Commands, "itk:", "test-itk", "test-dcmtk");
    VTKTests.Prefixed();
    NotPrefix("vtk:", "test-dcmtk");
    Outside(VTKTests.Commands, "vtk:", "test-vtk", "test-dcmtk");
  }

  lemma ItkSuiteHome()
    ensures !Named(GDCMTests.Commands, "test-itk") && !Named(DCMTKTests.Commands, "test-itk") && !Named(VTKTests.Commands, "test-itk")
  {
    GDCMTests.Prefixed();
    NotPrefix("gdcm:", "test-itk");
    Outside(GDCMTests.Commands, "gdcm:", "test-gdcm", "test-itk");
    DCMTKTests.Prefixed();
    NotPrefix("dcmtk:", "test-itk");
    Outside(DCMTKTests.Commands, "dcmtk:", "test-dcmtk", "test-itk");
    VTKTests.Prefixed();
    NotPrefix("vtk:", "test-itk");
    Outside(VTKTests.Commands, "vtk:", "test-vtk", "test-itk");
  }

  lemma VtkSuiteHome()
    ensures !Named(GDCMTests.Commands, "test-vtk") && !Named(DCMTKTests.Commands, "test-vtk") && !Named(ITKTests.Commands, "test-vtk")
  {
    GDCMTests.Prefixed();
    NotPrefix("gdcm:", "test-vtk");
    Outside(GDCMTests.Commands, "gdcm:", "test-gdcm", "test-vtk");
    DCMTKTests.Prefixed();
    NotPrefix("dcmtk:", "test-vtk");
    Outside(DCMTKTests.Commands, "dcmtk:", "test-dcmtk", "test-vtk");
    ITKTests.Prefixed();
    NotPrefix("itk:", "test-vtk");
    Outside(ITKTests.Commands, "itk:", "test-itk", "test-vtk");
  }

  // ---------------------------------------------------------------------------
  // Running the catalogue's commands
  // ---------------------------------------------------------------------------

  /** Every command is a feature command that returns 0. */
  predicate FeatureTable(cs: seq<Command>) {
    forall k :: 0 <= k < |cs| ==> cs[k].action.Feature? && cs[k].action.status == 0
  }

  lemma FeatureAppend(a: seq<Command>, b: seq<Command>)
    requires FeatureTable(a) && FeatureTable(b)
    ensures FeatureTable(a + b)
  {
    forall k | 0 <= k < |a + b| ensures (a + b)[k].action.Feature? && (a + b)[k].action.status == 0 {
      if k < |a| {
        assert (a + b)[k] == a[k];
      } else {
        assert (a + b)[k] == b[k - |a|];
      }
    }
  }

  /** Apart from "all", every command of the catalogue is a feature command returning 0. */
  lemma HooksAreFeatures(b: Backends)
    ensures FeatureTable(Hooks(b))
  {
    var g, d := Part(b.gdcm, GDCMTests.Commands), Part(b.dcmtk, DCMTKTests.Commands);
    var i, v := Part(b.itk, ITKTests.Commands), Part(b.vtk, VTKTests.Commands);
    GDCMTests.Table();
    DCMTKTests.Table();
    ITKTests.Table();
    VTKTests.Table();
    assert FeatureTable(g) && FeatureTable(d) && FeatureTable(i) && FeatureTable(v);
    FeatureAppend(g, d);
    FeatureAppend(g + d, i);
    FeatureAppend(g + d + i, v);
  }

  /** A suite that sits at position `k` when its backend is on, and is missing otherwise. */
  lemma SuiteSlot(cs: seq<Command>, on: bool, k: nat, c: Command, ctx: Context)
    requires UniqueNames(cs)
    requires on ==> k < |cs| && cs[k] == c && c.action.Feature? && c.action.status == 0
    requires !on ==> !Named(cs, c.name)
    ensures FeatureOrMissing(cs, c.name)
    ensures SuiteStatus(cs, c.name) == if on then 0 else 1
    ensures SuiteEvents(cs, c.name, ctx) == if on then Trace(c.action.steps, ctx) else []
  {
    if on {
      SuitePresent(cs, k, ctx);
    } else {
      SuiteMissing(cs, c.name, ctx);
    }
  }

  /** The feature calls "all" makes: each enabled backend's suite, in hook order. */
  function SuiteCalls(b: Backends, ctx: Context): seq<Event> {
    (if b.gdcm then Trace(GDCMTests.SuiteSteps, ctx) else []) +
    (if b.dcmtk then Trace(DCMTKTests.SuiteSteps, ctx) else []) +
    (if b.itk then Trace(ITKTests.SuiteSteps, ctx) else []) +
    (if b.vtk then Trace(VTKTests.SuiteSteps, ctx) else [])
  }

  /** `test-gdcm`, run from the catalogue, is GDCMTests' suite when gdcm is built in and missing otherwise. */
  lemma GdcmSuiteRun(b: Backends, ctx: Context)
    ensures FeatureOrMissing(Catalogue(b), "test-gdcm")
    ensures SuiteStatus(Catalogue(b), "test-gdcm") == (if b.gdcm then 0 else 1)
    ensures SuiteEvents(Catalogue(b), "test-gdcm", ctx) == (if b.gdcm then Trace(GDCMTests.SuiteSteps, ctx) else [])
  {
    var g, d := Part(b.gdcm, GDCMTests.Commands), Part(b.dcmtk, DCMTKTests.Commands);
    var i := Part(b.itk, ITKTests.Commands);
    Registrations(b);
    GDCMTests.Suite();
    GdcmSuiteHome();
    CatalogueNamed(b, "test-gdcm");
    SuiteSlot(Catalogue(b), b.gdcm, 0, GDCMTests.TestGdcm, ctx);
  }

  /** `test-dcmtk`, run from the catalogue, is DCMTKTests' suite when dcmtk is built in and missing otherwise. */
  lemma DcmtkSuiteRun(b: Backends, ctx: Context)
    ensures FeatureOrMissing(Catalogue(b), "test-dcmtk")
    ensures SuiteStatus(Catalogue(b), "test-dcmtk") == (if b.dcmtk then 0 else 1)
    ensures SuiteEvents(Catalogue(b), "test-dcmtk", ctx) == (if b.dcmtk then Trace(DCMTKTests.SuiteSteps, ctx) else [])
  {
    var g, d := Part(b.gdcm, GDCMTests.Commands), Part(b.dcmtk, DCMTKTests.Commands);
    var i := Part(b.itk, ITKTests.Commands);
    Registrations(b);
    DCMTKTests.Suite();
    DcmtkSuiteHome();
    CatalogueNamed(b, "test-dcmtk");
    SuiteSlot(Catalogue(b), b.dcmtk, |g|, DCMTKTests.TestDcmtk, ctx);
  }

  /** `test-itk`, run from the catalogue, is ITKTests' suite when itk is built in and missing otherwise. */
  lemma ItkSuiteRun(b: Backends, ctx: Context)
    ensures FeatureOrMissing(Catalogue(b), "test-itk")
    ensures SuiteStatus(Catalogue(b), "test-itk") == (if b.itk then 0 else 1)
    ensures SuiteEvents(Catalogue(b), "test-itk", ctx) == (if b.itk then Trace(ITKTests.SuiteSteps, ctx) else [])
  {
    var g, d := Part(b.gdcm, GDCMTests.Commands), Part(b.dcmtk, DCMTKTests.Commands);
    var i := Part(b.itk, ITKTests.Commands);
    Registrations(b);
    ITKTests.Suite();
    ItkSuiteHome();
    CatalogueNamed(b, "test-itk");
    SuiteSlot(Catalogue(b), b.itk, |g| + |d|, ITKTests.TestItk, ctx);
  }

  /** `test-vtk`, run from the catalogue, is VTKTests' suite when vtk is built in and missing otherwise. */
  lemma VtkSuiteRun(b: Backends, ctx: Context)
    ensures FeatureOrMissing(Catalogue(b), "test-vtk")
    ensures SuiteStatus(Catalogue(b), "test-vtk") == (if b.vtk then 0 else 1)
    ensures SuiteEvents(Catalogue(b), "test-vtk", ctx) == (if b.vtk then Trace(VTKTests.SuiteSteps, ctx) else [])
  {
    var g, d := Part(b.gdcm, GDCMTests.Commands), Part(b.dcmtk, DCMTKTests.Commands);
    var i := Part(b.itk, ITKTests.Commands);
    Registrations(b);
    VTKTests.Suite();
    VtkSuiteHome();
    CatalogueNamed(b, "test-vtk");
    SuiteSlot(Catalogue(b), b.vtk, |g| + |d| + |i|, VTKTests.TestVtk, ctx);
  }

  /** "all" runs feature suites only: each of its suites is a feature command or missing. */
  lemma SuitesInCatalogue(b: Backends, ctx: Context)
    ensures FeatureSuites(Catalogue(b), Suites)
  {
    GdcmSuiteRun(b, ctx);
    DcmtkSuiteRun(b, ctx);
    ItkSuiteRun(b, ctx);
    VtkSuiteRun(b, ctx);
    FourSuites(Catalogue(b), "test-gdcm", "test-dcmtk", "test-itk", "test-vtk");
  }

  lemma FourSuites(cs: seq<Command>, s0: string, s1: string, s2: string, s3: string)
    requires FeatureOrMissing(cs, s0) && FeatureOrMissing(cs, s1)
    requires FeatureOrMissing(cs, s2) && FeatureOrMissing(cs, s3)
    ensures FeatureSuites(cs, [s0, s1, s2, s3])
  {
  }

  /** The feature calls of four suites, one after another. */
  lemma {:induction false} TraceFour(cs: seq<Command>, s0: string, s1: string, s2: string, s3: string, ctx: Context)
    ensures SuiteTrace(cs, [s0, s1, s2, s3], ctx) ==
              SuiteEvents(cs, s0, ctx) + SuiteEvents(cs, s1, ctx) + SuiteEvents(cs, s2, ctx) + SuiteEvents(cs, s3, ctx)
  {
    var e0, e1, e2, e3 := SuiteEvents(cs, s0, ctx), SuiteEvents(cs, s1, ctx), SuiteEvents(cs, s2, ctx), SuiteEvents(cs, s3, ctx);
    assert [s0, s1, s2, s3][1..] == [s1, s2, s3];
    assert [s1, s2, s3][1..] == [s2, s3];
    assert [s2, s3][1..] == [s3];
    assert [s3][1..] == [];
    assert SuiteTrace(cs, [s3], ctx) == e3 + [] == e3;
    assert SuiteTrace(cs, [s2, s3], ctx) == e2 + e3;
    assert SuiteTrace(cs, [s1, s2, s3], ctx) == e1 + (e2 + e3);
    AppendAssoc(e1, e2, e3);
    AppendAssoc(e0, e1 + e2, e3);
    AppendAssoc(e0, e1, e2);
  }

  /** Four suites pass together exactly when each one passes. */
  lemma {:induction false} PassFour(cs: seq<Command>, s0: string, s1: string, s2: string, s3: string)
    ensures SuitesPass(cs, [s0, s1, s2, s3]) <==>
              SuiteStatus(cs, s0) == 0 && SuiteStatus(cs, s1) == 0 && SuiteStatus(cs, s2) == 0 && SuiteStatus(cs, s3) == 0
    ensures SuitesFlag(cs, [s0, s1, s2, s3]) <==>
              SuiteStatus(cs, s0) <= 1 && SuiteStatus(cs, s1) <= 1 && SuiteStatus(cs, s2) <= 1 && SuiteStatus(cs, s3) <= 1
  {
    var names := [s0, s1, s2, s3];
    assert names[0] == s0 && names[1] == s1 && names[2] == s2 && names[3] == s3;
    assert forall i :: 0 <= i < |names| ==> names[i] == s0 || names[i] == s1 || names[i] == s2 || names[i] == s3;
  }

  /** The aggregate over four feature-or-missing suites whose statuses are 0 or 1. */
  lemma {:induction false} RunFour(cs: seq<Command>, s0: string, s1: string, s2: string, s3: string, ctx: Context, fuel: nat)
    requires fuel > 0 && FeatureSuites(cs, [s0, s1, s2, s3])
    requires SuiteStatus(cs, s0) <= 1 && SuiteStatus(cs, s1) <= 1
    requires SuiteStatus(cs, s2) <= 1 && SuiteStatus(cs, s3) <= 1
    ensures RunEach(cs, [s0, s1, s2, s3], ctx, fuel, 0, []) ==
              Done(if SuiteStatus(cs, s0) == 0 && SuiteStatus(cs, s1) == 0 &&
                      SuiteStatus(cs, s2) == 0 && SuiteStatus(cs, s3) == 0 then 0 else 1,
                   SuiteEvents(cs, s0, ctx) + SuiteEvents(cs, s1, ctx) +
                   SuiteEvents(cs, s2, ctx) + SuiteEvents(cs, s3, ctx))
  {
    var names := [s0, s1, s2, s3];
    AggregateRun(cs, names, ctx, fuel, 0, []);
    FoldStatusCode(cs, names, 0);
    PassFour(cs, s0, s1, s2, s3);
    TraceFour(cs, s0, s1, s2, s3, ctx);
    assert [] + SuiteTrace(cs, names, ctx) == SuiteTrace(cs, names, ctx);
  }

  /** Run("all") finds the aggregate, last in the catalogue, and enters its loop. */
  lemma AllDispatch(b: Backends, ctx: Context)
    ensures RunIn(Catalogue(b), "all", ctx, |Catalogue(b)|) ==
              RunEach(Catalogue(b), Suites, ctx, |Catalogue(b)|, 0, [])
  {
    var cs := Catalogue(b);
    Registrations(b);
    assert cs[|cs| - 1] == AllCommand;
    FindUnique(cs, |cs| - 1);
  }

  /**
   * "all" runs the four suites in order, each once, never stopping early, and
   * returns 0 exactly when all four backends are built in, 1 otherwise.
   */
  lemma AllRunsEverySuite(b: Backends, ctx: Context)
    ensures RunIn(Catalogue(b), "all", ctx, |Catalogue(b)|) ==
              Done(if b.gdcm && b.dcmtk && b.itk && b.vtk then 0 else 1, SuiteCalls(b, ctx))
  {
    var cs := Catalogue(b);
    AllDispatch(b, ctx);
    SuitesInCatalogue(b, ctx);
    GdcmSuiteRun(b, ctx);
    DcmtkSuiteRun(b, ctx);
    ItkSuiteRun(b, ctx);
    VtkSuiteRun(b, ctx);
    RunFour(cs, "test-gdcm", "test-dcmtk", "test-itk", "test-vtk", ctx, |cs|);
  }

  /** A registered table command runs its steps with the context as given and returns 0. */
  lemma CommandRuns(b: Backends, k: nat, ctx: Context)
    requires k < |Hooks(b)|
    ensures RunIn(Catalogue(b), Catalogue(b)[k].name, ctx, |Catalogue(b)|) ==
              Done(0, Trace(Catalogue(b)[k].action.steps, ctx))
  {
    var cs := Catalogue(b);
    Registrations(b);
    HooksAreFeatures(b);
    assert cs[k] == Hooks(b)[k];
    RunFeature(cs, k, ctx, |cs|);
  }

  /**
   * Whatever the name, Run on the catalogue returns normally with status 0 or
   * 1; a name that is not registered gives 1 and calls nothing.
   */
  lemma RunsNormally(b: Backends, name: string, ctx: Context)
    ensures RunIn(Catalogue(b), name, ctx, |Catalogue(b)|).Done?
    ensures RunIn(Catalogue(b), name, ctx, |Catalogue(b)|).status <= 1
    ensures !Named(Catalogue(b), name) ==> RunIn(Catalogue(b), name, ctx, |Catalogue(b)|) == Done(1, [])
  {
    var cs := Catalogue(b);
    match Find(cs, name)
    case None =>
    case Some(k) =>
      if k < |Hooks(b)| {
        CommandRuns(b, k, ctx);
      } else {
        assert cs[k] == AllCommand;
        AllRunsEverySuite(b, ctx);
      }
  }

  // ---------------------------------------------------------------------------
  // main
  // ---------------------------------------------------------------------------

  const Rule := "========================================"

  /** The three lines main writes before anything else. */
  const Banner: seq<Line> := [Text(Rule), Text("      Dicom-Tools-cpp Command Suite     "), Text(Rule)]

  /**
   * How a run ends: the exit status, the lines main itself writes to standard
   * output (not the features' own output) and the features called; or a crash, when an action runs commands without end.
   */
  datatype Termination = Exit(code: Code, stdout: seq<Line>, calls: seq<Event>) | Crash

  /**
   * main against a registry holding `cs`, on `argv`, where `order` is the order
   * in which the grouping map yields the modules, `found` is what
   * FindFirstDicom returns and `outputReady` is what EnsureOutputDir returns.
   */
  function MainWith(cs: seq<Command>, argv: seq<string>, order: seq<string>, found: string, outputReady: bool): (t: Termination)
    ensures t.Exit? ==> |t.stdout| >= |Banner| && t.stdout[..|Banner|] == Banner
    ensures t.Exit? && t.calls != [] ==> outputReady && t.stdout[|t.stdout| - 1] == Text(Rule)
  {
    var o := CLIParser.Parse(argv, Named(cs, "all"));
    var usage := CLIParser.UsageText + Listing(cs, order);
    if o.list then Exit(0, Banner + Listing(cs, order), [])
    else if o.help || o.command == "" then Exit(if o.command == "" then 1 else 0, Banner + usage, [])
    else if !Named(cs, o.command) then Exit(1, Banner + usage, [])
    else Launch(cs, o, found, outputReady)
  }

  /**
   * The part of main after the command is known to exist: fall back to the
   * detected input, make sure of the output directory, run the command.
   */
  function Launch(cs: seq<Command>, o: Options, found: string, outputReady: bool): (t: Termination)
    ensures t.Exit? ==> |t.stdout| >= |Banner| && t.stdout[..|Banner|] == Banner
    ensures t.Exit? && t.calls != [] ==>
              outputReady && (o.inputPath != "" || found != "") && t.stdout[|t.stdout| - 1] == Text(Rule)
  {
    if o.inputPath == "" && found == "" then Exit(1, Banner, [])
    else
      var detected := if o.inputPath == "" then [Text("Auto-detected input file: " + found)] else [];
      if !outputReady then Exit(1, Banner + detected, [])
      else Conclude(RunIn(cs, o.command, ContextFor(o, found), |cs|), Banner + detected)
  }

  /** The context main builds for the parsed options `o`. */
  function ContextFor(o: Options, found: string): Context {
    Context(if o.inputPath == "" then found else o.inputPath, o.outputDir, o.verbose)
  }

  /** The end of main: the closing rule, then the command's status as the exit status. */
  function Conclude(r: Outcome, out: seq<Line>): Termination {
    match r
    case Done(status, calls) => Exit(status, out + [Text(Rule)], calls)
    case Fault => Crash
  }

  /** The program as built with the backends `b`. */
  function Main(b: Backends, argv: seq<string>, order: seq<string>, found: string, outputReady: bool): Termination {
    MainWith(Catalogue(b), argv, order, found, outputReady)
  }

  /** Everything main does once the registry is built: parse, and take the first early return that applies. */
  method Respond(registry: Registry, argv: seq<string>, order: seq<string>, found: string, outputReady: bool)
    returns (t: Termination)
    requires registry.Valid()
    requires Enumerates(order, Modules(registry.ordered))
    ensures t == MainWith(registry.ordered, argv, order, found, outputReady)
  {
    var out := Banner;
    var options := CLIParser.ParseCLIArgs(argv, registry);
    if options.list {
      var listing := registry.List(order);
      return Exit(0, out + listing, []);
    }
    if options.help || options.command == "" {
      var usage := CLIParser.PrintUsage(registry, order);
      return Exit(if options.command == "" then 1 else 0, out + usage, []);
    }
    if !registry.Exists(options.command) {
      // "Unknown command" on the error stream
      var usage := CLIParser.PrintUsage(registry, order);
      return Exit(1, out + usage, []);
    }
    t := Dispatch(registry, options, found, outputReady);
  }

  /** Lines 55-73 of main: the input fallback, the output directory, the run and the closing rule. */
  method Dispatch(registry: Registry, options: Options, found: string, outputReady: bool) returns (t: Termination)
    requires registry.Valid()
    ensures t == Launch(registry.ordered, options, found, outputReady)
  {
    var out := Banner;
    var inputPath := options.inputPath;
    if inputPath == "" {
      inputPath := found;
      if inputPath == "" {
        // "No .dcm file provided" on the error stream
        return Exit(1, out, []);
      }
      out := out + [Text("Auto-detected input file: " + inputPath)];
    }
    if !outputReady {
      return Exit(1, out, []);
    }
    var ctx := Context(inputPath, options.outputDir, options.verbose);
    var result := registry.Run(options.command, ctx);
    match result
    case Done(status, calls) =>
      return Exit(status, out + [Text(Rule)], calls);
    case Fault =>
      return Crash;
  }

  /** main (src/main.cpp:13-74) with the backends `b`. */
  method RunMain(b: Backends, argv: seq<string>, order: seq<string>, found: string, outputReady: bool)
    returns (t: Termination)
    requires Enumerates(order, Modules(Catalogue(b)))
    ensures t == Main(b, argv, order, found, outputReady)
  {
    var registry := BuildRegistry(b);
    t := Respond(registry, argv, order, found, outputReady);
  }

  // ---------------------------------------------------------------------------
  // Exit behaviour
  // ---------------------------------------------------------------------------

  /** `-l` anywhere wins over everything else: the listing is written and main exits 0. */
  lemma ListWins(cs: seq<Command>, argv: seq<string>, order: seq<string>, found: string, outputReady: bool)
    requires CLIParser.Present(CLIParser.Operands(argv), CLIParser.ListFlag)
    ensures MainWith(cs, argv, order, found, outputReady) == Exit(0, Banner + Listing(cs, order), [])
  {
    CLIParser.ParseFlags(argv, Named(cs, "all"));
  }

  /**
   * With no arguments the usage text is written; the exit status is 0 when
   * "all" is registered (help then falls back to it) and 1 otherwise.
   */
  lemma BareInvocation(cs: seq<Command>, prog: string, order: seq<string>, found: string, outputReady: bool)
    ensures MainWith(cs, [prog], order, found, outputReady) ==
              Exit(if Named(cs, "all") then 0 else 1, Banner + CLIParser.UsageText + Listing(cs, order), [])
  {
    CLIParser.NoArguments(prog, Named(cs, "all"));
  }

  /** `-m` alone suppresses the help default, leaves the command empty, and so fails after the usage text. */
  lemma ModulesAlone(cs: seq<Command>, prog: string, order: seq<string>, found: string, outputReady: bool)
    ensures MainWith(cs, [prog, "-m"], order, found, outputReady) ==
              Exit(1, Banner + CLIParser.UsageText + Listing(cs, order), [])
  {
    var argv := [prog, "-m"];
    assert CLIParser.Operands(argv) == [CLIParser.Switch(CLIParser.ModulesFlag, "-m")] by {
      assert CLIParser.Drop(argv, 1) == ["-m"];
      assert ["-m"][1..] == [];
    }
    assert CLIParser.Apply(Defaults, [CLIParser.Switch(CLIParser.ModulesFlag, "-m")]) == Defaults.(modules := true);
    assert CLIParser.Parse(argv, Named(cs, "all")) == Defaults.(modules := true);
  }

  /**
   * `-h` without `-l` and `-m` writes the usage text and exits 0: either a
   * command word was given, or the command falls back to "all".
   */
  lemma HelpExitsZero(cs: seq<Command>, argv: seq<string>, order: seq<string>, found: string, outputReady: bool)
    requires Named(cs, "all")
    requires CLIParser.Present(CLIParser.Operands(argv), CLIParser.HelpFlag)
    requires !CLIParser.Present(CLIParser.Operands(argv), CLIParser.ListFlag)
    requires !CLIParser.Present(CLIParser.Operands(argv), CLIParser.ModulesFlag)
    ensures MainWith(cs, argv, order, found, outputReady) ==
              Exit(0, Banner + CLIParser.UsageText + Listing(cs, order), [])
  {
    CLIParser.ParseFlags(argv, true);
    CLIParser.ParseCommand(argv, true);
  }

  /** A first command word that is not registered: the usage text, exit 1, and nothing runs. */
  lemma UnknownCommand(cs: seq<Command>, argv: seq<string>, order: seq<string>, found: string, outputReady: bool)
    requires CLIParser.HasCommandWord(CLIParser.Operands(argv))
    requires !CLIParser.Present(CLIParser.Operands(argv), CLIParser.ListFlag)
    requires !CLIParser.Present(CLIParser.Operands(argv), CLIParser.HelpFlag)
    requires !Named(cs, CLIParser.Operands(argv)[CLIParser.FirstCommandWord(CLIParser.Operands(argv))].text)
    ensures MainWith(cs, argv, order, found, outputReady) ==
              Exit(1, Banner + CLIParser.UsageText + Listing(cs, order), [])
  {
    CLIParser.ParseFlags(argv, Named(cs, "all"));
    CLIParser.ParseCommand(argv, Named(cs, "all"));
  }

  /**
   * A registered command with no `-i` value and nothing found to fall back
   * on: main exits 1 after the banner, before running anything.
   */
  lemma MissingInput(cs: seq<Command>, argv: seq<string>, order: seq<string>, outputReady: bool)
    requires CLIParser.HasCommandWord(CLIParser.Operands(argv))
    requires !CLIParser.Present(CLIParser.Operands(argv), CLIParser.ListFlag)
    requires !CLIParser.Present(CLIParser.Operands(argv), CLIParser.HelpFlag)
    requires Named(cs, CLIParser.Operands(argv)[CLIParser.FirstCommandWord(CLIParser.Operands(argv))].text)
    requires forall k :: 0 <= k < |CLIParser.Operands(argv)| ==> !CLIParser.Assigns(CLIParser.Operands(argv)[k], CLIParser.InputFlag)
    ensures MainWith(cs, argv, order, "", outputReady) == Exit(1, Banner, [])
  {
    CLIParser.ParseFlags(argv, Named(cs, "all"));
    CLIParser.ParseCommand(argv, Named(cs, "all"));
    CLIParser.ParseValues(argv, Named(cs, "all"), CLIParser.InputFlag);
  }

  /**
   * No feature runs unless the command was known, an input path was given
   * or found, and the output directory is ready; without a command word
   * nothing runs at all, since the fallback to "all" comes with help.
   */
  lemma NothingRunsEarly(cs: seq<Command>, argv: seq<string>, order: seq<string>, found: string, outputReady: bool)
    ensures MainWith(cs, argv, order, found, outputReady).Exit? && MainWith(cs, argv, order, found, outputReady).calls != [] ==>
              var o := CLIParser.Parse(argv, Named(cs, "all"));
              !o.list && !o.help && Named(cs, o.command) && (o.inputPath != "" || found != "") && outputReady
    ensures !CLIParser.HasCommandWord(CLIParser.Operands(argv)) ==>
              MainWith(cs, argv, order, found, outputReady) == Exit(if Named(cs, "all") then 0 else 1, Banner + CLIParser.UsageText + Listing(cs, order), []) ||
              MainWith(cs, argv, order, found, outputReady) == Exit(1, Banner + CLIParser.UsageText + Listing(cs, order), []) ||
              MainWith(cs, argv, order, found, outputReady) == Exit(0, Banner + Listing(cs, order), [])
  {
    CLIParser.ParseFlags(argv, Named(cs, "all"));
    CLIParser.ParseCommand(argv, Named(cs, "all"));
  }

  /** main exits 0 or 1 whenever the command it would run does. */
  lemma {:induction false} ExitsLikeCommand(cs: seq<Command>, argv: seq<string>, order: seq<string>, found: string, outputReady: bool)
    requires var o := CLIParser.Parse(argv, Named(cs, "all"));
             RunIn(cs, o.command, ContextFor(o, found), |cs|).Done? && RunIn(cs, o.command, ContextFor(o, found), |cs|).status <= 1
    ensures MainWith(cs, argv, order, found, outputReady).Exit?
    ensures MainWith(cs, argv, order, found, outputReady).code <= 1
  {
    var o := CLIParser.Parse(argv, Named(cs, "all"));
    if !o.list && !o.help && o.command != "" && Named(cs, o.command) {
      LaunchLikeCommand(cs, o, found, outputReady);
    }
  }

  lemma {:induction false} LaunchLikeCommand(cs: seq<Command>, o: Options, found: string, outputReady: bool)
    requires RunIn(cs, o.command, ContextFor(o, found), |cs|).Done? && RunIn(cs, o.command, ContextFor(o, found), |cs|).status <= 1
    ensures Launch(cs, o, found, outputReady).Exit? && Launch(cs, o, found, outputReady).code <= 1
  {
    if (o.inputPath != "" || found != "") && outputReady {
      var r := RunIn(cs, o.command, ContextFor(o, found), |cs|);
      var detected := if o.inputPath == "" then [Text("Auto-detected input file: " + found)] else [];
      assert Launch(cs, o, found, outputReady) == Conclude(r, Banner + detected);
    }
  }

  /** Built with any set of backends, main returns normally, with status 0 or 1. */
  lemma ExitsNormally(b: Backends, argv: seq<string>, order: seq<string>, found: string, outputReady: bool)
    ensures Main(b, argv, order, found, outputReady).Exit?
    ensures Main(b, argv, order, found, outputReady).code <= 1
  {
    var cs := Catalogue(b);
    var o := CLIParser.Parse(argv, Named(cs, "all"));
    RunsNormally(b, o.command, ContextFor(o, found));
    ExitsLikeCommand(cs, argv, order, found, outputReady);
  }

  // ---------------------------------------------------------------------------
  // Whole runs
  // ---------------------------------------------------------------------------

  /** Once the parse is known and every check passes, main's result is the command's. */
  lemma {:induction false} RunsParsed(cs: seq<Command>, argv: seq<string>, order: seq<string>, found: string, o: Options)
    requires CLIParser.Parse(argv, Named(cs, "all")) == o
    requires !o.list && !o.help && o.command != "" && Named(cs, o.command)
    requires o.inputPath != "" || found != ""
    ensures MainWith(cs, argv, order, found, true) ==
              Conclude(RunIn(cs, o.command, ContextFor(o, found), |cs|),
                       Banner + (if o.inputPath == "" then [Text("Auto-detected input file: " + found)] else []))
  {
  }

  /** A single word that is not an option becomes the command, and nothing else is set. */
  lemma ParsesCommandAlone(prog: string, word: string, hasAll: bool)
    requires word != "" && CLIParser.FlagOf(word).None?
    ensures CLIParser.Parse([prog, word], hasAll) == Defaults.(command := word)
  {
    assert CLIParser.Drop([prog, word], 1) == [word];
    assert [word][1..] == [];
    assert CLIParser.Tokenize([word]) == [CLIParser.Word(word)];
    assert CLIParser.Apply(Defaults, [CLIParser.Word(word)]) == Defaults.(command := word);
  }

  /** `gdcm:tags -i scan.dcm`: the command and the input path, nothing else. */
  lemma ParsesTagsExample(hasAll: bool)
    ensures CLIParser.Parse(["DicomTools", "gdcm:tags", "-i", "scan.dcm"], hasAll) ==
              Defaults.(command := "gdcm:tags", inputPath := "scan.dcm")
  {
    assert CLIParser.Drop(["DicomTools", "gdcm:tags", "-i", "scan.dcm"], 1) == ["gdcm:tags", "-i", "scan.dcm"];
    assert ["gdcm:tags", "-i", "scan.dcm"][1..] == ["-i", "scan.dcm"];
    assert ["-i", "scan.dcm"][2..] == [];
    assert CLIParser.Operands(["DicomTools", "gdcm:tags", "-i", "scan.dcm"]) ==
           [CLIParser.Word("gdcm:tags"), CLIParser.Valued(CLIParser.InputFlag, "-i", "scan.dcm")];
  }

  /** `prog word` with an auto-detected input, against any registry that has `word`. */
  lemma {:induction false} RunsWordAlone(cs: seq<Command>, prog: string, word: string, order: seq<string>, found: string)
    requires word != "" && CLIParser.FlagOf(word).None? && Named(cs, word) && found != ""
    requires RunIn(cs, word, Context(found, "output", false), |cs|).Done?
    ensures MainWith(cs, [prog, word], order, found, true) ==
              Exit(RunIn(cs, word, Context(found, "output", false), |cs|).status,
                   Banner + [Text("Auto-detected input file: " + found), Text(Rule)],
                   RunIn(cs, word, Context(found, "output", false), |cs|).trace)
  {
    ParsesCommandAlone(prog, word, Named(cs, "all"));
    RunsParsed(cs, [prog, word], order, found, Defaults.(command := word));
  }

  /**
   * `DicomTools all` with an auto-detected input: the detection line, the four
   * suites in order with the detected file, the closing rule, and exit 0
   * exactly when every backend is built in.
   */
  lemma RunAllEndToEnd(b: Backends, prog: string, order: seq<string>, found: string)
    requires found != ""
    ensures Main(b, [prog, "all"], order, found, true) ==
              Exit(if b.gdcm && b.dcmtk && b.itk && b.vtk then 0 else 1,
                   Banner + [Text("Auto-detected input file: " + found), Text(Rule)],
                   SuiteCalls(b, Context(found, "output", false)))
  {
    CatalogueNamed(b, "all");
    AllRunsEverySuite(b, Context(found, "output", false));
    RunsWordAlone(Catalogue(b), prog, "all", order, found);
  }

  /** `gdcm:tags -i scan.dcm` against any registry in which that name runs a feature command. */
  lemma {:induction false} TagsWith(cs: seq<Command>, order: seq<string>, found: string)
    requires Named(cs, "gdcm:tags")
    requires RunIn(cs, "gdcm:tags", Context("scan.dcm", "output", false), |cs|).Done?
    ensures MainWith(cs, ["DicomTools", "gdcm:tags", "-i", "scan.dcm"], order, found, true) ==
              Exit(RunIn(cs, "gdcm:tags", Context("scan.dcm", "output", false), |cs|).status, Banner + [Text(Rule)],
                   RunIn(cs, "gdcm:tags", Context("scan.dcm", "output", false), |cs|).trace)
  {
    ParsesTagsExample(Named(cs, "all"));
    RunsParsed(cs, ["DicomTools", "gdcm:tags", "-i", "scan.dcm"], order, found,
               Defaults.(command := "gdcm:tags", inputPath := "scan.dcm"));
  }

  /** `DicomTools gdcm:tags -i scan.dcm` with GDCM: one tag inspection of scan.dcm, then exit 0. */
  lemma TagsEndToEnd(b: Backends, order: seq<string>, found: string)
    requires b.gdcm
    ensures Main(b, ["DicomTools", "gdcm:tags", "-i", "scan.dcm"], order, found, true) ==
              Exit(0, Banner + [Text(Rule)], [Invoked(TagInspection, Context("scan.dcm", "output", false))])
  {
    var cs := Catalogue(b);
    var ctx := Context("scan.dcm", "output", false);
    TagsSlot(b);
    CommandRuns(b, 1, ctx);
    assert Named(cs, "gdcm:tags");
    TagsWith(cs, order, found);
  }

  /** With GDCM, "gdcm:tags" is the second command of the catalogue. */
  lemma TagsSlot(b: Backends)
    requires b.gdcm
    ensures 1 < |Hooks(b)| && Catalogue(b)[1] == GDCMTests.Tags
  {
    var rest := Part(b.dcmtk, DCMTKTests.Commands) + Part(b.itk, ITKTests.Commands) + Part(b.vtk, VTKTests.Commands);
    assert Hooks(b) == GDCMTests.Commands + rest;
    assert Catalogue(b) == GDCMTests.Commands + (rest + [AllCommand]);
  }

  /** "gdcm:tags" belongs to no other backend's table. */
  lemma TagsHome()
    ensures !Named(DCMTKTests.Commands, "gdcm:tags") && !Named(ITKTests.Commands, "gdcm:tags") && !Named(VTKTests.Commands, "gdcm:tags")
  {
    DCMTKTests.Prefixed();
    NotPrefix("dcmtk:", "gdcm:tags");
    Outside(DCMTKTests.Commands, "dcmtk:", "test-dcmtk", "gdcm:tags");
    ITKTests.Prefixed();
    NotPrefix("itk:", "gdcm:tags");
    Outside(ITKTests.Commands, "itk:", "test-itk", "gdcm:tags");
    VTKTests.Prefixed();
    NotPrefix("vtk:", "gdcm:tags");
    Outside(VTKTests.Commands, "vtk:", "test-vtk", "gdcm:tags");
  }

  /** Built without GDCM, `DicomTools gdcm:tags` is an unknown command: the usage text and exit 1. */
  lemma TagsWithoutGdcm(b: Backends, order: seq<string>, found: string, outputReady: bool)
    requires !b.gdcm
    ensures Main(b, ["DicomTools", "gdcm:tags"], order, found, outputReady) ==
              Exit(1, Banner + CLIParser.UsageText + Listing(Catalogue(b), order), [])
  {
    var cs := Catalogue(b);
    CatalogueNamed(b, "gdcm:tags");
    TagsHome();
    UnknownWordAlone(cs, "DicomTools", "gdcm:tags", order, found, outputReady);
  }

  /** `prog word` for a word that is not an option and not registered: the usage text and exit 1. */
  lemma {:induction false} UnknownWordAlone(cs: seq<Command>, prog: string, word: string, order: seq<string>, found: string, outputReady: bool)
    requires word != "" && CLIParser.FlagOf(word).None? && !Named(cs, word)
    ensures MainWith(cs, [prog, word], order, found, outputReady) ==
              Exit(1, Banner + CLIParser.UsageText + Listing(cs, order), [])
  {
    ParsesCommandAlone(prog, word, Named(cs, "all"));
  }
}
