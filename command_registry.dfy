/**
 * The command registry: the catalogue of named commands, grouped by module,
 * kept in insertion order with a name-to-position index.
 *
 * The catalogue is first described by pure functions over the sequence of
 * accepted commands (Admit, Find, RunIn, Listing); the class Registry then
 * keeps that sequence together with the index, as the C++ class does, and its
 * members are proved to agree with the pure description.
 */
module CommandRegistry {
  import opened Status
  import opened FeatureSteps
  import opened Wrappers

  /** CommandContext: what every action receives. */
  datatype Context = Context(inputPath: string, outputDir: string, verbose: bool)

  /**
   * The `std::function<int(const CommandContext&)>` of a command, as the
   * tool's own tables fill it in.
   */
  datatype Action =
    | Empty                                    // an empty std::function
    | Feature(steps: seq<Step>, status: Code)  // calls these feature actions in order, then returns `status`
    | RunAll(suites: seq<string>)              // the aggregate: `rc |= Run(s, ctx)` for each suite s, then `rc`

  datatype Command = Command(name: string, moduleName: string, description: string, action: Action)

  /** One call of a feature action, with the context it was given. */
  datatype Event = Invoked(step: Step, ctx: Context)

  /**
   * What running a command does: it returns a status after the feature calls
   * in `trace`, or it does not return normally (`Fault`), which is what the
   * C++ code does on calling an empty std::function or on aggregates nested
   * deeper than the model's bound.
   */
  datatype Outcome = Done(status: Code, trace: seq<Event>) | Fault

  // ---------------------------------------------------------------------------
  // The catalogue as a sequence of accepted commands
  // ---------------------------------------------------------------------------

  /** Register drops a command with an empty name or an empty action. */
  predicate Acceptable(c: Command) {
    c.name != "" && !c.action.Empty?
  }

  predicate Named(cs: seq<Command>, name: string) {
    exists k :: 0 <= k < |cs| && cs[k].name == name
  }

  predicate UniqueNames(cs: seq<Command>) {
    forall i, j :: 0 <= i < j < |cs| ==> cs[i].name != cs[j].name
  }

  /** The catalogue after one Register call. */
  function Admit(cs: seq<Command>, c: Command): seq<Command> {
    if Acceptable(c) && !Named(cs, c.name) then cs + [c] else cs
  }

  /**
   * Register keeps every earlier entry and appends `c` exactly when it has a
   * name and an action and its name is new (first writer wins), so names stay
   * unique and the registered names grow by `c.name` at most.
   */
  lemma AdmitSpec(cs: seq<Command>, c: Command)
    ensures |cs| <= |Admit(cs, c)| <= |cs| + 1 && Admit(cs, c)[..|cs|] == cs
    ensures |Admit(cs, c)| == |cs| + 1 <==> Acceptable(c) && !Named(cs, c.name)
    ensures |Admit(cs, c)| == |cs| + 1 ==> Admit(cs, c)[|cs|] == c
    ensures UniqueNames(cs) ==> UniqueNames(Admit(cs, c))
    ensures forall n :: Named(Admit(cs, c), n) <==> Named(cs, n) || (n == c.name && Acceptable(c))
  {
    var r := Admit(cs, c);
    if Acceptable(c) && !Named(cs, c.name) {
      assert r[|cs|].name == c.name;
      forall n | Named(cs, n) ensures Named(r, n) {
        var k :| 0 <= k < |cs| && cs[k].name == n;
        assert r[k] == cs[k];
      }
    }
  }

  /** The catalogue after registering `xs` in order. */
  function AdmitAll(cs: seq<Command>, xs: seq<Command>): seq<Command>
    decreases |xs|
  {
    if xs == [] then cs else Admit(AdmitAll(cs, xs[..|xs| - 1]), xs[|xs| - 1])
  }

  /** Registering several commands keeps the earlier entries, adds at most one per command and keeps names unique. */
  lemma {:induction false} AdmitAllSpec(cs: seq<Command>, xs: seq<Command>)
    ensures |cs| <= |AdmitAll(cs, xs)| <= |cs| + |xs| && AdmitAll(cs, xs)[..|cs|] == cs
    ensures UniqueNames(cs) ==> UniqueNames(AdmitAll(cs, xs))
    decreases |xs|
  {
    if xs != [] {
      var prev := AdmitAll(cs, xs[..|xs| - 1]);
      AdmitAllSpec(cs, xs[..|xs| - 1]);
      AdmitSpec(prev, xs[|xs| - 1]);
      assert AdmitAll(cs, xs)[..|cs|] == prev[..|cs|];
    }
  }

  lemma AdmitAllSnoc(cs: seq<Command>, xs: seq<Command>, x: Command)
    ensures AdmitAll(cs, xs + [x]) == Admit(AdmitAll(cs, xs), x)
  {
    assert (xs + [x])[..|xs|] == xs;
  }

  /**
   * Registrations with non-empty, pairwise distinct, not yet registered names
   * and non-empty actions are all accepted, in order.
   */
  lemma {:induction false} AdmitAllFresh(cs: seq<Command>, xs: seq<Command>)
    requires UniqueNames(xs)
    requires forall k :: 0 <= k < |xs| ==> Acceptable(xs[k]) && !Named(cs, xs[k].name)
    ensures AdmitAll(cs, xs) == cs + xs
  {
    if xs != [] {
      var init, last := xs[..|xs| - 1], xs[|xs| - 1];
      assert forall k :: 0 <= k < |init| ==> init[k] == xs[k];
      AdmitAllFresh(cs, init);
      assert !Named(cs + init, last.name) by {
        forall k | 0 <= k < |cs + init| ensures (cs + init)[k].name != last.name {
          if k >= |cs| {
            assert (cs + init)[k] == xs[k - |cs|];
          }
        }
      }
      AppendAssoc(cs, init, [last]);
      assert init + [last] == xs;
    }
  }

  /**
   * Registering a table of five, six or eleven commands, one Register call
   * after another, is one Admit per command in table order.
   */
  lemma AdmitAll5(cs: seq<Command>, x0: Command, x1: Command, x2: Command, x3: Command, x4: Command)
    ensures AdmitAll(cs, [x0, x1, x2, x3, x4]) == Admit(Admit(Admit(Admit(Admit(cs, x0), x1), x2), x3), x4)
  {
    ghost var done: seq<Command> := [];
    AdmitAllSnoc(cs, done, x0); done := done + [x0];
    AdmitAllSnoc(cs, done, x1); done := done + [x1];
    AdmitAllSnoc(cs, done, x2); done := done + [x2];
    AdmitAllSnoc(cs, done, x3); done := done + [x3];
    AdmitAllSnoc(cs, done, x4); done := done + [x4];
    assert done == [x0, x1, x2, x3, x4];
  }

  lemma AdmitAll6(cs: seq<Command>, x0: Command, x1: Command, x2: Command, x3: Command, x4: Command, x5: Command)
    ensures AdmitAll(cs, [x0, x1, x2, x3, x4, x5]) == Admit(Admit(Admit(Admit(Admit(Admit(cs, x0), x1), x2), x3), x4), x5)
  {
    ghost var done: seq<Command> := [];
    AdmitAllSnoc(cs, done, x0); done := done + [x0];
    AdmitAllSnoc(cs, done, x1); done := done + [x1];
    AdmitAllSnoc(cs, done, x2); done := done + [x2];
    AdmitAllSnoc(cs, done, x3); done := done + [x3];
    AdmitAllSnoc(cs, done, x4); done := done + [x4];
    AdmitAllSnoc(cs, done, x5); done := done + [x5];
    assert done == [x0, x1, x2, x3, x4, x5];
  }

  lemma AdmitAll11(cs: seq<Command>, x0: Command, x1: Command, x2: Command, x3: Command, x4: Command, x5: Command, x6: Command, x7: Command, x8: Command, x9: Command, x10: Command)
    ensures AdmitAll(cs, [x0, x1, x2, x3, x4, x5, x6, x7, x8, x9, x10]) == Admit(Admit(Admit(Admit(Admit(Admit(Admit(Admit(Admit(Admit(Admit(cs, x0), x1), x2), x3), x4), x5), x6), x7), x8), x9), x10)
  {
    ghost var done: seq<Command> := [];
    AdmitAllSnoc(cs, done, x0); done := done + [x0];
    AdmitAllSnoc(cs, done, x1); done := done + [x1];
    AdmitAllSnoc(cs, done, x2); done := done + [x2];
    AdmitAllSnoc(cs, done, x3); done := done + [x3];
    AdmitAllSnoc(cs, done, x4); done := done + [x4];
    AdmitAllSnoc(cs, done, x5); done := done + [x5];
    AdmitAllSnoc(cs, done, x6); done := done + [x6];
    AdmitAllSnoc(cs, done, x7); done := done + [x7];
    AdmitAllSnoc(cs, done, x8); done := done + [x8];
    AdmitAllSnoc(cs, done, x9); done := done + [x9];
    AdmitAllSnoc(cs, done, x10); done := done + [x10];
    assert done == [x0, x1, x2, x3, x4, x5, x6, x7, x8, x9, x10];
  }

  /** Every name is the `suite` name or starts with `prefix`: how each backend names its commands. */
  predicate Namespaced(cs: seq<Command>, prefix: string, suite: string) {
    forall k :: 0 <= k < |cs| ==> cs[k].name == suite || prefix <= cs[k].name
  }

  /** None of the names of `xs` is registered in `cs`. */
  predicate Unregistered(cs: seq<Command>, xs: seq<Command>) {
    forall k :: 0 <= k < |xs| ==> !Named(cs, xs[k].name)
  }

  lemma NamedAppend(a: seq<Command>, b: seq<Command>, n: string)
    ensures Named(a + b, n) <==> Named(a, n) || Named(b, n)
  {
    if Named(a + b, n) {
      var k :| 0 <= k < |a + b| && (a + b)[k].name == n;
      if k >= |a| { assert b[k - |a|] == (a + b)[k]; }
    }
    if Named(a, n) {
      var k :| 0 <= k < |a| && a[k].name == n;
      assert (a + b)[k] == a[k];
    }
    if Named(b, n) {
      var k :| 0 <= k < |b| && b[k].name == n;
      assert (a + b)[|a| + k] == b[k];
    }
  }

  /**
   * Two namespaced tables share no name when their prefixes start with
   * different letters and neither suite name falls under the other's prefix.
   */
  lemma Apart(a: seq<Command>, p: string, s: string, b: seq<Command>, q: string, t: string)
    requires Namespaced(a, p, s) && Namespaced(b, q, t)
    requires p != "" && q != "" && p[0] != q[0]
    requires s != t && !(q <= s) && !(p <= t)
    ensures Unregistered(a, b)
  {
    forall k | 0 <= k < |b| ensures !Named(a, b[k].name) {
      forall i | 0 <= i < |a| ensures a[i].name != b[k].name {
        if a[i].name != s && b[k].name != t {
          assert a[i].name[0] == p[0] && b[k].name[0] == q[0];
        }
      }
    }
  }

  lemma UnregisteredAppend(a: seq<Command>, b: seq<Command>, xs: seq<Command>)
    requires Unregistered(a, xs) && Unregistered(b, xs)
    ensures Unregistered(a + b, xs)
  {
    forall k | 0 <= k < |xs| ensures !Named(a + b, xs[k].name) {
      NamedAppend(a, b, xs[k].name);
    }
  }

  /** Two catalogues with unique names and no name in common concatenate to one with unique names. */
  lemma UniqueAppend(a: seq<Command>, b: seq<Command>)
    requires UniqueNames(a) && UniqueNames(b) && Unregistered(a, b)
    ensures UniqueNames(a + b)
  {
    forall i, j | 0 <= i < j < |a + b| ensures (a + b)[i].name != (a + b)[j].name {
      if j >= |a| {
        assert (a + b)[j] == b[j - |a|];
        if i >= |a| {
          assert (a + b)[i] == b[i - |a|];
        } else {
          assert (a + b)[i] == a[i];
          assert !Named(a, b[j - |a|].name);
        }
      }
    }
  }

  /** A name that is not the suite name and not under the prefix is not in a namespaced table. */
  lemma Outside(cs: seq<Command>, prefix: string, suite: string, name: string)
    requires Namespaced(cs, prefix, suite) && name != suite && !(prefix <= name)
    ensures !Named(cs, name)
  {
  }

  /** The first position holding a command called `name`. */
  function Find(cs: seq<Command>, name: string): (r: Option<nat>)
    ensures r.None? <==> !Named(cs, name)
    ensures r.Some? ==> r.value < |cs| && cs[r.value].name == name
    ensures r.Some? ==> forall k :: 0 <= k < r.value ==> cs[k].name != name
  {
    if cs == [] then None
    else if cs[0].name == name then Some(0)
    else
      match Find(cs[1..], name)
      case None =>
        assert forall k :: 1 <= k < |cs| ==> cs[k] == cs[1..][k - 1];
        None
      case Some(k) => Some(k + 1)
  }

  lemma FindUnique(cs: seq<Command>, k: nat)
    requires UniqueNames(cs) && k < |cs|
    ensures Find(cs, cs[k].name) == Some(k)
  {
  }

  /** Registering a name that is already taken changes nothing, so the first action stays the one that runs. */
  lemma FirstWriterWins(cs: seq<Command>, c: Command, d: Command, ctx: Context, fuel: nat)
    requires UniqueNames(cs) && Acceptable(c) && !Named(cs, c.name) && d.name == c.name
    ensures AdmitAll(cs, [c, d]) == cs + [c]
    ensures RunIn(AdmitAll(cs, [c, d]), d.name, ctx, fuel) == Invoke(cs + [c], c.action, ctx, fuel)
  {
    AdmitAllSnoc(cs, [c], d);
    AdmitAllSnoc(cs, [], c);
    assert [] + [c] == [c];
    assert Named(cs + [c], d.name) by { assert (cs + [c])[|cs|].name == d.name; }
    FindUnique(cs + [c], |cs|);
  }

  // ---------------------------------------------------------------------------
  // Running commands
  // ---------------------------------------------------------------------------

  /** The feature calls of a lambda that calls `steps` in order with `ctx`. */
  function Trace(steps: seq<Step>, ctx: Context): (t: seq<Event>)
    ensures |t| == |steps|
    ensures forall i :: 0 <= i < |t| ==> t[i] == Invoked(steps[i], ctx)
  {
    if steps == [] then [] else [Invoked(steps[0], ctx)] + Trace(steps[1..], ctx)
  }

  /**
   * `Run(name, ctx)` against catalogue `cs`: an unknown name gives 1 and calls
   * nothing; otherwise the command's action runs with `ctx` and its status is
   * returned as it is. `fuel` bounds the nesting of aggregates.
   */
  function RunIn(cs: seq<Command>, name: string, ctx: Context, fuel: nat): (r: Outcome)
    ensures !Named(cs, name) ==> r == Done(1, [])
    decreases fuel, 2, 0
  {
    match Find(cs, name)
    case None => Done(1, [])
    case Some(k) => Invoke(cs, cs[k].action, ctx, fuel)
  }

  function Invoke(cs: seq<Command>, a: Action, ctx: Context, fuel: nat): Outcome
    decreases fuel, 1, 0
  {
    match a
    case Empty => Fault
    case Feature(steps, status) => Done(status, Trace(steps, ctx))
    case RunAll(suites) => if fuel == 0 then Fault else RunEach(cs, suites, ctx, fuel, 0, [])
  }

  /** The aggregate's loop: every suite runs, none short-circuits, statuses are OR-ed into `rc`. */
  function RunEach(cs: seq<Command>, suites: seq<string>, ctx: Context, fuel: nat, rc: Code, trace: seq<Event>): (r: Outcome)
    requires fuel > 0
    ensures r.Done? ==> |trace| <= |r.trace| && r.trace[..|trace|] == trace
    ensures r.Done? && rc != 0 ==> r.status != 0
    decreases fuel, 0, |suites|
  {
    if suites == [] then Done(rc, trace)
    else
      match RunIn(cs, suites[0], ctx, fuel - 1)
      case Fault => Fault
      case Done(s, t) => RunEach(cs, suites[1..], ctx, fuel, Combine(rc, s), trace + t)
  }

  /** Run of a registered feature command calls its steps once each, in order, with the context unchanged. */
  lemma RunFeature(cs: seq<Command>, k: nat, ctx: Context, fuel: nat)
    requires UniqueNames(cs) && k < |cs| && cs[k].action.Feature?
    ensures RunIn(cs, cs[k].name, ctx, fuel) == Done(cs[k].action.status, Trace(cs[k].action.steps, ctx))
  {
    FindUnique(cs, k);
  }

  /** The name is unknown or names a feature command. */
  predicate FeatureOrMissing(cs: seq<Command>, name: string) {
    match Find(cs, name)
    case None => true
    case Some(k) => cs[k].action.Feature?
  }

  predicate FeatureSuites(cs: seq<Command>, suites: seq<string>) {
    forall i :: 0 <= i < |suites| ==> FeatureOrMissing(cs, suites[i])
  }

  /** The status Run gives for a suite name of a FeatureSuites list. */
  function SuiteStatus(cs: seq<Command>, name: string): Code {
    match Find(cs, name)
    case None => 1
    case Some(k) => if cs[k].action.Feature? then cs[k].action.status else 0
  }

  /** The feature calls Run makes for a suite name of a FeatureSuites list. */
  function SuiteEvents(cs: seq<Command>, name: string, ctx: Context): seq<Event> {
    match Find(cs, name)
    case None => []
    case Some(k) => if cs[k].action.Feature? then Trace(cs[k].action.steps, ctx) else []
  }

  /** The feature calls of the suites that are registered, one suite after another. */
  function SuiteTrace(cs: seq<Command>, suites: seq<string>, ctx: Context): seq<Event> {
    if suites == [] then [] else SuiteEvents(cs, suites[0], ctx) + SuiteTrace(cs, suites[1..], ctx)
  }

  predicate SuitesPass(cs: seq<Command>, suites: seq<string>) {
    forall i :: 0 <= i < |suites| ==> SuiteStatus(cs, suites[i]) == 0
  }

  predicate SuitesFlag(cs: seq<Command>, suites: seq<string>) {
    forall i :: 0 <= i < |suites| ==> SuiteStatus(cs, suites[i]) <= 1
  }

  lemma FeatureSuitesTail(cs: seq<Command>, suites: seq<string>)
    requires suites != []
    ensures FeatureSuites(cs, suites) ==> FeatureSuites(cs, suites[1..])
    ensures SuitesPass(cs, suites) <==> SuiteStatus(cs, suites[0]) == 0 && SuitesPass(cs, suites[1..])
    ensures SuitesFlag(cs, suites) <==> SuiteStatus(cs, suites[0]) <= 1 && SuitesFlag(cs, suites[1..])
  {
    assert forall i :: 1 <= i < |suites| ==> suites[i] == suites[1..][i - 1];
  }

  /** A registered feature command, run as a suite, contributes its status and its steps. */
  lemma SuitePresent(cs: seq<Command>, k: nat, ctx: Context)
    requires UniqueNames(cs) && k < |cs| && cs[k].action.Feature?
    ensures FeatureOrMissing(cs, cs[k].name)
    ensures SuiteStatus(cs, cs[k].name) == cs[k].action.status
    ensures SuiteEvents(cs, cs[k].name, ctx) == Trace(cs[k].action.steps, ctx)
  {
    FindUnique(cs, k);
  }

  /** A missing suite contributes status 1 and no feature call. */
  lemma SuiteMissing(cs: seq<Command>, name: string, ctx: Context)
    requires !Named(cs, name)
    ensures FeatureOrMissing(cs, name)
    ensures SuiteStatus(cs, name) == 1
    ensures SuiteEvents(cs, name, ctx) == []
  {
  }

  /** One step of the aggregate: the first suite runs as a feature, or contributes 1 when missing. */
  lemma AggregateStep(cs: seq<Command>, suites: seq<string>, ctx: Context, fuel: nat, rc: Code, trace: seq<Event>)
    requires fuel > 0 && suites != [] && FeatureOrMissing(cs, suites[0])
    ensures RunEach(cs, suites, ctx, fuel, rc, trace) ==
              RunEach(cs, suites[1..], ctx, fuel, Combine(rc, SuiteStatus(cs, suites[0])),
                      trace + SuiteEvents(cs, suites[0], ctx))
  {
    assert RunIn(cs, suites[0], ctx, fuel - 1) == Done(SuiteStatus(cs, suites[0]), SuiteEvents(cs, suites[0], ctx));
  }

  lemma AppendAssoc<T>(a: seq<T>, b: seq<T>, c: seq<T>)
    ensures (a + b) + c == a + (b + c)
  {
  }

  /** The status the aggregate's loop ends with, starting from `rc`, over feature suites. */
  function FoldStatus(cs: seq<Command>, suites: seq<string>, rc: Code): Code {
    if suites == [] then rc else FoldStatus(cs, suites[1..], Combine(rc, SuiteStatus(cs, suites[0])))
  }

  /**
   * The aggregate over feature suites returns normally and calls the steps of
   * each registered suite exactly once, suite after suite, in list order.
   */
  lemma {:induction false} AggregateRun(cs: seq<Command>, suites: seq<string>, ctx: Context, fuel: nat, rc: Code, trace: seq<Event>)
    requires fuel > 0 && FeatureSuites(cs, suites)
    ensures RunEach(cs, suites, ctx, fuel, rc, trace) == Done(FoldStatus(cs, suites, rc), trace + SuiteTrace(cs, suites, ctx))
    decreases |suites|
  {
    if suites == [] {
      assert trace + [] == trace;
    } else {
      var rest, here, rc' := suites[1..], SuiteEvents(cs, suites[0], ctx), Combine(rc, SuiteStatus(cs, suites[0]));
      AggregateStep(cs, suites, ctx, fuel, rc, trace);
      FeatureSuitesTail(cs, suites);
      AggregateRun(cs, rest, ctx, fuel, rc', trace + here);
      AppendAssoc(trace, here, SuiteTrace(cs, rest, ctx));
    }
  }

  /**
   * The aggregate's status is 0 exactly when it started at 0 and every suite
   * passed (a missing suite counts as failed); on 0/1 statuses it is 0 or 1.
   */
  lemma {:induction false} FoldStatusCode(cs: seq<Command>, suites: seq<string>, rc: Code)
    ensures FoldStatus(cs, suites, rc) == 0 <==> rc == 0 && SuitesPass(cs, suites)
    ensures rc <= 1 && SuitesFlag(cs, suites) ==> FoldStatus(cs, suites, rc) <= 1
    decreases |suites|
  {
    if suites != [] {
      var s := SuiteStatus(cs, suites[0]);
      FeatureSuitesTail(cs, suites);
      FoldStatusCode(cs, suites[1..], Combine(rc, s));
      if rc <= 1 && s <= 1 {
        CombineFlags(rc, s);
      }
    }
  }

  // ---------------------------------------------------------------------------
  // Listing
  // ---------------------------------------------------------------------------

  /** An output line: a group header, a command entry, an empty line, or fixed text. */
  datatype Line = Header(title: string) | Item(name: string, description: string) | Blank | Text(text: string)

  /** The header of a module group: the empty module is shown as "General". */
  function Label(moduleName: string): (l: string)
    ensures l != ""
    ensures moduleName != "" ==> l == moduleName
    ensures moduleName == "" ==> l == "General"
  {
    if moduleName == "" then "General" else moduleName
  }

  function Modules(cs: seq<Command>): set<string> {
    set c | c in cs :: c.moduleName
  }

  /** No element of `s` occurs twice. */
  predicate Distinct<T(==)>(s: seq<T>) {
    forall i, j :: 0 <= i < j < |s| ==> s[i] != s[j]
  }

  /** `order` lists each element of `s` exactly once: the iteration order of the grouping map. */
  predicate Enumerates(order: seq<string>, s: set<string>) {
    && Distinct(order)
    && (forall i :: 0 <= i < |order| ==> order[i] in s)
    && (forall m :: m in s ==> m in order)
  }

  /** The commands of module `m`, in insertion order. */
  function GroupOf(cs: seq<Command>, m: string): seq<Command>
    decreases |cs|
  {
    if cs == [] then []
    else GroupOf(cs[..|cs| - 1], m) + (if cs[|cs| - 1].moduleName == m then [cs[|cs| - 1]] else [])
  }

  function ItemOf(c: Command): Line {
    Item(c.name, c.description)
  }

  /** One entry line per command, in order. */
  function Items(cs: seq<Command>): seq<Line>
    decreases |cs|
  {
    if cs == [] then [] else Items(cs[..|cs| - 1]) + [ItemOf(cs[|cs| - 1])]
  }

  function Block(cs: seq<Command>, m: string): seq<Line> {
    [Header(Label(m))] + Items(GroupOf(cs, m)) + [Blank]
  }

  /** What List writes when the grouping map yields its modules in `order`. */
  function Listing(cs: seq<Command>, order: seq<string>): seq<Line>
    decreases |order|
  {
    if order == [] then [] else Listing(cs, order[..|order| - 1]) + Block(cs, order[|order| - 1])
  }

  /** The entry lines among `lines`. */
  function Entries(lines: seq<Line>): seq<Line>
    decreases |lines|
  {
    if lines == [] then []
    else Entries(lines[..|lines| - 1]) + (if lines[|lines| - 1].Item? then [lines[|lines| - 1]] else [])
  }

  lemma {:induction false} EntriesAppend(a: seq<Line>, b: seq<Line>)
    ensures Entries(a + b) == Entries(a) + Entries(b)
    decreases |b|
  {
    if b == [] {
      assert a + b == a;
    } else {
      var b', x := b[..|b| - 1], b[|b| - 1];
      var ab := a + b;
      assert ab[..|ab| - 1] == a + b';
      assert ab[|ab| - 1] == x;
      var t := if x.Item? then [x] else [];
      EntriesAppend(a, b');
      assert Entries(ab) == (Entries(a) + Entries(b')) + t;
      assert Entries(b) == Entries(b') + t;
      assert (Entries(a) + Entries(b')) + t == Entries(a) + (Entries(b') + t);
    }
  }

  lemma {:induction false} EntriesOfItems(cs: seq<Command>)
    ensures Entries(Items(cs)) == Items(cs)
    decreases |cs|
  {
    if cs != [] {
      EntriesOfItems(cs[..|cs| - 1]);
      EntriesAppend(Items(cs[..|cs| - 1]), [ItemOf(cs[|cs| - 1])]);
    }
  }

  lemma {:induction false} ItemsAppend(a: seq<Command>, b: seq<Command>)
    ensures Items(a + b) == Items(a) + Items(b)
    decreases |b|
  {
    if b == [] {
      assert a + b == a;
    } else {
      var b', x := b[..|b| - 1], b[|b| - 1];
      assert a + b == (a + b') + [x];
      ItemsAppend(a, b');
      assert Items(a + b) == Items(a + b') + [ItemOf(x)];
    }
  }

  /** The entry lines of the groups named in `order`, as a multiset. */
  function GroupedEntries(cs: seq<Command>, order: seq<string>): multiset<Line>
    decreases |order|
  {
    if order == [] then multiset{}
    else GroupedEntries(cs, order[..|order| - 1]) + multiset(Items(GroupOf(cs, order[|order| - 1])))
  }

  lemma {:induction false} ListingEntries(cs: seq<Command>, order: seq<string>)
    ensures multiset(Entries(Listing(cs, order))) == GroupedEntries(cs, order)
    decreases |order|
  {
    if order != [] {
      var init, m := order[..|order| - 1], order[|order| - 1];
      ListingEntries(cs, init);
      EntriesAppend(Listing(cs, init), Block(cs, m));
      EntriesAppend([Header(Label(m))], Items(GroupOf(cs, m)));
      EntriesAppend([Header(Label(m))] + Items(GroupOf(cs, m)), [Blank]);
      EntriesOfItems(GroupOf(cs, m));
      assert Entries([Header(Label(m))]) == [] by {
        assert [Header(Label(m))][..0] == [];
      }
      assert Entries([Blank]) == [] by {
        assert [Blank][..0] == [];
      }
    }
  }

  lemma GroupEntriesSnoc(cs: seq<Command>, c: Command, m: string)
    ensures multiset(Items(GroupOf(cs + [c], m))) ==
              multiset(Items(GroupOf(cs, m))) + Copies(c.moduleName == m, ItemOf(c))
  {
    assert (cs + [c])[..|cs|] == cs;
    var extra := if c.moduleName == m then [c] else [];
    assert GroupOf(cs + [c], m) == GroupOf(cs, m) + extra;
    ItemsAppend(GroupOf(cs, m), extra);
    if c.moduleName == m {
      assert Items([c]) == [ItemOf(c)] by { assert [c][..0] == []; }
    }
  }

  /** Splitting a list of distinct modules at its last element. */
  lemma LastOfDistinct(order: seq<string>, x: string)
    requires order != []
    requires Distinct(order)
    ensures x in order <==> x in order[..|order| - 1] || x == order[|order| - 1]
    ensures x == order[|order| - 1] ==> x !in order[..|order| - 1]
    ensures Distinct(order[..|order| - 1])
  {
    assert order == order[..|order| - 1] + [order[|order| - 1]];
  }

  lemma SumSwap(a: multiset<Line>, b: multiset<Line>, x: multiset<Line>, y: multiset<Line>)
    ensures (a + x) + (b + y) == (a + b) + (x + y)
  {
  }

  function Copies(present: bool, l: Line): multiset<Line> {
    if present then multiset{l} else multiset{}
  }

  lemma {:induction false} GroupedEntriesSnoc(cs: seq<Command>, c: Command, order: seq<string>)
    requires Distinct(order)
    ensures GroupedEntries(cs + [c], order) == GroupedEntries(cs, order) + Copies(c.moduleName in order, ItemOf(c))
    decreases |order|
  {
    if order != [] {
      var init, m := order[..|order| - 1], order[|order| - 1];
      LastOfDistinct(order, c.moduleName);
      GroupedEntriesSnoc(cs, c, init);
      GroupEntriesSnoc(cs, c, m);
      var a, b := GroupedEntries(cs, init), multiset(Items(GroupOf(cs, m)));
      var xi, xm := Copies(c.moduleName in init, ItemOf(c)), Copies(c.moduleName == m, ItemOf(c));
      assert Copies(c.moduleName in order, ItemOf(c)) == xi + xm;
      SumSwap(a, b, xi, xm);
    }
  }

  lemma {:induction false} GroupedEntriesAll(cs: seq<Command>, order: seq<string>)
    requires Distinct(order)
    requires forall c :: c in cs ==> c.moduleName in order
    ensures GroupedEntries(cs, order) == multiset(Items(cs))
    decreases |cs|
  {
    if cs == [] {
      GroupedEntriesEmpty(order);
    } else {
      var init, c := cs[..|cs| - 1], cs[|cs| - 1];
      assert cs == init + [c];
      GroupedEntriesAll(init, order);
      GroupedEntriesSnoc(init, c, order);
    }
  }

  lemma {:induction false} GroupedEntriesEmpty(order: seq<string>)
    ensures GroupedEntries([], order) == multiset{}
    decreases |order|
  {
    if order != [] {
      GroupedEntriesEmpty(order[..|order| - 1]);
    }
  }

  /**
   * List shows every command exactly once: its entry lines are, as a
   * multiset, one entry per registered command.
   */
  lemma ListingShowsEachCommandOnce(cs: seq<Command>, order: seq<string>)
    requires Enumerates(order, Modules(cs))
    ensures multiset(Entries(Listing(cs, order))) == multiset(Items(cs))
  {
    ListingEntries(cs, order);
    GroupedEntriesAll(cs, order);
  }

  /** A group holds exactly the commands of its module, and a grown catalogue's group extends the old one. */
  lemma {:induction false} GroupOfAppend(a: seq<Command>, b: seq<Command>, m: string)
    ensures GroupOf(a + b, m) == GroupOf(a, m) + GroupOf(b, m)
    decreases |b|
  {
    if b == [] {
      assert a + b == a;
    } else {
      var b', x := b[..|b| - 1], b[|b| - 1];
      assert a + b == (a + b') + [x];
      GroupOfAppend(a, b', m);
      assert GroupOf(a + b, m) == GroupOf(a + b', m) + (if x.moduleName == m then [x] else []);
    }
  }

  lemma {:induction false} GroupOfMembers(cs: seq<Command>, m: string)
    ensures forall c :: c in GroupOf(cs, m) <==> c in cs && c.moduleName == m
    decreases |cs|
  {
    if cs != [] {
      var init := cs[..|cs| - 1];
      GroupOfMembers(init, m);
      assert cs == init + [cs[|cs| - 1]];
    }
  }

  // ---------------------------------------------------------------------------
  // The registry object
  // ---------------------------------------------------------------------------

  /**
   * `index` maps exactly the names in `cs` to their positions, and every entry
   * of `cs` is acceptable.
   */
  predicate Indexes(cs: seq<Command>, index: map<string, nat>) {
    && |index| == |cs|
    && (forall k :: 0 <= k < |cs| ==> Acceptable(cs[k]))
    && (forall k :: 0 <= k < |cs| ==> cs[k].name in index && index[cs[k].name] == k)
    && (forall n :: n in index ==> index[n] < |cs| && cs[index[n]].name == n)
  }

  /** The catalogue determines its index: a Valid registry's state is its `ordered` sequence. */
  lemma IndexesUnique(cs: seq<Command>, a: map<string, nat>, b: map<string, nat>)
    requires Indexes(cs, a) && Indexes(cs, b)
    ensures a == b
  {
    forall n | n in a ensures n in b && b[n] == a[n] {
      assert cs[a[n]].name == n;
    }
    forall n | n in b ensures n in a {
      assert cs[b[n]].name == n;
    }
  }

  /** The C++ CommandRegistry: `ordered` is `ordered_`, `index` is `index_`. */
  class Registry {
    var ordered: seq<Command>
    var index: map<string, nat>

    /** The index maps exactly the registered names to their positions. */
    predicate Valid()
      reads this
      ensures Valid() ==> UniqueNames(ordered)
    {
      Indexes(ordered, index)
    }

    constructor ()
      ensures Valid() && ordered == [] && index == map[]
    {
      ordered := [];
      index := map[];
    }

    /** Appends `c` unless its name or action is empty or its name is taken. */
    method Register(c: Command)
      requires Valid()
      modifies this
      ensures Valid()
      ensures ordered == Admit(old(ordered), c)
    {
      if c.name == "" || c.action.Empty? {
        return;
      }
      if c.name in index {
        assert Named(ordered, c.name) by { assert ordered[index[c.name]].name == c.name; }
        return;
      }
      assert !Named(ordered, c.name);
      index := index[c.name := |ordered|];
      ordered := ordered + [c];
    }

    function Exists(name: string): (b: bool)
      reads this
      requires Valid()
      ensures b <==> Named(ordered, name)
    {
      assert name in index ==> ordered[index[name]].name == name;
      name in index
    }

    /** Run looks the name up in the index; this agrees with the first-match search of RunIn. */
    function Run(name: string, ctx: Context): (r: Outcome)
      reads this
      requires Valid()
      ensures r == RunIn(ordered, name, ctx, |ordered|)
      ensures !Named(ordered, name) ==> r == Done(1, [])
    {
      if name in index then
        FindUnique(ordered, index[name]);
        Invoke(ordered, ordered[index[name]].action, ctx, |ordered|)
      else
        assert !Named(ordered, name);
        Done(1, [])
    }

    /** A copy of the catalogue: one command per index entry, each at its indexed position. */
    function GetCommands(): (r: seq<Command>)
      reads this
      requires Valid()
      ensures r == ordered
      ensures |r| == |index|
      ensures forall n :: n in index <==> Named(r, n)
      ensures forall k :: 0 <= k < |r| ==> r[k].name in index && index[r[k].name] == k
    {
      assert forall n :: n in index ==> ordered[index[n]].name == n;
      ordered
    }

    /** The first pass of List: the commands of each module, in insertion order. */
    method GroupByModule() returns (grouped: map<string, seq<Command>>)
      ensures forall m :: m in grouped <==> m in Modules(ordered)
      ensures forall m :: m in grouped ==> grouped[m] == GroupOf(ordered, m)
    {
      grouped := map[];
      var i := 0;
      while i < |ordered|
        invariant 0 <= i <= |ordered|
        invariant forall m :: m in grouped <==> m in Modules(ordered[..i])
        invariant forall m :: m in grouped ==> grouped[m] == GroupOf(ordered[..i], m)
      {
        var cmd := ordered[i];
        var done := ordered[..i];
        assert ordered[..i + 1] == done + [cmd];
        ModulesSnoc(done, cmd);
        if cmd.moduleName !in grouped {
          GroupOfAbsent(done, cmd.moduleName);
        }
        var bucket := if cmd.moduleName in grouped then grouped[cmd.moduleName] else [];
        var grouped' := grouped[cmd.moduleName := bucket + [cmd]];
        forall m | m in grouped'
          ensures grouped'[m] == GroupOf(done + [cmd], m)
        {
          GroupOfSnoc(done, cmd, m);
        }
        grouped := grouped';
        i := i + 1;
      }
      assert ordered[..i] == ordered;
    }

    /** Writes one group per module, in the map's `order`, each listing its commands in insertion order. */
    method List(order: seq<string>) returns (lines: seq<Line>)
      requires Enumerates(order, Modules(ordered))
      ensures lines == Listing(ordered, order)
      ensures multiset(Entries(lines)) == multiset(Items(ordered))
    {
      var grouped := GroupByModule();
      lines := [];
      var j := 0;
      while j < |order|
        invariant 0 <= j <= |order|
        invariant lines == Listing(ordered, order[..j])
      {
        var m := order[j];
        assert m in Modules(ordered);
        var block := WriteGroup(m, grouped[m]);
        lines := lines + block;
        assert order[..j + 1] == order[..j] + [m];
        assert order[..j + 1][..j] == order[..j];
        j := j + 1;
      }
      assert order[..j] == order;
      ListingShowsEachCommandOnce(ordered, order);
    }
  }

  /** One group of List: the bracketed module label, one line per command, a blank line. */
  method WriteGroup(m: string, commands: seq<Command>) returns (lines: seq<Line>)
    ensures lines == [Header(Label(m))] + Items(commands) + [Blank]
  {
    lines := [Header(Label(m))];
    var k := 0;
    while k < |commands|
      invariant 0 <= k <= |commands|
      invariant lines == [Header(Label(m))] + Items(commands[..k])
    {
      assert commands[..k + 1] == commands[..k] + [commands[k]];
      ItemsAppend(commands[..k], [commands[k]]);
      lines := lines + [ItemOf(commands[k])];
      k := k + 1;
    }
    assert commands[..k] == commands;
    lines := lines + [Blank];
  }

  lemma GroupOfSnoc(cs: seq<Command>, c: Command, m: string)
    ensures GroupOf(cs + [c], m) == GroupOf(cs, m) + (if c.moduleName == m then [c] else [])
  {
    assert (cs + [c])[..|cs|] == cs;
  }

  lemma ModulesSnoc(cs: seq<Command>, c: Command)
    ensures Modules(cs + [c]) == Modules(cs) + {c.moduleName}
  {
    assert forall x :: x in cs + [c] <==> x in cs || x == c;
  }

  lemma {:induction false} GroupOfAbsent(cs: seq<Command>, m: string)
    requires m !in Modules(cs)
    ensures GroupOf(cs, m) == []
    decreases |cs|
  {
    if cs != [] {
      var init, c := cs[..|cs| - 1], cs[|cs| - 1];
      assert cs == init + [c];
      ModulesSnoc(init, c);
      GroupOfAbsent(init, m);
    }
  }
}
