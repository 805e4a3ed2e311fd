/**
 * The command-line parser (ParseCLIArgs) and the usage text (PrintUsage).
 *
 * The parser's loop is described by two pure functions: Tokenize splits the
 * operands into what the loop sees at each step (a flag, an option with the
 * value it consumes, an option whose value is missing, or a plain word), and
 * Apply folds the tokens over the options record from left to right. Finish
 * is the defaulting that follows the loop. The imperative ParseCLIArgs is
 * proved equal to Parse, and Parse is characterised in closed form: which
 * flags are set, which value each valued option ends with, and which word
 * becomes the command.
 */
module CLIParser {
  import opened Wrappers
  import opened CLIOptions
  import CommandRegistry

  /** `arg` is the short or the long spelling of an option. */
  predicate IsFlag(arg: string, shortFlag: string, longFlag: string) {
    arg == shortFlag || arg == longFlag
  }

  /** The options the parser recognises; `-i` and `-o` take a value. */
  datatype Flag = HelpFlag | ListFlag | ModulesFlag | VerboseFlag | InputFlag | OutputFlag

  predicate TakesValue(f: Flag) {
    f == InputFlag || f == OutputFlag
  }

  /** The documented spellings of each option. */
  function ShortForm(f: Flag): string {
    match f
    case HelpFlag => "-h"
    case ListFlag => "-l"
    case ModulesFlag => "-m"
    case VerboseFlag => "-v"
    case InputFlag => "-i"
    case OutputFlag => "-o"
  }

  function LongForm(f: Flag): string {
    match f
    case HelpFlag => "--help"
    case ListFlag => "--list"
    case ModulesFlag => "--modules"
    case VerboseFlag => "--verbose"
    case InputFlag => "--input"
    case OutputFlag => "--output"
  }

  /** The chain of IsFlag tests, in the order the loop makes them. */
  function FlagOf(arg: string): Option<Flag> {
    if IsFlag(arg, "-h", "--help") then Some(HelpFlag)
    else if IsFlag(arg, "-l", "--list") then Some(ListFlag)
    else if IsFlag(arg, "-m", "--modules") then Some(ModulesFlag)
    else if IsFlag(arg, "-v", "--verbose") then Some(VerboseFlag)
    else if IsFlag(arg, "-i", "--input") then Some(InputFlag)
    else if IsFlag(arg, "-o", "--output") then Some(OutputFlag)
    else None
  }

  /** An argument is recognised as an option exactly when it is one of that option's two spellings. */
  lemma FlagOfSpellings(arg: string, f: Flag)
    ensures FlagOf(arg) == Some(f) <==> arg == ShortForm(f) || arg == LongForm(f)
    ensures FlagOf(arg).None? <==> forall g: Flag :: arg != ShortForm(g) && arg != LongForm(g)
  {
    if FlagOf(arg).None? {
      forall g: Flag ensures arg != ShortForm(g) && arg != LongForm(g) {
        match g
        case HelpFlag =>
        case ListFlag =>
        case ModulesFlag =>
        case VerboseFlag =>
        case InputFlag =>
        case OutputFlag =>
      }
    } else {
      var g := FlagOf(arg).value;
      assert arg == ShortForm(g) || arg == LongForm(g);
    }
  }

  // ---------------------------------------------------------------------------
  // What the loop sees
  // ---------------------------------------------------------------------------

  /** One step of the loop over argv. */
  datatype Token =
    | Switch(flag: Flag, spelling: string)                 // -h, -l, -m or -v
    | Valued(flag: Flag, spelling: string, value: string)  // -i or -o and the argument after it
    | Dangling(flag: Flag, spelling: string)               // -i or -o as the last argument
    | Word(text: string)                                   // anything else

  /** `args[i..]` when `i` is in range, `[]` after the end. */
  function Drop(args: seq<string>, i: nat): seq<string> {
    if i < |args| then args[i..] else []
  }

  /**
   * The steps of the loop over `args`: an option that takes a value consumes
   * the next argument verbatim, whatever it looks like.
   */
  function Tokenize(args: seq<string>): seq<Token>
    decreases |args|
  {
    if args == [] then []
    else
      match FlagOf(args[0])
      case None => [Word(args[0])] + Tokenize(args[1..])
      case Some(f) =>
        if !TakesValue(f) then [Switch(f, args[0])] + Tokenize(args[1..])
        else if |args| > 1 then [Valued(f, args[0], args[1])] + Tokenize(args[2..])
        else [Dangling(f, args[0])]
  }

  /** The arguments a token was made from. */
  function Spelled(t: Token): seq<string> {
    match t
    case Switch(_, s) => [s]
    case Valued(_, s, v) => [s, v]
    case Dangling(_, s) => [s]
    case Word(a) => [a]
  }

  function Flatten(ts: seq<Token>): seq<string>
    decreases |ts|
  {
    if ts == [] then [] else Spelled(ts[0]) + Flatten(ts[1..])
  }

  /** A token is what its spelling says: an option token is spelled as its option, a word is no option. */
  predicate WellFormed(t: Token) {
    match t
    case Switch(f, s) => !TakesValue(f) && FlagOf(s) == Some(f)
    case Valued(f, s, _) => TakesValue(f) && FlagOf(s) == Some(f)
    case Dangling(f, s) => TakesValue(f) && FlagOf(s) == Some(f)
    case Word(a) => FlagOf(a).None?
  }

  /**
   * Every argument is examined once, in order: the tokens spell out exactly
   * the arguments, and each token is classified by its own spelling, so no
   * option spelling is ever taken as a word. Only the last token can be an
   * option missing its value: `-i` or `-o` followed by an argument always
   * consumes it as the value, whatever it looks like.
   */
  lemma {:induction false} TokenizeExamines(args: seq<string>)
    ensures Flatten(Tokenize(args)) == args
    ensures forall k :: 0 <= k < |Tokenize(args)| ==> WellFormed(Tokenize(args)[k])
    ensures forall k :: 0 <= k < |Tokenize(args)| - 1 ==> !Tokenize(args)[k].Dangling?
    decreases |args|
  {
    if args != [] {
      var ts := Tokenize(args);
      var rest := if FlagOf(args[0]).Some? && TakesValue(FlagOf(args[0]).value) && |args| > 1 then args[2..]
                  else if FlagOf(args[0]).Some? && TakesValue(FlagOf(args[0]).value) then []
                  else args[1..];
      var tail := if FlagOf(args[0]).Some? && TakesValue(FlagOf(args[0]).value) && |args| <= 1 then [] else Tokenize(rest);
      TokenizeExamines(rest);
      assert ts == [ts[0]] + tail;
      assert ts[1..] == tail;
      assert Flatten(ts) == Spelled(ts[0]) + Flatten(tail);
      assert args == Spelled(ts[0]) + rest;
      forall k | 0 <= k < |ts| ensures WellFormed(ts[k]) {
        if k > 0 {
          assert ts[k] == tail[k - 1];
        }
      }
      forall k | 0 <= k < |ts| - 1 ensures !ts[k].Dangling? {
        if k > 0 {
          assert ts[k] == tail[k - 1];
        }
      }
    }
  }

  // ---------------------------------------------------------------------------
  // What each step does to the options
  // ---------------------------------------------------------------------------

  /** The body of the loop for one token; a dangling option and a surplus word only print a diagnostic. */
  function Step(o: Options, t: Token): Options {
    match t
    case Switch(f, _) =>
      if f == HelpFlag then o.(help := true)
      else if f == ListFlag then o.(list := true)
      else if f == ModulesFlag then o.(modules := true)
      else if f == VerboseFlag then o.(verbose := true)
      else o
    case Valued(f, _, v) =>
      if f == InputFlag then o.(inputPath := v)
      else if f == OutputFlag then o.(outputDir := v)
      else o
    case Dangling(_, _) => o
    case Word(a) => if o.command == "" then o.(command := a) else o
  }

  /** The loop: the tokens applied from left to right. */
  function Apply(o: Options, ts: seq<Token>): Options
    decreases |ts|
  {
    if ts == [] then o else Apply(Step(o, ts[0]), ts[1..])
  }

  /** The post-loop defaulting: no command and no list request means help, and help falls back to "all". */
  function Finish(o: Options, hasAll: bool): Options {
    var o' := if o.command == "" && !o.list && !o.modules then o.(help := true) else o;
    if o'.help && o'.command == "" && !o'.list && !o'.modules && hasAll then o'.(command := "all") else o'
  }

  /** ParseCLIArgs on `argv` (argv[0] being the program name) against a registry that has "all" or not. */
  function Parse(argv: seq<string>, hasAll: bool): (o: Options)
    ensures o.command == "" && !o.list && !o.modules ==> o.help && !hasAll
  {
    Finish(Apply(Defaults, Tokenize(Drop(argv, 1))), hasAll)
  }

  // ---------------------------------------------------------------------------
  // Closed form of the loop
  // ---------------------------------------------------------------------------

  /** The boolean field an on/off option sets. */
  function FlagField(o: Options, f: Flag): bool {
    match f
    case HelpFlag => o.help
    case ListFlag => o.list
    case ModulesFlag => o.modules
    case VerboseFlag => o.verbose
    case InputFlag => false
    case OutputFlag => false
  }

  /** The string field a valued option sets. */
  function ValueField(o: Options, f: Flag): string {
    if f == InputFlag then o.inputPath else o.outputDir
  }

  predicate Sets(t: Token, f: Flag) {
    t.Switch? && t.flag == f
  }

  predicate Assigns(t: Token, f: Flag) {
    t.Valued? && t.flag == f
  }

  /** A word that the loop would take as the command, were none chosen yet. */
  predicate NamesCommand(t: Token) {
    t.Word? && t.text != ""
  }

  predicate Present(ts: seq<Token>, f: Flag) {
    exists k :: 0 <= k < |ts| && Sets(ts[k], f)
  }

  lemma ApplyCons(o: Options, t: Token, ts: seq<Token>)
    ensures Apply(o, [t] + ts) == Apply(Step(o, t), ts)
  {
    assert ([t] + ts)[1..] == ts;
  }

  /** An on/off option ends set exactly when it was set before or one of the tokens sets it. */
  lemma {:induction false} ApplySwitch(o: Options, ts: seq<Token>, f: Flag)
    requires !TakesValue(f)
    ensures FlagField(Apply(o, ts), f) <==> FlagField(o, f) || Present(ts, f)
    decreases |ts|
  {
    if ts != [] {
      ApplySwitch(Step(o, ts[0]), ts[1..], f);
      StepSwitch(o, ts[0], f);
      PresentCons(ts, f);
    }
  }

  lemma StepSwitch(o: Options, t: Token, f: Flag)
    requires !TakesValue(f)
    ensures FlagField(Step(o, t), f) <==> FlagField(o, f) || Sets(t, f)
  {
  }

  lemma PresentCons(ts: seq<Token>, f: Flag)
    requires ts != []
    ensures Present(ts, f) <==> Sets(ts[0], f) || Present(ts[1..], f)
  {
    if Present(ts[1..], f) {
      var k :| 0 <= k < |ts[1..]| && Sets(ts[1..][k], f);
      assert ts[k + 1] == ts[1..][k];
    }
    if Present(ts, f) && !Sets(ts[0], f) {
      var k :| 0 <= k < |ts| && Sets(ts[k], f);
      assert ts[1..][k - 1] == ts[k];
    }
  }

  /** A valued option keeps its old value when no token assigns it. */
  lemma {:induction false} ApplyUnassigned(o: Options, ts: seq<Token>, f: Flag)
    requires TakesValue(f)
    requires forall k :: 0 <= k < |ts| ==> !Assigns(ts[k], f)
    ensures ValueField(Apply(o, ts), f) == ValueField(o, f)
    decreases |ts|
  {
    if ts != [] {
      assert !Assigns(ts[0], f);
      assert forall k :: 0 <= k < |ts[1..]| ==> ts[1..][k] == ts[k + 1];
      ApplyUnassigned(Step(o, ts[0]), ts[1..], f);
    }
  }

  /** A valued option ends with the value of the last token that assigns it: the last occurrence wins. */
  lemma {:induction false} ApplyLastValue(o: Options, ts: seq<Token>, f: Flag, k: nat)
    requires TakesValue(f)
    requires k < |ts| && Assigns(ts[k], f)
    requires forall j :: k < j < |ts| ==> !Assigns(ts[j], f)
    ensures ValueField(Apply(o, ts), f) == ts[k].value
    decreases |ts|
  {
    assert forall j :: 0 <= j < |ts[1..]| ==> ts[1..][j] == ts[j + 1];
    if k == 0 {
      ApplyUnassigned(Step(o, ts[0]), ts[1..], f);
    } else {
      ApplyLastValue(Step(o, ts[0]), ts[1..], f, k - 1);
    }
  }

  /** The loop changes `command` only while it is empty. */
  lemma {:induction false} ApplyKeepsCommand(o: Options, ts: seq<Token>)
    requires o.command != ""
    ensures Apply(o, ts).command == o.command
    decreases |ts|
  {
    if ts != [] {
      ApplyKeepsCommand(Step(o, ts[0]), ts[1..]);
    }
  }

  /** Without a non-empty word, an empty command stays empty. */
  lemma {:induction false} ApplyNoCommand(o: Options, ts: seq<Token>)
    requires o.command == ""
    requires forall k :: 0 <= k < |ts| ==> !NamesCommand(ts[k])
    ensures Apply(o, ts).command == ""
    decreases |ts|
  {
    if ts != [] {
      assert !NamesCommand(ts[0]);
      assert forall k :: 0 <= k < |ts[1..]| ==> ts[1..][k] == ts[k + 1];
      ApplyNoCommand(Step(o, ts[0]), ts[1..]);
    }
  }

  /** The first non-empty word becomes the command, and later words never replace it. */
  lemma {:induction false} ApplyFirstCommand(o: Options, ts: seq<Token>, k: nat)
    requires o.command == ""
    requires k < |ts| && NamesCommand(ts[k])
    requires forall j :: 0 <= j < k ==> !NamesCommand(ts[j])
    ensures Apply(o, ts).command == ts[k].text
    decreases |ts|
  {
    if k == 0 {
      ApplyKeepsCommand(Step(o, ts[0]), ts[1..]);
    } else {
      assert !NamesCommand(ts[0]);
      assert forall j :: 0 <= j < |ts[1..]| ==> ts[1..][j] == ts[j + 1];
      ApplyFirstCommand(Step(o, ts[0]), ts[1..], k - 1);
    }
  }

  // ---------------------------------------------------------------------------
  // Closed form of Parse
  // ---------------------------------------------------------------------------

  /** The tokens the loop of ParseCLIArgs sees: argv[0] is skipped. */
  function Operands(argv: seq<string>): seq<Token> {
    Tokenize(Drop(argv, 1))
  }

  predicate HasCommandWord(ts: seq<Token>) {
    exists k :: 0 <= k < |ts| && NamesCommand(ts[k])
  }

  /**
   * `-l`, `-m` and `-v` are set exactly when they occur; help is set when it
   * occurs or when no command word, no `-l` and no `-m` occur.
   */
  lemma ParseFlags(argv: seq<string>, hasAll: bool)
    ensures Parse(argv, hasAll).list <==> Present(Operands(argv), ListFlag)
    ensures Parse(argv, hasAll).modules <==> Present(Operands(argv), ModulesFlag)
    ensures Parse(argv, hasAll).verbose <==> Present(Operands(argv), VerboseFlag)
    ensures Parse(argv, hasAll).help <==>
              Present(Operands(argv), HelpFlag) ||
              (!HasCommandWord(Operands(argv)) && !Present(Operands(argv), ListFlag) && !Present(Operands(argv), ModulesFlag))
  {
    var ts := Operands(argv);
    ApplySwitch(Defaults, ts, HelpFlag);
    ApplySwitch(Defaults, ts, ListFlag);
    ApplySwitch(Defaults, ts, ModulesFlag);
    ApplySwitch(Defaults, ts, VerboseFlag);
    ParseCommandWord(ts);
  }

  /** After the loop, the command is empty exactly when no non-empty word occurred. */
  lemma ParseCommandWord(ts: seq<Token>)
    ensures Apply(Defaults, ts).command == "" <==> !HasCommandWord(ts)
  {
    if HasCommandWord(ts) {
      var k := FirstCommandWord(ts);
      ApplyFirstCommand(Defaults, ts, k);
    } else {
      ApplyNoCommand(Defaults, ts);
    }
  }

  /** The position of the first non-empty word. */
  function FirstCommandWord(ts: seq<Token>): (k: nat)
    requires HasCommandWord(ts)
    ensures k < |ts| && NamesCommand(ts[k])
    ensures forall j :: 0 <= j < k ==> !NamesCommand(ts[j])
    decreases |ts|
  {
    if NamesCommand(ts[0]) then 0
    else
      assert HasCommandWord(ts[1..]) by {
        var k :| 0 <= k < |ts| && NamesCommand(ts[k]);
        assert ts[1..][k - 1] == ts[k];
      }
      var k := FirstCommandWord(ts[1..]);
      assert forall j :: 1 <= j <= k ==> ts[j] == ts[1..][j - 1];
      k + 1
  }

  /**
   * The command is the first non-empty word; with none, and neither `-l` nor
   * `-m`, it is "all" exactly when the registry has "all", and empty otherwise.
   */
  lemma ParseCommand(argv: seq<string>, hasAll: bool)
    ensures HasCommandWord(Operands(argv)) ==>
              Parse(argv, hasAll).command == Operands(argv)[FirstCommandWord(Operands(argv))].text
    ensures !HasCommandWord(Operands(argv)) ==>
              Parse(argv, hasAll).command ==
                (if hasAll && !Present(Operands(argv), ListFlag) && !Present(Operands(argv), ModulesFlag) then "all" else "")
  {
    var ts := Operands(argv);
    ParseFlags(argv, hasAll);
    ApplySwitch(Defaults, ts, ListFlag);
    ApplySwitch(Defaults, ts, ModulesFlag);
    if HasCommandWord(ts) {
      ApplyFirstCommand(Defaults, ts, FirstCommandWord(ts));
    } else {
      ApplyNoCommand(Defaults, ts);
    }
  }

  /**
   * `-i` and `-o` end with the value of their last occurrence that has one;
   * otherwise the input path stays empty and the output directory "output".
   */
  lemma ParseValues(argv: seq<string>, hasAll: bool, f: Flag)
    requires TakesValue(f)
    ensures (forall k :: 0 <= k < |Operands(argv)| ==> !Assigns(Operands(argv)[k], f)) ==>
              ValueField(Parse(argv, hasAll), f) == (if f == InputFlag then "" else "output")
    ensures forall k :: 0 <= k < |Operands(argv)| && Assigns(Operands(argv)[k], f) &&
                        (forall j :: k < j < |Operands(argv)| ==> !Assigns(Operands(argv)[j], f)) ==>
              ValueField(Parse(argv, hasAll), f) == Operands(argv)[k].value
  {
    var ts := Operands(argv);
    if forall k :: 0 <= k < |ts| ==> !Assigns(ts[k], f) {
      ApplyUnassigned(Defaults, ts, f);
    }
    forall k | 0 <= k < |ts| && Assigns(ts[k], f) && (forall j :: k < j < |ts| ==> !Assigns(ts[j], f))
      ensures ValueField(Parse(argv, hasAll), f) == ts[k].value
    {
      ApplyLastValue(Defaults, ts, f, k);
    }
  }

  /** With no arguments after the program name, help is shown and the command falls back to "all". */
  lemma NoArguments(prog: string, hasAll: bool)
    ensures Parse([prog], hasAll) == Defaults.(help := true, command := if hasAll then "all" else "")
  {
  }

  /** A value is consumed verbatim even when it is spelled like an option. */
  lemma ValueLooksLikeFlag()
    ensures Parse(["DicomTools", "gdcm:tags", "-i", "-l"], true) ==
              Defaults.(command := "gdcm:tags", inputPath := "-l")
  {
    assert Drop(["DicomTools", "gdcm:tags", "-i", "-l"], 1) == ["gdcm:tags", "-i", "-l"];
    assert ["gdcm:tags", "-i", "-l"][1..] == ["-i", "-l"];
    assert ["-i", "-l"][2..] == [];
    assert Operands(["DicomTools", "gdcm:tags", "-i", "-l"]) == [Word("gdcm:tags"), Valued(InputFlag, "-i", "-l")];
  }

  // ---------------------------------------------------------------------------
  // The parser and the usage text
  // ---------------------------------------------------------------------------

  /** One pass of the loop at argv[i]: the token it starts, and where the next pass starts. */
  lemma ScanAt(argv: seq<string>, i: nat, o: Options)
    requires i < |argv|
    ensures FlagOf(argv[i]).None? ==>
              Apply(o, Tokenize(Drop(argv, i))) == Apply(Step(o, Word(argv[i])), Tokenize(Drop(argv, i + 1)))
    ensures FlagOf(argv[i]).Some? && !TakesValue(FlagOf(argv[i]).value) ==>
              Apply(o, Tokenize(Drop(argv, i))) ==
                Apply(Step(o, Switch(FlagOf(argv[i]).value, argv[i])), Tokenize(Drop(argv, i + 1)))
    ensures FlagOf(argv[i]).Some? && TakesValue(FlagOf(argv[i]).value) && i + 1 < |argv| ==>
              Apply(o, Tokenize(Drop(argv, i))) ==
                Apply(Step(o, Valued(FlagOf(argv[i]).value, argv[i], argv[i + 1])), Tokenize(Drop(argv, i + 2)))
    ensures FlagOf(argv[i]).Some? && TakesValue(FlagOf(argv[i]).value) && i + 1 == |argv| ==>
              Apply(o, Tokenize(Drop(argv, i))) == o
  {
    var rest := Drop(argv, i);
    assert rest[0] == argv[i] && rest[1..] == Drop(argv, i + 1);
    if i + 1 < |argv| {
      assert rest[1] == argv[i + 1] && rest[2..] == Drop(argv, i + 2);
    }
    match FlagOf(argv[i])
    case None =>
      ApplyCons(o, Word(argv[i]), Tokenize(rest[1..]));
    case Some(f) =>
      if !TakesValue(f) {
        ApplyCons(o, Switch(f, argv[i]), Tokenize(rest[1..]));
      } else if i + 1 < |argv| {
        ApplyCons(o, Valued(f, argv[i], argv[i + 1]), Tokenize(rest[2..]));
      } else {
        ApplyCons(o, Dangling(f, argv[i]), []);
      }
  }

  /**
   * One pass of the loop of ParseCLIArgs at argv[i]: the options after it, and
   * the position of the next pass (past the value, when an option consumed one).
   */
  method ScanArgument(argv: seq<string>, i: nat, opts: Options) returns (opts': Options, next: nat)
    requires i < |argv|
    ensures i < next <= |argv|
    ensures Tokenize(Drop(argv, i)) != []
    ensures var t := Tokenize(Drop(argv, i))[0]; opts' == Step(opts, t) && next == i + |Spelled(t)|
    ensures Apply(opts, Tokenize(Drop(argv, i))) == Apply(opts', Tokenize(Drop(argv, next)))
  {
    var arg := argv[i];
    ScanAt(argv, i, opts);
    opts', next := opts, i + 1;
    if IsFlag(arg, "-h", "--help") {
      assert FlagOf(arg) == Some(HelpFlag);
      assert Step(opts, Switch(HelpFlag, arg)) == opts.(help := true);
      opts' := opts.(help := true);
    } else if IsFlag(arg, "-l", "--list") {
      assert FlagOf(arg) == Some(ListFlag);
      assert Step(opts, Switch(ListFlag, arg)) == opts.(list := true);
      opts' := opts.(list := true);
    } else if IsFlag(arg, "-m", "--modules") {
      assert FlagOf(arg) == Some(ModulesFlag);
      assert Step(opts, Switch(ModulesFlag, arg)) == opts.(modules := true);
      opts' := opts.(modules := true);
    } else if IsFlag(arg, "-v", "--verbose") {
      assert FlagOf(arg) == Some(VerboseFlag);
      assert Step(opts, Switch(VerboseFlag, arg)) == opts.(verbose := true);
      opts' := opts.(verbose := true);
    } else if IsFlag(arg, "-i", "--input") {
      assert FlagOf(arg) == Some(InputFlag);
      if i + 1 < |argv| {
        assert Step(opts, Valued(InputFlag, arg, argv[i + 1])) == opts.(inputPath := argv[i + 1]);
        opts', next := opts.(inputPath := argv[i + 1]), i + 2;
      }
      // otherwise "Missing value for --input" on the error stream
    } else if IsFlag(arg, "-o", "--output") {
      assert FlagOf(arg) == Some(OutputFlag);
      if i + 1 < |argv| {
        assert Step(opts, Valued(OutputFlag, arg, argv[i + 1])) == opts.(outputDir := argv[i + 1]);
        opts', next := opts.(outputDir := argv[i + 1]), i + 2;
      }
      // otherwise "Missing value for --output" on the error stream
    } else if opts.command == "" {
      assert FlagOf(arg).None?;
      opts' := opts.(command := arg);
    } else {
      // "Unrecognized argument" on the error stream
      assert FlagOf(arg).None?;
    }
  }

  /** ParseCLIArgs: the loop over argv[1..] and the defaulting after it, which asks the registry for "all". */
  method ParseCLIArgs(argv: seq<string>, registry: CommandRegistry.Registry) returns (opts: Options)
    requires registry.Valid()
    ensures opts == Parse(argv, registry.Exists("all"))
  {
    opts := Defaults;
    var i := 1;
    while i < |argv|
      invariant 1 <= i
      invariant Apply(opts, Tokenize(Drop(argv, i))) == Apply(Defaults, Tokenize(Drop(argv, 1)))
      decreases |argv| - i
    {
      opts, i := ScanArgument(argv, i, opts);
    }
    assert Drop(argv, i) == [];

    if opts.command == "" && !opts.list && !opts.modules {
      opts := opts.(help := true);
    }
    if opts.help && opts.command == "" && !opts.list && !opts.modules {
      if registry.Exists("all") {
        opts := opts.(command := "all");
      }
    }
  }

  /** The fixed part of the usage text, up to the command listing. */
  const UsageText: seq<CommandRegistry.Line> := [
    CommandRegistry.Text("Usage: ./DicomTools <command> [options]"),
    CommandRegistry.Text("Options:"),
    CommandRegistry.Text("  -h, --help           Show this help text"),
    CommandRegistry.Text("  -l, --list           List available commands"),
    CommandRegistry.Text("  -m, --modules        Show module availability and feature coverage"),
    CommandRegistry.Text("  -i, --input <path>   Specify DICOM file or directory"),
    CommandRegistry.Text("  -o, --output <dir>   Output directory (default: output)"),
    CommandRegistry.Text("  -v, --verbose        Print extra details for commands"),
    CommandRegistry.Blank,
    CommandRegistry.Text("Commands:")
  ]

  /**
   * PrintUsage: the fixed option lines and then the registry's listing, in
   * which every registered command appears once; it only reads the registry.
   */
  method PrintUsage(registry: CommandRegistry.Registry, order: seq<string>) returns (lines: seq<CommandRegistry.Line>)
    requires CommandRegistry.Enumerates(order, CommandRegistry.Modules(registry.ordered))
    ensures lines == UsageText + CommandRegistry.Listing(registry.ordered, order)
    ensures multiset(CommandRegistry.Entries(lines)) == multiset(CommandRegistry.Items(registry.ordered))
  {
    var listing := registry.List(order);
    lines := UsageText + listing;
    CommandRegistry.EntriesAppend(UsageText, listing);
    assert CommandRegistry.Entries(UsageText) == [] by {
      UsageHasNoEntries();
    }
  }

  lemma UsageHasNoEntries()
    ensures CommandRegistry.Entries(UsageText) == []
  {
    var u := UsageText;
    assert forall k :: 0 <= k < |u| ==> !u[k].Item?;
    NoItemsNoEntries(u);
  }

  lemma {:induction false} NoItemsNoEntries(lines: seq<CommandRegistry.Line>)
    requires forall k :: 0 <= k < |lines| ==> !lines[k].Item?
    ensures CommandRegistry.Entries(lines) == []
    decreases |lines|
  {
    if lines != [] {
      NoItemsNoEntries(lines[..|lines| - 1]);
    }
  }
}
