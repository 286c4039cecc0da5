/**
 * The compile side of the TreePPL client: choosing the source text, building
 * the `tpplc` command line from the inference method and free-form keyword
 * options, redacting the internal file name out of a compiler failure, and
 * the `Model` object that keeps the working directory and the sample count
 * and builds the command line of the compiled program.
 *
 * Processes and files are not modelled: reading the source file is the
 * parameter `read`, and a run of the compiler is the parameter `compiler`,
 * which maps the source text written into the working directory and the
 * argument vector to the exit status and captured output.
 */
module CompiledModel {
  import opened Wrappers
  import opened Substitution
  import opened Numerals

  const CompilerProgram := "tpplc"
  /** The fixed name under which the source is written into the working directory. */
  const SourceFileName := "__main__.tppl"
  const MethodFlag := "-m"
  const DefaultMethod := "smc-bpf"
  const DefaultSamples := 1000
  /** What the source file name is shown as in compiler output. */
  const Placeholder := "source code"
  const NoSourceMessage := "No source code to compile."
  const CompileFailureHeader := "Could not compile the TreePPL model:\n"

  /** A keyword option's value; `TextV` holds an already rendered `str(v)`. */
  datatype OptionValue = BoolV(b: bool) | IntV(i: int) | TextV(s: string)

  datatype CompileError = CompileError(message: string)

  /** Exit status and combined standard output and error of one compiler run. */
  datatype ProcessResult = ProcessResult(returnCode: int, output: string)

  /** Python's `str(v)` for an option value: "True" or "False", an integer's decimal text, or the text itself. */
  function Render(v: OptionValue): (s: string)
    ensures v.BoolV? ==> s == (if v.b then "True" else "False")
    ensures v.IntV? ==> ParseDecimal(s) == Some(v.i)
    ensures v.TextV? ==> s == v.s
  {
    match v
    case BoolV(b) => if b then "True" else "False"
    case IntV(i) => Decimal(i)
    case TextV(s) => s
  }

  /** `v is not True`: only the boolean `True` itself is a bare flag. */
  predicate HasValueToken(v: OptionValue) {
    v != BoolV(true)
  }

  /**
   * The test is identity with `True`, not truthiness or equality: `False`,
   * the integer 1 and the text "True" all still get a value token.
   */
  lemma IdentityNotTruthiness()
    ensures OptionTokens("dry_run", BoolV(true)) == ["--dry-run"]
    ensures OptionTokens("dry_run", BoolV(false)) == ["--dry-run", "False"]
    ensures OptionTokens("n", IntV(1)) == ["--n", "1"]
    ensures OptionTokens("n", TextV("True")) == ["--n", "True"]
  {
    FlagNameShape("dry_run");
    var f := FlagName("dry_run");
    forall i | 0 <= i < |f|
      ensures f[i] == "--dry-run"[i]
    {
      if i >= 2 {
        assert f[i] == (if "dry_run"[i - 2] == '_' then '-' else "dry_run"[i - 2]);
      }
    }
    assert f == "--dry-run";
    FlagNameShape("n");
    assert FlagName("n") == "--n";
    assert Decimal(1) == "1";
  }

  function FlagName(name: string): string {
    "--" + Replace(name, "_", "-")
  }

  /** The tokens one keyword option contributes. */
  function OptionTokens(name: string, v: OptionValue): seq<string> {
    [FlagName(name)] + (if HasValueToken(v) then [Render(v)] else [])
  }

  /** The tokens of all options, in the order they were given. */
  function OptionArgs(options: seq<(string, OptionValue)>): seq<string>
    decreases |options|
  {
    if options == [] then []
    else
      var last := options[|options| - 1];
      OptionArgs(options[..|options| - 1]) + OptionTokens(last.0, last.1)
  }

  function CompilerArgs(inferenceMethod: string, options: seq<(string, OptionValue)>): seq<string> {
    [CompilerProgram, SourceFileName, MethodFlag, inferenceMethod] + OptionArgs(options)
  }

  /** How many options carry a value token. */
  function ValuedCount(options: seq<(string, OptionValue)>): nat
    decreases |options|
  {
    if options == [] then 0
    else ValuedCount(options[..|options| - 1]) + (if HasValueToken(options[|options| - 1].1) then 1 else 0)
  }

  /** Index in the compiler argument vector at which the tokens of option `i` begin. */
  function Offset(options: seq<(string, OptionValue)>, i: nat): nat
    requires i <= |options|
  {
    4 + i + ValuedCount(options[..i])
  }

  /** The flag of an option name: "--", then the name with every '_' turned into '-'. */
  lemma FlagNameShape(name: string)
    ensures |FlagName(name)| == |name| + 2 && FlagName(name)[..2] == "--"
    ensures forall i :: 0 <= i < |name| ==> FlagName(name)[i + 2] == (if name[i] == '_' then '-' else name[i])
    ensures '_' !in FlagName(name)
  {
    ReplaceChar(name, '_', '-');
    var f := FlagName(name);
    forall i | 0 <= i < |f|
      ensures f[i] != '_'
    {
      if i >= 2 {
        assert f[i] == Replace(name, "_", "-")[i - 2];
      }
    }
  }

  lemma {:induction false} OptionArgsLength(options: seq<(string, OptionValue)>)
    ensures |OptionArgs(options)| == |options| + ValuedCount(options)
    decreases |options|
  {
    if options != [] {
      OptionArgsLength(options[..|options| - 1]);
    }
  }

  /**
   * The compiler argument vector starts with the program, the source file,
   * "-m" and the method, and holds one flag per option plus one value token
   * per option whose value is not `True`.
   */
  lemma CompilerArgsShape(inferenceMethod: string, options: seq<(string, OptionValue)>)
    ensures |CompilerArgs(inferenceMethod, options)| == 4 + |options| + ValuedCount(options)
    ensures CompilerArgs(inferenceMethod, options)[..4] == ["tpplc", "__main__.tppl", "-m", inferenceMethod]
  {
    OptionArgsLength(options);
  }

  /**
   * Option `i` owns the slice between its offset and the next option's: its
   * flag, followed by its rendered value exactly when the value is not
   * `True`. Offsets grow with `i`, so flags keep the order of the options.
   */
  lemma {:induction false} OptionAt(inferenceMethod: string, options: seq<(string, OptionValue)>, i: nat)
    requires i < |options|
    ensures Offset(options, i + 1) == Offset(options, i) + (if HasValueToken(options[i].1) then 2 else 1)
    ensures Offset(options, |options|) == |CompilerArgs(inferenceMethod, options)|
    ensures Offset(options, i + 1) <= |CompilerArgs(inferenceMethod, options)|
    ensures CompilerArgs(inferenceMethod, options)[Offset(options, i)] == FlagName(options[i].0)
    ensures HasValueToken(options[i].1) ==> CompilerArgs(inferenceMethod, options)[Offset(options, i) + 1] == Render(options[i].1)
    decreases |options|
  {
    var n := |options|;
    var init := options[..n - 1];
    assert options[..i + 1][..i] == options[..i];
    assert options[..n] == options;
    CompilerArgsShape(inferenceMethod, options);
    CompilerArgsShape(inferenceMethod, init);
    var args := CompilerArgs(inferenceMethod, options);
    assert args == CompilerArgs(inferenceMethod, init) + OptionTokens(options[n - 1].0, options[n - 1].1);
    if i < n - 1 {
      OptionAt(inferenceMethod, init, i);
      assert init[..i] == options[..i];
      assert init[..i + 1] == options[..i + 1];
      assert args[..|CompilerArgs(inferenceMethod, init)|] == CompilerArgs(inferenceMethod, init);
    }
  }

  /** `if filename:` then the file's text replaces the inline source; `if not source:` the model is refused. */
  function SelectSource(source: Option<string>, filename: Option<string>, read: string -> string): (text: Option<string>)
    ensures filename.Some? && filename.value != "" ==>
      (text.Some? <==> read(filename.value) != "") && (text.Some? ==> text.value == read(filename.value))
    ensures !(filename.Some? && filename.value != "") ==>
      (text.Some? <==> source.Some? && source.value != "") && (text.Some? ==> text == source)
  {
    var chosen := if filename.Some? && filename.value != "" then Some(read(filename.value)) else source;
    if chosen.None? || chosen.value == "" then None else chosen
  }

  /** A given file name makes the inline source irrelevant. */
  lemma FileOverridesSource(source1: Option<string>, source2: Option<string>, filename: string, read: string -> string)
    requires filename != ""
    ensures SelectSource(source1, Some(filename), read) == SelectSource(source2, Some(filename), read)
  {
  }

  /**
   * Compiler output with every occurrence of the internal source file name
   * shown as "source code": none survives, and output that never mentions
   * the name is passed through unchanged.
   */
  function Redact(output: string): (redacted: string)
    ensures !Contains(redacted, SourceFileName)
    ensures !Contains(output, SourceFileName) ==> redacted == output
  {
    PlaceholderDisjoint();
    ReplaceRemovesAll(output, SourceFileName, Placeholder);
    assert !Contains(output, SourceFileName) ==> Replace(output, SourceFileName, Placeholder) == output by {
      if !Contains(output, SourceFileName) {
        ReplaceWithoutMatch(output, SourceFileName, Placeholder);
      }
    }
    Replace(output, SourceFileName, Placeholder)
  }

  lemma PlaceholderDisjoint()
    ensures |Placeholder| > 0 && Disjoint(Placeholder, SourceFileName)
  {
    forall c | c in Placeholder
      ensures c !in SourceFileName
    {
      var j :| 0 <= j < |Placeholder| && Placeholder[j] == c;
      assert c in {'s', 'o', 'u', 'r', 'c', 'e', ' ', 'd'};
    }
  }

  /** Redacting twice is the same as redacting once. */
  lemma RedactIdempotent(output: string)
    ensures Redact(Redact(output)) == Redact(output)
  {
    assert !Contains(Redact(output), SourceFileName);
  }

  /** The message of the error raised when the compiler exits with a nonzero status. */
  function CompileFailureMessage(output: string): (message: string)
    ensures |message| >= |CompileFailureHeader|
    ensures message[..|CompileFailureHeader|] == CompileFailureHeader
    ensures message[|CompileFailureHeader|..] == Redact(output)
    ensures !Contains(message, SourceFileName)
  {
    assert SourceFileName[0] == '_';
    PrefixWithoutLead(CompileFailureHeader, Redact(output), SourceFileName);
    CompileFailureHeader + Redact(output)
  }

  /** Builds the compiler's argument vector by appending each option's flag and value in turn. */
  method BuildCompilerArgs(inferenceMethod: string, options: seq<(string, OptionValue)>) returns (args: seq<string>)
    ensures args == CompilerArgs(inferenceMethod, options)
  {
    args := [CompilerProgram, SourceFileName, MethodFlag, inferenceMethod];
    for i := 0 to |options|
      invariant args == CompilerArgs(inferenceMethod, options[..i])
    {
      var (name, v) := options[i];
      assert options[..i + 1][..i] == options[..i];
      args := args + [FlagName(name)];
      if v != BoolV(true) {
        args := args + [Render(v)];
      }
    }
    assert options[..|options|] == options;
  }

  /** A compiled TreePPL model: its working directory and the sample count passed to each run. */
  class Model {
    const tempDir: string
    var samples: int

    constructor (tempDir: string, samples: int)
      ensures this.tempDir == tempDir && this.samples == samples
    {
      this.tempDir := tempDir;
      new;
      SetSamples(samples);
    }

    method SetSamples(samples: int)
      modifies this`samples
      ensures this.samples == samples
    {
      this.samples := samples;
    }

    /**
     * The argument vector of the compiled program: the executable and the
     * input document inside the working directory, then the sample count as
     * decimal text that reads back as the stored count.
     */
    method InferenceArgs() returns (args: seq<string>)
      ensures |args| == 3
      ensures args[0] == tempDir + "/out" && args[1] == tempDir + "/input.json"
      ensures args[2] == Decimal(samples) && ParseDecimal(args[2]) == Some(samples)
    {
      args := [tempDir + "/out", tempDir + "/input.json", Decimal(samples)];
    }
  }

  /** Changing the sample count changes only that count, and the next run's argument vector carries the new one. */
  method ResetSamples(m: Model, samples: int) returns (args: seq<string>)
    modifies m`samples
    ensures m.samples == samples
    ensures args == [m.tempDir + "/out", m.tempDir + "/input.json", Decimal(samples)]
    ensures ParseDecimal(args[2]) == Some(samples)
  {
    m.SetSamples(samples);
    args := m.InferenceArgs();
  }

  /**
   * Constructing a model: choose the source text, refuse an empty one before
   * anything is compiled, run the compiler on the assembled argument vector,
   * and on a nonzero exit status fail with the redacted output.
   */
  method NewModel(
    source: Option<string>,
    filename: Option<string>,
    read: string -> string,
    tempDir: string,
    compiler: (string, seq<string>) -> ProcessResult,
    inferenceMethod: string := DefaultMethod,
    samples: int := DefaultSamples,
    options: seq<(string, OptionValue)> := []
  ) returns (r: Result<Model, CompileError>)
    ensures SelectSource(source, filename, read).None? ==> r == Failure(CompileError(NoSourceMessage))
    ensures SelectSource(source, filename, read).Some? ==>
      var run := compiler(SelectSource(source, filename, read).value, CompilerArgs(inferenceMethod, options));
      (run.returnCode != 0 ==> r == Failure(CompileError(CompileFailureMessage(run.output)))) &&
      (run.returnCode == 0 ==>
        r.Success? && fresh(r.value) && r.value.tempDir == tempDir && r.value.samples == samples)
  {
    var text := SelectSource(source, filename, read);
    if text.None? {
      return Failure(CompileError(NoSourceMessage));
    }
    var args := BuildCompilerArgs(inferenceMethod, options);
    var run := compiler(text.value, args);
    if run.returnCode != 0 {
      return Failure(CompileError(CompileFailureMessage(run.output)));
    }
    var m := new Model(tempDir, samples);
    return Success(m);
  }
}
