# TreePPL Python client: command lines, redaction and sample access

A model of the consumer-side logic of the TreePPL Python client
(`treeppl/base.py`). The client hands a TreePPL program to the external
compiler `tpplc`, runs the executable it produces, and reads that program's
JSON output into an `InferenceResult`. The model covers the deterministic
parts of that flow:

- choosing the source text: a given file name wins over inline source, and
  empty or missing text is refused with `CompileError("No source code to compile.")`
  before the compiler is run;
- assembling the compiler's argument vector
  `tpplc __main__.tppl -m <method> --<option> [<value>] ...`, which is built
  imperatively by appending to a list as in the source;
- redacting the internal file name `__main__.tppl` as `source code` in a
  compiler failure message;
- the `Model` object: its working directory, its mutable sample count, and
  the argument vector `[<dir>/out, <dir>/input.json, <samples>]` of the
  compiled program;
- the fields an `InferenceResult` reads from the output document, with their
  defaults, and `getsample` / the indexing step of `subsample`.

Modules: `Wrappers` (Option, Result), `Substitution` (Python's
`str.replace` with a non-empty pattern), `Numerals` (Python's `str` of an
`int`, with a parser it round-trips through), `CompiledModel` (the `Model`
class and everything before it in the file) and `Inference` (the
`InferenceResult` class, a value here since nothing updates it after
construction).

A non-empty file name is always read, and its text replaces any inline
source (`treeppl/base.py:20-21`).

External effects are parameters: `read` stands for reading the source file,
`compiler` for one run of `tpplc` (it receives the source text written into
the working directory and the argument vector, and yields the exit status
and the captured output), and the working directory's name is given.

## Model

| member | source | states |
|---|---|---|
| `Substitution.ReplaceWithoutMatch` | treeppl/base.py:45 | text in which the pattern never occurs comes back from `replace` unchanged |
| `Substitution.ReplaceRemovesAll` | treeppl/base.py:45 | when the replacement is non-empty and shares no character with the pattern, the output contains no occurrence of the pattern |
| `Substitution.ReplaceChar` | treeppl/base.py:35 | replacing one character by another keeps the length and maps each position independently |
| `Numerals.NatDigits` | treeppl/base.py:66 | the decimal digits of a count are non-empty, all digits, and start with '0' only for zero |
| `Numerals.Decimal` | treeppl/base.py:66 | `str(n)` of an integer starts with '-' exactly when `n` is negative, and the text of every integer parses back to that integer |
| `CompiledModel.FlagNameShape` | treeppl/base.py:35 | an option's flag is "--" followed by its name with every '_' turned into '-', so it contains no '_' |
| `CompiledModel.Render` | treeppl/base.py:37 | `str(v)` of an option value: "True" or "False" for booleans, text that parses back to the integer for integers, the text itself otherwise |
| `CompiledModel.IdentityNotTruthiness` | treeppl/base.py:36-37 | `v is not True` is an identity test: `dry_run=True` gives the bare flag `--dry-run`, while `False`, the integer 1 and the text "True" each still get a value token ("False", "1", "True") |
| `CompiledModel.CompilerArgsShape` | treeppl/base.py:28-37 | the compiler argv begins with exactly "tpplc", "__main__.tppl", "-m", the method, and its length is 4 + number of options + number of options whose value is not `True` |
| `CompiledModel.OptionAt` | treeppl/base.py:34-37 | option i's tokens start at offset 4 + i + (valued options before i): first its flag, then its rendered value iff the value is not `True` (so `False` still gives "False"); offsets strictly increase, so flags keep the options' order, and the last offset is the argv length |
| `CompiledModel.BuildCompilerArgs` | treeppl/base.py:28-37 | the append loop produces exactly the argv characterised by the two lemmas above |
| `CompiledModel.SelectSource` | treeppl/base.py:20-24 | with a non-empty file name the file's text is used and fails iff it is empty; otherwise the inline source is used and fails iff absent or empty; a selected text is never empty |
| `CompiledModel.FileOverridesSource` | treeppl/base.py:20-21 | when a file name is given, the inline source has no influence on the selected text |
| `CompiledModel.Redact` | treeppl/base.py:45 | no `__main__.tppl` survives redaction, and output that never mentions `__main__.tppl` is passed through unchanged |
| `CompiledModel.RedactIdempotent` | treeppl/base.py:45 | redacting twice equals redacting once |
| `CompiledModel.CompileFailureMessage` | treeppl/base.py:44-46 | the failure message is the fixed header followed by the redacted output, and the whole message contains no `__main__.tppl` |
| `CompiledModel.Model.constructor` | treeppl/base.py:49-52 | a new model keeps the given working directory and stores the sample count through `SetSamples` |
| `CompiledModel.Model.SetSamples` | treeppl/base.py:51-52 | only the stored sample count changes, to the given value |
| `CompiledModel.Model.InferenceArgs` | treeppl/base.py:63-67 | the run's argv is exactly `[dir + "/out", dir + "/input.json", str(samples)]`, and its third token parses back to the stored count |
| `CompiledModel.ResetSamples` | treeppl/base.py:63-67 | after `set_samples(n)` the next run's argv carries `n`, with the directory paths unchanged |
| `CompiledModel.NewModel` | treeppl/base.py:14-49 | empty or missing source fails with "No source code to compile." whatever the compiler would do; otherwise the compiler is run on the selected text and the assembled argv, a nonzero exit fails with the redacted failure message, and exit status 0 yields a fresh model with the given directory and sample count |
| `Inference.FromDocument` | treeppl/base.py:83-86 | missing `samples` and `weights` default to empty sequences, present ones are taken as given, and a missing `normConst` is absent |
| `Inference.IgnoresOtherKeys` | treeppl/base.py:83-86 | keys other than `samples`, `weights` and `normConst` do not change the result |
| `Inference.Select` | treeppl/base.py:90 | indexing a list of indices succeeds iff every index is in range, then yields one value per index in order; otherwise it fails with the first out-of-range index |
| `Inference.Subsample` | treeppl/base.py:88-90 | for indices drawn from `0..len(nweights)`, succeeds whenever there are at least as many samples as weights, and returns one value per index in draw order, value k being `samples[idx[k]]` |
| `Inference.GetSample` | treeppl/base.py:92-94 | succeeds iff there are at least as many samples as linear weights, returning `samples[0..len(weights))` in order; otherwise fails with IndexError at index `len(samples)` |
| `Inference.GetSampleOfDocument` | treeppl/base.py:83-94 | for a document with one weight per sample, `getsample` returns exactly the document's samples |

`GetSample` is a function of the stored result, so repeated calls return
the same value by construction. `Subsample` returns the same value only for
the same drawn indices; Python draws fresh indices on every call.

## Left out

- Running processes (`Popen`, `wait`, `returncode`, the captured streams): the compiler run is the `compiler` parameter and the compiled program is not run at all; only its argv is modelled.
- The temporary working directory's creation and removal, `__enter__`/`__exit__`, writing the source and `input.json`, and the copies to `/tmp/input.json` and `/tmp/out`: file system effects.
- Reading the source file and its failure modes (a missing file raises before the source check): the file's text is the `read` parameter.
- Decoding the compiler output as UTF-8: the output is already text in the model.
- Serialising `__call__`'s keyword arguments to `input.json` and parsing the program's output (`to_json`, `from_json`): that serialisation module is not part of this model; the parsed document is an input.
- The `JSONDecodeError` path, `InferenceError` and `dump_stdout`: they exist only to write the unparsed output to a file.
- The values of `np.exp(weights)` and the `np.nan` default of the normalisation constant: floating point; the model keeps the number of linear weights and represents a missing `normConst` as absent.
- Drawing the indices in `subsample` with `np.random.choice` and the weights as probabilities: randomness; `Subsample` takes the drawn indices as input.
- Debug printing throughout construction.
- Inference.FromDocument: requires that `samples`, when present, is a sequence, and that `weights`, when present, is a sequence of numbers or booleans. Python behaves differently outside that domain, and the model does not represent it. An array of weights holding anything else makes `np.exp` raise during construction (`treeppl/base.py:85`); NumPy's nested numeric arrays are excluded too. A single number or boolean in place of the weight array passes construction as a 0-d array, and `len()` then raises TypeError in `subsample` and `getsample` (`treeppl/base.py:89`, `treeppl/base.py:93`). A string `samples` is indexed character by character by `getsample`. An object `samples` raises KeyError once there is a weight. With no weights, any `samples` value gives an empty list.
- Inference.FromDocument: accepts every numeric literal as a weight. Python raises a TypeError at `np.exp` (`treeppl/base.py:85`) when the weights are all integers or booleans and one integer does not fit in 64 bits: NumPy then builds an object array. The model has no width for numbers, which it treats as opaque.
- CompiledModel.Model.InferenceArgs: models the sample count as an integer; Python would render any object passed to `set_samples` with `str`.
- Option values are booleans, integers, or text already rendered with `str`; rendering of other Python objects is not modelled, and keyword names are not required to be distinct (Python guarantees it, and no property here needs it).
