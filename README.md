# YAML arguments: merge and environment substitution

A Dafny model of `megatron/training/yaml_arguments.py`, the experimental
Megatron-LM feature that reads training arguments from a YAML file and lays
them over the arguments parsed from the command line. It covers two parts:

- `merge_yaml_and_cli_args` builds a fresh namespace from the command-line (CLI)
  attributes, in CLI order. The CLI value is kept only when the YAML value is
  absent or `None`. A YAML value that is set must pass
  `isinstance(yaml_value, type(cli_value))`: if it does, it wins; if it does
  not, the merge fails with "Invalid type". Afterwards, unless
  `ignore_unknown_args` is set, every YAML attribute must also be a CLI
  attribute, or the merge fails with "Unknown argument".
- `env_constructor` extracts the `${NAME}` groups of a YAML scalar with
  `findall` and the pattern `.*?\${(.*?)}.*?`. For each group, in order, it
  asserts that the environment variable is set, then replaces every
  `${NAME}` in the current value with the variable's value.

Both are methods with the source's loops (`YamlArguments.MergeYamlAndCliArgs`,
`YamlArguments.EnvConstructor`). Each method is proved equal to a
specification function (`Merge`, `Resolve`), and the lemmas state what those
functions promise.

Files:

- `wrappers.dfy`: `Option`, `Result`.
- `py_values.dfy`: the Python values, `type`, `isinstance`, and `getattr` /
  `hasattr` / `setattr` on a `SimpleNamespace`.
  - A namespace is its attribute list in `vars()` order.
  - Floats are opaque tokens, because the merge only compares types.
- `py_strings.dfy`: `str.replace` as Python's left-to-right scan. It is tied to
  `split`/`join`, with the round trip `join(split(s, p), p) == s`.
- `env_pattern.dfy`: `findall` for the pattern at line 13, written as a scanner.
  - The group runs to the first `}` and cannot pass a line break.
  - Scanning resumes after that `}`.
  - Multi-line scalars are handled; no single-line restriction is made.
- `yaml_arguments.dfy`: the two methods, their specification functions, and
  the lemmas about them.
- `scenarios.dfy`: the cases of `tests/unit_tests/test_yaml_arguments.py`,
  stated on the model.

Inputs that the source reads from its surroundings are passed in as
parameters:

- The process environment is an immutable `map<string, string>`.
- The scalar handed to `env_constructor` is a string.
- The YAML document is the namespace that parsing and the JSON round trip
  would produce.

## Behaviour of the code worth knowing

- **Type check.** The type gate is `isinstance`, not an exact type match. A
  YAML `bool` is accepted where the CLI holds an `int`, but an `int` is
  rejected for a `float`. A CLI value of `None` rejects every YAML value that
  is set (`TypeGateCases`).
- **Error order.** A type error is reported before an unknown key. The
  unknown-key walk runs only after the merge loop, so when both errors are
  present the type error on the first offending CLI attribute is the one
  raised (`MergeTypeGate`, `MergeUnknownCheck`).
- **Empty placeholder names.** The lazy group `(.*?)` also matches `${}`, which
  then looks up the variable with the empty name
  (`EmptyPlaceholderNamesEmptyVariable`). A name cannot contain a line break.
- **Placeholders created by a replacement.** A replacement can join the
  surrounding text into a new `${a}`, even when no variable's value contains
  `${`. In `$${a}{a}` with `a` set to the empty string, the result is
  `${a}` (`PlaceholderCanSurvive`). Each step does replace every occurrence of
  its own placeholder (`ReplaceEveryOccurrence`).

## Model

| member | source | states |
|---|---|---|
| `PyValues.TypeOf` | megatron/training/yaml_arguments.py:33-37 | `type(v)`: the runtime class of each value; `true` and `false` are `bool`, not `int` (`TypeGateCases` pins how the gate uses it) |
| `PyValues.IsInstance` | megatron/training/yaml_arguments.py:36 | `isinstance(v, t)`: the exact class, or `bool` where `int` is asked (`TypeGateCases` states each case) |
| `PyValues.TypeName` | megatron/training/yaml_arguments.py:38 | `expected_type.__name__` and `type(yaml_value).__name__`: the class names the "Invalid type" message prints |
| `PyValues.HasAttr` | megatron/training/yaml_arguments.py:45 | `hasattr(ns, key)`: some attribute has that name; `IndexOf` finds none exactly when it is false |
| `PyValues.GetAttr` | megatron/training/yaml_arguments.py:32 | `getattr(ns, key, None)`: None when the attribute is absent, otherwise the value stored under the first attribute with that name |
| `PyValues.IndexOf` | megatron/training/yaml_arguments.py:32 | finds the first position of an attribute name; there is none exactly when `hasattr` is false |
| `PyValues.GetAttrAt` | megatron/training/yaml_arguments.py:32 | in a namespace with distinct names, `getattr(ns, key, None)` returns the stored value of each attribute |
| `PyValues.SetAttr` | megatron/training/yaml_arguments.py:39-41 | `setattr` appends a new attribute at the end, or keeps an existing one in place; afterwards `getattr` gives the new value for that key, every other key reads as before, and names stay distinct |
| `PyStrings.Replace` | megatron/training/yaml_arguments.py:20 | `str.replace`: the left-to-right scan; `ReplaceIsSplitJoin`, `ReplaceEveryOccurrence` and `ReplaceAbsent` state what it returns |
| `PyStrings.Split` | megatron/training/yaml_arguments.py:20 | the split has at least one piece, and the first piece is a prefix of the text |
| `PyStrings.SplitJoin` | megatron/training/yaml_arguments.py:20 | splitting at a separator and joining with it gives the text back |
| `PyStrings.SplitPiecesAreFree` | megatron/training/yaml_arguments.py:20 | no piece of the split contains the separator |
| `PyStrings.ReplaceIsSplitJoin` | megatron/training/yaml_arguments.py:20 | the left-to-right `str.replace` equals the split joined with the replacement |
| `PyStrings.ReplaceEveryOccurrence` | megatron/training/yaml_arguments.py:20 | the input is the pieces joined with the placeholder, the output is the same pieces joined with the replacement, and no piece holds the placeholder |
| `PyStrings.ReplaceAbsent` | megatron/training/yaml_arguments.py:20 | a text without the placeholder is returned unchanged |
| `PyStrings.ReplaceLeading` | megatron/training/yaml_arguments.py:20 | a text that starts with the pattern and has no further occurrence gets just that leading occurrence replaced |
| `PyStrings.ReplaceBySelf` | megatron/training/yaml_arguments.py:20 | replacing a text by itself changes nothing; this is the step of `ResolveSelfValued`, where a variable is set to its own `${NAME}` |
| `EnvPattern.Placeholder` | megatron/training/yaml_arguments.py:20 | the f-string `f"${{{group}}}"`: the text `${group}` that each replacement looks for (`PlaceholderOpens`, `ReplaceEveryOccurrence`) |
| `EnvPattern.CloseAt` | megatron/training/yaml_arguments.py:13 | the lazy group closes at a `}` with no `}` or line break before it; if it finds none, no `}` can be reached |
| `EnvPattern.CloseAtFirst` | megatron/training/yaml_arguments.py:13 | the group closes exactly at the first reachable `}` |
| `EnvPattern.OpensAt` | megatron/training/yaml_arguments.py:13 | a match of the pattern places its `${` at this index: `$` and `{` there, and the group after them closes at a `}` before any line break (`PlaceholderOpens`, `FindAllFromLeftmost`) |
| `EnvPattern.FindAllFrom` | megatron/training/yaml_arguments.py:13 | every extracted group is free of `}` and line breaks, and its `${group}` occurs in the scalar; there are no groups exactly when no match begins at or after the scan position |
| `EnvPattern.FindAllFromLeftmost` | megatron/training/yaml_arguments.py:13 | the scan returns the leftmost match first: the group of the match that opens at the least position, closed by its first reachable `}`, followed by the groups of the scan resumed just after that `}` |
| `EnvPattern.FindAll` | megatron/training/yaml_arguments.py:18 | `env_pattern.findall(value)` scans from the start; each group is plain text whose `${group}` occurs in the scalar |
| `EnvPattern.PlaceholderOpens` | megatron/training/yaml_arguments.py:13 | every occurrence of `${name}`, with a name free of `}` and line breaks, is where a match begins |
| `EnvPattern.FindAllEmptyIff` | megatron/training/yaml_arguments.py:13 | `findall` returns nothing exactly when the scalar contains no such `${name}` |
| `EnvPattern.FindAllLeadingPlaceholder` | megatron/training/yaml_arguments.py:13 | a scalar that starts with `${name}`, with a name free of `}` and line breaks, and has no later `$` yields exactly `[name]` |
| `YamlArguments.Message` | megatron/training/yaml_arguments.py:19-45 | the assertion texts of the three failures (`MessagesNameTheFailure` states their prefixes) |
| `YamlArguments.MessagesNameTheFailure` | megatron/training/yaml_arguments.py:36-45 | the assertion messages start with "Invalid type for 'key'" and "Unknown argument 'key'" |
| `YamlArguments.Mismatch` | megatron/training/yaml_arguments.py:33-38 | the condition under which the assertion at lines 36-38 fails: the YAML value is set (not None) and is not an instance of the CLI value's type (`FirstTypeErrorIsFirstMismatch`, `MergeTypeGate`) |
| `YamlArguments.InvalidTypeFor` | megatron/training/yaml_arguments.py:36-38 | the failure reported for that attribute: its key, the CLI value's type and the YAML value's type |
| `YamlArguments.MergedEntry` | megatron/training/yaml_arguments.py:35-41 | the attribute stored for one CLI attribute: the YAML value when set and not None, the CLI value otherwise (`MergedArgsAt`, `MergeOk`) |
| `YamlArguments.FirstTypeError` | megatron/training/yaml_arguments.py:31-38 | the first loop's failure: the first CLI attribute, in CLI order, whose YAML value fails the type gate (`FirstTypeErrorIsFirstMismatch`, `FirstTypeErrorKind`) |
| `YamlArguments.FirstUnknown` | megatron/training/yaml_arguments.py:43-45 | the second loop's failure: the first YAML attribute, in YAML order, that the CLI namespace lacks (`FirstUnknownIsFirstMissing`, `FirstUnknownKind`) |
| `YamlArguments.MergedArgs` | megatron/training/yaml_arguments.py:29-41 | the namespace the first loop builds: one merged entry per CLI attribute, in CLI order (`MergedArgsAt`, `MergedArgsShape`, `MergedArgsGetAttr`) |
| `YamlArguments.MergeYamlAndCliArgs` | megatron/training/yaml_arguments.py:28-47 | the two loops (setattr over the CLI attributes with the type gate, then the unknown-key walk) return exactly `Merge` |
| `YamlArguments.MergedArgsAt` | megatron/training/yaml_arguments.py:31-41 | the merged namespace has one entry per CLI attribute, in CLI order; each is the YAML value when set, otherwise the CLI value |
| `YamlArguments.FirstTypeErrorIsFirstMismatch` | megatron/training/yaml_arguments.py:31-38 | the type gate passes exactly when no CLI attribute has a mismatching YAML value; otherwise it reports the first such attribute in CLI order, with the expected and actual types |
| `YamlArguments.FirstTypeErrorKind` | megatron/training/yaml_arguments.py:36-38 | every type-gate failure is an "Invalid type" failure |
| `YamlArguments.FirstUnknownIsFirstMissing` | megatron/training/yaml_arguments.py:43-45 | the unknown-key walk passes exactly when every YAML attribute is a CLI attribute; otherwise it names the first unknown one in YAML order |
| `YamlArguments.FirstUnknownKind` | megatron/training/yaml_arguments.py:45 | every failure of the unknown-key walk is an "Unknown argument" failure |
| `YamlArguments.Merge` | megatron/training/yaml_arguments.py:28-47 | the result of `merge_yaml_and_cli_args`: the merged namespace, or the first failing assertion; `MergeTypeGate`, `MergeUnknownCheck`, `MergeSucceedsIff` and `MergeResult` characterize it |
| `YamlArguments.MergeTypeGate` | megatron/training/yaml_arguments.py:31-38 | the merge fails with "Invalid type" exactly when some CLI attribute has a set YAML value that is not an instance of the CLI value's type (`Mismatch`); it names the first such attribute, whatever the unknown-key flag and whatever unknown keys the YAML holds |
| `YamlArguments.MergeUnknownCheck` | megatron/training/yaml_arguments.py:43-45 | with `ignore_unknown_args` the merge never fails for an unknown key; without it, once the type gate passes, it fails with "Unknown argument" exactly when some YAML attribute is not a CLI attribute, naming the first |
| `YamlArguments.MergeSucceedsIff` | megatron/training/yaml_arguments.py:31-47 | the merge succeeds exactly when every CLI attribute passes the type gate and, unless unknown keys are ignored, every YAML attribute is known; any failure returns only the error |
| `YamlArguments.MergeResult` | megatron/training/yaml_arguments.py:29-41 | a successful merge has exactly the CLI attributes, in CLI order and distinct, and never a YAML-only one; `getattr` of each gives the YAML value when it is present and not None, and the CLI value otherwise |
| `YamlArguments.MergedArgsShape` | megatron/training/yaml_arguments.py:30-41 | the merged namespace has the CLI names in CLI order, stays distinct, has an attribute exactly when the CLI has it, and holds at each position the YAML value when set and the CLI value otherwise |
| `YamlArguments.MergedArgsGetAttr` | megatron/training/yaml_arguments.py:32-41 | `getattr` of every CLI name on the merged namespace gives the YAML value when it is set and not None, and the CLI value otherwise |
| `YamlArguments.MergeOk` | megatron/training/yaml_arguments.py:29-47 | when both checks pass, the result is position by position each CLI attribute with its winning value |
| `YamlArguments.NestedNamespaceReplacedWhole` | megatron/training/yaml_arguments.py:33-39 | a YAML namespace always passes the gate against a CLI namespace, and the result holds the YAML namespace itself, with no field-by-field merge |
| `YamlArguments.MergeWithoutOverrides` | megatron/training/yaml_arguments.py:35-41 | when the YAML sets none of the CLI attributes, the merge with unknown keys ignored returns the CLI namespace |
| `YamlArguments.TypeGateCases` | megatron/training/yaml_arguments.py:33-38 | `isinstance` rules: bool passes for int; int and bool fail for float; int fails for bool; only None passes for NoneType; any namespace passes for a namespace |
| `YamlArguments.Substitute` | megatron/training/yaml_arguments.py:18-20 | the loop over the extracted groups on the rebound value: fails at the first unset variable (`SubstituteFailsIff`) |
| `YamlArguments.Resolve` | megatron/training/yaml_arguments.py:16-21 | the result of `env_constructor` for a scalar: the groups found once, then substituted in order (`ResolveFailsIff`, `ResolveWithoutPlaceholders`, `ResolveLeadingPlaceholder`) |
| `YamlArguments.EnvConstructor` | megatron/training/yaml_arguments.py:16-21 | extracting the groups once, then the loop of lookups and `str.replace` calls on the rebound value, returns exactly `Resolve` |
| `YamlArguments.SubstituteFailsIff` | megatron/training/yaml_arguments.py:18-20 | the substitution loop succeeds exactly when every group is set; otherwise it fails naming the first unset group |
| `YamlArguments.ResolveFailsIff` | megatron/training/yaml_arguments.py:18-19 | `env_constructor` fails with "environment variable ... not found" exactly when some extracted group is not in the environment, and it names the first such group |
| `YamlArguments.ResolveWithoutPlaceholders` | megatron/training/yaml_arguments.py:18-21 | a scalar containing no `${name}` is returned unchanged in any environment |
| `YamlArguments.SubstituteSelfValued` | megatron/training/yaml_arguments.py:18-20 | when every group's variable is set to its own `${NAME}`, the loop gives back the value it started with |
| `YamlArguments.ResolveSelfValued` | megatron/training/yaml_arguments.py:16-21 | a scalar whose extracted variables are all set to their own placeholders resolves to itself |
| `YamlArguments.ResolveLeadingPlaceholder` | megatron/training/yaml_arguments.py:18-21 | `${name}`, with a name free of `}` and line breaks, followed by text without `$` becomes the variable's value followed by that text |
| `YamlArguments.PlaceholderCanSurvive` | megatron/training/yaml_arguments.py:18-21 | with `a` set to the empty string, `$${a}{a}` extracts only `a`, resolves to `${a}`, and the output still contains `${a}` |
| `YamlArgumentsScenarios.YamlOverridesCli` | tests/unit_tests/test_yaml_arguments.py:16-39 | learning_rate and batch_size come from the YAML; num_epochs keeps its CLI value |
| `YamlArgumentsScenarios.StringForFloatIsRejected` | tests/unit_tests/test_yaml_arguments.py:41-49 | a string for a float CLI value fails with "Invalid type", expected float, got str |
| `YamlArgumentsScenarios.UnknownArgumentDetected` | tests/unit_tests/test_yaml_arguments.py:51-67 | an unknown YAML key fails with "Unknown argument" when checked; when ignored it is dropped and learning_rate is overridden |
| `YamlArgumentsScenarios.LoadedYamlOverridesAll` | tests/unit_tests/test_yaml_arguments.py:69-96 | all three YAML values override the CLI ones: the result is the YAML namespace |
| `YamlArgumentsScenarios.EnvironmentVariableSubstituted` | tests/unit_tests/test_yaml_arguments.py:98-122 | with TEST_VAR=/test/path, `${TEST_VAR}/data` and `${TEST_VAR}/checkpoints` become /test/path/data and /test/path/checkpoints |
| `YamlArgumentsScenarios.ResolvedPathsOverrideDefaults` | tests/unit_tests/test_yaml_arguments.py:113-122 | the resolved paths override the CLI default paths |
| `YamlArgumentsScenarios.UnsetVariableReported` | megatron/training/yaml_arguments.py:19 | `${TEST_VAR}/data` with TEST_VAR unset fails, naming TEST_VAR |
| `YamlArgumentsScenarios.NestedNamespacesReplaced` | tests/unit_tests/test_yaml_arguments.py:127-156 | the YAML optimizer and model namespaces replace the CLI ones whole |
| `YamlArgumentsScenarios.EmptyPlaceholderNamesEmptyVariable` | megatron/training/yaml_arguments.py:13-19 | `${}` extracts the empty group and, when no variable has the empty name, fails naming the empty variable |

## Left out

- `load_yaml` (lines 50-70) is left out. It prints a warning, opens the file,
  parses it with PyYAML, and converts it to namespaces with `json.dumps` /
  `json.loads`. That is I/O and foreign library behaviour. The merge takes the
  converted document as a namespace.
- The registration of the implicit resolver and constructor (lines 24-25) is
  left out. PyYAML decides which scalars reach `env_constructor`, and its
  rules are not part of this model. `EnvConstructor` is applied to a given
  scalar string, and `loader.construct_scalar(node)` is that string.
- `os.environ` is passed as an immutable map. That matches how the source
  reads it: only reads, during one call.
- Floats have no arithmetic. They are tokens, because the merge only compares
  their type.
- Only JSON-representable values are modelled: `None` (JSON's `null`),
  bool, int, float, str, list and namespace. A CLI value of another Python type (a tuple, an
  enum) is not. Nor is a top-level YAML document that is not a mapping (an
  empty file gives `None`).
- `getattr` and `hasattr` on special names such as `__class__` or `__dict__`
  are not modelled. The model sees only the instance attributes, so a YAML key
  `__class__` passes Python's `hasattr(cli_args, key)` at line 45 but is an
  `UnknownArgument` in the model.
- All failures are `assert` statements in the source. When Python runs with
  `-O`, those checks are removed; the model always performs them.
- The merged namespace is a shallow copy. `setattr` at lines 39 and 41 stores
  references, so a nested namespace or list in the result is the same object
  as the one in the YAML or CLI namespace it came from, and changing it later
  changes that input too. The model's values are immutable and do not
  capture this sharing.
- `MergeYamlAndCliArgs`: requires the CLI attribute names to be distinct. A
  `SimpleNamespace` guarantees this, and the model's namespace shape does not.
