# good-start: container runtime, entrypoint, display, findings and pytest plugin

good-start is a pytest plugin. It lets a documentation test ask an agent to
follow a project's instructions ("install it, run it") and report back on
whether they worked. This project models the part of good-start that carries
out one such run in a container, and proves properties of that model:

- **The pytest side** (`Plugin`). The `good_start` fixture factory picks the
  target and the prompt template. Each comes from an explicit argument, the
  closest `good_start` mark (the test's own, then its class's and module's),
  the command-line option or the ini setting, in that order of precedence. The fixture then runs the agent and stashes the
  `Result` on the test item. The collection hook marks every test that uses
  the fixture. The report hook appends the agent's details to the report of a
  failed call.
- **The host runtime** (`Container`). `ContainerRuntime` detects podman or
  docker, making sure the `good-start-agent:latest` image exists and building
  it from the Containerfile when it does not. It then starts the container
  with the target mounted read-only and streams the child's stderr line by
  line. Each line that decodes as a tool event is echoed through the display;
  the others are echoed dimmed when verbose. Finally it turns the exit status
  and the last line of stdout into `AgentFindings`.
- **The container entrypoint** (`Entrypoint`). It parses `--prompt` (required)
  and `--target` (default `.`) the way argparse does, and runs the agent. Each
  tool use goes to stderr as one JSON line. The findings go to stdout as one
  JSON line: the result on success, a failure with the exception's text
  otherwise.
- **The tool-event display** (`Display`). An event is one line: a tool prefix
  (`$`, `>`, `?`, `*`, or `#` for other tools) and then the tool's main
  argument. Grep patterns are shown as Python `repr`. `StructuredOutput`
  events are hidden.
- **The findings and their JSON schema** (`Findings`, `Schema`). These are the
  pydantic models `AgentStep`, `AgentFindings` and `Result`: what
  `model_validate_json` accepts, with the defaults it fills in. `Schema`
  models the `$ref` inliner `_dereference_schema`.
- **The wire between the two ends** (`Protocol`). These lemmas connect what the
  entrypoint prints with what the host reads:
  - every event line the entrypoint writes is shown on the host exactly as the
    display formats it;
  - the findings the entrypoint prints are the findings the host returns, as
    long as their text holds none of U+0085, U+2028 and U+2029 (see
    "Findings": the corrected line is read back whatever the text);
  - the command line the host builds is parsed back into the same prompt and
    target.

The supporting modules are:
- `Wrappers`: `Option`, and `Outcome`, which stands for a Python call that
  returns or raises.
- `PyText`: `str.strip`, `str.splitlines`, `split("/")[-1]`, `Path.parent`,
  and decimal and hex digits.
- `Json` and `JsonRoundTrip`: JSON values with Python `dict` semantics, the
  two encoders (`json.dumps` and pydantic's `model_dump_json`) and one
  decoder, with the round trip and single-line properties proved for both
  encoders.

Python exceptions are values: `Outcome<T>` is `Returned(value)` or
`Raised(exc)`, and the exception's class and message are part of the model.
Things the code receives from outside become parameters or fields the model
is handed:
- `shutil.which`;
- the environment;
- `Path.resolve` and `is_file`;
- whether images and the Containerfile exist;
- the build's return code and output;
- the child's stderr chunks, exit code and stdout;
- the clock;
- the agent run;
- the prompt loader and renderer.

## Model

| member | source | states |
|---|---|---|
| Container.DetectEngine | src/good_start/runtime/_container.py:141-150 | podman when `which("podman")` is truthy; otherwise docker when `which("docker")` is; otherwise `RuntimeError` with the no-engine message |
| Container.NewContainerRuntime | src/good_start/runtime/_container.py:26-28 | construction raises exactly when neither engine is found; otherwise the runtime keeps the preferred engine and the verbose flag |
| Container.MountHoldsTarget | src/good_start/runtime/_container.py:34-38 | a directory is mounted itself; a file's mount directory is its parent, so the file is the mounted directory's entry `name` (or lies in the root, or in `.`) |
| Container.ContainerRuntime.RunCommand | src/good_start/runtime/_container.py:40-55 | the argv has 14 words: the engine first, the image at index 9, the API key from the environment (default empty), the mount of the resolved target read-only; it ends with `--prompt prompt --target target` verbatim |
| Container.ContainerRuntime.EnsureImage | src/good_start/runtime/_container.py:104-138 | an existing image is only inspected; with no image and no Containerfile it raises `FileNotFoundError`; otherwise it builds, and either raises `RuntimeError` with the build's stderr or adds the image and echoes the build's stdout when verbose (together: `Preflight`, `PreflightCommands` and `PreflightEcho`) |
| Container.EventEchoCases | src/good_start/runtime/_container.py:79-84 | a line that is not JSON, or is a dict without `tool` or `input`, is echoed dimmed only when verbose; a dict with both goes to the display; a JSON value that is not a dict raises `TypeError` out of the loop |
| Container.BlankLinesSkipped | src/good_start/runtime/_container.py:76-78 | whitespace-only stderr lines produce no output and no error |
| Container.StderrEchoSnoc | src/good_start/runtime/_container.py:72-84 | the echo of the stderr seen so far grows by one line's echo at a time, and an exception stops it |
| Container.EchoErrorStays | src/good_start/runtime/_container.py:79-84 | once a line's echo has raised, no later line is shown or changes the outcome |
| Container.CollectErrorStays | src/good_start/runtime/_container.py:72-84 | an exception among the first outcomes fixes the whole echo: lines and exception |
| Container.Process.Readline | src/good_start/runtime/_container.py:73 | returns the next stderr chunk and advances; it returns "" only at the end of the stream |
| Container.Process.Poll | src/good_start/runtime/_container.py:74 | `None` while the child still runs; then its exit code, which becomes `returncode` |
| Container.ContainerRuntime.ShowLine | src/good_start/runtime/_container.py:76-84 | one stderr line's echo is appended to the console, or the exception it raises is returned |
| Container.ContainerRuntime.Step | src/good_start/runtime/_container.py:72-84 | one pass of the read loop keeps the console equal to the echo of the stderr read so far, and makes progress (a chunk read or a poll made); an exception it returns is the stream's exception and nothing after it counts |
| Container.ContainerRuntime.StreamEvents | src/good_start/runtime/_container.py:72-84 | the console ends holding the echo of all stderr up to the first event that raises, whose exception is returned; without one, all stderr was read and the child's exit code recorded |
| Container.Classify | src/good_start/runtime/_container.py:89-102 | nonzero status gives a failed finding whose details start with "Container error: "; status 0 validates the last line of stripped stdout (or "{}"); only validation raises |
| Container.NonZeroExitFails | src/good_start/runtime/_container.py:89-96 | whatever stdout holds, a nonzero exit returns a non-passing finding prefixed "Container error: " |
| Container.EmptyStdoutRaises | src/good_start/runtime/_container.py:99-101 | exit 0 with blank stdout validates "{}" and raises |
| Container.ContainerRuntime.Start | src/good_start/runtime/_container.py:30-67 | returns or raises exactly as `_ensure_image` does; the commands are its inspection and build, then the run command only on success; the console gets the build echo, then the started message only on success; the image is added only when built |
| Container.ContainerRuntime.Conclude | src/good_start/runtime/_container.py:86-102 | the result holds exactly `Classify`'s findings and none of the agent messages; it raises exactly when `Classify` does; the error details are echoed only when verbose and the exit is nonzero |
| Container.ContainerRuntime.Await | src/good_start/runtime/_container.py:69-102 | raises exactly when an event's echo raises or the findings fail to validate, with that exception; the console gets the events' echo and, when no event raised, the error details for a nonzero exit in verbose mode; a result holds `Classify(exit code, stdout)` and means all stderr was read |
| Container.ContainerRuntime.Run | src/good_start/runtime/_container.py:30-102 | raises exactly when `_ensure_image` or the rest of the run raises, with that exception, and leaves the child untouched when the image step fails; the commands, console and images are the image step's, followed on success by the run command, the started message and the stream's echo; a result's findings are `Classify(exit code, stdout)` |
| Display.QuoteFor | src/good_start/display.py:29 | `repr` quotes with `"` exactly when the text has a `'` and no `"` |
| Display.ReprChar | src/good_start/display.py:29 | a character is written as itself exactly when it is printable, not the quote and not a backslash; otherwise as an escape starting with a backslash |
| Display.EvalStrRepr | src/good_start/display.py:29 | reading the `repr` of any string back as a Python literal gives that string |
| Display.PlainStrRepr | src/good_start/display.py:29 | a string of printable characters without quotes or backslashes is shown as itself in single quotes |
| Display.Prefix | src/good_start/display.py:7-20 | every tool prefix is one character |
| Display.FormatToolEvent | src/good_start/display.py:18-33 | raises exactly when the name is unhashable, or is a known tool and the input is not a dict; otherwise the line starts with the prefix and a space |
| Display.PrintToolEvent | src/good_start/display.py:36-41 | raises exactly when formatting does; `StructuredOutput` prints nothing, any other tool one line |
| Display.BashEvent | src/good_start/display.py:22-23 | a Bash event shows `$ ` and then the command, or `$ ` alone without one |
| Display.ReadEvent | src/good_start/display.py:24-25 | a Read event shows `> ` and then the file path, or `> ` alone without one |
| Display.GrepEvent | src/good_start/display.py:26-29 | a Grep event shows the pattern's `repr` and the path; a missing pattern is the empty string, shown as `''`, and a missing path is `.` |
| Display.GrepLine | src/good_start/display.py:26-29 | the Grep line is `? grep `, the `repr` of the pattern (or of `""` without one), a space and the path |
| Display.GlobEvent | src/good_start/display.py:30-31 | a Glob event shows `* ` and then the pattern, or `* ` alone without one |
| Display.OtherEvent | src/good_start/display.py:32-33 | any other tool shows `#`, its name and `str()` of its input |
| Display.OtherEventNamed | src/good_start/display.py:32-33 | the line of another tool starts with `# ` and its name |
| Display.BashExample | tests/test_display.py:5-7 | `{"command": "pip install good-start"}` shows as `$ pip install good-start` |
| Display.ReadExample | tests/test_display.py:9-11 | `{"file_path": "README.md"}` shows as `> README.md` |
| Display.GrepExample | tests/test_display.py:13-15 | pattern `install` in `.` shows as `? grep 'install' .` |
| Display.GlobExample | tests/test_display.py:17-19 | `{"pattern": "*.md"}` shows as `* *.md` |
| Display.CustomToolExample | tests/test_display.py:21-23 | an unknown tool's line starts with `# CustomTool` |
| Entrypoint.WordKind | src/good_start/_entrypoint.py:23-26 | only `--prompt`, `--target` and `-h`/`--help` are options, also as unique abbreviations of the long ones and as `-h` run together with more text; a word not starting with `-` is a positional; an ambiguous abbreviation starts with `--` |
| Entrypoint.ParseFrom | src/good_start/_entrypoint.py:23-26 | parsing either returns, which needs no stray word, or exits with status 0 (help) or 2 (usage error) |
| Entrypoint.ParseArgs | src/good_start/_entrypoint.py:26 | an ambiguous abbreviation before `--` exits with status 2 before any option acts; otherwise the words are parsed in order |
| Entrypoint.PromptRequired | src/good_start/_entrypoint.py:24 | without `--prompt` parsing exits |
| Entrypoint.TargetDefault | src/good_start/_entrypoint.py:25 | `--prompt p` alone gives target `.` |
| Entrypoint.ExplicitValue | src/good_start/_entrypoint.py:23-26 | `--prompt=p` takes everything after the first `=` as the prompt |
| Entrypoint.LastPromptWins | src/good_start/_entrypoint.py:23-26 | a repeated `--prompt` keeps the last value |
| Entrypoint.HelpExits | src/good_start/_entrypoint.py:23-26 | `-h` after unknown options exits with status 0 whatever follows, unless a later word before `--` is an ambiguous abbreviation, which exits with status 2 |
| Entrypoint.ShortHelpCluster | src/good_start/_entrypoint.py:23-26 | `-h` run together with more text exits with status 0 when that text is all `h`, and with status 2 otherwise |
| Entrypoint.PromptAbbreviation | src/good_start/_entrypoint.py:24 | a unique abbreviation of `--prompt` takes the next word as the prompt |
| Entrypoint.ReadsHostCommand | src/good_start/_entrypoint.py:23-26 | `--prompt p --target t` parses to `(p, t)` unless a value looks like an option, in which case parsing exits with status 2 |
| Entrypoint.ChosenFindings | src/good_start/_entrypoint.py:33-45 | the agent's findings are kept field for field on success; a raising agent gives a failure "Agent encountered an error: " + message, with no steps and no command |
| Entrypoint.EventLog | src/good_start/_entrypoint.py:28-30 | one stderr line per tool use, in order |
| Entrypoint.Console.Print | src/good_start/_entrypoint.py:30 | a printed line is appended to the stream log |
| Entrypoint.RunMain | src/good_start/_entrypoint.py:22-46 | a parse exit returns argparse's status and prints nothing the model records; otherwise status 0, one stderr line per tool use, then `model_dump_json()` of the chosen findings on stdout |
| Entrypoint.RunMainFixed | src/good_start/_entrypoint.py:22-46 | as `main`, with the corrected findings line (every non-ASCII character escaped) on stdout |
| Entrypoint.EventsNotOnStdout | src/good_start/_entrypoint.py:28-30 | tool events write nothing to stdout |
| Entrypoint.OneFindingsLine | src/good_start/_entrypoint.py:46 | whatever line `main` prints last, stdout is exactly that line and its newline, and everything before it went to stderr |
| Entrypoint.EventLineShape | src/good_start/_entrypoint.py:28-30 | an event line contains no line break and decodes to a dict with exactly `tool` and `input` |
| Entrypoint.EventLineSingle | src/good_start/_entrypoint.py:29-30 | whatever the input holds, the event line contains no line break |
| Entrypoint.EscapedLineValidates | src/good_start/_entrypoint.py:46 | validating the corrected findings line gives back the same findings |
| Entrypoint.EscapedLineSingle | src/good_start/_entrypoint.py:46 | the corrected findings line contains no line break, whatever the findings hold |
| Findings.StrField | src/good_start/result.py:11-15 | a `str` field validates exactly when it is present and a string |
| Findings.ValidateFindings | src/good_start/result.py:21-47 | only a dict can validate, and every failure is a `ValidationError` |
| Findings.ValidateFindingsJson | src/good_start/runtime/_container.py:101 | text that is not JSON is refused, and every failure is a `ValidationError` |
| Findings.StepValidates | src/good_start/result.py:10-18 | a dumped step validates back to itself |
| Findings.StepsValidate | src/good_start/result.py:37-41 | a dumped step list validates back to itself |
| Findings.FindingsValidate | src/good_start/result.py:21-47 | dumped findings validate back to themselves |
| Findings.FindingsJsonWellFormed | src/good_start/result.py:21-47 | dumped findings have distinct keys at every level |
| Findings.FindingsRoundTrip | src/good_start/result.py:21-47 | findings written by either encoder validate back to themselves |
| Findings.ModelDumpValidates | src/good_start/_entrypoint.py:46 | `model_validate_json` of `model_dump_json()` gives back the same findings |
| Findings.ModelDumpSingleLine | src/good_start/_entrypoint.py:46 | `model_dump_json()` writes one line when no text of the findings holds U+0085, U+2028 or U+2029 |
| Findings.Defaults | src/good_start/result.py:37-47 | findings with only `passed` and `details` get no steps and no command |
| Findings.StepDefaults | src/good_start/result.py:16-18 | a step without `is_error` gets `false` |
| Findings.EmptyObjectInvalid | src/good_start/runtime/_container.py:100-101 | the fallback `{}` does not validate |
| Findings.OnlyFieldsMatter | src/good_start/result.py:21-47 | validation depends only on the four declared fields; extra keys are ignored |
| Findings.Result.constructor | src/good_start/result.py:76-83 | the result keeps the findings' four fields, the agent messages and the clock reading |
| Schema.Resolve | src/good_start/result.py:58-66 | the result holds no `$ref`; scalars come back unchanged, lists keep their length and dicts their keys; a failure is one of the errors the inliner can raise |
| Schema.ResolveNoRefs | src/good_start/result.py:58-66 | a value without `$ref` is returned unchanged |
| Schema.ResolveIdempotent | src/good_start/result.py:58-66 | resolving a resolved value changes nothing, whatever the definitions |
| Schema.ResolveDictRef | src/good_start/result.py:60-62 | a dict with `$ref` resolves through its reference alone, and its other keys are dropped |
| Schema.RefReplacesDict | src/good_start/result.py:60-62 | a `$ref` dict resolves as the definition named by the reference's last `/` segment |
| Schema.RefInlinesDefinition | src/good_start/result.py:60-62 | a reference to a definition without references is replaced by that definition |
| Schema.RefNotString | src/good_start/result.py:61 | a `$ref` that is not a string raises `AttributeError` about `split` |
| Schema.RefUnknown | src/good_start/result.py:62 | a reference to a missing definition raises the subscript error; for a dict of definitions it raises `KeyError` |
| Schema.RefCycle | src/good_start/result.py:60-62 | a reference met again while it is being expanded raises `RecursionError` |
| Schema.SelfReference | src/good_start/result.py:60-62 | a self-referencing definition raises `RecursionError` |
| Schema.StepRefInlined | src/good_start/result.py:60-62 | `#/$defs/AgentStep` is replaced by the `AgentStep` definition |
| Schema.StepListInlined | src/good_start/result.py:63-65 | a list schema whose items refer to `AgentStep` gets the definition inlined as its items |
| Schema.ResolveTotal | src/good_start/result.py:58-66 | when the definitions can be ranked so that every reference points lower, resolution succeeds |
| Schema.NoTopLevelDefs | src/good_start/result.py:56-68 | a resolved dict without `$ref` or `$defs` holds no `$defs` |
| Schema.SchemaDict.Pop | src/good_start/result.py:56 | returns the value under the key, or the default, and removes the key |
| Schema.DereferenceSchema | src/good_start/result.py:50-68 | `$defs` is removed from the schema; the result resolves the rest against it (an empty dict when it is missing), and holds no `$defs` when the top level has no `$ref` |
| Plugin.FirstTruthy | src/good_start/plugin.py:84-89 | the first truthy candidate, or none exactly when no candidate is truthy |
| Plugin.FirstOfThree | src/good_start/plugin.py:84-89 | a three-way precedence chain picks the first truthy of mark, option and ini |
| Plugin.ResolveTarget | src/good_start/plugin.py:81-89 | an explicit target wins; otherwise the first truthy of mark, option and ini, else `.`; the target is never empty |
| Plugin.ResolvePrompt | src/good_start/plugin.py:91-101 | an explicit prompt path wins; otherwise the first truthy of mark, option and ini |
| Plugin.TemplateFile | src/good_start/plugin.py:103-107 | the default template is used exactly when the prompt path is falsy |
| Plugin.Closest | src/good_start/plugin.py:83 | the first `good_start` mark of a list of marks, and none exactly when the list has none |
| Plugin.Item.ClosestMark | src/good_start/plugin.py:83 | `get_closest_marker` takes the item's own `good_start` mark when it has one, else the closest of its class and module |
| Plugin.Item.AddMarker | src/good_start/plugin.py:65 | the mark is appended to the item's marks |
| Plugin.CollectionModifyItems | src/good_start/plugin.py:62-65 | each item using the fixture gets one bare `good_start` mark per time it is listed, others none, and nothing else changes |
| Plugin.AutoMarkNeutral | src/good_start/plugin.py:62-65 | among the item's own marks, the bare marks added at collection never change the target or prompt resolved from them |
| Plugin.AutoMarkShadowsClassMark | src/good_start/plugin.py:62-65 | a class mark's `target` is lost once the bare mark is added to a test with no mark of its own |
| Plugin.CollectionModifyItemsFixed | src/good_start/plugin.py:62-65 | the corrected hook marks only the items that use the fixture and have no `good_start` mark anywhere in their chain; afterwards each item using the fixture has one, and nothing else changes |
| Plugin.MarkIfUnmarked | src/good_start/plugin.py:64-65 | one item of the corrected hook gains the bare mark exactly when it uses the fixture and has no closest mark |
| Plugin.FixedMarkNeutral | src/good_start/plugin.py:62-65 | with the corrected hook, the added mark changes neither the target nor the prompt the fixture resolves |
| Plugin.RunFixture | src/good_start/plugin.py:80-122 | the runtime is run with the no-container setting, the prompt rendered for the resolved target, and that target; the result is stashed, and nothing is stashed when the run raises |
| Plugin.Banner | src/good_start/plugin.py:134 | the extra text is the banner, the details and a newline |
| Plugin.MakeReport | src/good_start/plugin.py:127-136 | a failed call with a stashed result and a truthy report gets the details appended; every other report is left as it was |
| Plugin.AugmentedKeepsReport | src/good_start/plugin.py:134-136 | the augmented report starts with the original text and holds the details intact |
| Protocol.EventDisplayed | src/good_start/_entrypoint.py:28-30 | the host's echo of an entrypoint event line is the display's output for that tool use |
| Protocol.EventShown | src/good_start/runtime/_container.py:72-84 | an event line read with its newline is shown exactly as the display formats the tool use |
| Protocol.EventsShown | src/good_start/runtime/_container.py:72-84 | all the entrypoint's event lines together are shown in order, and the loop's JSON handling raises nothing for them (Rich markup is not modelled) |
| Protocol.MainEventsShown | src/good_start/_entrypoint.py:22-46 | a whole run's stderr is shown as its tool uses in order, raising nothing in the loop's JSON handling; the findings on stdout do not disturb it |
| Protocol.FindingsReachHost | src/good_start/runtime/_container.py:98-101 | when no text of the findings holds U+0085, U+2028 or U+2029, `model_dump_json()` printed after complete earlier lines of stdout is read back as the same findings |
| Protocol.EscapedFindingsReachHost | src/good_start/runtime/_container.py:98-101 | the corrected findings line after complete earlier lines is read back whatever the findings hold |
| Protocol.LineReachesHost | src/good_start/runtime/_container.py:98-101 | a one-line object printed last that validates is what the host reads |
| Protocol.MainFindingsRead | src/good_start/runtime/_container.py:98-102 | for findings free of those three characters, the host returns exactly the findings `main` chose |
| Protocol.FixedMainFindingsRead | src/good_start/runtime/_container.py:98-102 | with the corrected findings line, the host returns the findings `main` chose whatever their text |
| Protocol.CleanLineRead | src/good_start/runtime/_container.py:98-101 | the corrected findings line alone on stdout is read back |
| Protocol.RawBreakSplitsFindings | src/good_start/_entrypoint.py:46 | findings whose details are one of U+0085, U+2028 or U+2029 are refused when `model_dump_json` writes them, and read back when the line escapes them |
| Protocol.RawLineRefused | src/good_start/runtime/_container.py:99-101 | such a raw line makes the host raise a validation error at exit 0 |
| Protocol.RawDumpSplits | src/good_start/_entrypoint.py:46 | the raw line is a `{...` head, the break, then a fragment with no further break |
| Protocol.FragmentNotJson | src/good_start/runtime/_container.py:101 | the fragment after the break is not a JSON document |
| Protocol.ArgvReachesEntrypoint | src/good_start/runtime/_container.py:50-54 | the words after the image parse in the container to the same prompt and target, or exit with status 2 when a value looks like an option |
| JsonRoundTrip.LoadsDump | src/good_start/_entrypoint.py:29 | `json.loads` of what either encoder writes is the same value |
| JsonRoundTrip.DumpSingleLine | src/good_start/_entrypoint.py:29-30 | an encoder that escapes non-ASCII writes no line break; pydantic's does not either when no string holds U+0085, U+2028 or U+2029, the only line boundaries it leaves raw |
| Json.Lookup | src/good_start/display.py:23 | `dict.get` finds nothing exactly when no member has the key |
| Json.LookupAt | src/good_start/runtime/_container.py:81 | in a dict each member is found under its own key |
| Json.GetItem | src/good_start/runtime/_container.py:81 | `v[key]` returns the member's value; a dict without the key raises `KeyError`, anything else `TypeError` |
| Json.BuildDictUnique | src/good_start/runtime/_container.py:80 | members that already have distinct keys come out of dict construction unchanged |
| Json.Remove | src/good_start/result.py:56 | the key is gone, every other key keeps its value, and keys stay distinct |
| PyText.SplitLines | src/good_start/runtime/_container.py:99 | `splitlines` gives no lines for empty text, and no line holds a line boundary |
| PyText.LastLineAfterBreak | src/good_start/runtime/_container.py:99-100 | after any text ending in a line boundary, a line without a boundary is the last line |
| PyText.LastSegment | src/good_start/result.py:61 | `split("/")[-1]` is the suffix after the last `/`, holding none |
| PyText.Parent | src/good_start/runtime/_container.py:36 | `Path.parent` is `/`, `.`, or the prefix before a `/` of the path |

## Left out

- JSON floating-point numbers, `NaN` and `Infinity`: numbers are integers only, and other numeric literals fail to parse.
- Findings.ValidateFindings: pydantic's lax mode is not modelled. There is no coercion of `"true"`, `0` or `1` to `bool`; only values of the declared JSON type validate.
- Display.ReprChar: `str.isprintable` is approximated above U+00FF. Every character from U+0100 up counts as printable except the Unicode whitespace characters. Unassigned, format and private-use characters are therefore shown raw, and no character is escaped as a `\U` sequence.
- Entrypoint.RunMain: the usage message argparse writes to stderr before exit 2, and the help text it writes to stdout before exit 0, are not in the log. On the host, help's exit 0 sends the help text's last line to validation, which raises.
- Entrypoint.WordKind: argparse is followed as of Python 3.11. Python 3.12 changed how text run together with a short flag (`-hfoo`, `-h=hhh`) is handled, and the model does not follow that change. argparse also takes `-` followed by any Unicode decimal digits (its `\d`) as a negative number, so `--prompt -٣` gives the prompt `-٣`; the model recognises ASCII digits only, calls such a word an unknown option and exits with status 2.
- Entrypoint.ParseFrom: after the `--` separator no word is an option. The model exits with status 2 at the separator; whether argparse also reports `--` with nothing after it as unrecognized depends on the Python version.
- The agent itself (`agent.py`) is not part of this model. A run is a sequence of tool uses and an ending. `Agent(permission_mode=...)` on `_entrypoint.py:32` is called outside the `try`, so a failure to construct the agent is not modelled either.
- Schema.Resolve: Python's recursion depth limit (about 1000 frames) is not modelled. Only a true `$ref` cycle raises `RecursionError` in the model. A finite but very deep `$ref` chain, or a schema nested past the limit with no `$ref` at all, raises `RecursionError` in `_resolve` and resolves in the model.
- Container.EventEchoCases: CPython's JSON decoder counts a recursion level for each nested list and dict. So a stderr line nested past the recursion limit makes `json.loads` raise `RecursionError`. That is not caught by the loop's `except (json.JSONDecodeError, KeyError)`, and `run` raises. The model decodes values of any depth: a deep dict without `tool` is echoed or skipped, and a deep list raises `TypeError`. Container.ContainerRuntime.StreamEvents, Await and Run raise exactly as the model's decoder decides, not at Python's depth limit.
- `datetime.now()` is a parameter (`Host.now`).
- Rich: the console's markup rendering, `console.status` and its spinner are not modelled. The console is a list of the markup strings printed.
- Protocol.EventsShown: Rich raises `MarkupError` when a printed line holds a closing tag that does not match (for example a tool input containing `[/]`). That exception escapes the stderr loop of `run` and is not modelled, so "raises nothing" covers only the loop's JSON handling. The same holds for Protocol.MainEventsShown and for the verbose echoes in Container.ContainerRuntime.StreamEvents.
- Container.EventEcho: a stderr line holding a JSON float, `NaN` or `Infinity` does not parse in the model, and is echoed when verbose. Python parses it: a bare number then raises `TypeError` out of the loop, and a dict with such a value is shown as an event.
- Container.EventEchoCases: Python's `json.loads` accepts a lone surrogate escape such as `\ud800`, which the model refuses as a `\u` escape. The line `"\ud800"` therefore raises `TypeError` out of the loop in Python, and `{"tool":"\udc00","input":{}}` is shown as an event; the model echoes both as non-JSON when verbose. Strings are sequences of Unicode scalar values here, so lone surrogates are not representable.
- Container.EventEchoCases: from Python 3.11, `json.loads` raises a plain `ValueError` for an integer literal longer than 4300 digits. That is not a `JSONDecodeError`, so it escapes the loop's `except`. The model parses integers of any length: a bare one raises `TypeError` and one inside an event dict is shown.
- `load_prompt` and `prompt.render` (Jinja templates) are parameters of the fixture; `loader.py` is not part of this model.
- Text-mode pipes are approximated. Universal-newline translation, `bufsize=1` line buffering and read-ahead are not modelled. Stderr is the sequence of lines the child printed, each with its newline.
- `tests/test_runtime.py` line 121 expects "Container exited with code 1" in the details. The code writes "Container error: " and then the stripped stdout or "Container exited with non-zero status.", and the model follows the code.
- The API key: the tests mock a `_resolve_api_key` that `_container.py` does not define. The code reads `ANTHROPIC_API_KEY` with default `""` and never raises for a missing key, and the model does the same.
- `Result.__repr__` (display only).
- `agent_findings_schema`: pydantic's schema generation is not modelled. The `$ref` inliner is modelled on any schema.
- Container.ContainerRuntime.StreamEvents: the loop ends because the child is assumed to exit after finitely many polls (`pollsBeforeExit`). A child that never exits keeps the host polling forever. A child that fills the stdout pipe while the host still reads stderr blocks, and both sides stall. Neither is modelled. The host never waits on the child beyond `poll`, kills it, or times it out.
- `args.target` is parsed by the entrypoint but never used; the model parses it and ignores it as the code does.
- `json.dumps` raising `TypeError` for values that are not JSON-serialisable: tool inputs are JSON values in the model.
- Plugin.Item.ClosestMark: the node chain is the item, then its class and module, with each node's marks given in order. Packages, and marks from `parametrize` ids, are not modelled.
- A `good_start` mark's `target` and `prompt` keyword values are modelled as strings. Non-string values are not.
- `report.longrepr` is modelled as an optional string. `str(longrepr)` of pytest's structured representations is not modelled.
- Out-of-memory, signals and timeouts are not modelled.
- `pytest_addoption` and `pytest_configure` (option and marker registration): the options they register are the `Config` fields.
- `resolve_runtime` (`runtime/__init__.py`), `_base.py`, `_local.py`, `cli.py` and `main.py` are not part of this model; `RunFixture` takes the runtime's `run` as a parameter.

## Findings

| source | as written | input that shows it | evidently intended | confidence | as-written member | corrected member |
|---|---|---|---|---|---|---|
| src/good_start/_entrypoint.py:46 | `model_dump_json()` writes U+0085, U+2028 and U+2029 inside strings unescaped. The host splits stdout on them (`_container.py:99`), takes the fragment after the break as the last line, and `model_validate_json` raises at exit 0. | findings with `details == "\u2028"`, printed by a container that exits 0 | the findings the entrypoint prints are the findings the host returns, whatever text the details hold | not executed; medium (pydantic-core's escaping rules are read from its documented JSON behaviour) | Protocol.RawBreakSplitsFindings (of Entrypoint.RunMain's line; Protocol.MainFindingsRead holds only for findings free of these characters) | Entrypoint.RunMainFixed (printing Entrypoint.EscapedFindingsLine, which also uses `json.dumps`'s separators), proved by Protocol.FixedMainFindingsRead and Protocol.EscapedFindingsReachHost |
| src/good_start/plugin.py:62-65 | `item.add_marker(pytest.mark.good_start)` adds a bare mark to the item's own marks. `get_closest_marker` (`plugin.py:83`) searches those before the class's and module's, so a `good_start(target=..., prompt=...)` mark on the class or module is no longer seen by the fixture. | a test in a class marked `good_start(target="docs")` that uses the fixture and has no mark of its own, with no target option or ini setting: the fixture runs on `.` instead of `docs` | a class or module mark configures the tests beneath it, as the marker's help text (`plugin.py:57-58`) and pytest's mark inheritance suggest | not executed; medium (pytest's closest-marker order is read from its documented behaviour) | Plugin.AutoMarkShadowsClassMark (with Plugin.CollectionModifyItems) | Plugin.CollectionModifyItemsFixed, proved by Plugin.FixedMarkNeutral |
