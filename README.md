# python-runtime build scripts, modelled in Dafny

This project models the build tooling of the Google App Engine Python
runtime (GoogleCloudPlatform/python-runtime) and proves properties of it.
It covers four pieces:

- **The typed accessor and flag checks** (`scripts/validation_utils.py`).
  - `get_field_value` reads a field out of parsed YAML. A missing field or a
    null gives the type's zero value. Otherwise the value is checked with
    `isinstance`, then against an allowlist of conversions (tested on the
    exact `type(value)`), then converted by calling the type.
  - `validate_arg_regex` checks a flag against a pattern.
  - `validate_arg_dict` parses `KEY=VALUE,...` flags.
- **The local Cloud Build emulator** (`scripts/local_cloudbuild.py`).
  - Decoding a parsed `cloudbuild.yaml` into steps, with the file's own
    `get_field_value`. In that copy an explicit null is a type error.
  - Turning each step into a `docker run` token vector quoted with
    `shlex.quote`.
  - Filling the build-script template.
  - The permission bits `make_executable` sets.
  - The default output-script name.
- **The Dockerfile generator** (`scripts/gen_dockerfile.py`).
  - Validating `app.yaml`: mapping check, python-compat short circuit,
    printable entrypoint, Cloud SDK entrypoint mangling, and the
    `python_version` table.
  - Assembling the Dockerfile from its template fragments.
  - The image-name and printable checks of its flags.
- **The Stack Overflow dashboard's tag counting** (`count_unique_tags` in the
  three `posts_stats.py` scripts, and the row stamping of
  `get_posts_list_unanswered`).
  - The two `Counter` versions are modelled as functions.
  - The older nested-loop `defaultdict` version is a method, proved to give
    exactly the same rows.

Modules, one per file:

| module | contents |
|---|---|
| `Wrappers` | `Option` and `Result` |
| `YamlValue` | parsed YAML values and their Python types |
| `Text` | the few `str` operations used |
| `PyInt` | Python's `str(int)` and `int(str)` on ASCII text, without the int/str digit limit of later Pythons |
| `ValidationUtils` | the accessor and the flag checks |
| `ShellQuote` | `shlex.quote`, and a POSIX shell's reading of one word as its partner |
| `LocalCloudbuild` | the emulator |
| `GenDockerfile` | the Dockerfile generator |
| `TagCounting` | tag counting and row stamping |

Python's regex `$` also matches just before a newline that ends the text. So
`PRINTABLE_REGEX`, `IMAGE_REGEX` and `KEY_VALUE_REGEX` each let one final
`'\n'` through. This is modelled as written:

- `GenDockerfile.PrintableMeaning` states it for the printable check;
- `ValidationUtils.MatchKeyValue` drops that newline from the value group.

Where the repository's tests disagree with the code, the model follows the
code:

- `gen_dockerfile_test.py:65-67` expects `python_version: 3` to give `3.5`.
  The table at `gen_dockerfile.py:53` maps it to `3.6`, and so does
  `GenDockerfile.IntVersionExample`.
- `gen_dockerfile_test.py:121-126` builds an `AppConfig` without the
  `is_python_compat` field that `gen_dockerfile.py:64-67` declares. The model
  follows the declaration (`AppConfig.PythonCompat`).
- `local_cloudbuild_test.py` calls `generate_command(step, subs, used)` and
  `sub_and_quote`. These are a substitution interface that
  `local_cloudbuild.py` does not define. The model follows
  `generate_command(step)` as written.

## Model

| member | source | states |
|---|---|---|
| `PyInt.IntToDecimal` | scripts/validation_utils.py:78 | definition: `str(i)` of an int, the decimal digits with a leading `-` for a negative number (properties in `DecimalIsCanonical` and `ParseIntOfDecimal`) |
| `PyInt.ParseInt` | scripts/validation_utils.py:78 | definition: `int(s)` of a str, the text without surrounding C whitespace (space, `\t`, `\n`, `\v`, `\f`, `\r`; not the separators 0x1c-0x1f that `str.isspace` also accepts) with an optional sign and digits with single underscores between them, or `None` where Python raises ValueError (properties in `ParseIntOfDecimal`, `NoDigitNoInt`, `ForeignLeadNoInt`, `SeparatorNotStripped` and `WhitespaceStripped`) |
| `PyInt.ParseIntOfDecimal` | scripts/validation_utils.py:77-78 | `int(str(i)) == i` for every int: parsing the decimal rendering gives the int back |
| `PyInt.DecimalIsCanonical` | scripts/validation_utils.py:77-78 | `str(i)` is non-empty and all digits except a leading `-`, which is there exactly for negative numbers; it starts with `0` only for `"0"` |
| `PyInt.NoDigitNoInt` | scripts/validation_utils.py:77-81 | a text without a digit is refused by `int(...)` (ValueError) |
| `PyInt.ForeignLeadNoInt` | scripts/validation_utils.py:77-81 | a text whose first character is not whitespace, a sign or a digit is refused by `int(...)` (ValueError), whatever follows |
| `PyInt.SeparatorNotStripped` | scripts/validation_utils.py:77-81 | `int('\x1c5')` is refused: the file separator is not whitespace to `int` |
| `PyInt.WhitespaceStripped` | scripts/validation_utils.py:77-81 | `int(' \t5\n')` is 5: C whitespace around the literal is skipped |
| `PyInt.ParseIntRejectsWord` | scripts/validation_utils_test.py:52 | `int('not_an_int')` fails |
| `Text.Join` | scripts/local_cloudbuild.py:241 | definition: `sep.join(parts)`, the parts with `sep` between neighbours (partner: `SplitJoin`) |
| `Text.Concat` | scripts/local_cloudbuild.py:247 | definition: `''.join(parts)`, the parts end to end (property in `ConcatAppend`) |
| `Text.Split` | scripts/validation_utils.py:98 | `s.split(sep)` gives at least one piece; no piece holds `sep`; joining the pieces with `sep` gives `s` back |
| `Text.SplitJoin` | scripts/validation_utils.py:98 | splitting undoes joining for pieces free of the separator |
| `Text.ConcatAppend` | scripts/local_cloudbuild.py:247 | `''.join` distributes over concatenation of the lists joined |
| `ValidationUtils.Zero` | scripts/validation_utils.py:57-60 | `field_type()` is a value of the requested type |
| `ValidationUtils.IsInstance` | scripts/validation_utils.py:63 | definition: `isinstance(value, field_type)`, the exact type or a bool where an int is asked for |
| `ValidationUtils.Allowlisted` | scripts/validation_utils.py:67-74 | definition: the five `(type(value), field_type)` pairs of the allowlist (independent reading in `DisallowedTable`) |
| `ValidationUtils.Construct` | scripts/validation_utils.py:77-81 | definition: `field_type(value)` for an instance or an allowlisted pair: the value unchanged, `str` of an int or a float, `int` or `float` of a str or `float` of an int (properties in `InstanceUnchanged`, `IntToStr`, `StrToInt`) |
| `ValidationUtils.Coerce` | scripts/validation_utils.py:62-82 | a success has the requested type; an error names the field, the requested type and the found type; only a str converting to int or float can raise ValueError in the conversion itself, and only an int converting to float can raise OverflowError |
| `ValidationUtils.IntToFloatOverflow` | scripts/validation_utils.py:77-81 | an int that `float()` cannot represent makes the read fail with the OverflowError, which the `except ValueError` clause lets through |
| `ValidationUtils.Subscript` | scripts/validation_utils.py:55-60 | `container[field_name]` succeeds (value, or absent on KeyError/IndexError) exactly for a mapping, or for a list or str with an int index; anything else is a TypeError |
| `ValidationUtils.GetFieldValue` | scripts/validation_utils.py:28-82 | whatever succeeds has the requested type |
| `ValidationUtils.MissingOrNullIsZero` | scripts/validation_utils.py:55-60 | a missing field or an explicit None gives `field_type()` |
| `ValidationUtils.ZeroValues` | scripts/validation_utils.py:58-60 | the defaults are `''`, `0`, `0.0`, `False`, `[]` and `{}` |
| `ValidationUtils.InstanceUnchanged` | scripts/validation_utils.py:63-82 | a value already of the requested type comes back unchanged |
| `ValidationUtils.DisallowedTable` | scripts/validation_utils.py:63-75 | a value is refused before conversion exactly when it is no instance of the type (bool counts as int) and its exact type pair is none of float->str, int->str, str->float, str->int, int->float |
| `ValidationUtils.ContainersNeverConvert` | scripts/validation_utils.py:63-75 | lists, dicts and None of the wrong type are refused, and nothing of another type converts to list, dict or bool |
| `ValidationUtils.IntToStr` | scripts/validation_utils.py:69-78 | an int read as a str is its decimal rendering |
| `ValidationUtils.DecimalToInt` | scripts/validation_utils.py:71-78 | the decimal rendering of an int, read as an int, is that int |
| `ValidationUtils.StrToInt` | scripts/validation_utils.py:71-81 | a str read as an int is `int(s)`, and a ValueError when `int(s)` raises |
| `ValidationUtils.StrToIntRejectsWord` | scripts/validation_utils_test.py:52 | `'not_an_int'` read as an int is a conversion error |
| `ValidationUtils.SeparatorBeforeDigitsRejected` | scripts/validation_utils.py:77-81 | `'\x1c5'` read as an int is a conversion error (ValueError), not 5 |
| `ValidationUtils.BoolCoercions` | scripts/validation_utils.py:63-78 | a bool read as an int passes `isinstance` and becomes 0 or 1; read as a str or float it is refused, because the allowlist tests the exact type |
| `ValidationUtils.GetFieldValueValidExamples` | scripts/validation_utils_test.py:29-41 | a present int, a missing str and a None int give `1`, `''` and `0` |
| `ValidationUtils.IntToStrExample` | scripts/validation_utils_test.py:37 | `{'int_to_str': 1}` read as a str gives `'1'` |
| `ValidationUtils.StrToIntExample` | scripts/validation_utils_test.py:36 | `{'str_to_int': '1'}` read as an int gives `1` |
| `ValidationUtils.GetFieldValueInvalidExamples` | scripts/validation_utils_test.py:49-51 | list->dict, list->str and dict->list are refused |
| `ValidationUtils.StrToListExample` | scripts/validation_utils_test.py:53 | a str is not read as a list |
| `ValidationUtils.NotAnIntExample` | scripts/validation_utils_test.py:52 | `'not_an_int'` is not read as an int |
| `ValidationUtils.ValidateArgRegex` | scripts/validation_utils.py:85-91 | the flag is accepted, unchanged, exactly when the pattern matches; an error carries the flag |
| `ValidationUtils.MatchKeyValue` | scripts/validation_utils.py:25 | a match splits the entry at the first `=` into a key matching `[A-Z_][A-Z0-9_]*` and a one-line value, possibly followed by one final newline |
| `ValidationUtils.MatchKeyValueOfPair` | scripts/validation_utils.py:25 | every `KEY=VALUE` with a valid key and a one-line value matches with exactly those groups, and so does the same text with one final newline, which `$` lets through and the value then loses |
| `ValidationUtils.DictOf` | scripts/validation_utils.py:107 | definition: `dict(pairs)`, each pair in turn overwriting its key (properties in `DictOfKeys` and `DictOfLastWins`) |
| `ValidationUtils.DictOfKeys` | scripts/validation_utils.py:107 | the keys of `dict(pairs)` are the keys the pairs mention |
| `ValidationUtils.DictOfLastWins` | scripts/validation_utils.py:107 | a key maps to the value of the last pair that mentions it |
| `ValidationUtils.ValidateArgDict` | scripts/validation_utils.py:94-107 | `''` gives `{}`; otherwise the flag is accepted exactly when every comma-separated entry matches, and the result is the dict of the matched pairs in order; an error carries the flag |
| `ValidationUtils.MatchEntries` | scripts/validation_utils.py:99-106 | the `for entry in entries` loop: it stops exactly when some entry does not match; otherwise it gives one pair per entry, in order, each the entry's key and value groups |
| `ValidationUtils.AllMatch` | scripts/validation_utils.py:100-106 | once every entry has given its pair, every entry matches |
| `ValidationUtils.RepeatedKeyExample` | scripts/validation_utils_test.py:73 | `_A=1,_A=2` gives `{'_A': '2'}` |
| `ValidationUtils.SplitExample` | scripts/validation_utils_test.py:73 | `'_A=1,_A=2'` splits into its two entries |
| `ValidationUtils.VariableNameA` | scripts/validation_utils_test.py:70 | `_A` is a valid key |
| `ValidationUtils.ValueExamples` | scripts/validation_utils_test.py:75-77 | extra `=` belong to the value, which may be empty |
| `ValidationUtils.NoKeyExamples` | scripts/validation_utils_test.py:85-86 | the empty entries of `,_A` and `_A,`, and an entry without `=`, do not match |
| `ValidationUtils.BadKeyExample1` | scripts/validation_utils_test.py:88 | `_Aa=1` does not match (lower-case letter) |
| `ValidationUtils.BadKeyExample2` | scripts/validation_utils_test.py:89 | `_aA=1` does not match |
| `ValidationUtils.BadKeyExample3` | scripts/validation_utils_test.py:90 | `0A=1` does not match (leading digit) |
| `ShellQuote.EscapeQuotes` | scripts/local_cloudbuild.py:200 | definition: `s.replace("'", "'\"'\"'")` inside `shlex.quote`, each single quote closed, given in double quotes and reopened (property in `EscapeLength` and the round trip `QuoteRoundTrip`) |
| `ShellQuote.Quote` | scripts/local_cloudbuild.py:200-207 | `shlex.quote` never returns `''`; whatever it changes comes back wrapped in single quotes |
| `ShellQuote.QuoteRoundTrip` | scripts/local_cloudbuild.py:200-207 | a POSIX shell reads every quoted word back as exactly the original string |
| `ShellQuote.QuoteIdentity` | scripts/local_cloudbuild.py:200-207 | a string is left bare exactly when it is non-empty and made only of safe characters |
| `ShellQuote.QuoteWraps` | scripts/local_cloudbuild_test.py:209-216 | a string without `'` that needs quoting is wrapped in single quotes as it is |
| `ShellQuote.QuoteExamples` | scripts/local_cloudbuild_test.py:172-216 | `''` becomes `"''"`, `aname` stays, `a name` becomes `'a name'` |
| `LocalCloudbuild.OutputScript` | scripts/local_cloudbuild.py:326-327 | a non-empty `--output_script` is kept; otherwise the name is the config path followed by `_local.sh` |
| `LocalCloudbuild.FetchField` | scripts/local_cloudbuild.py:89-132 | whatever succeeds has the requested type |
| `LocalCloudbuild.NullRejected` | scripts/local_cloudbuild.py:107-125 | an explicit null is refused as a NoneType of the wrong type, never defaulted |
| `LocalCloudbuild.FetchFieldAgrees` | scripts/local_cloudbuild.py:107-110 | this copy agrees with the shared accessor everywhere except on an explicit null, which the shared one defaults and this one refuses |
| `LocalCloudbuild.FetchElement` | scripts/local_cloudbuild.py:176-177 | a list element is fetched by position and coerced |
| `LocalCloudbuild.StrElements` | scripts/local_cloudbuild.py:176-181 | the element list succeeds exactly when every element reads as a str, and then holds those strs in order |
| `LocalCloudbuild.StrElementsFirstError` | scripts/local_cloudbuild.py:176-177 | the error raised is the first failing element's |
| `LocalCloudbuild.GetStep` | scripts/local_cloudbuild.py:171-174 | a step that is not a dict is refused with its type |
| `LocalCloudbuild.GetStepFields` | scripts/local_cloudbuild.py:175-188 | a decoded step holds the fetched `name` and `dir` and the str elements of the fetched `args` and `env` |
| `LocalCloudbuild.GetStepSucceeds` | scripts/local_cloudbuild.py:162-188 | a step decodes exactly when it is a dict whose four fields and all list elements decode |
| `LocalCloudbuild.Collect` | scripts/local_cloudbuild.py:154 | a list comprehension over a call that may raise succeeds exactly when every call does, and then holds their results in order |
| `LocalCloudbuild.CollectFirstError` | scripts/local_cloudbuild.py:154 | the error raised is the one of the first call that raises |
| `LocalCloudbuild.GetSteps` | scripts/local_cloudbuild.py:154 | the steps decode exactly when each does, one decoded step per raw step, in order |
| `LocalCloudbuild.GetStepsFirstError` | scripts/local_cloudbuild.py:154 | the error raised is the first failing step's |
| `LocalCloudbuild.GetCloudbuild` | scripts/local_cloudbuild.py:135-159 | a non-dict recipe is refused with its type; a result has a non-empty step list decoded from `steps` and copies `output_script` and `run` |
| `LocalCloudbuild.MissingSteps` | scripts/local_cloudbuild.py:150-152 | no `steps` field means no steps defined |
| `LocalCloudbuild.EmptySteps` | scripts/local_cloudbuild.py:150-152 | an empty `steps` list is refused the same way |
| `LocalCloudbuild.StepsNotList` | scripts/local_cloudbuild.py:150 | a `steps` field that is not a list, null included, is a type error |
| `LocalCloudbuild.CloudbuildSteps` | scripts/local_cloudbuild.py:145-159 | a dict recipe, whatever other keys it holds, whose `steps` list is non-empty and whose steps all decode yields exactly those steps, in order, with the flags copied |
| `LocalCloudbuild.CloudbuildFirstError` | scripts/local_cloudbuild.py:145-159 | a dict recipe, whatever other keys it holds, with a step that does not decode raises the error of the first such step |
| `LocalCloudbuild.EmptyStep` | scripts/local_cloudbuild_test.py:132-137 | `{}` decodes to `Step([], '', [], '')` |
| `LocalCloudbuild.StrElementsOfScalars` | scripts/local_cloudbuild_test.py:139-148 | a list of strs and ints reads element by element, ints as their decimal text (`2` -> `'2'`) |
| `LocalCloudbuild.InvalidStepShapes` | scripts/local_cloudbuild_test.py:157-161 | a list step, and `args` or `env` given as a str, are refused |
| `LocalCloudbuild.BadElementRejected` | scripts/local_cloudbuild.py:176-181 | a step whose `args` or `env` list holds one element that does not read as a str is refused |
| `LocalCloudbuild.InvalidStepElements` | scripts/local_cloudbuild_test.py:160-162 | a list inside `args` and a dict inside `env` are refused |
| `LocalCloudbuild.InvalidStepFields` | scripts/local_cloudbuild_test.py:163-164 | a dict `dir` and a list `name` are refused |
| `LocalCloudbuild.Workdir` | scripts/local_cloudbuild.py:205-207 | definition: `/workspace`, or `os.path.join` of it with the quoted dir (cases in `WorkdirCases`) |
| `LocalCloudbuild.EnvFlags` | scripts/local_cloudbuild.py:201-203 | definition: `--env` and the quoted entry for each env entry (layout in `EnvFlagsLayout`) |
| `LocalCloudbuild.CommandTokens` | scripts/local_cloudbuild.py:200-219 | definition: the fixed prefix with the workdir, the env flags, the quoted name, the quoted args (layout in `CommandLayout`; the loop `GenerateCommand` is proved equal to it) |
| `LocalCloudbuild.PathJoin` | scripts/local_cloudbuild.py:207 | `os.path.join(a, b)` is `b` when `b` is absolute, and otherwise starts with `a` and ends with `b` |
| `LocalCloudbuild.QuoteAll` | scripts/local_cloudbuild.py:200 | every argument quoted, in order |
| `LocalCloudbuild.CommandPrefixTokens` | scripts/local_cloudbuild.py:208-218 | the ten fixed tokens: `docker run`, the three volume mounts and `--workdir` with the workdir |
| `LocalCloudbuild.GenerateCommand` | scripts/local_cloudbuild.py:191-220 | the loop over `env` builds exactly the token vector of the step |
| `LocalCloudbuild.EnvFlagsLayout` | scripts/local_cloudbuild.py:201-203 | one `--env`, quoted-entry pair per entry, in order |
| `LocalCloudbuild.CommandLayout` | scripts/local_cloudbuild.py:208-219 | a command has 11 + 2·len(env) + len(args) tokens: the fixed prefix, the env pairs, the quoted name, the quoted arguments, each at its index |
| `LocalCloudbuild.WorkdirCases` | scripts/local_cloudbuild.py:205-207 | the workdir is `/workspace` without a dir, the dir itself when it is a bare absolute path, and `/workspace/` plus the quoted dir otherwise |
| `LocalCloudbuild.WorkdirExample` | scripts/local_cloudbuild_test.py:206-207 | `dir_='adir'` gives `/workspace/adir` |
| `LocalCloudbuild.ScriptText` | scripts/local_cloudbuild.py:51-79 | definition: `BUILD_SCRIPT_TEMPLATE.format(...)`, the fixed text with the cleanup string and the commands in their two holes, braces unescaped |
| `LocalCloudbuild.DockerStr` | scripts/local_cloudbuild.py:242-247 | definition: the steps' lines end to end (properties in `NoStepsNoCommands`, `DockerStrAppend`, `OneStepLine`; the loop `DockerCommands` is proved equal to it) |
| `LocalCloudbuild.DockerLines` | scripts/local_cloudbuild.py:244-246 | one line per step, its command joined by spaces and followed by a blank line |
| `LocalCloudbuild.CleanupCommand` | scripts/local_cloudbuild.py:234-241 | the cleanup string is the joined command of the fixed `rm -rf /workspace` step on the Debian image |
| `LocalCloudbuild.DockerCommands` | scripts/local_cloudbuild.py:242-247 | the loop builds the concatenation of the steps' lines |
| `LocalCloudbuild.GenerateScript` | scripts/local_cloudbuild.py:223-251 | the script is the template with the cleanup string and the steps' lines in their holes |
| `LocalCloudbuild.NoStepsNoCommands` | scripts/local_cloudbuild.py:242-247 | no steps leave the build-commands section empty |
| `LocalCloudbuild.DockerStrAppend` | scripts/local_cloudbuild.py:242-247 | the commands of two step lists, one after the other, are the commands of the two lists joined |
| `LocalCloudbuild.OneStepLine` | scripts/local_cloudbuild.py:245 | a single step's section is its joined command and `\n\n` |
| `LocalCloudbuild.NewMode` | scripts/local_cloudbuild.py:258 | no bit of the old mode is cleared |
| `LocalCloudbuild.NewModeExecBits` | scripts/local_cloudbuild.py:258 | each execute bit ends up set exactly when it or the read bit of its class was set |
| `LocalCloudbuild.NewModeOtherBits` | scripts/local_cloudbuild.py:258 | only the three execute bits can change |
| `LocalCloudbuild.NewModeIdempotent` | scripts/local_cloudbuild.py:254-259 | making a file executable twice is the same as once |
| `LocalCloudbuild.NewModeExamples` | scripts/local_cloudbuild.py:258 | 0o644 becomes 0o755 and 0o600 becomes 0o700 |
| `GenDockerfile.IsPrintable` | scripts/gen_dockerfile.py:47 | definition: `PRINTABLE_REGEX.match(s)`, no character in `\x00-\x1f`, `$` also matching before one final newline (independent reading in `PrintableMeaning`) |
| `GenDockerfile.IsImageName` | scripts/gen_dockerfile.py:36-41 | definition: `IMAGE_REGEX.match(s)`, an alphanumeric first character followed by alphanumerics and `-_./:@+`, `$` also matching before one final newline (properties in `ImageNameNoSpace`, `ImageNameWithSuffix`) |
| `GenDockerfile.ImageNameNoSpace` | scripts/gen_dockerfile.py:36-41 | an accepted image name is non-empty, starts with an alphanumeric, holds no space and no newline except possibly a final one |
| `GenDockerfile.ImageNameWithSuffix` | scripts/gen_dockerfile.py:36-41 | a one-line name followed by any `:tag` or `@digest` made of allowed characters is accepted |
| `GenDockerfile.PrintableMeaning` | scripts/gen_dockerfile.py:47 | a text passes the printable check exactly when it has no control character except possibly one final newline |
| `GenDockerfile.EmbeddedNewlineRejected` | scripts/gen_dockerfile_test.py:105 | an entrypoint with a newline followed by more text is refused |
| `GenDockerfile.ImageNameExamples` | scripts/gen_dockerfile_test.py:201-225 | `nocolon`, `name:andcolon` and `name@sha256:digest` are accepted, `''`, `:` and `:noname` refused |
| `GenDockerfile.PythonInterpreterVersionMap` | scripts/gen_dockerfile.py:50-58 | definition: `PYTHON_INTERPRETER_VERSION_MAP`, app.yaml `python_version` to the Dockerfile's interpreter version (properties in `VersionTable`) |
| `GenDockerfile.VersionTable` | scripts/gen_dockerfile.py:50-58 | exactly seven versions are accepted; `''` and `2` map to the default, `3` to `3.6`, the others to themselves |
| `GenDockerfile.MangleEntrypoint` | scripts/gen_dockerfile.py:121-122 | empty stays empty; anything else starts with `exec `, either already or by prefixing it |
| `GenDockerfile.MangleIdempotent` | scripts/gen_dockerfile.py:121-122 | mangling twice is mangling once |
| `GenDockerfile.ManglePrintable` | scripts/gen_dockerfile.py:110-122 | mangling keeps a printable entrypoint printable |
| `GenDockerfile.GetAppConfig` | scripts/gen_dockerfile.py:70-147 | a non-mapping is refused with its type; a standard configuration carries the base image and requirements flag given, a version from the table, and a printable entrypoint that is empty or starts with `exec ` |
| `GenDockerfile.CompatShortCircuit` | scripts/gen_dockerfile.py:100-108 | the configuration is python-compat exactly when `runtime` reads as `python-compat`, whatever the other fields hold |
| `GenDockerfile.EntrypointChecked` | scripts/gen_dockerfile.py:110-122 | a non-printable entrypoint is refused with its text; an accepted one is stored mangled |
| `GenDockerfile.VersionChecked` | scripts/gen_dockerfile.py:124-136 | a version outside the table is refused with its text; one inside is accepted and mapped through the table |
| `GenDockerfile.EmptyConfigRejected` | scripts/gen_dockerfile_test.py:103 | an empty app.yaml (null) is not a mapping |
| `GenDockerfile.FlexExample` | scripts/gen_dockerfile_test.py:52-57 | `env: flex` gives the default version, no entrypoint and the base image given |
| `GenDockerfile.VersionOnlyConfig` | scripts/gen_dockerfile.py:124-136 | a config holding only `runtime_config.python_version` maps that version through the table, or is refused with its text, and has no entrypoint |
| `GenDockerfile.EntrypointOnlyConfig` | scripts/gen_dockerfile_test.py:75-77 | a config with only a printable entrypoint stores it mangled, with the default version |
| `GenDockerfile.EntrypointExample` | scripts/gen_dockerfile_test.py:75-77 | `my entrypoint` is printable and becomes `exec my entrypoint` |
| `GenDockerfile.FloatVersionExample` | scripts/gen_dockerfile_test.py:68-70 | `python_version: 3.4`, a float, gives `3.4` |
| `GenDockerfile.IntVersionExample` | scripts/gen_dockerfile.py:53 | `python_version: 3`, an int, gives `3.6` |
| `GenDockerfile.NullVersionExample` | scripts/gen_dockerfile_test.py:59-61 | an empty `python_version` gives the default |
| `GenDockerfile.IntVersionRejected` | scripts/gen_dockerfile_test.py:107 | `python_version: 1` is refused |
| `GenDockerfile.WordVersionRejected` | scripts/gen_dockerfile_test.py:108 | `python_version: python2` is refused |
| `GenDockerfile.Dockerfile` | scripts/gen_dockerfile.py:177-201 | definition: the python-compat file, or the five fragments joined in order (layout in `DockerfileFragments`, `RequirementsToggle`, `EntrypointToggle`) |
| `GenDockerfile.GenerateFiles` | scripts/gen_dockerfile.py:168-207 | exactly the files `Dockerfile` and `.dockerignore`; the compat files for python-compat, otherwise the assembled Dockerfile and the standard ignore file |
| `GenDockerfile.DockerfileFragments` | scripts/gen_dockerfile.py:193-201 | the Dockerfile is preamble, virtualenv, optional requirements, app install and optional entrypoint, in that order |
| `GenDockerfile.RequirementsToggle` | scripts/gen_dockerfile.py:177-180 | requirements.txt inserts its fragment between virtualenv and app install and changes nothing else |
| `GenDockerfile.EntrypointToggle` | scripts/gen_dockerfile.py:182-187 | a non-empty entrypoint appends its fragment and changes nothing else |
| `TagCounting.CountUniqueTags` | perf_dashboard/posts_stats.py:78-86 | definition: `count_unique_tags` of the `Counter` scripts, one timestamped row per distinct tag in first-occurrence order with its number of occurrences (properties in `OneRowPerTag`, `CountsAreOccurrences`, `SameTimestamp`, `CountsSumToTotal`; the `defaultdict` loop `CountUniqueTagsByLoop` is proved equal to it) |
| `TagCounting.Flatten` | perf_dashboard/posts_stats.py:79 | definition: the comprehension `[tag for tag_list in data for tag in tag_list]` (properties in `FlattenAppend`, `FlattenMembers`) |
| `TagCounting.FlattenAppend` | perf_dashboard/posts_stats.py:79 | flattening is concatenation of the rows in order: it distributes over joining row lists |
| `TagCounting.FlattenMembers` | perf_dashboard/posts_stats.py:79 | a tag is in the flattened list exactly when some row holds it |
| `TagCounting.Distinct` | perf_dashboard/posts_stats.py:80-84 | the dict's keys: no tag twice, and exactly the tags of the input |
| `TagCounting.OneRowPerTag` | perf_dashboard/posts_stats.py:78-86 | each distinct tag of the input is in exactly one row, and every row's tag is from the input |
| `TagCounting.CountsAreOccurrences` | perf_dashboard/posts_stats.py:79-80 | a row's count is its tag's number of occurrences, repeats within a question included, so at least 1 |
| `TagCounting.SameTimestamp` | perf_dashboard/posts_stats.py:83-84 | every row carries the one timestamp |
| `TagCounting.NoTagsNoRows` | perf-dashboard/stackoverflow/posts_stats.py:76-86 | no rows, or only empty rows, give no output |
| `TagCounting.CountsSumToTotal` | perf_dashboard/stackoverflow/posts_stats.py:67-68 | the counts add up to the total number of tags |
| `TagCounting.TallyAddPresent` | perf-dashboard/stackoverflow/posts_stats.py:80 | `tag_count[tag] += 1` on a present key adds one to that count only, key order unchanged |
| `TagCounting.TallyAddNew` | perf-dashboard/stackoverflow/posts_stats.py:76-80 | on a new key it appends the key with count 1 (the default 0 plus 1) |
| `TagCounting.CountRow` | perf-dashboard/stackoverflow/posts_stats.py:79-80 | the inner loop extends the tally by one question's tags |
| `TagCounting.AddTag` | perf-dashboard/stackoverflow/posts_stats.py:80 | one `tag_count[tag] += 1` on the defaultdict extends the tally by that tag |
| `TagCounting.CountUniqueTagsByLoop` | perf-dashboard/stackoverflow/posts_stats.py:75-88 | the nested-loop `defaultdict` version gives exactly the rows of the `Counter` version |
| `TagCounting.StampRows` | perf_dashboard/posts_stats.py:72-73 | one stamped row per result row |
| `TagCounting.StampRowsInverse` | perf_dashboard/posts_stats.py:72-73 | removing the stamps gives the results back in order, and every row carries the one timestamp |

## Left out

- Variable substitution (`$VAR`, `${VAR}`, `$$`) appears only in the tests; `scripts/local_cloudbuild.py` as modelled has none.
- `local-cloudbuild.py` at the repository root is an older prototype; it is not part of this model.
- YAML parsing: the model starts from the parsed value (`YamlValue.Value`).
- File and process I/O is not modelled: reading the YAML and template files, writing the script and the generated files, `os.stat`/`os.chmod`, `subprocess`, `os.path.isfile` (a parameter of `GenDockerfile.GetAppConfig`), and the `GAE_APPLICATION_YAML_PATH` environment variable.
- argparse plumbing in both `parse_args` is not modelled. Its regex checks are `ValidationUtils.ValidateArgRegex` with `GenDockerfile.IsImageName` or `GenDockerfile.IsPrintable`, and the output-script default is `LocalCloudbuild.OutputScript`.
- Float conversions: `float(str)` and `float(int)` are a parameter of the float field type (`ValidationUtils.FloatConstructor`); where it answers `None`, `float(str)` raises ValueError and `float(int)` raises OverflowError, but which inputs do so (the double range, float syntax) is not modelled. A float's `str` is the repr text it carries.
- `PyInt.ParseInt`: modelled for ASCII text only. Non-ASCII digits and the non-ASCII whitespace `int` skips (such as U+00A0 and U+3000) are left out.
- `PyInt.ParseInt`, `PyInt.IntToDecimal`: follow a Python with no limit on the length of int/str conversions, as at the time the source was written or with `sys.set_int_max_str_digits(0)`. Python 3.11 and later, and the 3.7.14, 3.8.14, 3.9.14 and 3.10.7 patch releases, raise ValueError by default beyond 4300 decimal digits. For such ints the model's `Ok` results of `ValidationUtils.Coerce` and `ValidationUtils.IntToStr`, and the round trip `PyInt.ParseIntOfDecimal`, hold only without that limit.
- Python's dict keys `1`, `True` and `1.0` are one key. Here they are distinct `Value`s, so a YAML mapping mixing them is not modelled.
- BigQuery queries, row fetching and inserts, and `wait_for_job` are not modelled. The rows passed to `count_unique_tags` come in as a parameter.
- The current date or time used as the timestamp is a parameter. `strptime(strftime(now))` truncating to the day is not modelled.
- The other scripts of the repository (client-library download statistics, benchmarks, integration server, `nox.py`) are not part of this model.
- `LocalCloudbuild.NewMode`: `st_mode` is held in 32 bits, which covers every mode value.
- Messages of the ValueErrors and ArgumentTypeErrors are not modelled, only which error is raised and what it carries.
- `LocalCloudbuild.CleanupCommand`: the literal text of the cleanup command is not spelled out. Its ensures ties it to the cleanup step's token vector, whose layout `LocalCloudbuild.CommandLayout` states.
- `LocalCloudbuild.GenerateScript`: it is split into two helper methods, `CleanupCommand` and `DockerCommands`. They take the same steps as the source, except that the list comprehension building `docker_commands` (scripts/local_cloudbuild.py:242) is folded into the loop that joins each command into a line.
- The quoting test cases with a newline and with a space in `dir_` are covered by the general `ShellQuote.QuoteRoundTrip`, `ShellQuote.QuoteWraps` and `LocalCloudbuild.WorkdirCases`. They are not spelled out as literal examples.
- The Dockerfile template files' contents are a parameter (`GenDockerfile.Templates`). `str.format` on them is a function from the value filled in to the text.
