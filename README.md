# cats: job-info parsing and runtime-configuration rules

This project models the part of `cats` (Climate-Aware Task Scheduler) that
turns command-line text into runtime settings, and proves properties of the
model. It covers:

- `validate_jobinfo` from `cats/check_clean_arguments.py`. It reads a
  job-info string such as `cpus=2,gpus=0,memory=8,profile=GPU` with the
  regex `(\w+)=(\w+)` and builds a dict from the pairs, so the last
  occurrence of a key wins. It requires `memory`, `cpus` and `gpus`,
  resolves `profile` (default `"default"`) against the allowed names and
  removes it, and converts every other value with `int()`. On any failure
  it returns `{}`.
- The resolution rules of `cats/configure.py`:
  - the positive-duration check of `get_runtime_config`;
  - the choice of carbon-intensity service in `CI_API_from_config_or_args`
    (command line, then configuration, then `carbonintensity.org.uk`, then a
    lookup in the interface table);
  - the location precedence of `get_location_from_config_or_args`
    (command line, then configuration);
  - `get_hardware_info`, a second copy of the job-info parser. It picks a
    hardware profile and returns `(power, count)` pairs for the CPU and
    then the GPU.

Modules:

- `Wrappers` holds `Option`.
- `PyInt` models Python's `int()` on ASCII text.
- `JobTokens` holds the tokenizer that both parsers share. The regex scan
  is a specification function (`Pairs`) and also a scanner loop
  (`FindPairs`) proved equal to it. `dict(...)` is a fold (`ToMap`). The
  in-place conversion loop is `ConvertValues`.
- `CheckCleanArguments` models `validate_jobinfo`.
- `Configure` models the configuration rules.

`re.finditer`, `dict(...)`, the conversion loop and `validate_jobinfo` are
each a method proved equal to a specification function, and the lemmas
state what that function means. Of `get_hardware_info`, only the intended
version has a method (`GetHardwareInfo`); the code as written is the
function `HardwareInfoAsWritten` alone.

`get_hardware_info` has defects. The model keeps both versions:

- `HardwareInfoAsWritten` follows the code as written.
- `HardwareInfo` is the evidently intended behaviour, and the method
  `GetHardwareInfo` implements it.

The duration check has an as-written version (`CheckDurationAsWritten`) and
an intended version (`CheckDuration`).

The docstrings of both parsers give the example
`profile=GPU_partition,memory=8,ncpus=8,ngpus=4`. The code requires `cpus`
and `gpus`. This model follows the code, and `DocstringExampleRejected`
proves that the documented example is rejected. The command-line help
(`cats/__init__.py:46`) gives `cpus=2,gpus=0,memory=8,partition=CPU_partition`.
Its `partition` key is not `profile`, so it is an extra key with a value that
is not a number. `HelpExampleRejected` proves that `validate_jobinfo` rejects
this example too. `HelpExampleHardware` proves what `get_hardware_info` does with it: in the
intended version it ends in `sys.exit(1)`; as written it raises NameError
(`loggin`). The lemmas named `HelpPrefix...` use its first three pairs,
`cpus=2,gpus=0,memory=8`.

## Model

| member | source | states |
|---|---|---|
| JobTokens.RunLength | cats/check_clean_arguments.py:24 | the length of one greedy `\w+`; specified by `RunLengthMaximal` |
| JobTokens.MatchAt | cats/check_clean_arguments.py:24 | the regex tried at one position; its groups are word runs (`MatchIsWords`) and a match spans at least one character |
| JobTokens.PairsFrom | cats/check_clean_arguments.py:24 | the matches `finditer` finds from a position on; computed by `FindPairs`, shift-invariant by `PairsFromShift` |
| JobTokens.Pairs | cats/check_clean_arguments.py:24 | `[m.groups() for m in re.finditer(...)]`; inverted by `PairsOfRender`, word pairs by `PairsAreWords` |
| JobTokens.ToMap | cats/check_clean_arguments.py:24 | `dict(pairs)`; characterised by `ToMapLastWins` and `ToMapKeys`, built by `BuildDict` |
| JobTokens.ParseInfo | cats/check_clean_arguments.py:24 | the parsed `info` dict; computed by `ParseJobInfo` |
| JobTokens.ConvertAll | cats/check_clean_arguments.py:40-45 | the in-place `int()` conversion with its early return; characterised by `ConvertAllMeaning`, computed by `ConvertValues` |
| JobTokens.RunLengthMaximal | cats/check_clean_arguments.py:24 | a `(\w+)` group is the longest run of word characters: every character in it is a word character, and the next one is not |
| JobTokens.ScanWord | cats/check_clean_arguments.py:24 | the scanner loop stops exactly at the end of the maximal word run |
| JobTokens.MatchIsWords | cats/check_clean_arguments.py:24 | both groups of one match are non-empty word runs |
| JobTokens.PairsAreWords | cats/check_clean_arguments.py:24 | every pair found by `finditer` consists of two non-empty word runs |
| JobTokens.FindPairs | cats/check_clean_arguments.py:24 | the left-to-right scan (a match is taken and scanning resumes after its value; otherwise it moves on one character) yields exactly the regex's pairs |
| JobTokens.PairsFromShift | cats/check_clean_arguments.py:24 | the matches found after a position do not depend on the text before it |
| JobTokens.PairsOfPrefix | cats/check_clean_arguments.py:24 | `k=v` followed by a non-word character or the end is one match, and scanning continues after it |
| JobTokens.PairsSkipSeparator | cats/check_clean_arguments.py:24 | a separator such as `,` starts no match and is skipped |
| JobTokens.PairsOfRender | cats/check_clean_arguments.py:24 | round trip: scanning `k1=v1,k2=v2,...` written from word pairs returns exactly those pairs, in order |
| JobTokens.ToMapLastWins | cats/check_clean_arguments.py:24 | a key is in `dict(pairs)` exactly when some pair has it, and its value is that of the last such pair |
| JobTokens.ToMapKeys | cats/check_clean_arguments.py:24 | the dict's keys are exactly the pairs' keys |
| JobTokens.BuildDict | cats/check_clean_arguments.py:24 | inserting the pairs one by one into an empty dict builds `dict(pairs)` |
| JobTokens.ParseJobInfo | cats/check_clean_arguments.py:24 | the scan followed by the dict loop yields the parsed `info` |
| JobTokens.ConvertAllMeaning | cats/check_clean_arguments.py:39-45 | conversion succeeds exactly when every value is an integer literal; it keeps the keys and stores each token's `int()` |
| JobTokens.ConvertValues | cats/check_clean_arguments.py:40-45 | the loop over the keys that converts in place and stops at the first ValueError yields the all-or-nothing conversion |
| JobTokens.HelpPrefixInfo | cats/check_clean_arguments.py:24 | `cpus=2,gpus=0,memory=8` parses to `{cpus: 2, gpus: 0, memory: 8}` as strings |
| JobTokens.HelpPrefixCounts | cats/check_clean_arguments.py:40-42 | the counts of that job info all convert, to 2, 0 and 8 |
| PyInt.ParseNat | cats/check_clean_arguments.py:42 | `int()` of an unsigned token; its meaning is given by `ParseNatToString` and, for the job info, `JobTokens.ConvertAllMeaning` |
| PyInt.ParseInt | cats/configure.py:48 | `int()` of a string succeeds exactly on an optionally signed integer literal; a `+` literal has its unsigned value and a `-` literal the negation |
| PyInt.SignedNatToString | cats/configure.py:48 | `int("+" + str(n)) == n` and `int("-" + str(n)) == -n` for every natural number |
| PyInt.NatToString | cats/check_clean_arguments.py:42 | the decimal form of a number is made of digits with no leading zero |
| PyInt.ParseNatToString | cats/check_clean_arguments.py:42 | `int(str(n)) == n` for every natural number |
| CheckCleanArguments.ProfileOf | cats/check_clean_arguments.py:31 | `info.pop("profile", "default")`'s value; see `UnknownProfileRejected` |
| CheckCleanArguments.AsDict | cats/check_clean_arguments.py:29-47 | the dict returned, `{}` on every failure; see `AllOrNothing` |
| CheckCleanArguments.JobInfo | cats/check_clean_arguments.py:5-47 | `validate_jobinfo`; computed by `ValidateJobInfo` and characterised by `ValidIff`, `ValidShape`, `MissingKeysRejected`, `UnknownProfileRejected` and `LastOccurrenceWins` |
| CheckCleanArguments.MissingKeysOf | cats/check_clean_arguments.py:19-27 | the missing set is empty exactly when all three keys are present, and holds exactly the absent required keys |
| CheckCleanArguments.ValidateJobInfo | cats/check_clean_arguments.py:19-47 | the source's steps (parse, key check, profile pop, in-place conversion) compute the result the specification gives |
| CheckCleanArguments.MissingKeysRejected | cats/check_clean_arguments.py:26-29 | a missing `memory`, `cpus` or `gpus` returns `{}`, and the error names exactly the missing keys |
| CheckCleanArguments.UnknownProfileRejected | cats/check_clean_arguments.py:31-37 | a profile outside the allowed names returns `{}`; an absent profile is checked as `"default"` |
| CheckCleanArguments.ValidIff | cats/check_clean_arguments.py:19-47 | the result is valid exactly when the required keys are present, the profile is allowed and every other value, extra keys included, is an integer literal |
| CheckCleanArguments.ValidShape | cats/check_clean_arguments.py:31 | a valid result has no `profile`, has `memory`, `cpus` and `gpus`, has exactly the parsed keys minus `profile`, and holds each token's `int()` |
| CheckCleanArguments.AllOrNothing | cats/check_clean_arguments.py:27-47 | the returned dict is `{}` exactly on failure, and otherwise complete |
| CheckCleanArguments.LastOccurrenceWins | cats/check_clean_arguments.py:24 | each value of a valid result is the `int()` of the last pair in the string with that key |
| CheckCleanArguments.RenderedJobInfoValidates | cats/check_clean_arguments.py:19-47 | a string written from distinct word pairs with the required keys, an allowed profile and numeric values validates to exactly those numbers |
| CheckCleanArguments.HelpPrefixValidates | cats/check_clean_arguments.py:19-47 | `cpus=2,gpus=0,memory=8` validates against `{"default"}` to `{cpus: 2, gpus: 0, memory: 8}`, and is rejected when `"default"` is not allowed |
| CheckCleanArguments.DocstringPairsRoundTrip | cats/check_clean_arguments.py:8 | the docstring's example string scans back to its four pairs |
| CheckCleanArguments.DocstringKeys | cats/check_clean_arguments.py:8 | the docstring's example has the keys `profile`, `memory`, `ncpus` and `ngpus` |
| CheckCleanArguments.DocstringExampleRejected | cats/check_clean_arguments.py:6-10 | the docstring's example is rejected for missing `cpus` and `gpus` |
| CheckCleanArguments.HelpInfo | cats/__init__.py:46 | the help's example parses to `cpus`, `gpus`, `memory` and `partition` with their string values |
| CheckCleanArguments.HelpExampleRejected | cats/__init__.py:46 | the help's example is rejected: for a non-numeric value when `"default"` is allowed, for the unknown profile `"default"` otherwise |
| Configure.CheckDuration | cats/configure.py:46-55 | the intended duration check; characterised by `DurationAcceptedIff` and `DurationOfMinutes` |
| Configure.CheckDurationAsWritten | cats/configure.py:46-55 | the duration check as written; compared with the intended one by `DurationAsWrittenRaisesAttributeError` |
| Configure.DurationAcceptedIff | cats/configure.py:46-56 | a duration is accepted exactly when it is an integer greater than 0; it is returned unchanged; every rejection is a ValueError |
| Configure.DurationOfMinutes | cats/configure.py:47-55 | any positive number of minutes written in decimal is accepted as itself, and its negation is rejected |
| Configure.DurationAsWrittenRaisesAttributeError | cats/configure.py:47-51 | as written, a non-integer duration raises AttributeError (`logging.eror`) where ValueError is promised; on integer input the two versions agree |
| Configure.DurationAsWrittenExample | cats/configure.py:48-50 | the argument `ten` shows the difference |
| Configure.ApiChoice | cats/configure.py:77-81 | the service name chosen; characterised by `ArgumentApiOverridesConfig` and `ApiFallbacks` |
| Configure.ApiFromConfigOrArgs | cats/configure.py:76-89 | `CI_API_from_config_or_args`; characterised by `ApiLookup` |
| Configure.ArgumentApiOverridesConfig | cats/configure.py:78 | a non-empty command-line service is chosen whatever the configuration holds |
| Configure.ApiFallbacks | cats/configure.py:77-81 | without a command-line service the configuration's `api` is chosen, and without that `carbonintensity.org.uk` |
| Configure.ApiLookup | cats/configure.py:82-89 | an interface is returned exactly when the chosen name is a key of the interface table, and it is the one stored under that name; otherwise `None` |
| Configure.MainApiChoice | cats/__init__.py:81-85 | the service name `main` chooses: the default, replaced by the configuration's `api`, replaced by a truthy argument; see `ApiChoiceAgreesWithMain` |
| Configure.ApiChoiceAgreesWithMain | cats/__init__.py:81-85 | the entry point's override sequence picks the same service |
| Configure.LocationFromConfigOrArgs | cats/configure.py:92-100 | `get_location_from_config_or_args` up to the network; characterised by `LocationPrecedence` |
| Configure.LocationPrecedence | cats/configure.py:92-100 | a non-empty command-line location wins regardless of the configuration; otherwise the configuration's location; the network is needed exactly when both are absent |
| Configure.MainLocation | cats/__init__.py:92-98 | the location `main` uses: a truthy argument, else the configuration's `location`, else the network; see `LocationAgreesWithMain` |
| Configure.LocationAgreesWithMain | cats/__init__.py:92-97 | the entry point's if/elif chain picks the same location |
| Configure.LookupProfile | cats/configure.py:149 | `profiles[name]` is found exactly when a profile has that name, and it is that profile |
| Configure.LookupDistinct | cats/configure.py:149 | with distinct names, as in a dict, `profiles[name]` is the profile stored under that name |
| Configure.SelectProfile | cats/configure.py:144-149 | the profile used: the named one, or the first configured one; see `DefaultIsFirstProfile` and `NamedProfileIsUsed` |
| Configure.DevicePairs | cats/configure.py:164-167 | the final comprehension, CPU then GPU, the first missing key raising KeyError; see `HardwareSuccessShape` and `AsWrittenHelpPrefixRaisesKeyError` |
| Configure.HardwareInfoAsWritten | cats/configure.py:118-167 | `get_hardware_info` as written; characterised by `HardwareMissingKeys`, `AsWrittenExplicitProfileExits`, `AsWrittenNonNumericRaisesNameError`, `AsWrittenSuccessNeedsNKeys` and `AsWrittenSuccessShape` |
| Configure.HardwareInfo | cats/configure.py:118-167 | `get_hardware_info` as intended; computed by `GetHardwareInfo` and characterised by `HardwareMissingKeys`, `NamedProfileIsUsed`, `NonNumericExits`, `DefaultIsFirstProfile`, `HardwareSuccessShape` and `HardwareAgreesWithValidator` |
| Configure.GetHardwareInfo | cats/configure.py:118-167 | the intended steps (parse, key check, profile pick and pop, in-place conversion, pairs) compute `HardwareInfo` |
| Configure.HardwareMissingKeys | cats/configure.py:132-142 | in both versions a missing `memory`, `cpus` or `gpus` returns `{}`, naming the missing keys |
| Configure.AsWrittenExplicitProfileExits | cats/configure.py:144-154 | as written, any explicit `profile` ends in `sys.exit(1)`, even a configured one |
| Configure.AsWrittenNonNumericRaisesNameError | cats/configure.py:157-162 | as written, a non-numeric value raises NameError (`loggin`) |
| Configure.AsWrittenSuccessNeedsNKeys | cats/configure.py:164-167 | as written, success needs `ncpus` and `ngpus` in the job info and no `profile` |
| Configure.AsWrittenSuccessShape | cats/configure.py:144-167 | as written, a success is exactly two pairs, CPU first: the first configured profile's powers and the `int()` of `ncpus` and `ngpus`; there was no `profile`, and every value was an integer literal |
| Configure.AsWrittenHelpPrefixRaisesKeyError | cats/configure.py:164-167 | as written, `cpus=2,gpus=0,memory=8` with a well-formed profile raises KeyError on `ncpus` |
| Configure.NamedProfileIsUsed | cats/configure.py:147-162 | intended: with a `profile` key, the function exits exactly when the name is unknown or a value is non-numeric |
| Configure.NonNumericExits | cats/configure.py:156-162 | intended: once a profile is selected, any non-numeric value other than `profile`, extra keys included, ends in `sys.exit(1)` |
| Configure.DefaultIsFirstProfile | cats/configure.py:144-146 | without a `profile` key the first configured profile is used; with no profiles, `next` raises StopIteration |
| Configure.HardwareSuccessShape | cats/configure.py:156-167 | a successful result is exactly two pairs, CPU first: the selected profile's powers paired with the `int()` of the `cpus` and `gpus` tokens; every other value was an integer literal |
| Configure.HelpPrefixDevices | cats/configure.py:164-167 | intended: `cpus=2,gpus=0,memory=8` gives `[(cpu power, 2), (gpu power, 0)]` |
| Configure.HelpExampleHardware | cats/configure.py:156-162 | the help's example selects the first profile and hits its non-numeric `partition`: intended, an exit; as written, NameError (`loggin`) |
| Configure.HardwareAgreesWithValidator | cats/configure.py:137-167 | when the job info names its profile and hardware lookup succeeds, `validate_jobinfo` against the profile names succeeds with the same CPU and GPU counts |

## Left out

- Configure.HardwareInfoAsWritten: assumes the tokenizer is available. `cats/configure.py` does not import `re`, so as shipped, line 137 raises NameError before anything else runs. The model gives that line the tokenizer of `cats/check_clean_arguments.py:24`, so that the later defects can be stated.
- `config_from_file` (`cats/configure.py:59-73`) reads a file and parses YAML. It is not modelled. The configuration is a parameter holding only the optional `api` and `location` entries.
- The network branch of `get_location_from_config_or_args` (`cats/configure.py:102-115`) is a call to ipapi.co. It is the `NeedsIpLookup` outcome.
- The other steps of `get_runtime_config` (`cats/configure.py:41-44` and `56`) are not composed with the duration check. Line 44 passes the whole argument object where a job-info string is expected.
- Logging, `sys.stderr.write` and the text of every message are not modelled. `sys.exit(1)` is the `Exit` outcome.
- The contents of `API_interfaces` (`CI_api_interface` is not part of this model). They are an arbitrary finite map, and the interfaces are opaque values.
- `\w` is restricted to ASCII letters, digits and `_`. Python's default Unicode word characters are not modelled.
- `int()` is modelled on ASCII decimal literals: digits with single underscores between them, plus an optional sign for the duration. Surrounding whitespace, Unicode digits and other bases are not modelled. Job-info tokens cannot contain a sign or a space, so this simplification only affects the duration.
- PyInt.ParseNat: does not model the limit on the number of digits that recent Python versions enforce for a base-10 `int()` of a string (4300 by default, configurable, absent before 3.9.14 and 3.10.7). A longer literal is accepted here, although Python raises ValueError for it. So for a job-info value or a duration longer than that limit, `JobInfo`, `ValidIff`, `HardwareInfo` and `CheckDuration` say "accepted" where Python rejects it.
- The schema of a hardware profile is assumed: `Profile` maps each device type to a mapping of attributes, so a configuration whose `cpu` or `gpu` entry is not a mapping cannot be expressed. For such a profile Python would raise TypeError at `cats/configure.py:165`, an outcome the model does not have. Missing `cpu`, `gpu` or `power` entries are modelled (KeyError).
- Dict key order is not modelled for the parsed `info`. Only the text of a stderr message depends on it. The order of the hardware profiles does matter (the default is the first one), and profiles are a sequence.
- `cats/__init__.py` `main` is not modelled beyond its copies of the API and location rules. It does argument parsing, file and network I/O, and calls into modules not part of this model (the forecast query, the start-time optimiser and the footprint calculator).
- `setup.py` is packaging metadata only.

## Findings

| source | as written | input that shows it | evidently intended | confidence | as-written member | corrected member |
|---|---|---|---|---|---|---|
| cats/configure.py:154 | `sys.exit(1)` sits after the try/except, so it runs whether or not the profile lookup succeeded | a job info with `memory`, `cpus`, `gpus` and `profile` naming a configured profile | exit only when the lookup raises KeyError | not executed | Configure.AsWrittenExplicitProfileExits | Configure.NamedProfileIsUsed |
| cats/configure.py:165 | the counts are read from `info["ncpus"]` and `info["ngpus"]`, keys the check at lines 132-142 does not require | `cpus=2,gpus=0,memory=8` with one profile that has CPU and GPU powers | read `cpus` and `gpus`, giving `[(cpu power, 2), (gpu power, 0)]` | not executed | Configure.AsWrittenHelpPrefixRaisesKeyError | Configure.HelpPrefixDevices |
| cats/configure.py:161 | the handler calls `loggin.error`, an undefined name, so NameError escapes instead of the exit on line 162 | `cpus=two,gpus=0,memory=8` with a configured profile | log the error and exit | not executed | Configure.AsWrittenNonNumericRaisesNameError | Configure.NonNumericExits |
| cats/configure.py:50 | the handler calls `logging.eror`, which does not exist, so AttributeError escapes instead of the documented ValueError. As shipped this handler is not reached: line 44 raises first (see "Left out"), so the defect shows only when the duration check is taken on its own | the duration `ten` | log the message and raise ValueError | not executed | Configure.DurationAsWrittenExample | Configure.DurationAcceptedIff |
