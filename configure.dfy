/**
 * The resolution rules of the runtime configuration: the job-duration check,
 * the choice of carbon-intensity forecast service, the location precedence
 * and `get_hardware_info`, the second job-info parser, which turns a job-info
 * string and the configured hardware profiles into `(power, count)` pairs for
 * the CPU and the GPU.
 *
 * Outcomes that end the program (an exception, `sys.exit(1)`) are values of
 * the result types below; logging is not modelled.
 */
module Configure {
  import opened Wrappers
  import opened PyInt
  import opened JobTokens
  import CheckCleanArguments

  /** The Python exceptions these rules can raise. */
  datatype PyError =
    | ValueError
    | NameError(name: string)
    | AttributeError(name: string)
    | KeyError(key: string)
    | StopIteration

  datatype Checked<T> = Ok(value: T) | Raised(error: PyError)

  // ---------------------------------------------------------------------------
  // Job duration (get_runtime_config)
  // ---------------------------------------------------------------------------

  /** `int(args.duration)`, then reject a duration that is not positive, with ValueError as documented. */
  function CheckDuration(arg: string): Checked<nat> {
    match ParseInt(arg)
    case None => Raised(ValueError)
    case Some(d) => if d <= 0 then Raised(ValueError) else Ok(d)
  }

  /**
   * The same check as written: on a non-integer argument the handler calls
   * `logging.eror`, which does not exist, so AttributeError escapes instead
   * of the documented ValueError.
   */
  function CheckDurationAsWritten(arg: string): Checked<nat> {
    match ParseInt(arg)
    case None => Raised(AttributeError("eror"))
    case Some(d) => if d <= 0 then Raised(ValueError) else Ok(d)
  }

  /** A duration is accepted exactly when it reads as a positive integer, and it is returned unchanged. */
  lemma DurationAcceptedIff(arg: string)
    ensures CheckDuration(arg).Ok? <==> ParseInt(arg).Some? && ParseInt(arg).value > 0
    ensures CheckDuration(arg).Ok? ==> CheckDuration(arg).value == ParseInt(arg).value
    ensures CheckDuration(arg).Raised? ==> CheckDuration(arg).error == ValueError
  {
  }

  /** A positive number of minutes written in decimal is accepted as that number; its negation is rejected. */
  lemma DurationOfMinutes(n: nat)
    ensures n > 0 ==> CheckDuration(NatToString(n)) == Ok(n)
    ensures CheckDuration("-" + NatToString(n)) == Raised(ValueError)
  {
    ParseNatToString(n);
    assert ("-" + NatToString(n))[1..] == NatToString(n);
    assert !IsDecimalLiteral("-" + NatToString(n));
  }

  /** The two versions differ exactly on arguments that are not integers. */
  lemma DurationAsWrittenRaisesAttributeError(arg: string)
    ensures ParseInt(arg).None? ==>
      CheckDurationAsWritten(arg) == Raised(AttributeError("eror")) &&
      CheckDuration(arg) == Raised(ValueError)
    ensures ParseInt(arg).Some? ==> CheckDurationAsWritten(arg) == CheckDuration(arg)
  {
  }

  lemma DurationAsWrittenExample()
    ensures CheckDurationAsWritten("ten") == Raised(AttributeError("eror"))
    ensures CheckDuration("ten") == Raised(ValueError)
  {
    assert !IsDigit('t');
    assert !IsDecimalLiteral("ten");
  }

  // ---------------------------------------------------------------------------
  // Forecast service and location
  // ---------------------------------------------------------------------------

  /** The entries of the configuration file these rules read; `None` is a key that is absent. */
  datatype Config = Config(api: Option<string>, location: Option<string>)

  /** Python truthiness of an optional command-line string: given and non-empty. */
  predicate Truthy(arg: Option<string>) {
    arg.Some? && arg.value != ""
  }

  const DefaultApi := "carbonintensity.org.uk"

  /** `args.api if args.api else config["api"]`, with the default when the key is absent. */
  function ApiChoice(argApi: Option<string>, config: Config): string {
    if Truthy(argApi) then argApi.value
    else match config.api
      case Some(name) => name
      case None => DefaultApi
  }

  /** `CI_API_from_config_or_args`: the chosen interface, or `None` (after logging) for an unknown name. */
  function ApiFromConfigOrArgs<I>(argApi: Option<string>, config: Config, interfaces: map<string, I>): Option<I> {
    var name := ApiChoice(argApi, config);
    if name in interfaces then Some(interfaces[name]) else None
  }

  /** A non-empty command-line service overrides the configuration, which is then not consulted at all. */
  lemma ArgumentApiOverridesConfig(argApi: Option<string>, c1: Config, c2: Config)
    requires Truthy(argApi)
    ensures ApiChoice(argApi, c1) == argApi.value
    ensures ApiChoice(argApi, c1) == ApiChoice(argApi, c2)
  {
  }

  /** Without a command-line service the configuration's `api` is used, and without that the default. */
  lemma ApiFallbacks(argApi: Option<string>, config: Config)
    requires !Truthy(argApi)
    ensures config.api.Some? ==> ApiChoice(argApi, config) == config.api.value
    ensures config.api.None? ==> ApiChoice(argApi, config) == "carbonintensity.org.uk"
  {
  }

  /** An interface is returned exactly when the chosen name is a key of the interface table. */
  lemma ApiLookup<I>(argApi: Option<string>, config: Config, interfaces: map<string, I>)
    ensures ApiFromConfigOrArgs(argApi, config, interfaces).Some? <==> ApiChoice(argApi, config) in interfaces
    ensures ApiFromConfigOrArgs(argApi, config, interfaces).Some? ==>
      ApiFromConfigOrArgs(argApi, config, interfaces).value == interfaces[ApiChoice(argApi, config)]
  {
  }

  /**
   * The entry point states the same precedence as a sequence of overrides:
   * start from the default, let the configuration's `api` replace it, then a
   * non-empty command-line value.
   */
  function MainApiChoice(argApi: Option<string>, config: Config): string {
    var fromDefault := DefaultApi;
    var fromConfig := if config.api.Some? then config.api.value else fromDefault;
    if Truthy(argApi) then argApi.value else fromConfig
  }

  lemma ApiChoiceAgreesWithMain(argApi: Option<string>, config: Config)
    ensures ApiChoice(argApi, config) == MainApiChoice(argApi, config)
  {
  }

  /** Where the location comes from; the IP lookup itself is a network call and is not modelled. */
  datatype Location = Known(location: string) | NeedsIpLookup

  /** `get_location_from_config_or_args` up to its network fallback. */
  function LocationFromConfigOrArgs(argLocation: Option<string>, config: Config): Location {
    if Truthy(argLocation) then Known(argLocation.value)
    else if config.location.Some? then Known(config.location.value)
    else NeedsIpLookup
  }

  /** The command line wins, then the configuration; the network is consulted only when both are silent. */
  lemma LocationPrecedence(argLocation: Option<string>, c1: Config, c2: Config)
    ensures Truthy(argLocation) ==>
      LocationFromConfigOrArgs(argLocation, c1) == Known(argLocation.value) &&
      LocationFromConfigOrArgs(argLocation, c1) == LocationFromConfigOrArgs(argLocation, c2)
    ensures !Truthy(argLocation) && c1.location.Some? ==>
      LocationFromConfigOrArgs(argLocation, c1) == Known(c1.location.value)
    ensures LocationFromConfigOrArgs(argLocation, c1) == NeedsIpLookup <==>
      !Truthy(argLocation) && c1.location.None?
  {
  }

  /** The entry point's copy of the rule, an if/elif chain, gives the same location. */
  function MainLocation(argLocation: Option<string>, config: Config): Location {
    match (argLocation, config.location)
    case (Some(a), _) => if a != "" then Known(a) else if config.location.Some? then Known(config.location.value) else NeedsIpLookup
    case (None, Some(l)) => Known(l)
    case (None, None) => NeedsIpLookup
  }

  lemma LocationAgreesWithMain(argLocation: Option<string>, config: Config)
    ensures LocationFromConfigOrArgs(argLocation, config) == MainLocation(argLocation, config)
  {
  }

  // ---------------------------------------------------------------------------
  // Hardware information (get_hardware_info)
  // ---------------------------------------------------------------------------

  /** A hardware profile: device type (`cpu`, `gpu`) to its attributes, among them `power`. */
  type Profile<V> = map<string, map<string, V>>

  /**
   * The configured profiles by name, in the order of the configuration
   * mapping. A sequence can repeat a name, which a Python dict cannot;
   * `DistinctNames` states the dict's property, and `LookupProfile` returns
   * the first entry with a name, which under it is the only one.
   */
  type Profiles<V> = seq<(string, Profile<V>)>

  predicate DistinctNames<V>(profiles: Profiles<V>) {
    forall i, j :: 0 <= i < j < |profiles| ==> profiles[i].0 != profiles[j].0
  }

  datatype HardwareOutcome<V> =
    | NoInfo(missing: set<string>)      // `return {}` after reporting the missing keys
    | Exit                              // `sys.exit(1)`
    | Failed(error: PyError)            // an exception escapes
    | Devices(pairs: seq<(V, nat)>)     // `[(cpu power, cpu count), (gpu power, gpu count)]`

  /** `profiles[name]`: the profile configured under `name`. */
  function LookupProfile<V>(profiles: Profiles<V>, name: string): (r: Option<Profile<V>>)
    ensures r.Some? <==> exists i :: 0 <= i < |profiles| && profiles[i].0 == name
    ensures r.Some? ==> exists i :: 0 <= i < |profiles| && profiles[i] == (name, r.value)
  {
    if profiles == [] then None
    else if profiles[0].0 == name then Some(profiles[0].1)
    else
      var r := LookupProfile(profiles[1..], name);
      assert forall i :: 1 <= i < |profiles| ==> profiles[i] == profiles[1..][i - 1];
      r
  }

  /** With distinct names, `profiles[name]` is the profile stored under that name. */
  lemma {:induction false} LookupDistinct<V>(profiles: Profiles<V>, i: nat)
    requires DistinctNames(profiles) && i < |profiles|
    ensures LookupProfile(profiles, profiles[i].0) == Some(profiles[i].1)
  {
    if i > 0 {
      var tail := profiles[1..];
      assert tail[i - 1] == profiles[i];
      assert profiles[0].0 != profiles[i].0;
      assert DistinctNames(tail) by {
        forall a, b | 0 <= a < b < |tail| ensures tail[a].0 != tail[b].0 {
          assert tail[a] == profiles[a + 1] && tail[b] == profiles[b + 1];
        }
      }
      LookupDistinct(tail, i - 1);
    }
  }

  function ProfileNames<V>(profiles: Profiles<V>): set<string> {
    set i | 0 <= i < |profiles| :: profiles[i].0
  }

  /**
   * The final comprehension, `(profile[t]["power"], info[key])` for `t` in
   * `cpu`, then `gpu`, evaluated left to right; the first missing key raises.
   */
  function DevicePairs<V>(profile: Profile<V>, counts: map<string, nat>, cpuKey: string, gpuKey: string): HardwareOutcome<V> {
    if "cpu" !in profile then Failed(KeyError("cpu"))
    else if "power" !in profile["cpu"] then Failed(KeyError("power"))
    else if cpuKey !in counts then Failed(KeyError(cpuKey))
    else if "gpu" !in profile then Failed(KeyError("gpu"))
    else if "power" !in profile["gpu"] then Failed(KeyError("power"))
    else if gpuKey !in counts then Failed(KeyError(gpuKey))
    else Devices([(profile["cpu"]["power"], counts[cpuKey]), (profile["gpu"]["power"], counts[gpuKey])])
  }

  /** A profile with a `power` for both device types. */
  predicate HasPowers<V>(profile: Profile<V>) {
    "cpu" in profile && "power" in profile["cpu"] && "gpu" in profile && "power" in profile["gpu"]
  }

  /**
   * `get_hardware_info` as written, taking the tokenizer to be available
   * (the module never imports `re`). Three defects show: any explicit
   * `profile` ends in `sys.exit(1)`, because the exit sits after the
   * try/except rather than inside the handler; a non-numeric value reaches
   * `loggin.error`, a NameError; and the counts are read from `ncpus` and
   * `ngpus`, keys the required-key check does not ask for.
   */
  function HardwareInfoAsWritten<V>(jobinfo: string, profiles: Profiles<V>): HardwareOutcome<V> {
    var info := ParseInfo(jobinfo);
    var missing := CheckCleanArguments.MissingKeysOf(info.Keys);
    if missing != {} then NoInfo(missing)
    else if "profile" in info then Exit
    else if profiles == [] then Failed(StopIteration)
    else match ConvertAll(info)
      case None => Failed(NameError("loggin"))
      case Some(counts) => DevicePairs(profiles[0].1, counts, "ncpus", "ngpus")
  }

  /**
   * The profile `get_hardware_info` works with: the one named by `profile`
   * (popped from the info), or the first configured one when none is named.
   * `None` with `named` set is an unknown name; `None` otherwise is an empty
   * profile table, where `next(iter(...))` raises StopIteration.
   */
  function SelectProfile<V>(info: map<string, string>, profiles: Profiles<V>): Option<Profile<V>> {
    if "profile" in info then LookupProfile(profiles, info["profile"])
    else if profiles == [] then None
    else Some(profiles[0].1)
  }

  /**
   * `get_hardware_info` as evidently intended: exit only for an unknown
   * profile or a non-numeric value, and read the counts from `cpus` and
   * `gpus`, the keys the function requires.
   */
  function HardwareInfo<V>(jobinfo: string, profiles: Profiles<V>): HardwareOutcome<V> {
    var info := ParseInfo(jobinfo);
    var missing := CheckCleanArguments.MissingKeysOf(info.Keys);
    if missing != {} then NoInfo(missing)
    else match SelectProfile(info, profiles)
      case None => if "profile" in info then Exit else Failed(StopIteration)
      case Some(profile) =>
        match ConvertAll(info - {"profile"})
        case None => Exit
        case Some(counts) => DevicePairs(profile, counts, "cpus", "gpus")
  }

  /** The intended function in the source's own steps: parse, pop the profile, convert in place, build the pairs. */
  method GetHardwareInfo<V>(jobinfo: string, profiles: Profiles<V>) returns (r: HardwareOutcome<V>)
    ensures r == HardwareInfo(jobinfo, profiles)
  {
    var info := ParseJobInfo(jobinfo);
    var missing := CheckCleanArguments.MissingKeysOf(info.Keys);
    if missing != {} {
      return NoInfo(missing);
    }
    var profile: Profile<V>;
    if "profile" !in info {
      if profiles == [] {
        return Failed(StopIteration);
      }
      profile := profiles[0].1;
    } else {
      var found := LookupProfile(profiles, info["profile"]);
      info := info - {"profile"};
      if found.None? {
        return Exit;
      }
      profile := found.value;
    }
    assert info == ParseInfo(jobinfo) - {"profile"};
    var counts := ConvertValues(info);
    if counts.None? {
      return Exit;
    }
    r := DevicePairs(profile, counts.value, "cpus", "gpus");
  }

  // ---------------------------------------------------------------------------
  // Properties of both versions
  // ---------------------------------------------------------------------------

  /** A missing `memory`, `cpus` or `gpus` returns `{}` in both versions, naming the missing keys. */
  lemma HardwareMissingKeys<V>(jobinfo: string, profiles: Profiles<V>)
    requires !(CheckCleanArguments.RequiredKeys <= ParseInfo(jobinfo).Keys)
    ensures var missing := CheckCleanArguments.MissingKeysOf(ParseInfo(jobinfo).Keys);
      HardwareInfoAsWritten(jobinfo, profiles) == NoInfo(missing) &&
      HardwareInfo(jobinfo, profiles) == NoInfo(missing)
  {
  }

  /** As written, an explicit `profile` exits even when it names a configured profile. */
  lemma AsWrittenExplicitProfileExits<V>(jobinfo: string, profiles: Profiles<V>)
    requires CheckCleanArguments.RequiredKeys <= ParseInfo(jobinfo).Keys
    requires "profile" in ParseInfo(jobinfo)
    ensures HardwareInfoAsWritten(jobinfo, profiles) == Exit
  {
  }

  /** As written, a non-numeric value raises NameError (`loggin`) instead of exiting. */
  lemma AsWrittenNonNumericRaisesNameError<V>(jobinfo: string, profiles: Profiles<V>, key: string)
    requires CheckCleanArguments.RequiredKeys <= ParseInfo(jobinfo).Keys
    requires "profile" !in ParseInfo(jobinfo) && profiles != []
    requires key in ParseInfo(jobinfo) && !IsDecimalLiteral(ParseInfo(jobinfo)[key])
    ensures HardwareInfoAsWritten(jobinfo, profiles) == Failed(NameError("loggin"))
  {
  }

  /** As written, the function succeeds only if the job info also carries `ncpus` and `ngpus`. */
  lemma AsWrittenSuccessNeedsNKeys<V>(jobinfo: string, profiles: Profiles<V>)
    requires HardwareInfoAsWritten(jobinfo, profiles).Devices?
    ensures "ncpus" in ParseInfo(jobinfo) && "ngpus" in ParseInfo(jobinfo)
    ensures "profile" !in ParseInfo(jobinfo)
  {
    ConvertAllMeaning(ParseInfo(jobinfo));
  }

  /**
   * As written, a successful result is exactly two pairs, CPU first: the
   * powers of the first configured profile and the `int()` of the `ncpus`
   * and `ngpus` tokens; there was no `profile` key, and every value was an
   * integer literal.
   */
  lemma AsWrittenSuccessShape<V>(jobinfo: string, profiles: Profiles<V>)
    requires HardwareInfoAsWritten(jobinfo, profiles).Devices?
    ensures var info := ParseInfo(jobinfo);
      var pairs := HardwareInfoAsWritten(jobinfo, profiles).pairs;
      && profiles != []
      && "profile" !in info
      && HasPowers(profiles[0].1)
      && (forall k :: k in info ==> IsDecimalLiteral(info[k]))
      && "ncpus" in info && "ngpus" in info
      && pairs == [(profiles[0].1["cpu"]["power"], DigitsValue(info["ncpus"])),
                   (profiles[0].1["gpu"]["power"], DigitsValue(info["ngpus"]))]
  {
    ConvertAllMeaning(ParseInfo(jobinfo));
  }

  /** The profile used when the job info names it: the configured one, not an exit. */
  lemma NamedProfileIsUsed<V>(jobinfo: string, profiles: Profiles<V>)
    requires CheckCleanArguments.RequiredKeys <= ParseInfo(jobinfo).Keys
    requires "profile" in ParseInfo(jobinfo)
    ensures HardwareInfo(jobinfo, profiles) == Exit <==>
      LookupProfile(profiles, ParseInfo(jobinfo)["profile"]).None? ||
      ConvertAll(ParseInfo(jobinfo) - {"profile"}).None?
  {
  }

  /** Intended: a non-numeric value, extra keys included, ends in `sys.exit(1)` once a profile is selected. */
  lemma NonNumericExits<V>(jobinfo: string, profiles: Profiles<V>, key: string)
    requires CheckCleanArguments.RequiredKeys <= ParseInfo(jobinfo).Keys
    requires SelectProfile(ParseInfo(jobinfo), profiles).Some?
    requires key in ParseInfo(jobinfo) && key != "profile" && !IsDecimalLiteral(ParseInfo(jobinfo)[key])
    ensures HardwareInfo(jobinfo, profiles) == Exit
  {
    var rest := ParseInfo(jobinfo) - {"profile"};
    ConvertAllMeaning(rest);
    assert key in rest && rest[key] == ParseInfo(jobinfo)[key];
  }

  /**
   * A successful result is exactly two pairs, CPU first: the power of the
   * selected profile (the named one, or the first configured) and the
   * `int()` of the `cpus` and `gpus` tokens; every value but `profile` was
   * an integer literal.
   */
  lemma HardwareSuccessShape<V>(jobinfo: string, profiles: Profiles<V>)
    requires HardwareInfo(jobinfo, profiles).Devices?
    ensures var info := ParseInfo(jobinfo);
      var pairs := HardwareInfo(jobinfo, profiles).pairs;
      && SelectProfile(info, profiles).Some?
      && HasPowers(SelectProfile(info, profiles).value)
      && (forall k :: k in info && k != "profile" ==> IsDecimalLiteral(info[k]))
      && |pairs| == 2
      && pairs[0] == (SelectProfile(info, profiles).value["cpu"]["power"], DigitsValue(info["cpus"]))
      && pairs[1] == (SelectProfile(info, profiles).value["gpu"]["power"], DigitsValue(info["gpus"]))
  {
    var info := ParseInfo(jobinfo);
    var rest := info - {"profile"};
    ConvertAllMeaning(rest);
    forall k | k in info && k != "profile" ensures IsDecimalLiteral(info[k]) {
      assert k in rest && rest[k] == info[k];
    }
    assert rest["cpus"] == info["cpus"] && rest["gpus"] == info["gpus"];
  }

  /** With no `profile` key the first profile in the configuration's order is the one used. */
  lemma DefaultIsFirstProfile<V>(jobinfo: string, profiles: Profiles<V>)
    requires CheckCleanArguments.RequiredKeys <= ParseInfo(jobinfo).Keys
    requires "profile" !in ParseInfo(jobinfo)
    ensures profiles != [] ==> SelectProfile(ParseInfo(jobinfo), profiles) == Some(profiles[0].1)
    ensures profiles == [] ==>
      HardwareInfo(jobinfo, profiles) == Failed(StopIteration) &&
      HardwareInfoAsWritten(jobinfo, profiles) == Failed(StopIteration)
  {
  }

  /**
   * Both parsers agree: when the job info names its profile and the
   * intended `get_hardware_info` succeeds, `validate_jobinfo` against the
   * configured names succeeds too, with the same CPU and GPU counts.
   */
  lemma HardwareAgreesWithValidator<V>(jobinfo: string, profiles: Profiles<V>)
    requires "profile" in ParseInfo(jobinfo)
    requires HardwareInfo(jobinfo, profiles).Devices?
    ensures var r := CheckCleanArguments.JobInfo(jobinfo, ProfileNames(profiles));
      && r.Valid?
      && "cpus" in r.info && "gpus" in r.info
      && HardwareInfo(jobinfo, profiles).pairs[0].1 == r.info["cpus"]
      && HardwareInfo(jobinfo, profiles).pairs[1].1 == r.info["gpus"]
  {
    var info := ParseInfo(jobinfo);
    HardwareSuccessShape(jobinfo, profiles);
    var i :| 0 <= i < |profiles| && profiles[i].0 == info["profile"];
    assert info["profile"] in ProfileNames(profiles);
    CheckCleanArguments.ValidIff(jobinfo, ProfileNames(profiles));
    CheckCleanArguments.ValidShape(jobinfo, ProfileNames(profiles));
  }

  // ---------------------------------------------------------------------------
  // The first three pairs of the command-line help's example, through both versions
  // ---------------------------------------------------------------------------

  /** One profile with a `power` for each device type. */
  function Cluster<V>(cpuPower: V, gpuPower: V): Profiles<V> {
    [("cluster", map["cpu" := map["power" := cpuPower], "gpu" := map["power" := gpuPower]])]
  }

  /** As written, `cpus=2,gpus=0,memory=8` fails on the `ncpus` lookup. */
  lemma AsWrittenHelpPrefixRaisesKeyError<V>(cpuPower: V, gpuPower: V)
    ensures HardwareInfoAsWritten("cpus=2,gpus=0,memory=8", Cluster(cpuPower, gpuPower)) == Failed(KeyError("ncpus"))
  {
    HelpPrefixInfo();
    HelpPrefixCounts();
  }

  /** Intended: the same job info gives `[(cpu power, 2), (gpu power, 0)]`. */
  lemma HelpPrefixDevices<V>(cpuPower: V, gpuPower: V)
    ensures HardwareInfo("cpus=2,gpus=0,memory=8", Cluster(cpuPower, gpuPower)) == Devices([(cpuPower, 2), (gpuPower, 0)])
  {
    HelpPrefixInfo();
    HelpPrefixCounts();
  }

  /**
   * The help's own example `cpus=2,gpus=0,memory=8,partition=CPU_partition`:
   * no `profile` key, so the first profile is selected, and `partition` is a
   * value that is not a number. Intended, that exits; as written, it reaches
   * `loggin`.
   */
  lemma HelpExampleHardware<V>(jobinfo: string, cpuPower: V, gpuPower: V)
    requires jobinfo == Render(CheckCleanArguments.HelpPairs())
    ensures HardwareInfo(jobinfo, Cluster(cpuPower, gpuPower)) == Exit
    ensures HardwareInfoAsWritten(jobinfo, Cluster(cpuPower, gpuPower)) == Failed(NameError("loggin"))
  {
    CheckCleanArguments.HelpInfo(jobinfo);
    var info := ParseInfo(jobinfo);
    assert CheckCleanArguments.RequiredKeys <= info.Keys;
    assert |"profile"| == 7 && |"partition"| == 9 && "profile" !in info;
    assert !IsDigit('C') && !IsDecimalLiteral(info["partition"]);
    NonNumericExits(jobinfo, Cluster(cpuPower, gpuPower), "partition");
    AsWrittenNonNumericRaisesNameError(jobinfo, Cluster(cpuPower, gpuPower), "partition");
  }
}
