/**
 * `validate_jobinfo`: parse a job-info string such as
 * `cpus=2,gpus=0,memory=8,profile=GPU` into a dict, check that `memory`,
 * `cpus` and `gpus` are present, resolve `profile` (default `"default"`)
 * against the allowed profile names and drop it, then convert every remaining
 * value to an integer. Every failure writes a message to stderr and returns
 * the empty dict.
 */
module CheckCleanArguments {
  import opened Wrappers
  import opened PyInt
  import opened JobTokens

  /** The keys every job-info string must carry. */
  const RequiredKeys: set<string> := {"memory", "cpus", "gpus"}

  /** `set(expected_info_keys) - set(info.keys())`. */
  function MissingKeysOf(keys: set<string>): (missing: set<string>)
    ensures missing == {} <==> RequiredKeys <= keys
    ensures forall k :: k in missing <==> k in RequiredKeys && k !in keys
  {
    MissingKeysEmptyIff(keys);
    RequiredKeys - keys
  }

  lemma MissingKeysEmptyIff(keys: set<string>)
    ensures RequiredKeys - keys == {} <==> RequiredKeys <= keys
  {
    if RequiredKeys - keys == {} {
      forall k | k in RequiredKeys ensures k in keys {
        assert k !in RequiredKeys - keys;
      }
    }
  }

  const ProfileKey := "profile"

  const DefaultProfile := "default"

  /** Why `validate_jobinfo` gave up; each one is the source's `return {}` after a message. */
  datatype JobInfoError =
    | MissingKeys(keys: set<string>)
    | UnknownProfile(profile: string)
    | NotNumeric

  datatype JobInfoResult =
    | Valid(info: map<string, nat>)
    | Invalid(error: JobInfoError)

  /** The dict the source returns: `{}` for every failure. */
  function AsDict(r: JobInfoResult): map<string, nat> {
    match r
    case Valid(info) => info
    case Invalid(_) => map[]
  }

  /** The profile a parsed job info names: `info.pop("profile", "default")`. */
  function ProfileOf(info: map<string, string>): string {
    if ProfileKey in info then info[ProfileKey] else DefaultProfile
  }

  /** What `validate_jobinfo(jobinfo, expected_profile_names)` returns. */
  function JobInfo(jobinfo: string, profileNames: set<string>): JobInfoResult {
    var info := ParseInfo(jobinfo);
    var missing := MissingKeysOf(info.Keys);
    if missing != {} then Invalid(MissingKeys(missing))
    else if ProfileOf(info) !in profileNames then Invalid(UnknownProfile(ProfileOf(info)))
    else match ConvertAll(info - {ProfileKey})
      case None => Invalid(NotNumeric)
      case Some(counts) => Valid(counts)
  }

  /** The source's steps in order: build the dict, check the keys, pop the profile, convert in place. */
  method ValidateJobInfo(jobinfo: string, profileNames: set<string>) returns (r: JobInfoResult)
    ensures r == JobInfo(jobinfo, profileNames)
  {
    var info := ParseJobInfo(jobinfo);
    var missing := MissingKeysOf(info.Keys);
    if missing != {} {
      return Invalid(MissingKeys(missing));
    }
    var profile := DefaultProfile;
    if ProfileKey in info {
      profile := info[ProfileKey];
      info := info - {ProfileKey};
    }
    assert info == ParseInfo(jobinfo) - {ProfileKey};
    if profile !in profileNames {
      return Invalid(UnknownProfile(profile));
    }
    var counts := ConvertValues(info);
    if counts.None? {
      return Invalid(NotNumeric);
    }
    r := Valid(counts.value);
  }

  // ---------------------------------------------------------------------------
  // What the result means
  // ---------------------------------------------------------------------------

  /** A missing `memory`, `cpus` or `gpus` gives `{}`, and the error names exactly the missing ones. */
  lemma MissingKeysRejected(jobinfo: string, profileNames: set<string>)
    requires !(RequiredKeys <= ParseInfo(jobinfo).Keys)
    ensures JobInfo(jobinfo, profileNames) == Invalid(MissingKeys(MissingKeysOf(ParseInfo(jobinfo).Keys)))
    ensures AsDict(JobInfo(jobinfo, profileNames)) == map[]
  {
  }

  /** With the keys present, a profile (named, or `"default"` when absent) outside the allowed names gives `{}`. */
  lemma UnknownProfileRejected(jobinfo: string, profileNames: set<string>)
    requires RequiredKeys <= ParseInfo(jobinfo).Keys
    requires ProfileOf(ParseInfo(jobinfo)) !in profileNames
    ensures JobInfo(jobinfo, profileNames) == Invalid(UnknownProfile(ProfileOf(ParseInfo(jobinfo))))
    ensures ProfileKey !in ParseInfo(jobinfo) ==>
      JobInfo(jobinfo, profileNames) == Invalid(UnknownProfile("default"))
  {
  }

  /**
   * Validation succeeds exactly when the three keys are present, the profile
   * is allowed and every other value, extra keys included, is an integer literal.
   */
  lemma ValidIff(jobinfo: string, profileNames: set<string>)
    ensures var info := ParseInfo(jobinfo);
      JobInfo(jobinfo, profileNames).Valid? <==>
        && RequiredKeys <= info.Keys
        && ProfileOf(info) in profileNames
        && forall k :: k in info && k != ProfileKey ==> IsDecimalLiteral(info[k])
  {
    var info := ParseInfo(jobinfo);
    var rest := info - {ProfileKey};
    ConvertAllMeaning(rest);
    if forall k :: k in info && k != ProfileKey ==> IsDecimalLiteral(info[k]) {
      forall k | k in rest ensures IsDecimalLiteral(rest[k]) {
        assert rest[k] == info[k];
      }
    }
    if forall k :: k in rest ==> IsDecimalLiteral(rest[k]) {
      forall k | k in info && k != ProfileKey ensures IsDecimalLiteral(info[k]) {
        assert k in rest && rest[k] == info[k];
      }
    }
  }

  /**
   * A successful result has no `profile`, has `memory`, `cpus` and `gpus`,
   * has exactly the parsed keys otherwise, and holds the `int()` of each token.
   */
  lemma ValidShape(jobinfo: string, profileNames: set<string>)
    requires JobInfo(jobinfo, profileNames).Valid?
    ensures var info := ParseInfo(jobinfo);
      var out := JobInfo(jobinfo, profileNames).info;
      && ProfileKey !in out
      && RequiredKeys <= out.Keys
      && out.Keys == info.Keys - {ProfileKey}
      && forall k :: k in out ==> ParseNat(info[k]) == Some(out[k])
  {
    ConvertAllMeaning(ParseInfo(jobinfo) - {ProfileKey});
  }

  /** All or nothing: the source's return value is `{}` exactly on failure, and a complete dict otherwise. */
  lemma AllOrNothing(jobinfo: string, profileNames: set<string>)
    ensures var d := AsDict(JobInfo(jobinfo, profileNames));
      (d == map[] <==> JobInfo(jobinfo, profileNames).Invalid?) &&
      (d != map[] ==> d.Keys == ParseInfo(jobinfo).Keys - {ProfileKey})
  {
    if JobInfo(jobinfo, profileNames).Valid? {
      ValidShape(jobinfo, profileNames);
      assert "cpus" in AsDict(JobInfo(jobinfo, profileNames));
    }
  }

  /**
   * For a repeated key the last occurrence in the string decides, both for
   * which keys are present and for the value that is converted.
   */
  lemma LastOccurrenceWins(jobinfo: string, profileNames: set<string>, k: string)
    requires JobInfo(jobinfo, profileNames).Valid?
    requires k in JobInfo(jobinfo, profileNames).info
    ensures exists j ::
      IsLastWithKey(Pairs(jobinfo), j, k) &&
      ParseNat(Pairs(jobinfo)[j].1) == Some(JobInfo(jobinfo, profileNames).info[k])
  {
    ValidShape(jobinfo, profileNames);
    var ps := Pairs(jobinfo);
    ToMapLastWins(ps, k);
    var j :| IsLastWithKey(ps, j, k) && ps[j].1 == ToMap(ps)[k];
    assert ParseNat(ps[j].1) == Some(JobInfo(jobinfo, profileNames).info[k]);
  }

  /**
   * A job-info string written as `k1=v1,k2=v2,...` from distinct keys with
   * `memory`, `cpus`, `gpus` and an allowed `profile`, all other values
   * plain numbers, validates to exactly those numbers.
   */
  lemma {:induction false} RenderedJobInfoValidates(ps: seq<Pair>, profileNames: set<string>)
    requires forall i :: 0 <= i < |ps| ==> IsWord(ps[i].0) && IsWord(ps[i].1)
    requires forall i, j :: 0 <= i < j < |ps| ==> ps[i].0 != ps[j].0
    requires RequiredKeys <= ToMap(ps).Keys
    requires ProfileOf(ToMap(ps)) in profileNames
    requires forall i :: 0 <= i < |ps| && ps[i].0 != ProfileKey ==> IsDecimalLiteral(ps[i].1)
    ensures JobInfo(Render(ps), profileNames).Valid?
    ensures forall i :: 0 <= i < |ps| && ps[i].0 != ProfileKey ==>
      && ps[i].0 in JobInfo(Render(ps), profileNames).info
      && ParseNat(ps[i].1) == Some(JobInfo(Render(ps), profileNames).info[ps[i].0])
  {
    PairsOfRender(ps);
    var info := ToMap(ps);
    forall i | 0 <= i < |ps| ensures ps[i].0 in info && info[ps[i].0] == ps[i].1 {
      ToMapLastWins(ps, ps[i].0);
    }
    forall k | k in info && k != ProfileKey ensures IsDecimalLiteral(info[k]) {
      ToMapLastWins(ps, k);
    }
    ValidIff(Render(ps), profileNames);
    ValidShape(Render(ps), profileNames);
  }

  /** The first three pairs of the command-line help's example validate against the default profile, and only against it. */
  lemma HelpPrefixValidates()
    ensures JobInfo("cpus=2,gpus=0,memory=8", {"default"}) == Valid(map["cpus" := 2, "gpus" := 0, "memory" := 8])
    ensures JobInfo("cpus=2,gpus=0,memory=8", {"GPU"}) == Invalid(UnknownProfile("default"))
  {
    HelpPrefixInfo();
    HelpPrefixCounts();
  }

  /**
   * The pairs of the docstring's example; `Render` of them is
   * `profile=GPU_partition,memory=8,ncpus=8,ngpus=4`.
   */
  function DocstringPairs(): seq<Pair> {
    [("profile", "GPU_partition"), ("memory", "8"), ("ncpus", "8"), ("ngpus", "4")]
  }

  lemma DocstringPairsRoundTrip()
    ensures Pairs(Render(DocstringPairs())) == DocstringPairs()
  {
    DocstringWords();
    PairsOfRender(DocstringPairs());
  }

  lemma DocstringWords()
    ensures forall i :: 0 <= i < |DocstringPairs()| ==> IsWord(DocstringPairs()[i].0) && IsWord(DocstringPairs()[i].1)
  {
    assert IsWord("profile") && IsWord("GPU_partition") && IsWord("memory") && IsWord("8");
    assert IsWord("ncpus") && IsWord("ngpus") && IsWord("4");
  }

  lemma DocstringKeys()
    ensures ToMap(DocstringPairs()).Keys == {"profile", "memory", "ncpus", "ngpus"}
  {
    var p1: seq<Pair> := [("profile", "GPU_partition")];
    var p2 := p1 + [("memory", "8")];
    var p3 := p2 + [("ncpus", "8")];
    var p4 := p3 + [("ngpus", "4")];
    assert p4 == DocstringPairs();
    assert p1[..0] == [] && p2[..1] == p1 && p3[..2] == p2 && p4[..3] == p3;
    assert ToMap(p1).Keys == {"profile"};
    assert ToMap(p2).Keys == {"profile", "memory"};
    assert ToMap(p3).Keys == {"profile", "memory", "ncpus"};
  }

  /**
   * The example in the docstring names its counts `ncpus` and `ngpus`, so the
   * function rejects it for missing `cpus` and `gpus`.
   */
  lemma DocstringExampleRejected(jobinfo: string, profileNames: set<string>)
    requires jobinfo == Render(DocstringPairs())
    ensures JobInfo(jobinfo, profileNames) == Invalid(MissingKeys({"cpus", "gpus"}))
  {
    DocstringPairsRoundTrip();
    DocstringKeys();
    var keys := ParseInfo(jobinfo).Keys;
    assert keys == {"profile", "memory", "ncpus", "ngpus"};
    assert "memory" in keys;
    assert |"cpus"| == |"gpus"| == 4 && "cpus" !in keys && "gpus" !in keys;
    assert MissingKeysOf(keys) == {"cpus", "gpus"};
  }

  /**
   * The pairs of the command-line help's example; `Render` of them is
   * `cpus=2,gpus=0,memory=8,partition=CPU_partition`.
   */
  function HelpPairs(): seq<Pair> {
    [("cpus", "2"), ("gpus", "0"), ("memory", "8"), ("partition", "CPU_partition")]
  }

  lemma HelpWords()
    ensures forall i :: 0 <= i < |HelpPairs()| ==> IsWord(HelpPairs()[i].0) && IsWord(HelpPairs()[i].1)
  {
    assert IsWord("cpus") && IsWord("gpus") && IsWord("memory") && IsWord("partition");
    assert IsWord("2") && IsWord("0") && IsWord("8") && IsWord("CPU_partition");
  }

  /** The `info` dict of the help's example. */
  lemma HelpInfo(jobinfo: string)
    requires jobinfo == Render(HelpPairs())
    ensures ParseInfo(jobinfo) == map["cpus" := "2", "gpus" := "0", "memory" := "8", "partition" := "CPU_partition"]
  {
    HelpWords();
    PairsOfRender(HelpPairs());
    var p1: seq<Pair> := [("cpus", "2")];
    var p2 := p1 + [("gpus", "0")];
    var p3 := p2 + [("memory", "8")];
    var p4 := p3 + [("partition", "CPU_partition")];
    assert p4 == HelpPairs();
    assert p1[..0] == [] && p2[..1] == p1 && p3[..2] == p2 && p4[..3] == p3;
    assert ToMap(p1) == map[]["cpus" := "2"];
    assert ToMap(p2) == ToMap(p1)["gpus" := "0"];
    assert ToMap(p3) == ToMap(p2)["memory" := "8"];
    assert ToMap(p4) == ToMap(p3)["partition" := "CPU_partition"];
  }

  /**
   * The help's example names its profile with the key `partition`, which the
   * function does not know: it is an extra key whose value is not a number,
   * so the example is rejected whatever profiles are allowed.
   */
  lemma HelpExampleRejected(jobinfo: string, profileNames: set<string>)
    requires jobinfo == Render(HelpPairs())
    ensures "default" in profileNames ==> JobInfo(jobinfo, profileNames) == Invalid(NotNumeric)
    ensures "default" !in profileNames ==> JobInfo(jobinfo, profileNames) == Invalid(UnknownProfile("default"))
  {
    HelpInfo(jobinfo);
    var info := ParseInfo(jobinfo);
    assert RequiredKeys <= info.Keys;
    assert |"profile"| == 7 && |"partition"| == 9 && ProfileKey !in info;
    var rest := info - {ProfileKey};
    assert rest == info;
    assert !IsDigit('C') && !IsDecimalLiteral(rest["partition"]);
    ConvertAllMeaning(rest);
  }
}
