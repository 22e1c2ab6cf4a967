/**
 * The job-info tokenizer shared by `validate_jobinfo` and `get_hardware_info`:
 * `dict([m.groups() for m in re.finditer(r"(\w+)=(\w+)", jobinfo)])`,
 * followed by the loop that rewrites every value with `int()`.
 *
 * `\w` is restricted to ASCII letters, digits and `_`. Because `=` is not a
 * word character, the regex matches at a position exactly when the maximal
 * word run there is non-empty, is followed by `=`, and the `=` is followed by
 * a non-empty word run (the value, taken maximally). Without a match the scan
 * moves on by one character; after a match it resumes right after the value.
 */
module JobTokens {
  import opened Wrappers
  import opened PyInt

  type Pair = (string, string)

  predicate IsWordChar(c: char) {
    'a' <= c <= 'z' || 'A' <= c <= 'Z' || '0' <= c <= '9' || c == '_'
  }

  /** A non-empty run of word characters, what one `(\w+)` group can capture. */
  predicate IsWord(w: string) {
    |w| > 0 && forall i :: 0 <= i < |w| ==> IsWordChar(w[i])
  }

  /** Length of the longest run of word characters of `s` starting at index `i`. */
  function RunLength(s: string, i: nat): (n: nat)
    requires i <= |s|
    ensures i + n <= |s|
    decreases |s| - i
  {
    if i == |s| || !IsWordChar(s[i]) then 0 else 1 + RunLength(s, i + 1)
  }

  /** The run is made of word characters and cannot be extended. */
  lemma {:induction false} RunLengthMaximal(s: string, i: nat)
    requires i <= |s|
    ensures forall j :: i <= j < i + RunLength(s, i) ==> IsWordChar(s[j])
    ensures i + RunLength(s, i) == |s| || !IsWordChar(s[i + RunLength(s, i)])
    decreases |s| - i
  {
    if i < |s| && IsWordChar(s[i]) {
      RunLengthMaximal(s, i + 1);
    }
  }

  /** One regex match: its two groups and how many characters it spans. */
  datatype Match = Match(key: string, value: string, len: nat)

  /** The regex tried at index `i` of `s`. */
  function MatchAt(s: string, i: nat): (m: Option<Match>)
    requires i <= |s|
    ensures m.Some? ==> 0 < m.value.len && i + m.value.len <= |s|
  {
    var k := i + RunLength(s, i);
    if i < k < |s| && s[k] == '=' then
      var v := k + 1 + RunLength(s, k + 1);
      if v > k + 1 then Some(Match(s[i..k], s[k + 1..v], v - i)) else None
    else None
  }

  /** The `m.groups()` of the matches `re.finditer` finds from index `i` on, left to right, non-overlapping. */
  function PairsFrom(s: string, i: nat): seq<Pair>
    requires i <= |s|
    decreases |s| - i
  {
    if i == |s| then []
    else match MatchAt(s, i)
      case Some(m) => [(m.key, m.value)] + PairsFrom(s, i + m.len)
      case None => PairsFrom(s, i + 1)
  }

  /** The `m.groups()` of `re.finditer(r"(\w+)=(\w+)", s)`. */
  function Pairs(s: string): seq<Pair> {
    PairsFrom(s, 0)
  }

  /** A match contributes its pair, and the scan resumes after it. */
  lemma PairsOfMatch(s: string, i: nat, m: Match)
    requires i <= |s| && MatchAt(s, i) == Some(m)
    ensures i + m.len <= |s| && PairsFrom(s, i) == [(m.key, m.value)] + PairsFrom(s, i + m.len)
  {
  }

  /** Where no match starts, the scan moves on by one character. */
  lemma PairsOfNoMatch(s: string, i: nat)
    requires i < |s| && MatchAt(s, i).None?
    ensures PairsFrom(s, i) == PairsFrom(s, i + 1)
  {
  }

  /** Both groups of a match are non-empty runs of word characters. */
  lemma MatchIsWords(s: string, i: nat, m: Match)
    requires i <= |s| && MatchAt(s, i) == Some(m)
    ensures IsWord(m.key) && IsWord(m.value)
  {
    var k := i + RunLength(s, i);
    RunLengthMaximal(s, i);
    RunLengthMaximal(s, k + 1);
    assert forall j :: 0 <= j < |m.key| ==> m.key[j] == s[i + j];
    assert forall j :: 0 <= j < |m.value| ==> m.value[j] == s[k + 1 + j];
  }

  /** Both groups of every match are non-empty runs of word characters. */
  lemma {:induction false} PairsFromAreWords(s: string, i: nat)
    requires i <= |s|
    ensures forall j :: 0 <= j < |PairsFrom(s, i)| ==> IsWord(PairsFrom(s, i)[j].0) && IsWord(PairsFrom(s, i)[j].1)
    decreases |s| - i
  {
    if i < |s| {
      match MatchAt(s, i)
      case Some(m) =>
        PairsFromAreWords(s, i + m.len);
        MatchIsWords(s, i, m);
        PairsOfMatch(s, i, m);
      case None =>
        PairsFromAreWords(s, i + 1);
        PairsOfNoMatch(s, i);
    }
  }

  lemma PairsAreWords(s: string)
    ensures forall i :: 0 <= i < |Pairs(s)| ==> IsWord(Pairs(s)[i].0) && IsWord(Pairs(s)[i].1)
  {
    PairsFromAreWords(s, 0);
  }

  /** `dict(ps)`: each pair is inserted in turn, so for a repeated key the last pair wins. */
  function ToMap(ps: seq<Pair>): map<string, string> {
    if ps == [] then map[] else ToMap(ps[..|ps| - 1])[ps[|ps| - 1].0 := ps[|ps| - 1].1]
  }

  /** The `info` dict both parsers build from the job-info string. */
  function ParseInfo(s: string): map<string, string> {
    ToMap(Pairs(s))
  }

  /** Every value converted with `int()`, or `None` as soon as one raises ValueError. */
  function ConvertAll(info: map<string, string>): Option<map<string, nat>> {
    if forall k :: k in info ==> ParseNat(info[k]).Some? then
      Some(map k | k in info :: ParseNat(info[k]).value)
    else None
  }

  // ---------------------------------------------------------------------------
  // Properties of the specification functions
  // ---------------------------------------------------------------------------

  /** Pair `j` is the last pair of `ps` whose key is `k`. */
  predicate IsLastWithKey(ps: seq<Pair>, j: int, k: string) {
    0 <= j < |ps| && ps[j].0 == k && forall j' :: j < j' < |ps| ==> ps[j'].0 != k
  }

  /** A key is in `dict(ps)` exactly when some pair has it, and its value is that of the LAST such pair. */
  lemma {:induction false} ToMapLastWins(ps: seq<Pair>, k: string)
    ensures k in ToMap(ps) <==> exists j :: 0 <= j < |ps| && ps[j].0 == k
    ensures k in ToMap(ps) ==> exists j :: IsLastWithKey(ps, j, k) && ps[j].1 == ToMap(ps)[k]
  {
    if ps != [] {
      var init := ps[..|ps| - 1];
      ToMapLastWins(init, k);
      if ps[|ps| - 1].0 == k {
        assert IsLastWithKey(ps, |ps| - 1, k);
      } else if k in ToMap(ps) {
        var j :| IsLastWithKey(init, j, k) && init[j].1 == ToMap(init)[k];
        assert ps[j] == init[j];
        assert IsLastWithKey(ps, j, k);
      } else {
        forall j | 0 <= j < |ps| ensures ps[j].0 != k {
          if j < |init| { assert ps[j] == init[j]; }
        }
      }
    }
  }

  /** The keys of `dict(ps)` are exactly the keys of the pairs. */
  lemma ToMapKeys(ps: seq<Pair>)
    ensures ToMap(ps).Keys == set i | 0 <= i < |ps| :: ps[i].0
  {
    forall k ensures k in ToMap(ps) <==> k in (set i | 0 <= i < |ps| :: ps[i].0) {
      ToMapLastWins(ps, k);
    }
  }

  /** Conversion is all-or-nothing and keeps the keys: every value is the `int()` of its token. */
  lemma ConvertAllMeaning(info: map<string, string>)
    ensures ConvertAll(info).Some? <==> forall k :: k in info ==> IsDecimalLiteral(info[k])
    ensures ConvertAll(info).Some? ==>
      ConvertAll(info).value.Keys == info.Keys &&
      forall k :: k in info ==> ParseNat(info[k]) == Some(ConvertAll(info).value[k])
  {
  }

  // ---------------------------------------------------------------------------
  // The job-info string that `validate_jobinfo` documents, and the round trip
  // ---------------------------------------------------------------------------

  /** `"k1=v1,k2=v2,..."`, the job-info format the command line expects. */
  function Render(ps: seq<Pair>): string {
    if ps == [] then ""
    else if |ps| == 1 then ps[0].0 + "=" + ps[0].1
    else ps[0].0 + "=" + ps[0].1 + "," + Render(ps[1..])
  }

  /** Putting a prefix in front of the string does not change the runs after it. */
  lemma {:induction false} RunLengthShift(p: string, r: string, j: nat)
    requires j <= |r|
    ensures RunLength(p + r, |p| + j) == RunLength(r, j)
    decreases |r| - j
  {
    if j < |r| {
      assert (p + r)[|p| + j] == r[j];
      RunLengthShift(p, r, j + 1);
    }
  }

  lemma SliceOfAppend(p: string, r: string, a: nat, b: nat)
    requires a <= b <= |r|
    ensures (p + r)[|p| + a..|p| + b] == r[a..b]
  {
    assert forall i :: 0 <= i < b - a ==> (p + r)[|p| + a..|p| + b][i] == r[a..b][i];
  }

  /** Putting a prefix in front of the string does not change the match at a later index. */
  lemma MatchAtShift(p: string, r: string, j: nat)
    requires j <= |r|
    ensures MatchAt(p + r, |p| + j) == MatchAt(r, j)
  {
    var k := j + RunLength(r, j);
    RunLengthShift(p, r, j);
    if j < k < |r| && r[k] == '=' {
      assert (p + r)[|p| + k] == r[k];
      RunLengthShift(p, r, k + 1);
      var v := k + 1 + RunLength(r, k + 1);
      SliceOfAppend(p, r, j, k);
      SliceOfAppend(p, r, k + 1, v);
    }
  }

  /** A match at index `j` of `r` is also one at the same place after a prefix. */
  lemma ShiftStepMatch(p: string, r: string, j: nat, m: Match)
    requires j <= |r| && MatchAt(r, j) == Some(m)
    requires j + m.len <= |r| && PairsFrom(p + r, |p| + j + m.len) == PairsFrom(r, j + m.len)
    ensures PairsFrom(p + r, |p| + j) == PairsFrom(r, j)
  {
    MatchAtShift(p, r, j);
    PairsOfMatch(r, j, m);
    PairsOfMatch(p + r, |p| + j, m);
  }

  /** No match at index `j` of `r` is no match at the same place after a prefix either. */
  lemma ShiftStepNoMatch(p: string, r: string, j: nat)
    requires j < |r| && MatchAt(r, j).None?
    requires PairsFrom(p + r, |p| + j + 1) == PairsFrom(r, j + 1)
    ensures PairsFrom(p + r, |p| + j) == PairsFrom(r, j)
  {
    MatchAtShift(p, r, j);
    PairsOfNoMatch(r, j);
    PairsOfNoMatch(p + r, |p| + j);
  }

  /** Where the scan goes on after index `i`: past the match, or to the next character. */
  function NextScan(s: string, i: nat): (n: nat)
    requires i < |s|
    ensures i < n <= |s|
  {
    match MatchAt(s, i)
    case Some(m) => i + m.len
    case None => i + 1
  }

  /** One scan step is the same with or without a prefix. */
  lemma ShiftStep(p: string, r: string, j: nat)
    requires j < |r|
    requires PairsFrom(p + r, |p| + NextScan(r, j)) == PairsFrom(r, NextScan(r, j))
    ensures PairsFrom(p + r, |p| + j) == PairsFrom(r, j)
  {
    match MatchAt(r, j)
    case Some(m) => ShiftStepMatch(p, r, j, m);
    case None => ShiftStepNoMatch(p, r, j);
  }

  /** Putting a prefix in front of the string does not change the matches found after it. */
  lemma {:induction false} PairsFromShift(p: string, r: string, j: nat)
    requires j <= |r|
    ensures PairsFrom(p + r, |p| + j) == PairsFrom(r, j)
    decreases |r| - j
  {
    if j < |r| {
      PairsFromShift(p, r, NextScan(r, j));
      ShiftStep(p, r, j);
    }
  }

  lemma {:induction false} RunLengthOfWord(w: string, rest: string, j: nat)
    requires j <= |w|
    requires forall i :: 0 <= i < |w| ==> IsWordChar(w[i])
    requires rest == [] || !IsWordChar(rest[0])
    ensures RunLength(w + rest, j) == |w| - j
    decreases |w| - j
  {
    if j < |w| {
      assert (w + rest)[j] == w[j];
      RunLengthOfWord(w, rest, j + 1);
    } else if rest != [] {
      assert (w + rest)[j] == rest[0];
    }
  }

  /** The runs and slices of `k=v` followed by a non-word character (or nothing). */
  lemma PrefixLayout(k: string, v: string, rest: string)
    requires IsWord(k) && IsWord(v)
    requires rest == [] || !IsWordChar(rest[0])
    ensures var s := k + "=" + v + rest;
      |k| + 1 + |v| <= |s| && s[|k|] == '=' && s[0..|k|] == k && s[|k| + 1..|k| + 1 + |v|] == v
  {
    var s := k + "=" + v + rest;
    assert s[|k|] == '=';
    assert s[0..|k|] == k;
    assert s == (k + "=") + (v + rest);
    SliceOfAppend(k + "=", v + rest, 0, |v|);
    assert (v + rest)[0..|v|] == v;
  }

  lemma PrefixRuns(k: string, v: string, rest: string)
    requires IsWord(k) && IsWord(v)
    requires rest == [] || !IsWordChar(rest[0])
    ensures var s := k + "=" + v + rest;
      RunLength(s, 0) == |k| && |k| + 1 <= |s| && RunLength(s, |k| + 1) == |v|
  {
    var s := k + "=" + v + rest;
    assert RunLength(s, 0) == |k| by {
      assert s == k + ("=" + v + rest);
      RunLengthOfWord(k, "=" + v + rest, 0);
    }
    assert RunLength(s, |k| + 1) == |v| by {
      assert s == (k + "=") + (v + rest);
      RunLengthShift(k + "=", v + rest, 0);
      RunLengthOfWord(v, rest, 0);
    }
  }

  lemma MatchAtPrefix(k: string, v: string, rest: string)
    requires IsWord(k) && IsWord(v)
    requires rest == [] || !IsWordChar(rest[0])
    ensures MatchAt(k + "=" + v + rest, 0) == Some(Match(k, v, |k| + 1 + |v|))
  {
    PrefixLayout(k, v, rest);
    PrefixRuns(k, v, rest);
  }

  /** One `key=value` followed by a non-word character (or nothing) is one match, and scanning resumes after it. */
  lemma PairsOfPrefix(k: string, v: string, rest: string)
    requires IsWord(k) && IsWord(v)
    requires rest == [] || !IsWordChar(rest[0])
    ensures Pairs(k + "=" + v + rest) == [(k, v)] + Pairs(rest)
  {
    var p := k + "=" + v;
    assert |p| == |k| + 1 + |v|;
    MatchAtPrefix(k, v, rest);
    PairsOfMatch(p + rest, 0, Match(k, v, |p|));
    PairsFromShift(p, rest, 0);
  }

  /** A non-word character that starts no match is skipped. */
  lemma PairsSkipSeparator(c: char, rest: string)
    requires !IsWordChar(c)
    ensures Pairs([c] + rest) == Pairs(rest)
  {
    assert ([c] + rest)[0] == c;
    PairsFromShift([c], rest, 0);
  }

  /** Parsing a rendered list of word pairs gives the list back: `finditer` recovers what was written. */
  lemma {:induction false} PairsOfRender(ps: seq<Pair>)
    requires forall i :: 0 <= i < |ps| ==> IsWord(ps[i].0) && IsWord(ps[i].1)
    ensures Pairs(Render(ps)) == ps
    decreases |ps|
  {
    if |ps| == 1 {
      PairsOfPrefix(ps[0].0, ps[0].1, "");
      assert ps[0].0 + "=" + ps[0].1 + "" == Render(ps);
    } else if |ps| > 1 {
      var tail := Render(ps[1..]);
      PairsOfRender(ps[1..]);
      PairsOfPrefix(ps[0].0, ps[0].1, "," + tail);
      PairsSkipSeparator(',', tail);
      assert ps[0].0 + "=" + ps[0].1 + ("," + tail) == Render(ps);
      assert [ps[0]] + ps[1..] == ps;
    }
  }

  // ---------------------------------------------------------------------------
  // The job info `cpus=2,gpus=0,memory=8`: the first three pairs of the command-line help's example
  // ---------------------------------------------------------------------------

  /** The job info `cpus=2,gpus=0,memory=8`, as the list of pairs it is written from. */
  function HelpPrefixPairs(): seq<Pair> {
    [("cpus", "2"), ("gpus", "0"), ("memory", "8")]
  }

  lemma HelpPrefixRendering()
    ensures Render(HelpPrefixPairs()) == "cpus=2,gpus=0,memory=8"
    ensures ToMap(HelpPrefixPairs()) == map["cpus" := "2", "gpus" := "0", "memory" := "8"]
  {
    var p1: seq<Pair> := [("cpus", "2")];
    var p2 := p1 + [("gpus", "0")];
    var p3 := p2 + [("memory", "8")];
    assert p3 == HelpPrefixPairs();
    assert p1[..0] == [] && p2[..1] == p1 && p3[..2] == p2;
    assert ToMap(p1) == map[]["cpus" := "2"];
    assert ToMap(p2) == ToMap(p1)["gpus" := "0"];
    assert ToMap(p3) == ToMap(p2)["memory" := "8"];
  }

  lemma HelpPrefixInfo()
    ensures ParseInfo("cpus=2,gpus=0,memory=8") == map["cpus" := "2", "gpus" := "0", "memory" := "8"]
  {
    var ps := HelpPrefixPairs();
    assert IsWord("cpus") && IsWord("gpus") && IsWord("memory");
    assert IsWord("2") && IsWord("0") && IsWord("8");
    PairsOfRender(ps);
    HelpPrefixRendering();
  }

  /** The counts of `cpus=2,gpus=0,memory=8` are all numbers. */
  lemma HelpPrefixCounts()
    ensures var info := map["cpus" := "2", "gpus" := "0", "memory" := "8"];
      && info.Keys == {"cpus", "gpus", "memory"}
      && "profile" !in info && "ncpus" !in info
      && info - {"profile"} == info
      && ConvertAll(info) == Some(map["cpus" := 2, "gpus" := 0, "memory" := 8])
  {
    var info := map["cpus" := "2", "gpus" := "0", "memory" := "8"];
    DigitsOfLiterals();
    assert info.Keys == {"cpus", "gpus", "memory"};
    assert forall k :: k in info ==> ParseNat(info[k]).Some?;
    assert (map k | k in info :: ParseNat(info[k]).value) == map["cpus" := 2, "gpus" := 0, "memory" := 8];
  }

  lemma DigitsOfLiterals()
    ensures ParseNat("2") == Some(2) && ParseNat("0") == Some(0) && ParseNat("8") == Some(8)
  {
    assert "2"[..0] == [] && "0"[..0] == [] && "8"[..0] == [];
    assert IsDecimalLiteral("2") && IsDecimalLiteral("0") && IsDecimalLiteral("8");
  }

  // ---------------------------------------------------------------------------
  // The imperative parser: a scanner loop over the string and the dict loop
  // ---------------------------------------------------------------------------

  /** End of the maximal word run starting at `i`. */
  method ScanWord(s: string, i: nat) returns (j: nat)
    requires i <= |s|
    ensures j == i + RunLength(s, i)
  {
    j := i;
    while j < |s| && IsWordChar(s[j])
      invariant i <= j <= |s|
      invariant RunLength(s, i) == (j - i) + RunLength(s, j)
    {
      j := j + 1;
    }
  }

  /** A key run ending at an `=`, and a non-empty value run after it, are the match at `i`. */
  lemma MatchOfRuns(s: string, i: nat, k: nat, v: nat)
    requires i < k < |s| && s[k] == '='
    requires k == i + RunLength(s, i)
    requires v == k + 1 + RunLength(s, k + 1) && v > k + 1
    ensures MatchAt(s, i) == Some(Match(s[i..k], s[k + 1..v], v - i))
  {
  }

  /** A scan step at index `i` that finds `key=value` ending at `v`. */
  lemma StepMatch(s: string, i: nat, k: nat, v: nat)
    requires i < k < |s| && s[k] == '='
    requires k == i + RunLength(s, i)
    requires v == k + 1 + RunLength(s, k + 1) && v > k + 1
    ensures PairsFrom(s, i) == [(s[i..k], s[k + 1..v])] + PairsFrom(s, v)
  {
    MatchOfRuns(s, i, k, v);
    PairsOfMatch(s, i, Match(s[i..k], s[k + 1..v], v - i));
  }

  /** A scan step at index `i` that finds no match, and so moves on by one character. */
  lemma StepNoMatch(s: string, i: nat, k: nat, v: nat)
    requires i < |s| && k == i + RunLength(s, i)
    requires i < k < |s| && s[k] == '=' ==> v == k + 1 + RunLength(s, k + 1)
    requires !(i < k < |s| && s[k] == '=' && v > k + 1)
    ensures PairsFrom(s, i) == PairsFrom(s, i + 1)
  {
    assert MatchAt(s, i).None?;
  }

  /** `re.finditer(r"(\w+)=(\w+)", s)`: the groups of every match, left to right. */
  method FindPairs(s: string) returns (ps: seq<Pair>)
    ensures ps == Pairs(s)
  {
    ps := [];
    var i := 0;
    while i < |s|
      invariant 0 <= i <= |s|
      invariant ps + PairsFrom(s, i) == Pairs(s)
    {
      var k := ScanWord(s, i);
      var v := k + 1;
      if i < k < |s| && s[k] == '=' {
        v := ScanWord(s, k + 1);
      }
      if i < k < |s| && s[k] == '=' && v > k + 1 {
        StepMatch(s, i, k, v);
        ps := ps + [(s[i..k], s[k + 1..v])];
        i := v;
      } else {
        StepNoMatch(s, i, k, v);
        i := i + 1;
      }
    }
  }

  /** `dict(pairs)`: insert every pair in order into an initially empty dict. */
  method BuildDict(ps: seq<Pair>) returns (info: map<string, string>)
    ensures info == ToMap(ps)
  {
    info := map[];
    for i := 0 to |ps|
      invariant info == ToMap(ps[..i])
    {
      assert ps[..i + 1][..i] == ps[..i];
      info := info[ps[i].0 := ps[i].1];
    }
    assert ps[..|ps|] == ps;
  }

  /** The `info` dict of a job-info string. */
  method ParseJobInfo(s: string) returns (info: map<string, string>)
    ensures info == ParseInfo(s)
  {
    var ps := FindPairs(s);
    info := BuildDict(ps);
  }

  /**
   * `for key in [k for k in info]: info[key] = int(info[key])`, stopping at
   * the first value that raises. The keys are visited in an arbitrary order;
   * the outcome does not depend on it.
   */
  method ConvertValues(info: map<string, string>) returns (r: Option<map<string, nat>>)
    ensures r == ConvertAll(info)
  {
    var pending := info.Keys;
    var converted: map<string, nat> := map[];
    while pending != {}
      invariant pending <= info.Keys
      invariant converted.Keys == info.Keys - pending
      invariant forall k :: k in converted ==> ParseNat(info[k]) == Some(converted[k])
      decreases pending
    {
      var key :| key in pending;
      var n := ParseNat(info[key]);
      if n.None? {
        return None;
      }
      converted := converted[key := n.value];
      pending := pending - {key};
    }
    r := Some(converted);
    assert converted == map k | k in info :: ParseNat(info[k]).value;
  }
}
