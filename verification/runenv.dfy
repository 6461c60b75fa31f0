/**
 * The runtime environment of a test instance (sdk/runtime/runenv.go): the
 * RunEnv record, its rendering as environment variables, the `|`-separated
 * `k=v` codec for instance parameters, the KEY=VALUE list parser, the lenient
 * int/bool converters and the typed parameter accessors.
 */
module RunEnvironment {
  import opened Wrappers
  import opened GoStrings
  import opened StrConv

  // The environment variable names.
  const EnvTestPlan := "TEST_PLAN"
  const EnvTestBranch := "TEST_BRANCH"
  const EnvTestCase := "TEST_CASE"
  const EnvTestTag := "TEST_TAG"
  const EnvTestRun := "TEST_RUN"
  const EnvTestRepo := "TEST_REPO"
  const EnvTestSubnet := "TEST_SUBNET"
  const EnvTestCaseSeq := "TEST_CASE_SEQ"
  const EnvTestSidecar := "TEST_SIDECAR"
  const EnvTestInstanceCount := "TEST_INSTANCE_COUNT"
  const EnvTestInstanceRole := "TEST_INSTANCE_ROLE"
  const EnvTestInstanceParams := "TEST_INSTANCE_PARAMS"
  const EnvTestGroupID := "TEST_GROUP_ID"
  const EnvTestGroupInstanceCount := "TEST_GROUP_INSTANCE_COUNT"

  /** The fourteen names declared for the environment, in declaration order. */
  const EnvNames: seq<string> := [
    EnvTestPlan, EnvTestBranch, EnvTestCase, EnvTestTag, EnvTestRun, EnvTestRepo,
    EnvTestSubnet, EnvTestCaseSeq, EnvTestSidecar, EnvTestInstanceCount,
    EnvTestInstanceRole, EnvTestInstanceParams, EnvTestGroupID, EnvTestGroupInstanceCount
  ]

  /** The same names as a set. */
  const EnvKeys: set<string> := {
    EnvTestPlan, EnvTestBranch, EnvTestCase, EnvTestTag, EnvTestRun, EnvTestRepo,
    EnvTestSubnet, EnvTestCaseSeq, EnvTestSidecar, EnvTestInstanceCount,
    EnvTestInstanceRole, EnvTestInstanceParams, EnvTestGroupID, EnvTestGroupInstanceCount
  }

  /**
   * A parsed subnet, kept opaque: only its printed CIDR form matters here.
   * Parsing one (net.ParseCIDR) is a parameter of the operations that need it.
   */
  datatype Subnet = Subnet(cidr: string)

  /** `(*net.IPNet).String()`, which prints a nil subnet as "<nil>". */
  function SubnetString(n: Option<Subnet>): string
  {
    match n
    case None => "<nil>"
    case Some(sn) => sn.cidr
  }

  /** The context of one test run; the loggers are not part of this model. */
  datatype RunEnv = RunEnv(
    testPlan: string,
    testCase: string,
    testRun: string,
    testCaseSeq: Int,
    testRepo: string,
    testCommit: string,
    testBranch: string,
    testTag: string,
    testArtifacts: string,
    testInstanceCount: Int,
    testInstanceRole: string,
    testInstanceParams: map<string, string>,
    testGroupID: string,
    testGroupInstanceCount: Int,
    testSidecar: bool,
    testSubnet: Option<Subnet>)
  {
    /** Whether the instance parameter `name` is present. */
    function IsParamSet(name: string): (r: bool)
      ensures r <==> name in testInstanceParams
    {
      name in testInstanceParams
    }

    /** The string parameter `name`; the code panics when it is absent. */
    function StringParam(name: string): (r: string)
      requires IsParamSet(name)
      ensures name in testInstanceParams && r == testInstanceParams[name]
    {
      testInstanceParams[name]
    }

    /**
     * The int parameter `name`; the code panics when it is absent or when
     * strconv.Atoi rejects its value.
     */
    function IntParam(name: string): (r: Int)
      requires IsParamSet(name) && Atoi(StringParam(name)).Some?
      ensures Atoi(StringParam(name)) == Some(r)
    {
      Atoi(testInstanceParams[name]).value
    }

    /** True exactly when the parameter is present and spelled "true". */
    function BooleanParam(name: string): (r: bool)
      ensures r <==> IsParamSet(name) && StringParam(name) == "true"
    {
      Lookup(testInstanceParams, name) == "true"
    }
  }

  /** A Go map read: the zero value "" for an absent key. */
  function Lookup(m: map<string, string>, k: string): string
  {
    if k in m then m[k] else ""
  }

  /** toInt: the value strconv.Atoi reads, or -1 when it fails. */
  function ToInt(s: string): (r: Int)
    ensures Atoi(s).Some? ==> r == Atoi(s).value
    ensures Atoi(s).None? ==> r == -1
  {
    match Atoi(s)
    case Some(v) => v
    case None => -1
  }

  /** toBool: strconv.ParseBool's value, false for every spelling it rejects. */
  function ToBool(s: string): (r: bool)
    ensures r <==> s in {"1", "t", "T", "TRUE", "true", "True"}
  {
    match ParseBool(s)
    case Some(b) => b
    case None => false
  }

  // ---------------------------------------------------------------------
  // The `k=v|k=v` codec for instance parameters

  /** The `k=v` text of one parameter, and of one environment entry. */
  function Entry(k: string, v: string): string
  {
    k + "=" + v
  }

  predicate Distinct(s: seq<string>)
  {
    forall i, j :: 0 <= i < j < |s| ==> s[i] != s[j]
  }

  /** `order` lists the keys of `m`, each once: one possible iteration order of a Go map. */
  predicate IsKeyOrder(order: seq<string>, m: map<string, string>)
  {
    && Distinct(order)
    && (forall k :: k in order ==> k in m)
    && (forall k :: k in m ==> k in order)
  }

  /** The entries of `m` in the order `order`. */
  function Entries(order: seq<string>, m: map<string, string>): (es: seq<string>)
    requires forall k :: k in order ==> k in m
    ensures |es| == |order|
  {
    seq(|order|, i requires 0 <= i < |order| => Entry(order[i], m[order[i]]))
  }

  /** What packParams produces when the map is iterated in the order `order`. */
  function PackedWith(order: seq<string>, m: map<string, string>): string
    requires forall k :: k in order ==> k in m
  {
    Join(Entries(order, m), '|')
  }

  /** No key or value holds one of the two separators of the packed form. */
  predicate CleanParams(m: map<string, string>)
  {
    forall k :: k in m ==> '|' !in k && '=' !in k && '|' !in m[k] && '=' !in m[k]
  }

  /**
   * packParams: one `k=v` string per parameter, in the map's iteration order
   * (which Go leaves unspecified, so it is chosen here and returned as
   * `order`), joined with "|".
   */
  method PackParams(params: map<string, string>) returns (packed: string, ghost order: seq<string>)
    ensures IsKeyOrder(order, params)
    ensures packed == PackedWith(order, params)
    ensures params == map[] ==> packed == ""
  {
    var arr: seq<string> := [];
    var rest := params.Keys;
    order := [];
    while rest != {}
      invariant rest <= params.Keys
      invariant forall k :: k in order ==> k in params && k !in rest
      invariant forall k :: k in params ==> k in order || k in rest
      invariant |order| + |rest| == |params|
      invariant Distinct(order)
      invariant arr == Entries(order, params)
      decreases rest
    {
      var k :| k in rest;
      arr := arr + [Entry(k, params[k])];
      order := order + [k];
      rest := rest - {k};
    }
    packed := Join(arr, '|');
  }

  /** A splitter reads one `k=v` piece as a key and a value, or rejects it. */
  type Splitter = string -> Option<(string, string)>

  /**
   * strings.Split(s, "=") accepted only when it yields exactly two pieces,
   * as unpackParams and ParseKeyValues do.
   */
  function SplitPair(s: string): (r: Option<(string, string)>)
    ensures r.Some? <==> Count(s, '=') == 1
    ensures r.Some? ==> s == Entry(r.value.0, r.value.1) && '=' !in r.value.0 && '=' !in r.value.1
  {
    var parts := Split(s, '=');
    if |parts| == 2 then
      JoinSplit(s, '=');
      assert parts[1..] == [parts[1]];
      Some((parts[0], parts[1]))
    else None
  }

  /** strings.SplitN(s, "=", 2): the key is everything before the first "=". */
  function CutPair(s: string): (r: Option<(string, string)>)
    ensures r.None? <==> '=' !in s
    ensures r.Some? ==> s == Entry(r.value.0, r.value.1) && '=' !in r.value.0
  {
    Cut(s, '=')
  }

  /**
   * The map that the loops of unpackParams and ParseKeyValues fill from
   * their pieces: a piece `split` rejects adds nothing, and a later piece
   * overwrites an earlier one with the same key.
   */
  function Collect(pieces: seq<string>, split: Splitter): map<string, string>
  {
    if pieces == [] then map[]
    else
      var m := Collect(pieces[..|pieces| - 1], split);
      match split(pieces[|pieces| - 1])
      case None => m
      case Some(kv) => m[kv.0 := kv.1]
  }

  /** Piece `i` is accepted by `split` and has key `k`. */
  predicate Defines(pieces: seq<string>, split: Splitter, i: int, k: string)
    requires 0 <= i < |pieces|
  {
    split(pieces[i]).Some? && split(pieces[i]).value.0 == k
  }

  /**
   * A key is in the collected map iff some accepted piece has it, and its
   * value is that of the LAST accepted piece with that key.
   */
  lemma {:induction false} CollectLastWins(pieces: seq<string>, split: Splitter, k: string)
    ensures k in Collect(pieces, split) <==> exists i :: 0 <= i < |pieces| && Defines(pieces, split, i, k)
    ensures k in Collect(pieces, split) ==>
      exists i :: 0 <= i < |pieces| && split(pieces[i]) == Some((k, Collect(pieces, split)[k]))
        && forall j :: i < j < |pieces| ==> !Defines(pieces, split, j, k)
  {
    if pieces != [] {
      var n := |pieces| - 1;
      var prefix := pieces[..n];
      var m := Collect(prefix, split);
      var c := Collect(pieces, split);
      CollectLastWins(prefix, split, k);
      assert forall i :: 0 <= i < n ==> prefix[i] == pieces[i];
      if Defines(pieces, split, n, k) {
        assert split(pieces[n]) == Some((k, c[k]));
      } else {
        assert (k in c <==> k in m) && (k in m ==> c[k] == m[k]);
        if k in c {
          var i :| 0 <= i < n && split(prefix[i]) == Some((k, m[k]))
            && forall j :: i < j < n ==> !Defines(prefix, split, j, k);
          assert split(pieces[i]) == Some((k, c[k])) && Defines(pieces, split, i, k);
          forall j | i < j < |pieces| ensures !Defines(pieces, split, j, k) {
            if j < n {
              assert !Defines(prefix, split, j, k);
            }
          }
        } else {
          forall i | 0 <= i < |pieces| ensures !Defines(pieces, split, i, k) {
            if i < n {
              assert !Defines(prefix, split, i, k);
            }
          }
        }
      }
    }
  }

  /** Collecting the entries of `m` (in any order, repeats allowed) rebuilds `m` on those keys. */
  lemma {:induction false} CollectEntries(order: seq<string>, m: map<string, string>, split: Splitter)
    requires forall k :: k in order ==> k in m && split(Entry(k, m[k])) == Some((k, m[k]))
    ensures Collect(Entries(order, m), split) == map k | k in order :: m[k]
  {
    if order != [] {
      var n := |order| - 1;
      CollectEntries(order[..n], m, split);
      assert Entries(order, m)[..n] == Entries(order[..n], m);
      assert forall k :: k in order <==> k in order[..n] || k == order[n];
    }
  }

  /** The parameter map unpackParams builds from its packed form. */
  function Unpacked(packed: string): (params: map<string, string>)
    ensures packed == "" ==> params == map[]
  {
    Collect(Split(packed, '|'), SplitPair)
  }

  /** unpackParams: split on "|", keep each piece that splits into exactly two on "=". */
  method UnpackParams(packed: string) returns (params: map<string, string>)
    ensures params == Unpacked(packed)
  {
    var spltparams := Split(packed, '|');
    params := map[];
    for i := 0 to |spltparams|
      invariant params == Collect(spltparams[..i], SplitPair)
    {
      var v := Split(spltparams[i], '=');
      assert spltparams[..i + 1][..i] == spltparams[..i];
      if |v| != 2 {
        continue;
      }
      params := params[v[0] := v[1]];
    }
    assert spltparams[..|spltparams|] == spltparams;
  }

  /** An entry whose key and value hold no "=" splits back into that key and value. */
  lemma SplitPairEntry(k: string, v: string)
    requires '=' !in k && '=' !in v
    ensures SplitPair(Entry(k, v)) == Some((k, v))
  {
    SplitAfterPrefix(k, v, '=');
    SplitWithoutSeparator(v, '=');
  }

  /**
   * Packing then unpacking recovers the parameter map, whatever the iteration
   * order, when no key or value holds "|" or "=".
   */
  lemma {:induction false} PackUnpackRoundTrip(order: seq<string>, m: map<string, string>)
    requires IsKeyOrder(order, m) && CleanParams(m)
    ensures Unpacked(PackedWith(order, m)) == m
  {
    if order == [] {
      assert m == map[];
    } else {
      var es := Entries(order, m);
      EntriesWithoutBar(order, m);
      SplitJoin(es, '|');
      CollectCleanEntries(order, m);
    }
  }

  /** No packed entry of a clean map holds "|". */
  lemma EntriesWithoutBar(order: seq<string>, m: map<string, string>)
    requires IsKeyOrder(order, m) && CleanParams(m)
    ensures forall i :: 0 <= i < |order| ==> '|' !in Entries(order, m)[i]
  {
    forall i | 0 <= i < |order| ensures '|' !in Entries(order, m)[i] {
      assert Entries(order, m)[i] == order[i] + "=" + m[order[i]];
    }
  }

  /** The entries of a clean map, split on "=" and collected, rebuild the map. */
  lemma CollectCleanEntries(order: seq<string>, m: map<string, string>)
    requires IsKeyOrder(order, m) && CleanParams(m)
    ensures Collect(Entries(order, m), SplitPair) == m
  {
    forall k | k in order ensures SplitPair(Entry(k, m[k])) == Some((k, m[k])) {
      SplitPairEntry(k, m[k]);
    }
    CollectEntries(order, m, SplitPair);
  }

  // ---------------------------------------------------------------------
  // ParseKeyValues

  /** The index of the first piece `split` rejects, or |entries| when it accepts them all. */
  function FirstRejected(entries: seq<string>, split: Splitter): (n: nat)
    ensures n <= |entries|
    ensures forall i :: 0 <= i < n ==> split(entries[i]).Some?
    ensures n < |entries| ==> split(entries[n]).None?
  {
    if entries == [] || split(entries[0]).None? then 0 else 1 + FirstRejected(entries[1..], split)
  }

  function InvalidKeyValue(d: string): string
  {
    "invalid key-value: " + d
  }

  /**
   * The outcome of ParseKeyValues for a given splitter: an error naming the
   * first entry that does not split, or the collected map.
   */
  function KeyValues(entries: seq<string>, split: Splitter): (r: Result<map<string, string>, string>)
    ensures r.Failure? <==> exists i :: 0 <= i < |entries| && split(entries[i]).None?
    ensures r.Failure? ==>
      exists i :: 0 <= i < |entries| && split(entries[i]).None? && r.error == InvalidKeyValue(entries[i])
        && forall j :: 0 <= j < i ==> split(entries[j]).Some?
    ensures r.Success? ==> r.value == Collect(entries, split)
  {
    var n := FirstRejected(entries, split);
    if n == |entries| then Success(Collect(entries, split)) else Failure(InvalidKeyValue(entries[n]))
  }

  /**
   * ParseKeyValues: every entry must split on "=" into exactly two pieces;
   * the first one that does not aborts the parse.
   */
  method ParseKeyValues(entries: seq<string>) returns (r: Result<map<string, string>, string>)
    ensures r == KeyValues(entries, SplitPair)
  {
    var res := map[];
    for i := 0 to |entries|
      invariant i <= FirstRejected(entries, SplitPair)
      invariant res == Collect(entries[..i], SplitPair)
    {
      var splt := Split(entries[i], '=');
      if |splt| != 2 {
        assert SplitPair(entries[i]).None?;
        assert FirstRejected(entries, SplitPair) == i;
        return Failure(InvalidKeyValue(entries[i]));
      }
      assert SplitPair(entries[i]) == Some((splt[0], splt[1]));
      assert entries[..i + 1][..i] == entries[..i];
      res := res[splt[0] := splt[1]];
    }
    assert entries[..|entries|] == entries;
    return Success(res);
  }

  // ---------------------------------------------------------------------
  // ToEnvVars and ParseRunEnv

  /** The value ToEnvVars gives the variable `name`, given the packed parameters. */
  function EnvValue(re: RunEnv, packed: string, name: string): string
  {
    if name == EnvTestSidecar then FormatBool(re.testSidecar)
    else if name == EnvTestPlan then re.testPlan
    else if name == EnvTestBranch then re.testBranch
    else if name == EnvTestCase then re.testCase
    else if name == EnvTestTag then re.testTag
    else if name == EnvTestRun then re.testRun
    else if name == EnvTestRepo then re.testRepo
    else if name == EnvTestSubnet then SubnetString(re.testSubnet)
    else if name == EnvTestCaseSeq then Itoa(re.testCaseSeq)
    else if name == EnvTestInstanceCount then Itoa(re.testInstanceCount)
    else if name == EnvTestInstanceRole then re.testInstanceRole
    else if name == EnvTestInstanceParams then packed
    else if name == EnvTestGroupID then re.testGroupID
    else Itoa(re.testGroupInstanceCount)
  }

  /** The map ToEnvVars builds: one entry per declared name. */
  function EnvVars(re: RunEnv, packed: string): map<string, string>
  {
    map name | name in EnvKeys :: EnvValue(re, packed, name)
  }

  /** The fourteen names are pairwise different. */
  lemma EnvNamesDistinct()
    ensures Distinct(EnvNames)
  {
  }

  /** None of the fourteen names holds "=". */
  lemma EnvNamesWithoutEquals()
    ensures forall k :: k in EnvKeys ==> '=' !in k
  {
  }

  /** A list of pairwise different names has as many names as its set. */
  lemma {:induction false} DistinctCardinality(s: seq<string>)
    requires Distinct(s)
    ensures |set n | n in s| == |s|
  {
    if s != [] {
      var last := |s| - 1;
      DistinctCardinality(s[..last]);
      assert (set n | n in s) == (set n | n in s[..last]) + {s[last]};
      assert s[last] !in (set n | n in s[..last]);
    }
  }

  /** The names ToEnvVars defines are the fourteen declared ones, each once. */
  lemma EnvKeysCount()
    ensures EnvKeys == set n | n in EnvNames
    ensures |EnvKeys| == |EnvNames| == 14
  {
    EnvNamesDistinct();
    DistinctCardinality(EnvNames);
  }

  /** What each variable of EnvVars holds. */
  lemma EnvVarsFields(re: RunEnv, packed: string)
    ensures EnvVars(re, packed).Keys == EnvKeys
    ensures var env := EnvVars(re, packed);
      && env[EnvTestPlan] == re.testPlan && env[EnvTestBranch] == re.testBranch
      && env[EnvTestCase] == re.testCase && env[EnvTestTag] == re.testTag
      && env[EnvTestRun] == re.testRun && env[EnvTestRepo] == re.testRepo
      && env[EnvTestInstanceRole] == re.testInstanceRole && env[EnvTestGroupID] == re.testGroupID
      && env[EnvTestSubnet] == SubnetString(re.testSubnet)
      && env[EnvTestSidecar] == FormatBool(re.testSidecar)
      && env[EnvTestCaseSeq] == Itoa(re.testCaseSeq)
      && env[EnvTestInstanceCount] == Itoa(re.testInstanceCount)
      && env[EnvTestGroupInstanceCount] == Itoa(re.testGroupInstanceCount)
      && env[EnvTestInstanceParams] == packed
  {
  }

  /**
   * ToEnvVars: exactly the fourteen declared names; the ints in decimal, the
   * sidecar flag as "true"/"false", the parameters packed. The commit and the
   * artifacts are not exported.
   */
  method ToEnvVars(re: RunEnv) returns (env: map<string, string>, ghost order: seq<string>)
    ensures IsKeyOrder(order, re.testInstanceParams)
    ensures env == EnvVars(re, PackedWith(order, re.testInstanceParams))
    ensures env.Keys == EnvKeys && |env| == 14
    ensures env[EnvTestPlan] == re.testPlan && env[EnvTestBranch] == re.testBranch
    ensures env[EnvTestCase] == re.testCase && env[EnvTestTag] == re.testTag
    ensures env[EnvTestRun] == re.testRun && env[EnvTestRepo] == re.testRepo
    ensures env[EnvTestInstanceRole] == re.testInstanceRole && env[EnvTestGroupID] == re.testGroupID
    ensures env[EnvTestSubnet] == SubnetString(re.testSubnet)
    ensures env[EnvTestSidecar] == (if re.testSidecar then "true" else "false")
    ensures Atoi(env[EnvTestCaseSeq]) == Some(re.testCaseSeq)
    ensures Atoi(env[EnvTestInstanceCount]) == Some(re.testInstanceCount)
    ensures Atoi(env[EnvTestGroupInstanceCount]) == Some(re.testGroupInstanceCount)
    ensures CleanParams(re.testInstanceParams) ==> Unpacked(env[EnvTestInstanceParams]) == re.testInstanceParams
  {
    var packed;
    packed, order := PackParams(re.testInstanceParams);
    env := EnvVars(re, packed);
    EnvVarsFields(re, packed);
    EnvKeysCount();
    if CleanParams(re.testInstanceParams) {
      PackUnpackRoundTrip(order, re.testInstanceParams);
    }
  }

  /** The struct ParseRunEnv assembles from the parsed map and the unpacked parameters. */
  function Assemble(m: map<string, string>, params: map<string, string>, toNet: string -> Option<Subnet>): RunEnv
  {
    RunEnv(
      testPlan := Lookup(m, EnvTestPlan),
      testCase := Lookup(m, EnvTestCase),
      testRun := Lookup(m, EnvTestRun),
      testCaseSeq := ToInt(Lookup(m, EnvTestCaseSeq)),
      testRepo := Lookup(m, EnvTestRepo),
      testCommit := "",
      testBranch := Lookup(m, EnvTestBranch),
      testTag := Lookup(m, EnvTestTag),
      testArtifacts := "",
      testInstanceCount := ToInt(Lookup(m, EnvTestInstanceCount)),
      testInstanceRole := Lookup(m, EnvTestInstanceRole),
      testInstanceParams := params,
      testGroupID := "",
      testGroupInstanceCount := 0,
      testSidecar := ToBool(Lookup(m, EnvTestSidecar)),
      testSubnet := toNet(Lookup(m, EnvTestSubnet)))
  }

  /**
   * The outcome of ParseRunEnv for a given splitter of the KEY=VALUE entries:
   * the parser's error, or the assembled RunEnv. The group id and the group
   * instance count are never read, unlike in CurrentRunEnv.
   */
  function ParsedRunEnv(env: seq<string>, split: Splitter, toNet: string -> Option<Subnet>): (r: Result<RunEnv, string>)
    ensures r.Failure? <==> exists i :: 0 <= i < |env| && split(env[i]).None?
    ensures r.Failure? ==> r == Failure(KeyValues(env, split).error)
    ensures r.Success? ==> r.value.testGroupID == "" && r.value.testGroupInstanceCount == 0
    ensures r.Success? ==> r.value.testCommit == "" && r.value.testArtifacts == ""
    ensures r.Success? ==> r.value.testInstanceParams == Unpacked(Lookup(Collect(env, split), EnvTestInstanceParams))
  {
    match KeyValues(env, split)
    case Failure(e) => Failure(e)
    case Success(m) => Success(Assemble(m, Unpacked(Lookup(m, EnvTestInstanceParams)), toNet))
  }

  /** ParseRunEnv: parse the KEY=VALUE list, then read the fields out of the map. */
  method ParseRunEnv(env: seq<string>, toNet: string -> Option<Subnet>) returns (r: Result<RunEnv, string>)
    ensures r == ParsedRunEnv(env, SplitPair, toNet)
  {
    var m := ParseKeyValues(env);
    if m.Failure? {
      return Failure(m.error);
    }
    var params := UnpackParams(Lookup(m.value, EnvTestInstanceParams));
    return Success(Assemble(m.value, params, toNet));
  }

  // ---------------------------------------------------------------------
  // From ToEnvVars back to ParseRunEnv

  /** What ParseRunEnv can recover of `re` from its environment variables. */
  function Exported(re: RunEnv, toNet: string -> Option<Subnet>): RunEnv
  {
    re.(testCommit := "", testArtifacts := "", testGroupID := "", testGroupInstanceCount := 0,
        testSubnet := toNet(SubnetString(re.testSubnet)))
  }

  /**
   * Whenever `split` reads every KEY=VALUE entry of the environment back as
   * that key and value, parsing the entries (in any order) gives back the
   * exported fields of `re`.
   */
  lemma {:induction false} ParsesBack(re: RunEnv, porder: seq<string>, eorder: seq<string>,
                                      split: Splitter, toNet: string -> Option<Subnet>)
    requires IsKeyOrder(porder, re.testInstanceParams) && CleanParams(re.testInstanceParams)
    requires IsKeyOrder(eorder, EnvVars(re, PackedWith(porder, re.testInstanceParams)))
    requires var env := EnvVars(re, PackedWith(porder, re.testInstanceParams));
      forall k :: k in env ==> split(Entry(k, env[k])) == Some((k, env[k]))
    ensures ParsedRunEnv(Entries(eorder, EnvVars(re, PackedWith(porder, re.testInstanceParams))), split, toNet)
      == Success(Exported(re, toNet))
  {
    var packed := PackedWith(porder, re.testInstanceParams);
    var env := EnvVars(re, packed);
    KeyValuesOfEntries(eorder, env, split);
    EnvVarsFields(re, packed);
    PackUnpackRoundTrip(porder, re.testInstanceParams);
    AssembleEnvVars(re, packed, toNet);
  }

  /** Parsing the entries of a map, each of which `split` reads back, gives the map. */
  lemma KeyValuesOfEntries(order: seq<string>, m: map<string, string>, split: Splitter)
    requires IsKeyOrder(order, m)
    requires forall k :: k in m ==> split(Entry(k, m[k])) == Some((k, m[k]))
    ensures KeyValues(Entries(order, m), split) == Success(m)
  {
    CollectEntries(order, m, split);
    assert (map k | k in order :: m[k]) == m;
    assert FirstRejected(Entries(order, m), split) == |order|;
  }

  /** Reading the variables of EnvVars back gives the exported fields. */
  lemma AssembleEnvVars(re: RunEnv, packed: string, toNet: string -> Option<Subnet>)
    ensures Assemble(EnvVars(re, packed), Unpacked(packed), toNet)
      == Exported(re, toNet).(testInstanceParams := Unpacked(packed))
  {
    EnvVarsFields(re, packed);
    assert ToBool(FormatBool(re.testSidecar)) == re.testSidecar;
  }

  /**
   * With the key cut at the FIRST "=" (strings.SplitN(d, "=", 2)), ParseRunEnv
   * reads the environment ToEnvVars produces back into the exported fields,
   * whatever order the entries come in and whatever the other fields hold,
   * provided no parameter key or value holds "|" or "=" (unpackParams still
   * splits on both); the subnet comes back as `toNet` of its printed form.
   */
  lemma ParseRunEnvRoundTripCorrected(re: RunEnv, porder: seq<string>, eorder: seq<string>,
                                      toNet: string -> Option<Subnet>)
    requires IsKeyOrder(porder, re.testInstanceParams) && CleanParams(re.testInstanceParams)
    requires IsKeyOrder(eorder, EnvVars(re, PackedWith(porder, re.testInstanceParams)))
    ensures ParsedRunEnv(Entries(eorder, EnvVars(re, PackedWith(porder, re.testInstanceParams))), CutPair, toNet)
      == Success(Exported(re, toNet))
  {
    var env := EnvVars(re, PackedWith(porder, re.testInstanceParams));
    EnvNamesWithoutEquals();
    forall k | k in env ensures CutPair(Entry(k, env[k])) == Some((k, env[k])) {
      CutAfterPrefix(k, env[k], '=');
    }
    ParsesBack(re, porder, eorder, CutPair, toNet);
  }

  /**
   * As written, ParseRunEnv cannot read back the environment ToEnvVars
   * produces for a run with instance parameters: the TEST_INSTANCE_PARAMS
   * entry holds more than one "=", so the whole parse fails.
   */
  lemma ParseRunEnvRejectsOwnParams(re: RunEnv, porder: seq<string>, eorder: seq<string>,
                                    toNet: string -> Option<Subnet>)
    requires IsKeyOrder(porder, re.testInstanceParams) && re.testInstanceParams != map[]
    requires IsKeyOrder(eorder, EnvVars(re, PackedWith(porder, re.testInstanceParams)))
    ensures ParsedRunEnv(Entries(eorder, EnvVars(re, PackedWith(porder, re.testInstanceParams))), SplitPair, toNet).Failure?
  {
    var params := re.testInstanceParams;
    var packed := PackedWith(porder, params);
    var env := EnvVars(re, packed);
    var es := Entries(eorder, env);
    // the packed parameters hold an "=": the one of their first entry
    var k0 :| k0 in params;
    assert |porder| > 0;
    var ps := Entries(porder, params);
    assert ps[0] == porder[0] + "=" + params[porder[0]];
    assert ps[0][|porder[0]|] == '=';
    assert packed[|porder[0]|] == '=' by {
      if |ps| > 1 {
        assert packed == ps[0] + ['|'] + Join(ps[1..], '|');
      }
    }
    assert Count(packed, '=') > 0;
    // so the TEST_INSTANCE_PARAMS entry splits into at least three pieces
    assert EnvTestInstanceParams in env;
    var i :| 0 <= i < |eorder| && eorder[i] == EnvTestInstanceParams;
    assert es[i] == EnvTestInstanceParams + "=" + packed;
    EnvNamesWithoutEquals();
    SplitAfterPrefix(EnvTestInstanceParams, packed, '=');
    assert SplitPair(es[i]).None?;
  }

  /**
   * As written, a successful ParseRunEnv never has instance parameters: every
   * value it accepts is free of "=", while unpackParams keeps only pieces
   * holding exactly one "=".
   */
  lemma ParseRunEnvDropsParams(env: seq<string>, toNet: string -> Option<Subnet>)
    ensures ParsedRunEnv(env, SplitPair, toNet).Success? ==>
      ParsedRunEnv(env, SplitPair, toNet).value.testInstanceParams == map[]
  {
    var m := Collect(env, SplitPair);
    var packed := Lookup(m, EnvTestInstanceParams);
    assert '=' !in packed by {
      CollectLastWins(env, SplitPair, EnvTestInstanceParams);
    }
    var pieces := Split(packed, '|');
    SplitPiecesWithin(packed, '|');
    forall k ensures k !in Collect(pieces, SplitPair) {
      CollectLastWins(pieces, SplitPair, k);
      forall i | 0 <= i < |pieces| ensures SplitPair(pieces[i]).None? {
        assert '=' !in pieces[i];
      }
    }
    assert Unpacked(packed) == map[];
  }
}
