/**
 * The multi-role batch generator's bookkeeping
 * (generators/batch_generator.py): reading the batch configuration and
 * summarising the results of the individual generations.
 *
 * The parallel generation itself (a thread pool issuing model requests) is not
 * part of this model; its results are the input of the summaries.
 */
module BatchGenerator {
  import opened Wrappers
  import opened Json
  import RolesConfig
  import Tables
  import Text

  /** One generation result: its `role_code`, `success` and `total_questions` entries, when present. */
  datatype GenResult = GenResult(roleCode: Option<string>, success: Option<bool>, totalQuestions: Option<int>)

  /** `result.get("success", False)`. */
  predicate Succeeded(r: GenResult) { r.success == Some(true) }

  /** `result.get("total_questions", 0)`. */
  function QuestionsOf(r: GenResult): int { if r.totalQuestions.Some? then r.totalQuestions.value else 0 }

  /** `result.get("role_code", "unknown")`. */
  function CodeOf(r: GenResult): string { if r.roleCode.Some? then r.roleCode.value else "unknown" }

  /** The number of successful results. */
  function SuccessCount(results: seq<GenResult>): (r: nat)
    ensures r <= |results|
  {
    if |results| == 0 then 0
    else SuccessCount(results[..|results| - 1]) + (if Succeeded(results[|results| - 1]) then 1 else 0)
  }

  /** The questions of the successful results; failed ones count nothing. */
  function SuccessQuestions(results: seq<GenResult>): int
  {
    if |results| == 0 then 0
    else SuccessQuestions(results[..|results| - 1])
         + (if Succeeded(results[|results| - 1]) then QuestionsOf(results[|results| - 1]) else 0)
  }

  /** `_generate_batch_summary`, without the floating-point average. */
  datatype BatchSummary = BatchSummary(totalDifficultyLevels: int, successfulLevels: int, totalQuestionsGenerated: int)

  method GenerateBatchSummary(results: seq<GenResult>) returns (s: BatchSummary)
    ensures s.totalDifficultyLevels == |results|
    ensures s.successfulLevels == SuccessCount(results) <= |results|
    ensures s.totalQuestionsGenerated == SuccessQuestions(results)
  {
    var total := 0;
    var successful := 0;
    var i := 0;
    while i < |results|
      invariant 0 <= i <= |results|
      invariant successful == SuccessCount(results[..i])
      invariant total == SuccessQuestions(results[..i])
    {
      assert results[..i + 1][..i] == results[..i];
      if Succeeded(results[i]) {
        successful := successful + 1;
        total := total + QuestionsOf(results[i]);
      }
      i := i + 1;
    }
    assert results[..i] == results;
    s := BatchSummary(|results|, successful, total);
  }

  /** The per-role counters of `_generate_multi_role_summary`. */
  datatype RoleStat = RoleStat(successful: nat, failed: nat, questions: int)

  const NoStat := RoleStat(0, 0, 0)

  /** Counting one result into its role's counters. */
  function Bump(st: RoleStat, r: GenResult): RoleStat
  {
    if Succeeded(r) then RoleStat(st.successful + 1, st.failed, st.questions + QuestionsOf(r))
    else RoleStat(st.successful, st.failed + 1, st.questions)
  }

  type Stats = seq<(string, RoleStat)>

  /** Where `code` sits among the role statistics, or their length when it is not there yet. */
  function IndexOf(stats: Stats, code: string): (k: nat)
    ensures k <= |stats|
    ensures k < |stats| ==> stats[k].0 == code
    ensures forall i :: 0 <= i < k ==> stats[i].0 != code
  {
    if |stats| == 0 then 0
    else if stats[0].0 == code then 0
    else 1 + IndexOf(stats[1..], code)
  }

  /** One step of the loop: create the role's counters on first sight, then count the result. */
  function Record(stats: Stats, r: GenResult): Stats
  {
    var code := CodeOf(r);
    var k := IndexOf(stats, code);
    if k == |stats| then stats + [(code, Bump(NoStat, r))]
    else stats[k := (code, Bump(stats[k].1, r))]
  }

  /** The role statistics of a result list, in first-appearance order. */
  function StatsOf(results: seq<GenResult>): Stats
  {
    if |results| == 0 then [] else Record(StatsOf(results[..|results| - 1]), results[|results| - 1])
  }

  /** The role code of every result. */
  function ResultCodes(results: seq<GenResult>): (r: seq<string>)
    ensures |r| == |results|
    ensures forall i :: 0 <= i < |results| ==> r[i] == CodeOf(results[i])
  {
    seq(|results|, i requires 0 <= i < |results| => CodeOf(results[i]))
  }

  /** The counters of one role code, computed directly from the results. */
  function PerCode(results: seq<GenResult>, code: string): (st: RoleStat)
    ensures st.successful + st.failed == |set i | 0 <= i < |results| && CodeOf(results[i]) == code|
  {
    if |results| == 0 then NoStat
    else
      var init := results[..|results| - 1];
      var prev := PerCode(init, code);
      var last := |results| - 1;
      ghost var before := set i | 0 <= i < |init| && CodeOf(init[i]) == code;
      ghost var now := set i | 0 <= i < |results| && CodeOf(results[i]) == code;
      if CodeOf(results[last]) == code then
        assert now == before + {last};
        Bump(prev, results[last])
      else
        assert now == before;
        prev
  }

  function StatQuestions(stats: Stats): int
  {
    if |stats| == 0 then 0 else StatQuestions(stats[..|stats| - 1]) + stats[|stats| - 1].1.questions
  }

  predicate DistinctCodes(stats: Stats) {
    forall i, j :: 0 <= i < j < |stats| ==> stats[i].0 != stats[j].0
  }

  lemma {:induction false} StatQuestionsUpdate(stats: Stats, k: nat, st: RoleStat)
    requires k < |stats|
    ensures StatQuestions(stats[k := (stats[k].0, st)]) == StatQuestions(stats) - stats[k].1.questions + st.questions
    decreases |stats|
  {
    var t := stats[k := (stats[k].0, st)];
    if k < |stats| - 1 {
      assert t[..|t| - 1] == stats[..|stats| - 1][k := (stats[k].0, st)];
      StatQuestionsUpdate(stats[..|stats| - 1], k, st);
    } else {
      assert t[..|t| - 1] == stats[..|stats| - 1];
    }
  }

  /** The statistics list each role code of the results exactly once. */
  lemma {:induction false} StatsListRolesOnce(results: seq<GenResult>)
    ensures DistinctCodes(StatsOf(results))
    ensures forall c :: c in Tables.Codes(StatsOf(results)) <==> c in ResultCodes(results)
  {
    if |results| > 0 {
      var init := results[..|results| - 1];
      StatsListRolesOnce(init);
      var prev := StatsOf(init);
      var code := CodeOf(results[|results| - 1]);
      var k := IndexOf(prev, code);
      assert ResultCodes(results) == ResultCodes(init) + [code];
      if k == |prev| {
        assert Tables.Codes(StatsOf(results)) == Tables.Codes(prev) + [code];
      } else {
        assert Tables.Codes(StatsOf(results)) == Tables.Codes(prev);
      }
    }
  }

  /** Each entry of the statistics holds exactly its code's counters; an absent code has none. */
  lemma {:induction false} StatsHoldPerCodeCounters(results: seq<GenResult>)
    ensures forall k :: 0 <= k < |StatsOf(results)| ==> StatsOf(results)[k].1 == PerCode(results, StatsOf(results)[k].0)
    ensures forall c :: c !in Tables.Codes(StatsOf(results)) ==> PerCode(results, c) == NoStat
  {
    if |results| > 0 {
      var init := results[..|results| - 1];
      StatsHoldPerCodeCounters(init);
      StatsListRolesOnce(init);
      var prev := StatsOf(init);
      var r := results[|results| - 1];
      var code := CodeOf(r);
      var k := IndexOf(prev, code);
      if k == |prev| {
        assert code !in Tables.Codes(prev);
        assert Tables.Codes(StatsOf(results)) == Tables.Codes(prev) + [code];
      } else {
        assert Tables.Codes(StatsOf(results)) == Tables.Codes(prev);
      }
    }
  }

  /** The per-role question counts add up to the questions of the successful results. */
  lemma {:induction false} MultiRoleTotalsAgree(results: seq<GenResult>)
    ensures StatQuestions(StatsOf(results)) == SuccessQuestions(results)
  {
    if |results| > 0 {
      var init := results[..|results| - 1];
      var r := results[|results| - 1];
      MultiRoleTotalsAgree(init);
      assert StatsOf(results) == Record(StatsOf(init), r);
      assert SuccessQuestions(results) == SuccessQuestions(init) + (if Succeeded(r) then QuestionsOf(r) else 0);
      RecordAddsQuestions(StatsOf(init), r);
    }
  }

  /** Counting one result adds its questions, when it succeeded, to the per-role total. */
  lemma RecordAddsQuestions(stats: Stats, r: GenResult)
    ensures StatQuestions(Record(stats, r)) == StatQuestions(stats) + (if Succeeded(r) then QuestionsOf(r) else 0)
  {
    var k := IndexOf(stats, CodeOf(r));
    if k == |stats| {
      var next := stats + [(CodeOf(r), Bump(NoStat, r))];
      assert next[..|next| - 1] == stats;
    } else {
      StatQuestionsUpdate(stats, k, Bump(stats[k].1, r));
    }
  }

  lemma StatsOfStep(results: seq<GenResult>, i: nat)
    requires i < |results|
    ensures StatsOf(results[..i + 1]) == Record(StatsOf(results[..i]), results[i])
    ensures SuccessQuestions(results[..i + 1])
            == SuccessQuestions(results[..i]) + (if Succeeded(results[i]) then QuestionsOf(results[i]) else 0)
  {
    assert results[..i + 1][..i] == results[..i];
  }

  /** The loop's two steps, creating the zero counters when needed and counting, make one `Record`. */
  lemma CreateThenCount(stats: Stats, r: GenResult)
    ensures var code := CodeOf(r);
            var k := IndexOf(stats, code);
            var created := if k == |stats| then stats + [(code, NoStat)] else stats;
            created[k := (code, Bump(created[k].1, r))] == Record(stats, r)
  {
    var code := CodeOf(r);
    if IndexOf(stats, code) == |stats| {
      AppendThenSet(stats, (code, NoStat), (code, Bump(NoStat, r)));
    }
  }

  /** A list of distinct codes has as many entries as it has codes. */
  lemma {:induction false} DistinctCodesCount(stats: Stats)
    requires DistinctCodes(stats)
    ensures |set c | c in Tables.Codes(stats)| == |stats|
  {
    if |stats| > 0 {
      var init := stats[..|stats| - 1];
      DistinctCodesCount(init);
      var last := stats[|stats| - 1].0;
      assert Tables.Codes(stats) == Tables.Codes(init) + [last];
      assert last !in Tables.Codes(init);
      assert (set c | c in Tables.Codes(stats)) == (set c | c in Tables.Codes(init)) + {last};
    }
  }

  /** `unique_roles_processed` is the number of distinct role codes among the results. */
  lemma UniqueRolesAreDistinctCodes(results: seq<GenResult>)
    ensures |StatsOf(results)| == |set c | c in ResultCodes(results)|
  {
    StatsListRolesOnce(results);
    DistinctCodesCount(StatsOf(results));
    assert (set c | c in Tables.Codes(StatsOf(results))) == (set c | c in ResultCodes(results));
  }

  /** Creating an entry at the end and then counting into it is appending the counted entry. */
  lemma AppendThenSet(stats: Stats, e: (string, RoleStat), f: (string, RoleStat))
    ensures (stats + [e])[|stats| := f] == stats + [f]
  {
    assert (stats + [e])[|stats| := f][|stats|] == f;
  }

  /** `_generate_multi_role_summary`, without the floating-point success rate. */
  datatype MultiRoleSummary = MultiRoleSummary(roleStatistics: Stats, totalQuestionsGenerated: int, uniqueRolesProcessed: int)

  method GenerateMultiRoleSummary(results: seq<GenResult>) returns (s: MultiRoleSummary)
    ensures s.roleStatistics == StatsOf(results)
    ensures s.totalQuestionsGenerated == SuccessQuestions(results)
    ensures s.uniqueRolesProcessed == |s.roleStatistics|
  {
    var stats: Stats := [];
    var total := 0;
    var i := 0;
    while i < |results|
      invariant 0 <= i <= |results|
      invariant stats == StatsOf(results[..i])
      invariant total == SuccessQuestions(results[..i])
    {
      assert results[..i + 1][..i] == results[..i];
      var r := results[i];
      var code := CodeOf(r);
      var k := IndexOf(stats, code);
      CreateThenCount(stats, r);
      StatsOfStep(results, i);
      if k == |stats| {
        stats := stats + [(code, NoStat)];
      }
      stats := stats[k := (code, Bump(stats[k].1, r))];
      if Succeeded(r) {
        total := total + QuestionsOf(r);
      }
      i := i + 1;
    }
    assert results[..i] == results;
    s := MultiRoleSummary(stats, total, |stats|);
  }

  /** One file-configured role request, with the defaults filled in. */
  datatype RoleRequest = RoleRequest(roleCode: Json, questionCounts: Json, salaryCoefficients: Json)

  /** Why `generate_from_config_file` gives up, each answered with `success` false. */
  datatype ConfigError =
    | LoadFailed                  // nothing (or an empty value) loaded
    | MissingField(field: string) // a required top-level field is absent
    | Malformed                   // a Python type error on a value of the wrong shape

  datatype ConfigOutcome =
    | ConfigFailed(err: ConfigError)
    | ConfigReady(roleConfigs: seq<RoleRequest>, maxWorkers: Json)

  const DefaultCoefficients: Json := JArray([JNum(2), JNum(3), JNum(4)])

  /** The roles list, as Python iterates it: an empty dict or string iterates nothing; a non-empty one, or a scalar, fails. */
  function RolesItems(roles: Json): Option<seq<Json>>
  {
    match roles
    case JArray(items) => Some(items)
    case JObject(fields) => if fields == map[] then Some([]) else None
    case JStr(s) => if s == [] then Some([]) else None
    case _ => None
  }

  /**
   * Python `field in config`: a dict tests its keys, a list its elements and a
   * string its substrings; on anything else `in` raises a type error (None).
   */
  function PyIn(field: string, config: Json): (r: Option<bool>)
    ensures config.JObject? ==> r == Some(field in config.fields)
    ensures r.None? <==> !(config.JObject? || config.JArray? || config.JStr?)
  {
    match config
    case JObject(fields) => Some(field in fields)
    case JArray(items) => Some(JStr(field) in items)
    case JStr(s) => Some(Text.Contains(s, field))
    case _ => None
  }

  /** The request built from one roles entry; only a dict with a `role_code` builds one. */
  function RequestOf(info: Json, defaultCounts: Json): (r: Option<RoleRequest>)
    ensures r.Some? <==> HasKey(info, "role_code")
  {
    if HasKey(info, "role_code") then
      Some(RoleRequest(info.fields["role_code"], Get(info, "question_counts", defaultCounts),
                       Get(info, "salary_coefficients", DefaultCoefficients)))
    else None
  }

  /**
   * The configuration reading of `generate_from_config_file`: the loaded value
   * must be a non-empty object with `roles` and `default_question_counts`;
   * then every roles entry becomes a request, falling back on the default
   * counts and on the coefficients 2, 3 and 4.
   */
  method ReadConfig(loaded: Option<Json>) returns (r: ConfigOutcome)
    ensures (loaded.None? || !Truthy(loaded.value)) ==> r == ConfigFailed(LoadFailed)
    ensures loaded.Some? && loaded.value.JObject? && Truthy(loaded.value) && !HasKey(loaded.value, "roles")
            ==> r == ConfigFailed(MissingField("roles"))
    ensures loaded.Some? && loaded.value.JObject? && HasKey(loaded.value, "roles")
            && !HasKey(loaded.value, "default_question_counts")
            ==> r == ConfigFailed(MissingField("default_question_counts"))
    ensures r.ConfigReady? ==>
              loaded.Some? && HasKey(loaded.value, "roles") && HasKey(loaded.value, "default_question_counts")
              && var items := RolesItems(loaded.value.fields["roles"]);
              items.Some? && |r.roleConfigs| == |items.value|
              && forall i :: 0 <= i < |items.value| ==>
                   RequestOf(items.value[i], loaded.value.fields["default_question_counts"]) == Some(r.roleConfigs[i])
    ensures r.ConfigReady? ==> r.maxWorkers == Get(loaded.value, "max_workers", JNum(3))
    ensures loaded.Some? && Truthy(loaded.value) && PyIn("roles", loaded.value) == Some(false)
            ==> r == ConfigFailed(MissingField("roles"))
    ensures loaded.Some? && Truthy(loaded.value) && PyIn("roles", loaded.value) == Some(true)
            && PyIn("default_question_counts", loaded.value) == Some(false)
            ==> r == ConfigFailed(MissingField("default_question_counts"))
    ensures loaded.Some? && Truthy(loaded.value) && !loaded.value.JObject?
            && !(PyIn("roles", loaded.value) == Some(false))
            && !(PyIn("roles", loaded.value) == Some(true) && PyIn("default_question_counts", loaded.value) == Some(false))
            ==> r == ConfigFailed(Malformed)
    ensures loaded.Some? && Truthy(loaded.value) && HasKey(loaded.value, "roles")
            && HasKey(loaded.value, "default_question_counts")
            && RolesItems(loaded.value.fields["roles"]).Some?
            && (forall e :: e in RolesItems(loaded.value.fields["roles"]).value ==> HasKey(e, "role_code"))
            ==> r.ConfigReady?
  {
    if loaded.None? || !Truthy(loaded.value) {
      return ConfigFailed(LoadFailed);
    }
    var config := loaded.value;
    var hasRoles := PyIn("roles", config);
    if hasRoles.None? {
      return ConfigFailed(Malformed);
    }
    if !hasRoles.value {
      return ConfigFailed(MissingField("roles"));
    }
    var hasCounts := PyIn("default_question_counts", config);
    if hasCounts.None? {
      return ConfigFailed(Malformed);
    }
    if !hasCounts.value {
      return ConfigFailed(MissingField("default_question_counts"));
    }
    if !config.JObject? {
      // a list or a string that passed the membership tests cannot be indexed by a key
      return ConfigFailed(Malformed);
    }
    var defaultCounts := config.fields["default_question_counts"];
    var items := RolesItems(config.fields["roles"]);
    if items.None? {
      return ConfigFailed(Malformed);
    }
    var requests: seq<RoleRequest> := [];
    var i := 0;
    while i < |items.value|
      invariant 0 <= i <= |items.value|
      invariant |requests| == i
      invariant forall j :: 0 <= j < i ==> RequestOf(items.value[j], defaultCounts) == Some(requests[j])
    {
      var request := RequestOf(items.value[i], defaultCounts);
      if request.None? {
        return ConfigFailed(Malformed);
      }
      requests := requests + [request.value];
      i := i + 1;
    }
    r := ConfigReady(requests, Get(config, "max_workers", JNum(3)));
  }

  /**
   * The default coefficient list asks for 4x, which no role in the table
   * supports: every role left on the defaults gets one rejected level.
   */
  lemma DefaultFourIsNeverValid(roleCode: string)
    ensures !RolesConfig.ValidateRoleConfig(roleCode, 4)
  {
    if RolesConfig.ValidateRoleConfig(roleCode, 4) {
      RolesConfig.OnlyTwoOrThreeX(roleCode, 4);
    }
  }
}
