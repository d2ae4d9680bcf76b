/**
 * The client that `arcjet({rules, characteristics, log, client})` returns:
 * its `protect` walks the sorted rules locally, stopping at the first real
 * denial, and otherwise asks the remote service; `withRule` adds rules.
 *
 * The fingerprint, each rule's `validate` and `protect` steps and the remote
 * decision are inputs of `protect`: they come from hashing, the analysis
 * module and the network. The client's cache and its reports to the remote
 * service are logs of the calls `protect` makes.
 */
module Protect {
  import opened JsValue
  import opened Rules

  /** At most this many rules run in one call. */
  const MaxRules := 10

  const TooManyRulesMessage := "Only 10 rules may be specified"
  const MissingResultMessage := "rule result missing"

  /** A decision; an error decision concludes ERROR and a deny decision DENY. */
  datatype Decision = Decision(conclusion: Conclusion, ttl: int, reason: Reason, results: seq<RuleResult>)

  /** What `analyze.generateFingerprint` did. */
  datatype Fingerprinting = Fingerprinted(fingerprint: string) | FingerprintFailed(error: Value)

  /** What running a rule's `validate` and `protect` did: return a result (or nothing), or throw. */
  datatype RuleRun = Returned(result: Option<RuleResult>) | Raised(error: Value)

  /** What `client.decide` did. */
  datatype RemoteDecision = Decided(decision: Decision) | DecideFailed(error: Value)

  /** One `cache.set(ruleId, fingerprint, {conclusion, reason}, ttl)` call. */
  datatype CacheWrite = CacheWrite(ruleId: string, fingerprint: string, entry: CacheEntry, ttl: int)

  /** One `client.report(context, details, decision, rules)` call. */
  datatype Report = Report(decision: Decision, rules: seq<Rule>)

  /** Everything one call of `protect` produces. */
  datatype Protection = Protection(decision: Decision, rules: seq<Rule>, cacheWrites: seq<CacheWrite>, reports: seq<Report>)

  /** `arcjet()` throws unless it is given a logger and a client. */
  function Configure(log: Value, client: Value): (c: Option<string>)
    ensures c.None? <==> Defined(log) && Defined(client)
    ensures !Defined(log) ==> c == Some("Log is required")
    ensures Defined(log) && !Defined(client) ==> c == Some("Client is required")
  {
    if !Defined(log) then Some("Log is required")
    else if !Defined(client) then Some("Client is required")
    else None
  }

  /** `options.characteristics ? [...options.characteristics] : []` */
  function CharacteristicsOption(characteristics: Option<seq<Value>>): seq<Value> {
    if characteristics.Some? then characteristics.value else []
  }

  /** The NOT_RUN/ALLOW result every slot starts with. */
  function Seed(fingerprint: string): RuleResult {
    RuleResult("", fingerprint, 0, NotRun, Allow, NoReason)
  }

  function Seeds(fingerprint: string, n: nat): (s: seq<RuleResult>)
    ensures |s| == n && forall i :: 0 <= i < n ==> s[i] == Seed(fingerprint)
  {
    seq(n, _ => Seed(fingerprint))
  }

  /** A rate-limit rule without characteristics of its own takes the client's. */
  function WithCharacteristics(rule: Rule, characteristics: seq<Value>): Rule {
    if IsRateLimit(rule) && rule.characteristics.None? then rule.(characteristics := Some(characteristics))
    else rule
  }

  function Seeded(rules: seq<Rule>, characteristics: seq<Value>): (s: seq<Rule>)
    ensures |s| == |rules| && forall i :: 0 <= i < |rules| ==> s[i] == WithCharacteristics(rules[i], characteristics)
  {
    seq(|rules|, i requires 0 <= i < |rules| => WithCharacteristics(rules[i], characteristics))
  }

  /** The result a rule's slot holds once the rule has run. */
  function Outcome(run: RuleRun, fingerprint: string): RuleResult {
    match run
    case Returned(Some(result)) => result
    case Returned(None) => RuleResult("", fingerprint, 0, Run, Error, ErrorReason(Str(MissingResultMessage)))
    case Raised(err) => RuleResult("", fingerprint, 0, Run, Error, ErrorReason(err))
  }

  function Outcomes(runs: seq<RuleRun>, fingerprint: string): (s: seq<RuleResult>)
    ensures |s| == |runs| && forall i :: 0 <= i < |runs| ==> s[i] == Outcome(runs[i], fingerprint)
  {
    seq(|runs|, i requires 0 <= i < |runs| => Outcome(runs[i], fingerprint))
  }

  /** The index of the first result that ends the walk, from `from` on. */
  function FirstStop(outcomes: seq<RuleResult>, from: nat): (k: Option<nat>)
    requires from <= |outcomes|
    ensures k.Some? ==> from <= k.value < |outcomes|
    decreases |outcomes| - from
  {
    if from == |outcomes| then None
    else if Stops(outcomes[from]) then Some(from)
    else FirstStop(outcomes, from + 1)
  }

  /** The first stop is a stop with none ahead of it, and there is none exactly when no result stops. */
  lemma {:induction false} FirstStopMeaning(outcomes: seq<RuleResult>, from: nat)
    requires from <= |outcomes|
    ensures FirstStop(outcomes, from).None? <==> forall j :: from <= j < |outcomes| ==> !Stops(outcomes[j])
    ensures FirstStop(outcomes, from).Some? ==>
      var k := FirstStop(outcomes, from).value;
      from <= k < |outcomes| && Stops(outcomes[k]) && forall j :: from <= j < k ==> !Stops(outcomes[j])
    decreases |outcomes| - from
  {
    if from < |outcomes| && !Stops(outcomes[from]) {
      FirstStopMeaning(outcomes, from + 1);
    }
  }

  function WriteOf(result: RuleResult): CacheWrite {
    CacheWrite(result.ruleId, result.fingerprint, CacheEntry(result.conclusion, result.reason), result.ttl)
  }

  /** The cache writes for the DENY results of a remote decision, in order. */
  function DenyWrites(results: seq<RuleResult>): seq<CacheWrite>
    decreases |results|
  {
    if |results| == 0 then []
    else
      var last := results[|results| - 1];
      DenyWrites(results[..|results| - 1]) + (if last.conclusion == Deny then [WriteOf(last)] else [])
  }

  /** Exactly the DENY results of a remote decision are written to the cache. */
  lemma {:induction false} DenyWritesMeaning(results: seq<RuleResult>)
    ensures forall w :: w in DenyWrites(results) <==> exists r :: r in results && r.conclusion == Deny && w == WriteOf(r)
    decreases |results|
  {
    if |results| > 0 {
      var init := results[..|results| - 1];
      var last := results[|results| - 1];
      DenyWritesMeaning(init);
      assert results == init + [last];
      forall w ensures w in DenyWrites(results) <==> exists r :: r in results && r.conclusion == Deny && w == WriteOf(r) {
        if exists r :: r in results && r.conclusion == Deny && w == WriteOf(r) {
          var r :| r in results && r.conclusion == Deny && w == WriteOf(r);
          if r != last { assert r in init; }
        }
        if w in DenyWrites(init) {
          var r :| r in init && r.conclusion == Deny && w == WriteOf(r);
          assert r in results;
        }
      }
    }
  }

  /** The remote decision's cache writes: its DENY results, when the decision denies with a positive TTL. */
  function RemoteWrites(decision: Decision): seq<CacheWrite> {
    if decision.conclusion == Deny && decision.ttl > 0 then DenyWrites(decision.results) else []
  }

  /**
   * What one call of `protect(rules, ctx, request)` returns, what the rules
   * are afterwards, and what it writes to the cache and reports.
   */
  function ProtectSpec(rules: seq<Rule>, characteristics: seq<Value>, fp: Fingerprinting, runs: seq<RuleRun>,
                       remote: RemoteDecision): Protection
    requires |runs| == |rules|
  {
    match fp
    case FingerprintFailed(err) =>
      Protection(Decision(Error, 0, ErrorReason(Str("Failed to build fingerprint - " + ErrorMessage(err))), []),
        rules, [], [])
    case Fingerprinted(fingerprint) =>
      if |rules| > MaxRules then
        var d := Decision(Error, 0, ErrorReason(Str(TooManyRulesMessage)), []);
        Protection(d, rules, [], [Report(d, [])])
      else
        var seeded := Seeded(rules, characteristics);
        var outcomes := Outcomes(runs, fingerprint);
        match FirstStop(outcomes, 0)
        case Some(k) =>
          var r := outcomes[k];
          var d := Decision(Deny, r.ttl, r.reason, outcomes[..k + 1] + Seeds(fingerprint, |rules| - (k + 1)));
          Protection(d, seeded, if r.ttl > 0 then [WriteOf(r)] else [], [Report(d, seeded)])
        case None =>
          match remote
          case Decided(d) => Protection(d, seeded, RemoteWrites(d), [])
          case DecideFailed(err) =>
            var d := Decision(Error, 0, ErrorReason(err), outcomes);
            Protection(d, seeded, [], [Report(d, seeded)])
  }

  /**
   * When no fingerprint can be built, `protect` returns an error decision
   * with no results, and reports, caches and changes nothing.
   */
  lemma FingerprintFailure(rules: seq<Rule>, characteristics: seq<Value>, err: Value, runs: seq<RuleRun>, remote: RemoteDecision)
    requires |runs| == |rules|
    ensures var p := ProtectSpec(rules, characteristics, FingerprintFailed(err), runs, remote);
      p.decision.conclusion == Error && p.decision.ttl == 0 && p.decision.results == [] &&
      ErrorMessage(p.decision.reason.error) == "Failed to build fingerprint - " + ErrorMessage(err) &&
      p.rules == rules && p.cacheWrites == [] && p.reports == []
  {
  }

  /**
   * More than ten rules give an error decision with no results, reported
   * once with no rules, and no rule runs, changes or is cached.
   */
  lemma TooManyRules(rules: seq<Rule>, characteristics: seq<Value>, fingerprint: string, runs: seq<RuleRun>, remote: RemoteDecision)
    requires |runs| == |rules| && |rules| > MaxRules
    ensures var p := ProtectSpec(rules, characteristics, Fingerprinted(fingerprint), runs, remote);
      p.decision == Decision(Error, 0, ErrorReason(Str(TooManyRulesMessage)), []) &&
      p.rules == rules && p.cacheWrites == [] && p.reports == [Report(p.decision, [])]
  {
  }

  /**
   * The first result that is a DENY and not a dry run decides: the decision
   * denies with that result's TTL and reason, holds the results of the
   * rules up to it and NOT_RUN/ALLOW for the rest, is reported once, and is
   * cached exactly when its TTL is positive.
   */
  lemma FirstDenyWins(rules: seq<Rule>, characteristics: seq<Value>, fingerprint: string, runs: seq<RuleRun>,
                      remote: RemoteDecision, k: nat)
    requires |runs| == |rules| <= MaxRules
    requires k < |runs| && Stops(Outcome(runs[k], fingerprint))
    requires forall j :: 0 <= j < k ==> !Stops(Outcome(runs[j], fingerprint))
    ensures var p := ProtectSpec(rules, characteristics, Fingerprinted(fingerprint), runs, remote);
      var r := Outcome(runs[k], fingerprint);
      p.decision.conclusion == Deny && p.decision.ttl == r.ttl && p.decision.reason == r.reason &&
      |p.decision.results| == |rules| &&
      (forall j :: 0 <= j <= k ==> p.decision.results[j] == Outcome(runs[j], fingerprint)) &&
      (forall j :: k < j < |rules| ==> p.decision.results[j] == Seed(fingerprint)) &&
      p.reports == [Report(p.decision, Seeded(rules, characteristics))] &&
      (p.cacheWrites == [] <==> r.ttl <= 0) &&
      (r.ttl > 0 ==> p.cacheWrites == [CacheWrite(r.ruleId, r.fingerprint, CacheEntry(Deny, r.reason), r.ttl)])
  {
    var outcomes := Outcomes(runs, fingerprint);
    FirstStopMeaning(outcomes, 0);
    var first := FirstStop(outcomes, 0);
    assert first.Some?;
    assert first.value == k;
    var results := outcomes[..k + 1] + Seeds(fingerprint, |rules| - (k + 1));
    assert forall j :: k < j < |rules| ==> results[j] == Seeds(fingerprint, |rules| - (k + 1))[j - (k + 1)];
  }

  /**
   * When no result stops the walk, every rule has run, and dry-run denials
   * among them are overridden: the remote decision is returned as it is,
   * with its DENY results cached when it denies with a positive TTL; if it
   * cannot be had, an error decision holding every rule's result is
   * returned and reported.
   */
  lemma NoStopGoesRemote(rules: seq<Rule>, characteristics: seq<Value>, fingerprint: string, runs: seq<RuleRun>,
                         remote: RemoteDecision)
    requires |runs| == |rules| <= MaxRules
    requires forall j :: 0 <= j < |runs| ==> !Stops(Outcome(runs[j], fingerprint))
    ensures var p := ProtectSpec(rules, characteristics, Fingerprinted(fingerprint), runs, remote);
      p.rules == Seeded(rules, characteristics) &&
      (remote.Decided? ==>
        p.decision == remote.decision && p.reports == [] &&
        (forall w :: w in p.cacheWrites <==>
          remote.decision.conclusion == Deny && remote.decision.ttl > 0 &&
          exists r :: r in remote.decision.results && r.conclusion == Deny && w == WriteOf(r))) &&
      (remote.DecideFailed? ==>
        p.decision == Decision(Error, 0, ErrorReason(remote.error), Outcomes(runs, fingerprint)) &&
        p.cacheWrites == [] && p.reports == [Report(p.decision, p.rules)])
  {
    FirstStopMeaning(Outcomes(runs, fingerprint), 0);
    if remote.Decided? {
      DenyWritesMeaning(remote.decision.results);
    }
  }

  /** A rule that throws or returns nothing gets an ERROR result, which never stops the walk. */
  lemma ErrorOutcomes(run: RuleRun, fingerprint: string)
    requires !run.Returned? || run.result.None?
    ensures Outcome(run, fingerprint).conclusion == Error && Outcome(run, fingerprint).state == Run
    ensures Outcome(run, fingerprint).ttl == 0 && Outcome(run, fingerprint).fingerprint == fingerprint
    ensures run.Raised? ==> Outcome(run, fingerprint).reason == ErrorReason(run.error)
    ensures run.Returned? ==> ErrorMessage(Outcome(run, fingerprint).reason.error) == MissingResultMessage
    ensures !Stops(Outcome(run, fingerprint))
  {
  }

  /**
   * Every write of a local decision to the cache is a DENY with a positive
   * time to live; nothing is written before a fingerprint is built or when
   * there are too many rules.
   */
  lemma LocalCacheWrites(rules: seq<Rule>, characteristics: seq<Value>, fp: Fingerprinting, runs: seq<RuleRun>,
                         remote: RemoteDecision)
    requires |runs| == |rules|
    ensures fp.FingerprintFailed? || |rules| > MaxRules ==>
      ProtectSpec(rules, characteristics, fp, runs, remote).cacheWrites == []
    ensures fp.Fingerprinted? && |rules| <= MaxRules && FirstStop(Outcomes(runs, fp.fingerprint), 0).Some? ==>
      forall w :: w in ProtectSpec(rules, characteristics, fp, runs, remote).cacheWrites ==>
        w.entry.conclusion == Deny && w.ttl > 0
  {
    if fp.Fingerprinted? && |rules| <= MaxRules {
      FirstStopMeaning(Outcomes(runs, fp.fingerprint), 0);
    }
  }

  /**
   * Rate-limit rules without characteristics of their own take the
   * client's; every other rule is left as it was.
   */
  lemma SeededMeaning(rules: seq<Rule>, characteristics: seq<Value>)
    ensures |Seeded(rules, characteristics)| == |rules|
    ensures forall i :: 0 <= i < |rules| ==>
      var s := Seeded(rules, characteristics)[i];
      s.priority == rules[i].priority && s.mode == rules[i].mode && s.config == rules[i].config &&
      (IsRateLimit(rules[i]) ==> s.characteristics.Some?) &&
      (rules[i].characteristics.Some? ==> s == rules[i]) &&
      (!IsRateLimit(rules[i]) ==> s == rules[i]) &&
      (IsRateLimit(rules[i]) && rules[i].characteristics.None? ==> s.characteristics == Some(characteristics))
  {
  }

  /** Built-in rules in DRY_RUN mode whose results are not taken from the cache never stop the walk. */
  lemma DryRunRulesReachRemote(rules: seq<Rule>, characteristics: seq<Value>, fingerprint: string, runs: seq<RuleRun>,
                               remote: RemoteDecision, ids: seq<string>, fingerprints: seq<string>,
                               lookups: seq<Lookup>, analyses: seq<Analysis>)
    requires |runs| == |rules| <= MaxRules
    requires |ids| == |fingerprints| == |lookups| == |analyses| == |rules|
    requires forall i :: 0 <= i < |rules| ==>
      rules[i].mode == DryRun && Fits(rules[i], analyses[i]) &&
      (rules[i].config.FilterConfig? ==> rules[i].config.state == StateOf(rules[i].mode)) &&
      runs[i] == Returned(Some(LocalProtect(rules[i], ids[i], fingerprints[i], lookups[i], analyses[i]))) &&
      runs[i].result.value.state != Cached
    ensures remote.Decided? ==>
      ProtectSpec(rules, characteristics, Fingerprinted(fingerprint), runs, remote).decision == remote.decision
  {
    forall j | 0 <= j < |runs| ensures !Stops(Outcome(runs[j], fingerprint)) {
      LocalProtectMeaning(rules[j], ids[j], fingerprints[j], lookups[j], analyses[j]);
    }
    NoStopGoesRemote(rules, characteristics, fingerprint, runs, remote);
  }

  /** The client of `arcjet()`, with its cache and the reports it sends. */
  class Arcjet {
    /** The rules given at construction, flattened and sorted by priority. */
    const rootRules: array<Rule>
    /** The client's characteristics, which rate-limit rules without their own take. */
    const characteristics: seq<Value>
    /** The calls to `cache.set`, in order. */
    var cache: seq<CacheWrite>
    /** The calls to `client.report`, in order. */
    var reports: seq<Report>

    /** `arcjet({rules, characteristics})` once its logger and client are checked. */
    constructor(rules: seq<seq<Rule>>, characteristicsOption: Option<seq<Value>>)
      ensures rootRules[..] == RootRules(rules)
      ensures characteristics == CharacteristicsOption(characteristicsOption)
      ensures cache == [] && reports == []
    {
      var sorted := RootRules(rules);
      rootRules := new Rule[|sorted|](i requires 0 <= i < |sorted| => sorted[i]);
      characteristics := CharacteristicsOption(characteristicsOption);
      cache := [];
      reports := [];
    }

    /** `withRule(baseRules, rule)`: a new list of the rules and the added ones, sorted by priority. */
    method WithRule(baseRules: array<Rule>, rule: seq<Rule>) returns (rules: array<Rule>)
      ensures fresh(rules)
      ensures rules[..] == Rules.WithRule(baseRules[..], rule)
    {
      var sorted := Rules.WithRule(baseRules[..], rule);
      rules := new Rule[|sorted|](i requires 0 <= i < |sorted| => sorted[i]);
    }

    /**
     * `protect(rules, ctx, request)`: the fingerprint, each rule's run and
     * the remote decision are given; `runs[i]` is what the rule at index `i`
     * does when it runs.
     */
    method Protect(rules: array<Rule>, fp: Fingerprinting, runs: seq<RuleRun>, remote: RemoteDecision)
      returns (decision: Decision)
      requires |runs| == rules.Length
      modifies this, rules
      ensures var p := ProtectSpec(old(rules[..]), characteristics, fp, runs, remote);
        decision == p.decision && rules[..] == p.rules &&
        cache == old(cache) + p.cacheWrites && reports == old(reports) + p.reports
    {
      if fp.FingerprintFailed? {
        return Decision(Error, 0, ErrorReason(Str("Failed to build fingerprint - " + ErrorMessage(fp.error))), []);
      }
      var fingerprint := fp.fingerprint;
      if rules.Length > MaxRules {
        decision := Decision(Error, 0, ErrorReason(Str(TooManyRulesMessage)), []);
        reports := reports + [Report(decision, [])];
        return;
      }
      var results := SeedRules(rules, fingerprint, characteristics);
      var stop := RunRules(results, runs, fingerprint);
      if stop.Some? {
        var result := results[stop.value];
        decision := Decision(Deny, result.ttl, result.reason, results[..]);
        reports := reports + [Report(decision, rules[..])];
        if result.ttl > 0 {
          cache := cache + [WriteOf(result)];
        }
        return;
      }
      match remote
      case DecideFailed(err) =>
        decision := Decision(Error, 0, ErrorReason(err), results[..]);
        reports := reports + [Report(decision, rules[..])];
      case Decided(d) =>
        decision := d;
        if d.conclusion == Deny && d.ttl > 0 {
          CacheDenials(d.results);
        }
    }

    /** Cache every DENY result of a remote decision. */
    method CacheDenials(results: seq<RuleResult>)
      modifies this
      ensures cache == old(cache) + DenyWrites(results) && reports == old(reports)
    {
      var i := 0;
      while i < |results|
        invariant 0 <= i <= |results|
        invariant cache == old(cache) + DenyWrites(results[..i]) && reports == old(reports)
      {
        var r := results[i];
        assert results[..i + 1][..i] == results[..i];
        if r.conclusion == Deny {
          cache := cache + [WriteOf(r)];
        }
        i := i + 1;
      }
      assert results[..i] == results;
    }
  }

  /**
   * Start every slot as NOT_RUN/ALLOW, and give rate-limit rules without
   * characteristics the client's.
   */
  method SeedRules(rules: array<Rule>, fingerprint: string, characteristics: seq<Value>) returns (results: array<RuleResult>)
    modifies rules
    ensures fresh(results) && results[..] == Seeds(fingerprint, rules.Length)
    ensures rules[..] == Seeded(old(rules[..]), characteristics)
  {
    results := new RuleResult[rules.Length];
    var idx := 0;
    while idx < rules.Length
      invariant 0 <= idx <= rules.Length
      invariant forall j :: 0 <= j < idx ==> results[j] == Seed(fingerprint)
      invariant forall j :: 0 <= j < idx ==> rules[j] == WithCharacteristics(old(rules[j]), characteristics)
      invariant forall j :: idx <= j < rules.Length ==> rules[j] == old(rules[j])
    {
      results[idx] := Seed(fingerprint);
      var candidate := rules[idx];
      if IsRateLimit(candidate) && candidate.characteristics.None? {
        rules[idx] := candidate.(characteristics := Some(characteristics));
      }
      idx := idx + 1;
    }
  }

  /**
   * Run the rules in order, storing each one's result in its slot, until a
   * result ends the walk; `stop` is the index of that result.
   */
  method RunRules(results: array<RuleResult>, runs: seq<RuleRun>, fingerprint: string) returns (stop: Option<nat>)
    requires results.Length == |runs| && results[..] == Seeds(fingerprint, |runs|)
    modifies results
    ensures stop == FirstStop(Outcomes(runs, fingerprint), 0)
    ensures stop.Some? ==>
      results[..] == Outcomes(runs, fingerprint)[..stop.value + 1] + Seeds(fingerprint, |runs| - (stop.value + 1))
    ensures stop.None? ==> results[..] == Outcomes(runs, fingerprint)
  {
    ghost var outcomes := Outcomes(runs, fingerprint);
    var idx := 0;
    while idx < |runs|
      invariant 0 <= idx <= |runs|
      invariant forall j :: 0 <= j < idx ==> results[j] == outcomes[j]
      invariant forall j :: idx <= j < |runs| ==> results[j] == Seed(fingerprint)
      invariant FirstStop(outcomes, idx) == FirstStop(outcomes, 0)
    {
      results[idx] := Outcome(runs[idx], fingerprint);
      var result := results[idx];
      if result.conclusion == Deny && result.state != DryRunState {
        ghost var expected := outcomes[..idx + 1] + Seeds(fingerprint, |runs| - (idx + 1));
        forall j | 0 <= j < |runs| ensures results[j] == expected[j] {
          if j > idx { assert expected[j] == Seeds(fingerprint, |runs| - (idx + 1))[j - (idx + 1)]; }
        }
        assert results[..] == expected;
        return Some(idx);
      }
      idx := idx + 1;
    }
    assert results[..] == outcomes;
    return None;
  }
}
