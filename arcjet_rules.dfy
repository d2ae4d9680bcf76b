/**
 * The rule constructors of the rule library: each checks its options record
 * with the options validator of its rule, normalises `mode`, enforces that
 * the allow, deny and block lists exclude each other, picks a configuration
 * and a fixed priority, and returns a one-element list of rules. Each rule
 * also carries the local `protect` step that turns a cache lookup and an
 * analysis answer into a rule result.
 *
 * Durations (`interval`, `window`) are kept as the option values given:
 * `duration.parse` is not part of this model.
 */
module Rules {
  import opened JsValue
  import opened Validators

  // The fixed priorities of the rule kinds; lower runs first.
  const PrioritySensitiveInfo := 1
  const PriorityFilter := 2
  const PriorityShield := 3
  const PriorityRateLimit := 4
  const PriorityBotDetection := 5
  const PriorityEmailValidation := 6

  // The messages of the errors the constructors throw.
  const SensitiveInfoBothError := "`sensitiveInfo` options error: `allow` and `deny` cannot be provided together"
  const SensitiveInfoNeitherError := "`sensitiveInfo` options error: either `allow` or `deny` must be specified"
  const EmailAllowDenyError := "`validateEmail` options error: `allow` and `deny` cannot be provided together"
  const EmailAllowBlockError := "`validateEmail` options error: `allow` and `block` cannot be provided together"
  const EmailDenyBlockError := "`validateEmail` options error: `deny` and `block` cannot be provided together, `block` is now deprecated so `deny` should be preferred."
  const EmailNoneError := "`validateEmail` options error: either `allow` or `deny` must be specified"
  const BotBothError := "`detectBot` options error: `allow` and `deny` cannot be provided together"
  const BotNeitherError := "`detectBot` options error: either `allow` or `deny` must be specified"
  const FilterBothError := "`filter` options error: expressions must be passed in either `allow` or `deny` instead of both"
  const FilterNeitherError := "`filter` options error: one or more expressions must be passed in `allow` or `deny`"
  const BodyUnreadableError := "Couldn't read the body of the request to perform sensitive info identification."

  datatype Mode = Live | DryRun

  /** How a rule result came about. */
  datatype ResultState = Run | NotRun | Cached | DryRunState

  datatype Conclusion = Allow | Deny | Error

  /** Why a rule or a decision concluded as it did. */
  datatype Reason =
    | NoReason
    | ErrorReason(error: Value)
    | RateLimitReason(max: int, remaining: int, reset: int, window: int)
    | SensitiveInfoReason(denied: nat)
    | EmailReason(emailTypes: seq<string>)
    | BotReason(denied: nat)
    | ShieldReason(triggered: bool)
    | FilterReason(allowed: bool)

  datatype RuleResult = RuleResult(
    ruleId: string,
    fingerprint: string,
    ttl: int,
    state: ResultState,
    conclusion: Conclusion,
    reason: Reason)

  /** The configuration of a rule: its type, algorithm and own options. */
  datatype Config =
    | TokenBucketConfig(refillRate: Value, interval: Value, capacity: Value)
    | FixedWindowConfig(max: Value, window: Value)
    | SlidingWindowConfig(max: Value, interval: Value)
    | SensitiveInfoConfig(allow: Value, deny: Value, contextWindowSize: Value, detect: Value)
    | EmailConfig(allow: Value, deny: Value, requireTopLevelDomain: Value, allowDomainLiteral: Value,
                  tag: string, entries: Value)
    | BotConfig(allow: Value, deny: Value, tag: string, entities: Value)
    | ShieldConfig
    | FilterConfig(allowList: seq<Value>, denyList: seq<Value>, state: ResultState)

  datatype Rule = Rule(priority: int, mode: Mode, characteristics: Option<seq<Value>>, config: Config)

  /** What a rule constructor does: return its rules or throw. */
  datatype Construction = Built(rules: seq<Rule>) | Failed(error: Value)

  /** `rule.type === "RATE_LIMIT"` */
  predicate IsRateLimit(rule: Rule) {
    rule.config.TokenBucketConfig? || rule.config.FixedWindowConfig? || rule.config.SlidingWindowConfig?
  }

  /** `options.mode === "LIVE" ? "LIVE" : "DRY_RUN"` */
  function ModeOf(options: map<string, Value>): Mode {
    if Get(options, "mode") == Str("LIVE") then Live else DryRun
  }

  /** The state of a result that a rule computed itself. */
  function StateOf(mode: Mode): (s: ResultState)
    ensures s == Run <==> mode.Live?
    ensures s == DryRunState <==> mode.DryRun?
  {
    match mode
    case Live => Run
    case DryRun => DryRunState
  }

  /** `Array.isArray(options.characteristics) ? options.characteristics : undefined` */
  function CharacteristicsOf(options: map<string, Value>): Option<seq<Value>> {
    var c := Get(options, "characteristics");
    if c.Arr? then Some(c.items) else None
  }

  /** A constructor's options check, then the rule it builds when the check passes. */
  function Checked(checked: Completion, rule: Rule): Construction {
    match checked
    case Throw(err) => Failed(err)
    case Normal(_) => Built([rule])
  }

  function TokenBucket(options: map<string, Value>): Construction {
    Checked(ValidateOptions("tokenBucket", TokenBucketValidations, options),
      Rule(PriorityRateLimit, ModeOf(options), CharacteristicsOf(options),
        TokenBucketConfig(Get(options, "refillRate"), Get(options, "interval"), Get(options, "capacity"))))
  }

  function FixedWindow(options: map<string, Value>): Construction {
    Checked(ValidateOptions("fixedWindow", FixedWindowValidations, options),
      Rule(PriorityRateLimit, ModeOf(options), CharacteristicsOf(options),
        FixedWindowConfig(Get(options, "max"), Get(options, "window"))))
  }

  function SlidingWindow(options: map<string, Value>): Construction {
    Checked(ValidateOptions("slidingWindow", SlidingWindowValidations, options),
      Rule(PriorityRateLimit, ModeOf(options), CharacteristicsOf(options),
        SlidingWindowConfig(Get(options, "max"), Get(options, "interval"))))
  }

  function Shield(options: map<string, Value>): Construction {
    Checked(ValidateOptions("shield", ShieldValidations, options),
      Rule(PriorityShield, ModeOf(options), None, ShieldConfig))
  }

  function SensitiveInfo(options: map<string, Value>): Construction {
    match ValidateOptions("sensitiveInfo", SensitiveInfoValidations, options)
    case Throw(err) => Failed(err)
    case Normal(_) =>
      var allow := Get(options, "allow");
      var deny := Get(options, "deny");
      if Defined(allow) && Defined(deny) then
        Failed(NewError(SensitiveInfoBothError))
      else if !Defined(allow) && !Defined(deny) then
        Failed(NewError(SensitiveInfoNeitherError))
      else
        Built([Rule(PrioritySensitiveInfo, ModeOf(options), None,
          SensitiveInfoConfig(Or(allow, Arr([])), Or(deny, Arr([])),
            Get(options, "contextWindowSize"), Get(options, "detect")))])
  }

  /** The analysis configuration of an email rule: the tag of the last list given, and that list. */
  function EmailTag(options: map<string, Value>): (string, Value) {
    if Defined(Get(options, "block")) then ("deny-email-validation-config", Get(options, "block"))
    else if Defined(Get(options, "deny")) then ("deny-email-validation-config", Get(options, "deny"))
    else if Defined(Get(options, "allow")) then ("allow-email-validation-config", Get(options, "allow"))
    else ("deny-email-validation-config", Arr([]))
  }

  function ValidateEmail(options: map<string, Value>): Construction {
    match ValidateOptions("validateEmail", EmailValidations, options)
    case Throw(err) => Failed(err)
    case Normal(_) =>
      var allow := Get(options, "allow");
      var deny := Get(options, "deny");
      var block := Get(options, "block");
      if Defined(allow) && Defined(deny) then
        Failed(NewError(EmailAllowDenyError))
      else if Defined(allow) && Defined(block) then
        Failed(NewError(EmailAllowBlockError))
      else if Defined(deny) && Defined(block) then
        Failed(NewError(EmailDenyBlockError))
      else if !Defined(allow) && !Defined(deny) && !Defined(block) then
        Failed(NewError(EmailNoneError))
      else
        var (tag, entries) := EmailTag(options);
        Built([Rule(PriorityEmailValidation, ModeOf(options), None,
          EmailConfig(Coalesce(allow, Arr([])), Coalesce(deny, Coalesce(block, Arr([]))),
            Coalesce(Get(options, "requireTopLevelDomain"), Bool(true)),
            Coalesce(Get(options, "allowDomainLiteral"), Bool(false)),
            tag, entries))])
  }

  function DetectBot(options: map<string, Value>): Construction {
    match ValidateOptions("detectBot", BotValidations, options)
    case Throw(err) => Failed(err)
    case Normal(_) =>
      var allow := Get(options, "allow");
      var deny := Get(options, "deny");
      if Defined(allow) && Defined(deny) then
        Failed(NewError(BotBothError))
      else if !Defined(allow) && !Defined(deny) then
        Failed(NewError(BotNeitherError))
      else
        var (tag, entities) :=
          if Defined(deny) then ("denied-bot-config", deny) else ("allowed-bot-config", allow);
        Built([Rule(PriorityBotDetection, ModeOf(options), None,
          BotConfig(Coalesce(allow, Arr([])), Coalesce(deny, Arr([])), tag, entities))])
  }

  /** `value ?? []` for a value that the options validator accepted as an array or nothing. */
  function ListOrEmpty(v: Value): seq<Value> {
    if v.Arr? then v.items else []
  }

  function Filter(options: map<string, Value>): Construction {
    match ValidateOptions("filter", FilterValidations, options)
    case Throw(err) => Failed(err)
    case Normal(_) =>
      var allow := ListOrEmpty(Get(options, "allow"));
      var deny := ListOrEmpty(Get(options, "deny"));
      if |allow| > 0 && |deny| > 0 then
        Failed(NewError(FilterBothError))
      else if |allow| == 0 && |deny| == 0 then
        Failed(NewError(FilterNeitherError))
      else
        Built([Rule(PriorityFilter, ModeOf(options), None, FilterConfig(allow, deny, StateOf(ModeOf(options))))])
  }

  /** `[...slidingWindow(rateLimit), ...detectBot(bots), ...validateEmail(email)]` */
  function ProtectSignup(rateLimit: map<string, Value>, bots: map<string, Value>, email: map<string, Value>): Construction {
    match SlidingWindow(rateLimit)
    case Failed(err) => Failed(err)
    case Built(window) =>
      match DetectBot(bots)
      case Failed(err) => Failed(err)
      case Built(bot) =>
        match ValidateEmail(email)
        case Failed(err) => Failed(err)
        case Built(mail) => Built(window + bot + mail)
  }

  /** The constructors of the rule library, by name, for statements about all of them. */
  datatype Constructor =
    | TokenBucketRule | FixedWindowRule | SlidingWindowRule | ShieldRule
    | SensitiveInfoRule | EmailRule | BotRule | FilterRule

  function Construct(c: Constructor, options: map<string, Value>): Construction {
    match c
    case TokenBucketRule => TokenBucket(options)
    case FixedWindowRule => FixedWindow(options)
    case SlidingWindowRule => SlidingWindow(options)
    case ShieldRule => Shield(options)
    case SensitiveInfoRule => SensitiveInfo(options)
    case EmailRule => ValidateEmail(options)
    case BotRule => DetectBot(options)
    case FilterRule => Filter(options)
  }

  function ValidationsOf(c: Constructor): seq<Validation> {
    match c
    case TokenBucketRule => TokenBucketValidations
    case FixedWindowRule => FixedWindowValidations
    case SlidingWindowRule => SlidingWindowValidations
    case ShieldRule => ShieldValidations
    case SensitiveInfoRule => SensitiveInfoValidations
    case EmailRule => EmailValidations
    case BotRule => BotValidations
    case FilterRule => FilterValidations
  }

  function NameOf(c: Constructor): string {
    match c
    case TokenBucketRule => "tokenBucket"
    case FixedWindowRule => "fixedWindow"
    case SlidingWindowRule => "slidingWindow"
    case ShieldRule => "shield"
    case SensitiveInfoRule => "sensitiveInfo"
    case EmailRule => "validateEmail"
    case BotRule => "detectBot"
    case FilterRule => "filter"
  }

  function PriorityOf(c: Constructor): int {
    match c
    case TokenBucketRule => PriorityRateLimit
    case FixedWindowRule => PriorityRateLimit
    case SlidingWindowRule => PriorityRateLimit
    case ShieldRule => PriorityShield
    case SensitiveInfoRule => PrioritySensitiveInfo
    case EmailRule => PriorityEmailValidation
    case BotRule => PriorityBotDetection
    case FilterRule => PriorityFilter
  }

  /** The index of the `mode` entry in each constructor's validations. */
  function ModeEntry(c: Constructor): (i: nat)
    ensures i < |ValidationsOf(c)| && ValidationsOf(c)[i] == Validation("mode", false, ValidateMode)
  {
    if c == FilterRule then 2 else 0
  }

  /**
   * Every constructor first runs its options validator and throws what it
   * throws; a rule it builds is a single rule with the constructor's fixed
   * priority, whose mode is LIVE exactly when the option is the string
   * "LIVE" and DRY_RUN in every other case, an absent option included.
   */
  lemma ConstructionMeaning(c: Constructor, options: map<string, Value>)
    ensures ValidateOptions(NameOf(c), ValidationsOf(c), options).Throw? ==>
      Construct(c, options) == Failed(ValidateOptions(NameOf(c), ValidationsOf(c), options).error)
    ensures Construct(c, options).Built? ==>
      ValidateOptions(NameOf(c), ValidationsOf(c), options).Normal? &&
      |Construct(c, options).rules| == 1 &&
      Construct(c, options).rules[0].priority == PriorityOf(c) &&
      (Construct(c, options).rules[0].mode == Live <==> Get(options, "mode") == Str("LIVE")) &&
      (Construct(c, options).rules[0].mode == DryRun <==> Get(options, "mode") in {Undefined, Str("DRY_RUN")})
  {
    if Construct(c, options).Built? {
      AcceptedMode(NameOf(c), ValidationsOf(c), options, ModeEntry(c));
    }
  }

  /**
   * The constructors that have no list options succeed exactly when their
   * options are accepted; only rate-limit rules keep characteristics of
   * their own, and only when the option is an array.
   */
  lemma PlainConstructors(c: Constructor, options: map<string, Value>)
    requires c in {TokenBucketRule, FixedWindowRule, SlidingWindowRule, ShieldRule}
    ensures Construct(c, options).Built? <==> ValidateOptions(NameOf(c), ValidationsOf(c), options).Normal?
    ensures Construct(c, options).Built? ==>
      (IsRateLimit(Construct(c, options).rules[0]) <==> c != ShieldRule) &&
      (Construct(c, options).rules[0].characteristics.Some? <==>
        c != ShieldRule && Get(options, "characteristics").Arr?)
  {
  }

  /**
   * `sensitiveInfo` and `detectBot` build a rule exactly when their options
   * are accepted and precisely one of `allow` and `deny` is defined; the
   * missing list becomes empty.
   */
  lemma AllowDenyExclusive(c: Constructor, options: map<string, Value>)
    requires c in {SensitiveInfoRule, BotRule}
    ensures Construct(c, options).Built? <==>
      ValidateOptions(NameOf(c), ValidationsOf(c), options).Normal? &&
      (Defined(Get(options, "allow")) <==> !Defined(Get(options, "deny")))
    ensures Construct(c, options).Built? && !Defined(Get(options, "allow")) ==>
      Construct(c, options).rules[0].config.allow == Arr([])
    ensures Construct(c, options).Built? && !Defined(Get(options, "deny")) ==>
      Construct(c, options).rules[0].config.deny == Arr([])
  {
  }

  /**
   * `detectBot` configures the analysis with the list that was given:
   * "denied-bot-config" with the deny list, or "allowed-bot-config" with the
   * allow list.
   */
  lemma BotConfigTag(options: map<string, Value>)
    ensures DetectBot(options).Built? ==>
      var config := DetectBot(options).rules[0].config;
      (Defined(Get(options, "deny")) ==> config.tag == "denied-bot-config" && config.entities == Get(options, "deny")) &&
      (Defined(Get(options, "allow")) ==> config.tag == "allowed-bot-config" && config.entities == Get(options, "allow"))
  {
  }

  /**
   * `validateEmail` builds a rule exactly when its options are accepted and
   * precisely one of `allow`, `deny` and `block` is defined.
   */
  lemma EmailListsExclusive(options: map<string, Value>)
    ensures ValidateEmail(options).Built? <==>
      ValidateOptions("validateEmail", EmailValidations, options).Normal? &&
      ((Defined(Get(options, "allow")) && !Defined(Get(options, "deny")) && !Defined(Get(options, "block"))) ||
       (!Defined(Get(options, "allow")) && Defined(Get(options, "deny")) && !Defined(Get(options, "block"))) ||
       (!Defined(Get(options, "allow")) && !Defined(Get(options, "deny")) && Defined(Get(options, "block"))))
  {
  }

  /**
   * The email rule's defaults: the deny list is `deny`, else the deprecated
   * `block`; the analysis is configured with whichever list was given; a
   * top-level domain is required unless the option says otherwise, and a
   * domain literal is refused unless the option says otherwise.
   */
  lemma EmailDefaults(options: map<string, Value>)
    ensures ValidateEmail(options).Built? ==>
      var config := ValidateEmail(options).rules[0].config;
      config.requireTopLevelDomain.Bool? && config.allowDomainLiteral.Bool? &&
      (!Defined(Get(options, "requireTopLevelDomain")) ==> config.requireTopLevelDomain == Bool(true)) &&
      (Defined(Get(options, "requireTopLevelDomain")) ==> config.requireTopLevelDomain == Get(options, "requireTopLevelDomain")) &&
      (!Defined(Get(options, "allowDomainLiteral")) ==> config.allowDomainLiteral == Bool(false)) &&
      (Defined(Get(options, "allowDomainLiteral")) ==> config.allowDomainLiteral == Get(options, "allowDomainLiteral")) &&
      (Defined(Get(options, "block")) ==>
        config.deny == Get(options, "block") && config.allow == Arr([]) &&
        config.tag == "deny-email-validation-config" && config.entries == Get(options, "block")) &&
      (Defined(Get(options, "deny")) ==>
        config.deny == Get(options, "deny") && config.allow == Arr([]) &&
        config.tag == "deny-email-validation-config" && config.entries == Get(options, "deny")) &&
      (Defined(Get(options, "allow")) ==>
        config.deny == Arr([]) && config.allow == Get(options, "allow") &&
        config.tag == "allow-email-validation-config" && config.entries == Get(options, "allow"))
  {
    if ValidateEmail(options).Built? {
      AcceptedArray("validateEmail", EmailValidations, options, 1, ValueValidator(EmailTypeNames));
      AcceptedArray("validateEmail", EmailValidations, options, 2, ValueValidator(EmailTypeNames));
      AcceptedArray("validateEmail", EmailValidations, options, 3, ValueValidator(EmailTypeNames));
      AcceptedBoolean("validateEmail", EmailValidations, options, 4);
      AcceptedBoolean("validateEmail", EmailValidations, options, 5);
    }
  }

  /**
   * `filter` checks lengths, not definedness: it builds a rule exactly when
   * its options are accepted and precisely one of `allow` and `deny` holds
   * at least one expression, and the rule's result state follows its mode.
   */
  lemma FilterExclusive(options: map<string, Value>)
    ensures Filter(options).Built? <==>
      ValidateOptions("filter", FilterValidations, options).Normal? &&
      (|ListOrEmpty(Get(options, "allow"))| > 0 <==> |ListOrEmpty(Get(options, "deny"))| == 0)
    ensures Filter(options).Built? ==>
      var config := Filter(options).rules[0].config;
      (Get(options, "allow") == Arr(config.allowList) || (Get(options, "allow") == Undefined && config.allowList == [])) &&
      (Get(options, "deny") == Arr(config.denyList) || (Get(options, "deny") == Undefined && config.denyList == [])) &&
      (config.state == Run <==> Get(options, "mode") == Str("LIVE"))
  {
    if Filter(options).Built? {
      AcceptedArray("filter", FilterValidations, options, 0, ValidateString);
      AcceptedArray("filter", FilterValidations, options, 1, ValidateString);
    }
  }

  /**
   * `protectSignup` builds the sliding-window rule, the bot rule and the
   * email rule, in that order and so in ascending priority, or throws the
   * first error of the three constructors.
   */
  lemma ProtectSignupOrder(rateLimit: map<string, Value>, bots: map<string, Value>, email: map<string, Value>)
    ensures ProtectSignup(rateLimit, bots, email).Built? <==>
      SlidingWindow(rateLimit).Built? && DetectBot(bots).Built? && ValidateEmail(email).Built?
    ensures ProtectSignup(rateLimit, bots, email).Built? ==>
      var rules := ProtectSignup(rateLimit, bots, email).rules;
      |rules| == 3 && rules[0] == SlidingWindow(rateLimit).rules[0] &&
      rules[1] == DetectBot(bots).rules[0] && rules[2] == ValidateEmail(email).rules[0] &&
      rules[0].config.SlidingWindowConfig? && rules[1].config.BotConfig? && rules[2].config.EmailConfig? &&
      Sorted(rules)
    ensures SlidingWindow(rateLimit).Failed? ==> ProtectSignup(rateLimit, bots, email) == SlidingWindow(rateLimit)
    ensures SlidingWindow(rateLimit).Built? && DetectBot(bots).Failed? ==>
      ProtectSignup(rateLimit, bots, email) == DetectBot(bots)
    ensures SlidingWindow(rateLimit).Built? && DetectBot(bots).Built? && ValidateEmail(email).Failed? ==>
      ProtectSignup(rateLimit, bots, email) == ValidateEmail(email)
  {
  }

  // Sorting by priority. `Array.prototype.sort` is stable, so rules of equal
  // priority keep their relative order.

  predicate Sorted(rules: seq<Rule>) {
    forall i, j :: 0 <= i < j < |rules| ==> rules[i].priority <= rules[j].priority
  }

  /** The rules of one priority, in order. */
  function WithPriority(rules: seq<Rule>, p: int): seq<Rule>
    decreases |rules|
  {
    if |rules| == 0 then []
    else (if rules[0].priority == p then [rules[0]] else []) + WithPriority(rules[1..], p)
  }

  /** Insert `rule` before the first rule of the same or a higher priority. */
  function Insert(rule: Rule, sorted: seq<Rule>): seq<Rule>
    decreases |sorted|
  {
    if |sorted| == 0 || rule.priority <= sorted[0].priority then [rule] + sorted
    else [sorted[0]] + Insert(rule, sorted[1..])
  }

  /** `rules.sort((a, b) => a.priority - b.priority)` */
  function SortByPriority(rules: seq<Rule>): seq<Rule>
    decreases |rules|
  {
    if |rules| == 0 then [] else Insert(rules[0], SortByPriority(rules[1..]))
  }

  /** The tail of a sorted list is sorted. */
  lemma SortedTail(sorted: seq<Rule>)
    requires Sorted(sorted) && |sorted| > 0
    ensures Sorted(sorted[1..])
  {
    var tail := sorted[1..];
    forall i, j | 0 <= i < j < |tail| ensures tail[i].priority <= tail[j].priority {
      assert tail[i] == sorted[i + 1] && tail[j] == sorted[j + 1];
    }
  }

  /** Inserting into a sorted list keeps it sorted. */
  lemma {:induction false} InsertSorted(rule: Rule, sorted: seq<Rule>)
    requires Sorted(sorted)
    ensures Sorted(Insert(rule, sorted))
    ensures forall k :: 0 <= k < |Insert(rule, sorted)| ==>
      Insert(rule, sorted)[k].priority >= rule.priority ||
      (|sorted| > 0 && Insert(rule, sorted)[k].priority >= sorted[0].priority)
    decreases |sorted|
  {
    if |sorted| == 0 || rule.priority <= sorted[0].priority {
      var r := [rule] + sorted;
      forall i, j | 0 <= i < j < |r| ensures r[i].priority <= r[j].priority {
        assert r[j] == sorted[j - 1];
        if i > 0 { assert r[i] == sorted[i - 1]; }
      }
    } else {
      var tail := sorted[1..];
      SortedTail(sorted);
      InsertSorted(rule, tail);
      var inner := Insert(rule, tail);
      var r := [sorted[0]] + inner;
      forall i, j | 0 <= i < j < |r| ensures r[i].priority <= r[j].priority {
        assert r[j] == inner[j - 1];
        if i > 0 {
          assert r[i] == inner[i - 1];
        } else if |tail| > 0 {
          assert tail[0] == sorted[1];
        }
      }
    }
  }

  lemma {:induction false} InsertMultiset(rule: Rule, sorted: seq<Rule>)
    ensures multiset(Insert(rule, sorted)) == multiset(sorted) + multiset{rule}
    decreases |sorted|
  {
    if |sorted| > 0 && rule.priority > sorted[0].priority {
      InsertMultiset(rule, sorted[1..]);
      assert sorted == [sorted[0]] + sorted[1..];
    }
  }

  lemma WithPriorityCons(rule: Rule, rules: seq<Rule>, p: int)
    ensures WithPriority([rule] + rules, p) == (if rule.priority == p then [rule] else []) + WithPriority(rules, p)
  {
    assert ([rule] + rules)[1..] == rules;
  }

  /** Inserting a rule adds it to the rules of its own priority, ahead of them. */
  lemma {:induction false} InsertWithPriority(rule: Rule, rules: seq<Rule>, p: int)
    ensures WithPriority(Insert(rule, rules), p) ==
      (if rule.priority == p then [rule] else []) + WithPriority(rules, p)
    decreases |rules|
  {
    if |rules| == 0 || rule.priority <= rules[0].priority {
      WithPriorityCons(rule, rules, p);
    } else {
      var tail := rules[1..];
      InsertWithPriority(rule, tail, p);
      WithPriorityCons(rules[0], Insert(rule, tail), p);
      if rules[0].priority == p {
        assert rule.priority != p;
      }
    }
  }

  lemma {:induction false} SortIsSorted(rules: seq<Rule>)
    ensures Sorted(SortByPriority(rules))
    decreases |rules|
  {
    if |rules| > 0 {
      SortIsSorted(rules[1..]);
      InsertSorted(rules[0], SortByPriority(rules[1..]));
    }
  }

  lemma {:induction false} SortIsPermutation(rules: seq<Rule>)
    ensures multiset(SortByPriority(rules)) == multiset(rules)
    decreases |rules|
  {
    if |rules| > 0 {
      SortIsPermutation(rules[1..]);
      InsertMultiset(rules[0], SortByPriority(rules[1..]));
      assert rules == [rules[0]] + rules[1..];
    }
  }

  lemma {:induction false} SortIsStable(rules: seq<Rule>, p: int)
    ensures WithPriority(SortByPriority(rules), p) == WithPriority(rules, p)
    decreases |rules|
  {
    if |rules| > 0 {
      SortIsStable(rules[1..], p);
      InsertWithPriority(rules[0], SortByPriority(rules[1..]), p);
    }
  }

  /**
   * Sorting by priority orders the rules ascending, keeps every rule, and
   * keeps the rules of each priority in their original order.
   */
  lemma SortByPriorityMeaning(rules: seq<Rule>)
    ensures Sorted(SortByPriority(rules))
    ensures multiset(SortByPriority(rules)) == multiset(rules)
    ensures forall p :: WithPriority(SortByPriority(rules), p) == WithPriority(rules, p)
  {
    SortIsSorted(rules);
    SortIsPermutation(rules);
    forall p ensures WithPriority(SortByPriority(rules), p) == WithPriority(rules, p) {
      SortIsStable(rules, p);
    }
  }

  /** A list already in ascending priority is left as it is. */
  lemma {:induction false} SortSortedIsIdentity(rules: seq<Rule>)
    requires Sorted(rules)
    ensures SortByPriority(rules) == rules
    decreases |rules|
  {
    if |rules| > 0 {
      var tail := rules[1..];
      assert Sorted(tail) by {
        forall i, j | 0 <= i < j < |tail| ensures tail[i].priority <= tail[j].priority {
          assert tail[i] == rules[i + 1] && tail[j] == rules[j + 1];
        }
      }
      SortSortedIsIdentity(tail);
      if |tail| > 0 {
        assert rules[0].priority <= tail[0].priority by { assert tail[0] == rules[1]; }
      }
      assert rules == [rules[0]] + tail;
    }
  }

  /** `rules.flat(1)` */
  function Flatten(rules: seq<seq<Rule>>): (flat: seq<Rule>)
    decreases |rules|
  {
    if |rules| == 0 then [] else rules[0] + Flatten(rules[1..])
  }

  /** Every rule of every list appears in the flattened list, and nothing else. */
  lemma {:induction false} FlattenMeaning(rules: seq<seq<Rule>>)
    ensures forall rule :: rule in Flatten(rules) <==> exists i :: 0 <= i < |rules| && rule in rules[i]
    ensures |Flatten(rules)| == SumOfLengths(rules)
    decreases |rules|
  {
    if |rules| > 0 {
      FlattenMeaning(rules[1..]);
      forall rule ensures rule in Flatten(rules) <==> exists i :: 0 <= i < |rules| && rule in rules[i] {
        if rule in Flatten(rules[1..]) {
          var i :| 0 <= i < |rules[1..]| && rule in rules[1..][i];
          assert rule in rules[i + 1];
        }
        if exists i :: 0 <= i < |rules| && rule in rules[i] {
          var i :| 0 <= i < |rules| && rule in rules[i];
          if i > 0 { assert rule in rules[1..][i - 1]; }
        }
      }
    }
  }

  function SumOfLengths(rules: seq<seq<Rule>>): nat
    decreases |rules|
  {
    if |rules| == 0 then 0 else |rules[0]| + SumOfLengths(rules[1..])
  }

  /** The rules an `arcjet({rules})` client starts with. */
  function RootRules(rules: seq<seq<Rule>>): seq<Rule> {
    SortByPriority(Flatten(rules))
  }

  /**
   * A client configured with the rules of `protectSignup` alone runs them in
   * the order `protectSignup` gave them.
   */
  lemma SignupRootRules(rateLimit: map<string, Value>, bots: map<string, Value>, email: map<string, Value>)
    requires ProtectSignup(rateLimit, bots, email).Built?
    ensures RootRules([ProtectSignup(rateLimit, bots, email).rules]) == ProtectSignup(rateLimit, bots, email).rules
  {
    var rules := ProtectSignup(rateLimit, bots, email).rules;
    ProtectSignupOrder(rateLimit, bots, email);
    assert Flatten([rules]) == rules + Flatten([]);
    assert rules + [] == rules;
    SortSortedIsIdentity(rules);
  }

  /** The rules of `withRule(baseRules, rule)`. */
  function WithRule(baseRules: seq<Rule>, rule: seq<Rule>): seq<Rule> {
    SortByPriority(baseRules + rule)
  }

  /**
   * Adding rules with `withRule` gives the base rules and the added ones in
   * ascending priority, with the base rules of each priority ahead of the
   * added ones of the same priority.
   */
  lemma WithRuleMeaning(baseRules: seq<Rule>, rule: seq<Rule>)
    ensures Sorted(WithRule(baseRules, rule))
    ensures multiset(WithRule(baseRules, rule)) == multiset(baseRules) + multiset(rule)
    ensures forall p :: WithPriority(WithRule(baseRules, rule), p) == WithPriority(baseRules, p) + WithPriority(rule, p)
  {
    SortByPriorityMeaning(baseRules + rule);
    forall p ensures WithPriority(baseRules + rule, p) == WithPriority(baseRules, p) + WithPriority(rule, p) {
      WithPriorityAppend(baseRules, rule, p);
    }
  }

  lemma {:induction false} WithPriorityAppend(a: seq<Rule>, b: seq<Rule>, p: int)
    ensures WithPriority(a + b, p) == WithPriority(a, p) + WithPriority(b, p)
    decreases |a|
  {
    if |a| > 0 {
      assert (a + b)[1..] == a[1..] + b;
      WithPriorityAppend(a[1..], b, p);
    } else {
      assert a + b == b;
    }
  }

  // The local `protect` step of each built-in rule.

  /** A cached decision: what `cache.get(ruleId, fingerprint)` returned. */
  datatype CacheEntry = CacheEntry(conclusion: Conclusion, reason: Reason)

  datatype Lookup = Miss | Hit(entry: CacheEntry, ttl: int)

  /** What the local analysis answered, for the rules that run one. */
  datatype Analysis =
    | NotAnalysed
    | BodyUnreadable
    | SensitiveFound(deniedCount: nat)
    | EmailChecked(valid: bool, blocked: seq<string>)
    | BotsFound(deniedCount: nat)
    | FiltersMatched(allowed: bool)
    | FiltersFailed(error: Value)

  /** `isEmailType(type)` */
  predicate IsEmailType(t: string) {
    t == "FREE" || t == "DISPOSABLE" || t == "NO_MX_RECORDS" || t == "NO_GRAVATAR" || t == "INVALID"
  }

  /** The email types are exactly the values the email-type validator accepts. */
  lemma EmailTypesAgree(t: string)
    ensures IsEmailType(t) <==> t in EmailTypeNames
  {
  }

  /** `blocked.filter(isEmailType)` */
  function EmailTypes(blocked: seq<string>): seq<string>
    decreases |blocked|
  {
    if |blocked| == 0 then []
    else (if IsEmailType(blocked[0]) then [blocked[0]] else []) + EmailTypes(blocked[1..])
  }

  /** Filtering keeps exactly the email types among the blocked reasons. */
  lemma {:induction false} EmailTypesMeaning(blocked: seq<string>)
    ensures forall t :: t in EmailTypes(blocked) <==> t in blocked && IsEmailType(t)
    ensures |EmailTypes(blocked)| <= |blocked|
    decreases |blocked|
  {
    if |blocked| > 0 {
      EmailTypesMeaning(blocked[1..]);
      assert blocked == [blocked[0]] + blocked[1..];
    }
  }

  /** The analysis a rule's `protect` step consults. */
  predicate Fits(rule: Rule, analysis: Analysis) {
    match rule.config
    case SensitiveInfoConfig(_, _, _, _) => analysis.BodyUnreadable? || analysis.SensitiveFound?
    case EmailConfig(_, _, _, _, _, _) => analysis.EmailChecked?
    case BotConfig(_, _, _, _) => analysis.BotsFound?
    case FilterConfig(_, _, _) => analysis.FiltersMatched? || analysis.FiltersFailed?
    case _ => analysis.NotAnalysed?
  }

  /**
   * The `protect` step of a built-in rule, given the rule's identifier and
   * fingerprint, the cache lookup and the analysis answer.
   */
  function LocalProtect(rule: Rule, ruleId: string, fingerprint: string, lookup: Lookup, analysis: Analysis): RuleResult
    requires Fits(rule, analysis)
  {
    var state := StateOf(rule.mode);
    match rule.config
    case TokenBucketConfig(_, _, _) => RateLimitProtect(ruleId, fingerprint, lookup)
    case FixedWindowConfig(_, _) => RateLimitProtect(ruleId, fingerprint, lookup)
    case SlidingWindowConfig(_, _) => RateLimitProtect(ruleId, fingerprint, lookup)
    case SensitiveInfoConfig(_, _, _, _) =>
      if analysis.BodyUnreadable? then
        RuleResult(ruleId, fingerprint, 0, NotRun, Error,
          ErrorReason(Str(BodyUnreadableError)))
      else
        RuleResult(ruleId, fingerprint, 0, state, if analysis.deniedCount == 0 then Allow else Deny,
          SensitiveInfoReason(analysis.deniedCount))
    case EmailConfig(_, _, _, _, _, _) =>
      if analysis.valid then RuleResult(ruleId, fingerprint, 0, state, Allow, EmailReason([]))
      else RuleResult(ruleId, fingerprint, 0, state, Deny, EmailReason(EmailTypes(analysis.blocked)))
    case BotConfig(_, _, _, _) =>
      if lookup.Hit? then RuleResult(ruleId, fingerprint, lookup.ttl, Cached, lookup.entry.conclusion, lookup.entry.reason)
      else if analysis.deniedCount > 0 then RuleResult(ruleId, fingerprint, 60, state, Deny, BotReason(analysis.deniedCount))
      else RuleResult(ruleId, fingerprint, 0, state, Allow, BotReason(analysis.deniedCount))
    case ShieldConfig =>
      if lookup.Hit? then RuleResult(ruleId, fingerprint, lookup.ttl, Cached, lookup.entry.conclusion, lookup.entry.reason)
      else RuleResult(ruleId, fingerprint, 0, NotRun, Allow, ShieldReason(false))
    case FilterConfig(_, _, filterState) =>
      if lookup.Hit? then RuleResult(ruleId, fingerprint, lookup.ttl, Cached, lookup.entry.conclusion, lookup.entry.reason)
      else if analysis.FiltersFailed? then RuleResult(ruleId, fingerprint, 0, filterState, Error, ErrorReason(analysis.error))
      else if analysis.allowed then RuleResult(ruleId, fingerprint, 0, filterState, Allow, FilterReason(true))
      else RuleResult(ruleId, fingerprint, 60, filterState, Deny, FilterReason(false))
  }

  /**
   * The local step of a rate-limit rule: a cached rate-limit decision, with
   * its reset rebuilt from the remaining time to live, or else NOT_RUN/ALLOW
   * for the remote decision to settle.
   */
  function RateLimitProtect(ruleId: string, fingerprint: string, lookup: Lookup): RuleResult {
    if lookup.Hit? && lookup.entry.reason.RateLimitReason? then
      var cached := lookup.entry.reason;
      RuleResult(ruleId, fingerprint, lookup.ttl, Cached, lookup.entry.conclusion,
        RateLimitReason(cached.max, cached.remaining, lookup.ttl, cached.window))
    else
      RuleResult(ruleId, fingerprint, 0, NotRun, Allow, RateLimitReason(0, 0, 0, 0))
  }

  /** A result that ends the walk over the rules: a DENY that is not a dry run. */
  predicate Stops(result: RuleResult) {
    result.conclusion == Deny && result.state != DryRunState
  }

  /**
   * What a built-in rule's own step can conclude. A result not taken from
   * the cache carries the rule's own identifier and fingerprint; it denies
   * exactly when the rule's analysis denies, only with a RUN or DRY_RUN state
   * that follows the rule's mode, and it stops the walk only for a LIVE
   * rule. Only bot and filter denials carry a time to live, of 60 seconds.
   */
  lemma LocalProtectMeaning(rule: Rule, ruleId: string, fingerprint: string, lookup: Lookup, analysis: Analysis)
    requires Fits(rule, analysis)
    requires rule.config.FilterConfig? ==> rule.config.state == StateOf(rule.mode)
    ensures LocalProtect(rule, ruleId, fingerprint, lookup, analysis).ruleId == ruleId
    ensures LocalProtect(rule, ruleId, fingerprint, lookup, analysis).fingerprint == fingerprint
    ensures LocalProtect(rule, ruleId, fingerprint, lookup, analysis).state == Cached ==>
      lookup.Hit? && !rule.config.SensitiveInfoConfig? && !rule.config.EmailConfig?
    ensures LocalProtect(rule, ruleId, fingerprint, lookup, analysis).state != Cached ==>
      var r := LocalProtect(rule, ruleId, fingerprint, lookup, analysis);
      (r.conclusion == Deny ==> r.state == StateOf(rule.mode) && !IsRateLimit(rule) && !rule.config.ShieldConfig?) &&
      (Stops(r) <==> r.conclusion == Deny && rule.mode == Live) &&
      (r.ttl != 0 ==> r.ttl == 60 && r.conclusion == Deny && (rule.config.BotConfig? || rule.config.FilterConfig?))
    ensures LocalProtect(rule, ruleId, fingerprint, lookup, analysis).state != Cached ==>
      (LocalProtect(rule, ruleId, fingerprint, lookup, analysis).conclusion == Deny <==>
        (analysis.SensitiveFound? && analysis.deniedCount > 0) || (analysis.EmailChecked? && !analysis.valid) ||
        (analysis.BotsFound? && analysis.deniedCount > 0) || (analysis.FiltersMatched? && !analysis.allowed))
  {
  }

  /** An email denial reports only email types, each one among the blocked reasons the analysis gave. */
  lemma EmailDenialReasons(rule: Rule, ruleId: string, fingerprint: string, lookup: Lookup, analysis: Analysis)
    requires rule.config.EmailConfig? && Fits(rule, analysis)
    ensures LocalProtect(rule, ruleId, fingerprint, lookup, analysis).reason.EmailReason?
    ensures forall t :: t in LocalProtect(rule, ruleId, fingerprint, lookup, analysis).reason.emailTypes ==>
      t in EmailTypeNames && t in analysis.blocked
    ensures LocalProtect(rule, ruleId, fingerprint, lookup, analysis).conclusion == Allow <==> analysis.valid
  {
    EmailTypesMeaning(analysis.blocked);
  }
}
