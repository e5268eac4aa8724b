/** The policy decision that gates every operation. */
module Policy {
  import opened Results
  import opened Rbac

  const DAY := 1440
  const WEEK := 10080

  type Weekday = d: int | 0 <= d < 7

  type Minute = m: int | 0 <= m < 1440

  /** The weekday and minute of day a clock shows. */
  datatype LocalTime = LocalTime(day: Weekday, minute: Minute)

  /** What the clocks of the known time zones show; a zone that is absent does not load. */
  type Clocks = map<string, LocalTime>

  /** A weekly maintenance window; a time that does not parse is None. */
  datatype Window = Window(days: seq<int>, start: Option<Minute>, end: Option<Minute>, timezone: string)

  /**
   * The weekly reading of a window: on each listed weekday it opens at `start` and stays open until
   * `end` next comes round, and the week wraps around.
   */
  predicate Open(w: Window, clocks: Clocks) {
    && w.timezone in clocks && w.start.Some? && w.end.Some?
    && exists i :: 0 <= i < |w.days| && 0 <= w.days[i] < 7
         && OpenFrom(w.days[i], w.start.value, w.end.value, clocks[w.timezone])
  }

  predicate OpenFrom(day: Weekday, start: Minute, end: Minute, t: LocalTime) {
    var length := if end < start then end - start + DAY else end - start;
    (t.day * DAY + t.minute - (day * DAY + start)) % WEEK < length
  }

  /** The membership test as the program computes it, by comparing minutes of the day. */
  method Contains(w: Window, clocks: Clocks) returns (inside: bool)
    ensures inside <==> Open(w, clocks)
  {
    if w.timezone !in clocks || w.start.None? || w.end.None? {
      return false;
    }
    var t := clocks[w.timezone];
    var m, a, b := t.minute, w.start.value, w.end.value;
    var day: int := t.day;
    if a > b && m < b {
      day := (day + 6) % 7;
    }
    var timely := if a > b then m >= a || m < b else m >= a && m < b;
    var found := false;
    for i := 0 to |w.days|
      invariant found <==> exists j :: 0 <= j < i && w.days[j] == day
    {
      if w.days[i] == day {
        found := true;
      }
    }
    forall d: Weekday ensures OpenFrom(d, a, b, t) <==> d == day && timely {
      SameDay(d, day, a, b, t, timely);
    }
    if !found {
      return false;
    }
    return timely;
  }

  lemma {:induction false} SameDay(d: Weekday, day: Weekday, a: Minute, b: Minute, t: LocalTime, timely: bool)
    requires day == if a > b && t.minute < b then (t.day + 6) % 7 else t.day
    requires timely == if a > b then t.minute >= a || t.minute < b else t.minute >= a && t.minute < b
    ensures OpenFrom(d, a, b, t) <==> d == day && timely
  {
    var x := t.day * DAY + t.minute - (d * DAY + a);
    assert -WEEK < x < WEEK;
    assert x % WEEK == if x < 0 then x + WEEK else x;
  }

  /** The clock some minutes later. */
  function Later(t: LocalTime, minutes: nat): LocalTime {
    var m := t.day * DAY + t.minute + minutes;
    LocalTime(m / DAY % 7, m % DAY)
  }

  /**
   * A window by the clock on the wall: it opens at `start` on its day and stays open until the clock
   * first shows `end`. Every moment of the week is some number of minutes after the opening.
   */
  lemma {:induction false} OpenUntilEnd(day: Weekday, start: Minute, end: Minute, k: nat)
    requires k < WEEK
    ensures OpenFrom(day, start, end, Later(LocalTime(day, start), k)) <==>
              forall j: nat :: j <= k ==> Later(LocalTime(day, start), j).minute != end
  {
    var length := if end < start then end - start + DAY else end - start;
    var t := LocalTime(day, start);
    forall j: nat | j < length ensures Later(t, j).minute != end {
      MinuteLater(day, start, j);
    }
    MinuteLater(day, start, length);
    LaterInWeek(day, start, k);
  }

  /** The clock shows a moment that a window's day leads up to, without having shown its end. */
  ghost predicate Within(day: Weekday, start: Minute, end: Minute, t: LocalTime, k: nat) {
    Later(LocalTime(day, start), k) == t && forall j: nat :: j <= k ==> Later(LocalTime(day, start), j).minute != end
  }

  /**
   * When a window is open: its zone is known, its times parse, and on one of its days, less than a
   * week ago, the clock showed its start and has not shown its end since.
   */
  lemma {:induction false} WindowMeans(w: Window, clocks: Clocks)
    ensures Open(w, clocks) <==>
              && w.timezone in clocks && w.start.Some? && w.end.Some?
              && exists day: Weekday, k: nat ::
                   day in w.days && k < WEEK && Within(day, w.start.value, w.end.value, clocks[w.timezone], k)
  {
    if w.timezone in clocks && w.start.Some? && w.end.Some? {
      var t, a, b := clocks[w.timezone], w.start.value, w.end.value;
      forall day: Weekday ensures OpenFrom(day, a, b, t) <==> exists k: nat :: k < WEEK && Within(day, a, b, t, k) {
        OpenWithin(day, a, b, t);
      }
      hide OpenFrom, Within;
      assert forall day: Weekday :: day in w.days <==> exists i :: 0 <= i < |w.days| && w.days[i] == day;
    }
  }

  lemma {:induction false} OpenWithin(day: Weekday, start: Minute, end: Minute, t: LocalTime)
    ensures OpenFrom(day, start, end, t) <==> exists k: nat :: k < WEEK && Within(day, start, end, t, k)
  {
    var k := (t.day * DAY + t.minute - (day * DAY + start)) % WEEK;
    Reaches(day, start, t);
    OpenUntilEnd(day, start, end, k);
    hide OpenFrom, Later;
    if OpenFrom(day, start, end, t) {
      assert Within(day, start, end, t, k);
    }
    if i: nat :| i < WEEK && Within(day, start, end, t, i) {
      OpenUntilEnd(day, start, end, i);
    }
  }

  /** Every moment of the week is that many minutes later. */
  lemma {:induction false} Reaches(day: Weekday, start: Minute, t: LocalTime)
    ensures var k := (t.day * DAY + t.minute - (day * DAY + start)) % WEEK; Later(LocalTime(day, start), k) == t
  {
    var d := t.day * DAY + t.minute - (day * DAY + start);
    assert -WEEK < d < WEEK;
    var m := day * DAY + start + d % WEEK;
    assert m == t.day * DAY + t.minute || m == t.day * DAY + t.minute + WEEK;
  }

  lemma {:induction false} MinuteLater(day: Weekday, start: Minute, j: nat)
    requires j < 2 * DAY
    ensures Later(LocalTime(day, start), j).minute ==
              if start + j < DAY then start + j else if start + j < 2 * DAY then start + j - DAY
                  else start + j - 2 * DAY
  {
    assert (day * DAY + start + j) % DAY == (start + j) % DAY;
  }

  lemma {:induction false} LaterInWeek(day: Weekday, start: Minute, k: nat)
    requires k < WEEK
    ensures var t := Later(LocalTime(day, start), k); (t.day * DAY + t.minute - (day * DAY + start)) % WEEK == k
  {
    var m := day * DAY + start + k;
    assert m == (m / DAY) * DAY + m % DAY;
    var t := Later(LocalTime(day, start), k);
    assert t.day * DAY + t.minute == if m < WEEK then m else m - WEEK;
  }

  datatype Host = Host(
    id: string, hostname: string, port: int, username: string, authMethod: string, secretId: string,
    fingerprint: string, environment: string, groups: seq<string>, enabled: bool, bastionId: string)

  datatype Resource = Resource(
    id: string, hostId: string, kind: string, provider: string, externalId: string, namespace: string,
    state: string, project: string, service: string)

  datatype Rule = Rule(
    id: string, environment: string, action: string, role: string, userId: string, hostId: string, group: string,
    resourceId: string, risk: string, deny: bool, approval: bool, requireMfa: bool, allowAgent: bool,
    window: Option<Window>)

  datatype Input = Input(
    principal: Principal, resource: Resource, host: Host, action: string, agent: bool, mode: string, clocks: Clocks)

  datatype Decision = Decision(allowed: bool, approval: bool, risk: string, reason: string)

  function Risk(action: string): string {
    if action in ["delete", "down", "recreate", "deploy", "run", "stop", "rollback", "create"] then "high"
    else if action in ["restart", "scale", "reload", "pause"] then "medium"
    else "low"
  }

  predicate ReadOnly(action: string) {
    action in ["logs", "inspect", "stats", "describe", "events", "status", "rollout_status", "rollout_history"]
  }

  predicate Matches(r: Rule, input: Input) {
    MatchesRequest(r, input) && MatchesTarget(r, input)
  }

  predicate MatchesRequest(r: Rule, input: Input) {
    && (r.environment == "" || r.environment == input.host.environment)
    && (r.action == "" || r.action == "*" || r.action == input.action)
    && (r.role == "" || r.role == input.principal.user.role)
    && (r.userId == "" || r.userId == input.principal.user.id)
  }

  predicate MatchesTarget(r: Rule, input: Input) {
    && (r.hostId == "" || r.hostId == input.host.id)
    && (r.resourceId == "" || r.resourceId == input.resource.id)
    && (r.group == "" || r.group in input.host.groups)
    && (r.risk == "" || r.risk == Risk(input.action))
  }

  /** Why a matching rule refuses, if it does. */
  function Objection(r: Rule, input: Input): Option<string> {
    if r.deny then Some("policy denied: " + r.id)
    else if r.requireMfa && !input.principal.mfa then Some("policy requires MFA")
    else if r.window.Some? && !Open(r.window.value, input.clocks) then Some("outside maintenance window")
    else None
  }

  predicate Blocks(r: Rule, input: Input) {
    Matches(r, input) && Objection(r, input).Some?
  }

  /** Why the request is refused before any rule is read, if it is. */
  function BaseObjection(input: Input): Option<string> {
    if !Allowed(input.principal, Permission(input.resource.provider, input.action), input.host.environment) then
        Some("RBAC denied")
    else if !input.host.enabled then Some("host disabled")
    else if input.principal.user.forcePassword then Some("password change required")
    else if input.principal.user.mfaRequired && !input.principal.mfa then Some("MFA required")
    else if input.agent && (input.mode == "DISABLED" || input.mode == "ADVISORY") then
        Some("agent mode does not allow mutation")
    else None
  }

  predicate BaseApproval(input: Input) {
    (input.host.environment == "production" && !ReadOnly(input.action)) || (input.agent && input.mode == "ASSISTED")
  }

  predicate Automated(input: Input) {
    input.agent && input.mode == "AUTOMATED_POLICY_CONTROLLED"
  }

  /** The first rule that refuses, or the number of rules. */
  function FirstBlock(input: Input, rules: seq<Rule>): (n: nat)
    ensures n <= |rules|
    ensures forall i :: 0 <= i < n ==> !Blocks(rules[i], input)
    ensures n < |rules| ==> Blocks(rules[n], input)
  {
    if rules == [] || Blocks(rules[0], input) then 0 else
      var n := FirstBlock(input, rules[1..]);
      assert forall i :: 0 < i < |rules| ==> rules[i] == rules[1..][i - 1];
      n + 1
  }

  predicate AsksApproval(input: Input, rules: seq<Rule>) {
    exists i :: 0 <= i < |rules| && Matches(rules[i], input) && rules[i].approval
  }

  predicate AllowsAgent(input: Input, rules: seq<Rule>) {
    exists i :: 0 <= i < |rules| && Matches(rules[i], input) && rules[i].allowAgent
  }

  /** The decision: the first objection in reading order refuses, otherwise all matching rules add up. */
  function Decide(input: Input, rules: seq<Rule>): Decision {
    var risk := Risk(input.action);
    var base := BaseObjection(input);
    if base.Some? then Decision(false, false, risk, base.value) else
      var n := FirstBlock(input, rules);
      var approval := BaseApproval(input) || AsksApproval(input, rules[..n]);
      if n < |rules| then Decision(false, approval, risk, Objection(rules[n], input).value)
      else if Automated(input) && !AllowsAgent(input, rules) then
          Decision(false, approval, risk, "explicit automation policy required")
      else Decision(true, approval, risk, "authorized")
  }

  method Evaluate(input: Input, rules: seq<Rule>) returns (d: Decision)
    ensures d == Decide(input, rules)
  {
    hide Matches, Objection, BaseObjection, Risk, ReadOnly;
    var risk := Risk(input.action);
    var base := BaseRefusal(input);
    if base.Some? {
      return Decision(false, false, risk, base.value);
    }
    var approval := input.host.environment == "production" && !ReadOnly(input.action);
    if input.agent && input.mode == "ASSISTED" {
      approval := true;
    }
    var autoAllowed := false;
    for i := 0 to |rules|
      invariant i <= FirstBlock(input, rules)
      invariant approval <==> BaseApproval(input) || AsksApproval(input, rules[..i])
      invariant autoAllowed <==> AllowsAgent(input, rules[..i])
    {
      OneMoreRule(input, rules, i);
      hide AsksApproval, AllowsAgent;
      var r := rules[i];
      var applies := Applies(r, input, risk);
      if !applies {
        continue;
      }
      var refusal := Refusal(r, input);
      if refusal.Some? {
        return Decision(false, approval, risk, refusal.value);
      }
      approval := approval || r.approval;
      autoAllowed := autoAllowed || r.allowAgent;
    }
    assert rules[..|rules|] == rules;
    if input.agent && input.mode == "AUTOMATED_POLICY_CONTROLLED" && !autoAllowed {
      return Decision(false, approval, risk, "explicit automation policy required");
    }
    return Decision(true, approval, risk, "authorized");
  }

  /** The checks made before any rule is read. */
  method BaseRefusal(input: Input) returns (reason: Option<string>)
    ensures reason == BaseObjection(input)
  {
    hide Allowed, Permission;
    var p := input.principal;
    if !Allowed(p, Permission(input.resource.provider, input.action), input.host.environment) {
      return Some("RBAC denied");
    }
    if !input.host.enabled {
      return Some("host disabled");
    }
    if p.user.forcePassword {
      return Some("password change required");
    }
    if p.user.mfaRequired && !p.mfa {
      return Some("MFA required");
    }
    if input.agent && (input.mode == "DISABLED" || input.mode == "ADVISORY") {
      return Some("agent mode does not allow mutation");
    }
    return None;
  }

  /** The part of the loop that skips a rule at the first selector that does not fit. */
  method Applies(r: Rule, input: Input, risk: string) returns (applies: bool)
    requires risk == Risk(input.action)
    ensures applies <==> Matches(r, input)
  {
    applies := AppliesToRequest(r, input);
    if !applies { return; }
    applies := AppliesToTarget(r, input, risk);
  }

  method AppliesToRequest(r: Rule, input: Input) returns (applies: bool)
    ensures applies <==> MatchesRequest(r, input)
  {
    if r.environment != "" && r.environment != input.host.environment { return false; }
    if r.action != "" && r.action != "*" && r.action != input.action { return false; }
    if r.role != "" && r.role != input.principal.user.role { return false; }
    if r.userId != "" && r.userId != input.principal.user.id { return false; }
    return true;
  }

  method AppliesToTarget(r: Rule, input: Input, risk: string) returns (applies: bool)
    requires risk == Risk(input.action)
    ensures applies <==> MatchesTarget(r, input)
  {
    hide Risk;
    if r.hostId != "" && r.hostId != input.host.id { return false; }
    if r.resourceId != "" && r.resourceId != input.resource.id { return false; }
    if r.group != "" && r.group !in input.host.groups { return false; }
    if r.risk != "" && r.risk != risk { return false; }
    return true;
  }

  /** The part of the loop that asks a matching rule whether it refuses. */
  method Refusal(r: Rule, input: Input) returns (reason: Option<string>)
    ensures reason == Objection(r, input)
  {
    if r.deny {
      return Some("policy denied: " + r.id);
    }
    if r.requireMfa && !input.principal.mfa {
      return Some("policy requires MFA");
    }
    if r.window.Some? {
      var inside := Contains(r.window.value, input.clocks);
      if !inside {
        return Some("outside maintenance window");
      }
    }
    return None;
  }

  lemma {:induction false} OneMoreRule(input: Input, rules: seq<Rule>, i: nat)
    requires i < |rules|
    ensures AsksApproval(input, rules[..i + 1]) <==>
        AsksApproval(input, rules[..i]) || (Matches(rules[i], input) && rules[i].approval)
    ensures AllowsAgent(input, rules[..i + 1]) <==>
        AllowsAgent(input, rules[..i]) || (Matches(rules[i], input) && rules[i].allowAgent)
  {
    var a, b := rules[..i], rules[..i + 1];
    assert forall j :: 0 <= j < i ==> a[j] == b[j];
    assert b[i] == rules[i];
  }

  // ------------------------------------------------------------------ the order-independent reading

  /** A rule concerns a request: it names the request's values, or leaves them open. */
  ghost predicate Concerns(r: Rule, input: Input) {
    && r.environment in {"", input.host.environment} && r.action in {"", "*", input.action}
    && r.role in {"", input.principal.user.role} && r.userId in {"", input.principal.user.id}
    && r.hostId in {"", input.host.id} && r.resourceId in {"", input.resource.id}
    && r.risk in {"", Risk(input.action)}
    && (r.group == "" || exists g :: g in input.host.groups && g == r.group)
  }

  /** A rule that concerns the request stands in its way. */
  ghost predicate Refuses(r: Rule, input: Input) {
    Concerns(r, input) && (r.deny || (r.requireMfa && !input.principal.mfa) || Closed(r.window, input.clocks))
  }

  ghost predicate Closed(window: Option<Window>, clocks: Clocks) {
    window.Some? && !Open(window.value, clocks)
  }

  /** What is asked of a request before any rule: permission, host, password, second factor and agent mode. */
  ghost predicate Entitled(input: Input) {
    var u := input.principal.user;
    && Allowed(input.principal, Permission(input.resource.provider, input.action), input.host.environment)
    && input.host.enabled && !u.forcePassword && (u.mfaRequired ==> input.principal.mfa)
    && (input.agent ==> input.mode !in {"DISABLED", "ADVISORY"})
  }

  /** Permitted, read as a condition on the set of rules. */
  ghost predicate Permitted(input: Input, rules: seq<Rule>) {
    && Entitled(input)
    && (forall r :: r in rules ==> !Refuses(r, input))
    && (input.agent && input.mode == "AUTOMATED_POLICY_CONTROLLED" ==>
          exists r :: r in rules && Concerns(r, input) && r.allowAgent)
  }

  /** A change on a production host or by an assisted agent needs approval, and so does what a rule says. */
  ghost predicate NeedsApproval(input: Input, rules: seq<Rule>) {
    || (input.host.environment == "production" && input.action !in READS)
    || (input.agent && input.mode == "ASSISTED")
    || exists r :: r in rules && Concerns(r, input) && r.approval
  }

  const READS: set<string> :=
    {"logs", "inspect", "stats", "describe", "events", "status", "rollout_status", "rollout_history"}

  lemma {:induction false} ReadsMeans(action: string)
    ensures ReadOnly(action) <==> action in READS
  {}

  /** The levels of risk. */
  lemma {:induction false} RiskMeans(action: string)
    ensures Risk(action) == "high" <==>
              action in {"delete", "down", "recreate", "deploy", "run", "stop", "rollback", "create"}
    ensures Risk(action) == "medium" <==> action in {"restart", "scale", "reload", "pause"}
    ensures Risk(action) in {"high", "medium", "low"}
  {}

  lemma {:induction false} MatchMeans(r: Rule, input: Input)
    ensures Matches(r, input) <==> Concerns(r, input)
  {
    hide Risk;
  }

  lemma {:induction false} BlockMeans(r: Rule, input: Input)
    ensures Blocks(r, input) <==> Refuses(r, input)
  {
    MatchMeans(r, input);
    hide Matches, Concerns, Open;
  }

  lemma {:induction false} BaseMeans(input: Input)
    ensures BaseObjection(input).None? <==> Entitled(input)
    ensures BaseApproval(input) <==>
              || (input.host.environment == "production" && input.action !in READS)
              || (input.agent && input.mode == "ASSISTED")
  {
    ReadsMeans(input.action);
    hide Allowed, Permission, ReadOnly, READS;
  }

  lemma {:induction false} DecisionMeaning(input: Input, rules: seq<Rule>)
    ensures Decide(input, rules).allowed <==> Permitted(input, rules)
    ensures Decide(input, rules).allowed ==>
              && (Decide(input, rules).approval <==> NeedsApproval(input, rules))
              && Decide(input, rules).reason == "authorized"
    ensures Decide(input, rules).risk == Risk(input.action)
    ensures Risk(input.action) == "high" <==>
              input.action in {"delete", "down", "recreate", "deploy", "run", "stop", "rollback", "create"}
    ensures Risk(input.action) == "medium" <==> input.action in {"restart", "scale", "reload", "pause"}
    ensures Risk(input.action) in {"high", "medium", "low"}
  {
    hide Matches, Concerns, Open, BaseObjection, Entitled, Risk, BaseApproval, Refuses, Blocks, Objection, READS;
    BaseMeans(input);
    RiskMeans(input.action);
    FirstBlockMeans(input, rules);
    AsksMeans(input, rules);
    AdmitsMeans(input, rules);
    assert rules[..|rules|] == rules;
    hide FirstBlock, AsksApproval, AllowsAgent;
  }

  /** No rule blocks if and only if none refuses. */
  lemma {:induction false} FirstBlockMeans(input: Input, rules: seq<Rule>)
    ensures FirstBlock(input, rules) == |rules| <==> forall r :: r in rules ==> !Refuses(r, input)
  {
    var n := FirstBlock(input, rules);
    hide Blocks, Refuses, FirstBlock;
    forall r: Rule ensures Blocks(r, input) <==> Refuses(r, input) {
      BlockMeans(r, input);
    }
    if n < |rules| {
      assert rules[n] in rules && Blocks(rules[n], input);
    } else {
      forall r | r in rules ensures !Blocks(r, input) {
        var i :| 0 <= i < |rules| && rules[i] == r;
      }
    }
  }

  lemma {:induction false} AdmitsMeans(input: Input, rules: seq<Rule>)
    ensures AllowsAgent(input, rules) <==> exists r :: r in rules && Concerns(r, input) && r.allowAgent
  {
    forall r: Rule ensures Matches(r, input) <==> Concerns(r, input) {
      MatchMeans(r, input);
    }
    hide Matches, Concerns;
  }

  /** Why a request that is not entitled is refused: the first condition that fails, in this order. */
  lemma {:induction false} NotEntitledBecause(input: Input, rules: seq<Rule>)
    requires !Entitled(input)
    ensures var d, p := Decide(input, rules), input.principal;
            var may := Allowed(p, Permission(input.resource.provider, input.action), input.host.environment);
            && !d.approval
            && (!may ==> d.reason == "RBAC denied")
            && (may && !input.host.enabled ==> d.reason == "host disabled")
            && (may && input.host.enabled && p.user.forcePassword ==> d.reason == "password change required")
            && (may && input.host.enabled && !p.user.forcePassword && p.user.mfaRequired && !p.mfa ==>
                  d.reason == "MFA required")
            && (may && input.host.enabled && !p.user.forcePassword && (p.user.mfaRequired ==> p.mfa) ==>
                  d.reason == "agent mode does not allow mutation")
  {
    hide Allowed, Permission, Risk, FirstBlock, BaseApproval, AsksApproval, Automated, AllowsAgent, Objection;
  }

  /**
   * Why an entitled request is refused: the first rule that refuses it, by its first reason, and with
   * the approvals asked for up to there; or, if none refuses, the rule for automated agents that is missing.
   */
  lemma {:induction false} RefusedBecause(input: Input, rules: seq<Rule>)
    requires Entitled(input) && !Permitted(input, rules)
    ensures var d := Decide(input, rules);
            if exists i :: 0 <= i < |rules| && Refuses(rules[i], input) then
              exists i :: 0 <= i < |rules| && Refuses(rules[i], input)
                && (forall j :: 0 <= j < i ==> !Refuses(rules[j], input))
                && (d.approval <==> NeedsApproval(input, rules[..i]))
                && (rules[i].deny ==> d.reason == "policy denied: " + rules[i].id)
                && (!rules[i].deny && rules[i].requireMfa && !input.principal.mfa ==> d.reason == "policy requires MFA")
                && (!rules[i].deny && (rules[i].requireMfa ==> input.principal.mfa) ==>
                      d.reason == "outside maintenance window")
            else
              d.reason == "explicit automation policy required" && (d.approval <==> NeedsApproval(input, rules))
  {
    hide Matches, Concerns, Open, BaseObjection, Entitled, Risk, BaseApproval, Refuses, Blocks, READS;
    BaseMeans(input);
    DecisionMeaning(input, rules);
    forall r: Rule ensures (Matches(r, input) <==> Concerns(r, input)) && (Blocks(r, input) <==> Refuses(r, input)) {
      MatchMeans(r, input);
      BlockMeans(r, input);
    }
    var n := FirstBlock(input, rules);
    assert rules[..|rules|] == rules;
    AsksMeans(input, rules[..n]);
    if n < |rules| {
      assert Refuses(rules[n], input);
      ReasonMeans(rules[n], input);
    } else {
      assert forall i :: 0 <= i < |rules| ==> !Blocks(rules[i], input);
    }
  }

  lemma {:induction false} AsksMeans(input: Input, rules: seq<Rule>)
    ensures AsksApproval(input, rules) <==> exists r :: r in rules && Concerns(r, input) && r.approval
  {
    forall r: Rule ensures Matches(r, input) <==> Concerns(r, input) {
      MatchMeans(r, input);
    }
    hide Matches, Concerns;
  }

  lemma {:induction false} ReasonMeans(r: Rule, input: Input)
    requires Refuses(r, input)
    ensures Objection(r, input).Some?
    ensures var reason := Objection(r, input).value;
            && (r.deny ==> reason == "policy denied: " + r.id)
            && (!r.deny && r.requireMfa && !input.principal.mfa ==> reason == "policy requires MFA")
            && (!r.deny && (r.requireMfa ==> input.principal.mfa) ==> reason == "outside maintenance window")
  {
    hide Concerns, Open;
  }

  /** The order of the rules matters neither to the permission nor to the approval it requires. */
  lemma {:induction false} OrderDoesNotMatter(input: Input, rules: seq<Rule>, others: seq<Rule>)
    requires multiset(rules) == multiset(others)
    ensures Decide(input, rules).allowed == Decide(input, others).allowed
    ensures Decide(input, rules).allowed ==> Decide(input, rules).approval == Decide(input, others).approval
  {
    hide Concerns, Refuses, Entitled, READS, Decide;
    DecisionMeaning(input, rules);
    DecisionMeaning(input, others);
    assert forall r :: r in rules <==> r in multiset(rules);
    assert forall r :: r in others <==> r in multiset(others);
    assert forall r :: r in rules <==> r in others;
  }

  /** A rule that does not admit agents can be added anywhere without loosening anything. */
  lemma {:induction false} RulesOnlyTighten(input: Input, rules: seq<Rule>, at: nat, r: Rule)
    requires at <= |rules| && !r.allowAgent
    ensures var more := rules[..at] + [r] + rules[at..];
            Decide(input, more).allowed ==>
              Decide(input, rules).allowed && (Decide(input, rules).approval ==> Decide(input, more).approval)
  {
    hide Concerns, Refuses, Entitled, READS, Decide;
    var more := rules[..at] + [r] + rules[at..];
    DecisionMeaning(input, rules);
    DecisionMeaning(input, more);
    forall x | x in rules ensures x in more {
      var i :| 0 <= i < |rules| && rules[i] == x;
      assert more[if i < at then i else i + 1] == x;
    }
    forall x | x in more ensures x in rules || x == r {
      var i :| 0 <= i < |more| && more[i] == x;
      assert i == at || x == rules[if i < at then i else i - 1];
    }
  }

  /** On a production host a change that is allowed always needs approval. */
  lemma {:induction false} ProductionNeedsApproval(input: Input, rules: seq<Rule>)
    requires input.host.environment == "production" && !ReadOnly(input.action)
    requires Decide(input, rules).allowed
    ensures Decide(input, rules).approval
  {
    DecisionMeaning(input, rules);
  }
}
