/**
 The scheduled load check (worker/src/index.ts). Rules that watch the same metric, threshold
 and window share one query over the union of their clients; the outcome is compared with
 asking once for every rule.
 */
module LoadAlerts {

  import opened Wrappers

  /** A stored rule; zero in a numeric field means that it was left empty. */
  datatype Rule = Rule(id: Option<int>, name: string, clients: seq<string>, metric: string,
                       threshold: real, ratio: real, intervalMin: int, lastNotified: int)
  datatype Client = Client(uuid: string, name: string)
  datatype Stats = Stats(samples: int, exceeded: int, average: real)

  /** What one query asks about; the window ends now. */
  datatype Key = Key(metric: string, threshold: real, startTime: int, endTime: int)
  datatype Plan = Plan(rule: Rule, key: Key, ratio: real, caption: string, targets: seq<string>)
  datatype Group = Group(key: Key, clientIds: set<string>, plans: seq<Plan>)

  /** The statistics of one client, if it has any, depend on the client and the key alone. */
  type Statistics = (string, Key) -> Option<Stats>

  /** What the check does to the outside: send one alert, or stamp a rule as notified now. */
  datatype Effect =
    | Alert(rule: Rule, client: Client, caption: string, average: real, threshold: real, exceedRatio: real,
      required: real)
    | Stamp(id: int)

  // ----- One rule -----

  function Interval(rule: Rule): int {
    var minutes := if rule.intervalMin == 0 then 15 else rule.intervalMin;
    (if minutes < 1 then 1 else minutes) * 60 * 1000
  }

  function Clamp(x: real): real { if x < 0.0 then 0.0 else if x > 1.0 then 1.0 else x }

  function Label(metric: string): string {
    match metric
    case "cpu" => "CPU" case "ram" => "内存" case "load" => "负载" case "disk" => "磁盘" case "temp" => "温度"
    case _ => metric
  }

  /** First occurrences only. */
  function Unique(s: seq<string>): (r: seq<string>)
    ensures forall x :: x in r <==> x in s
    ensures forall i, j :: 0 <= i < j < |r| ==> r[i] != r[j]
  {
    if s == [] then []
    else
      assert s == s[..|s| - 1] + [s[|s| - 1]];
      var r := Unique(s[..|s| - 1]);
      if s[|s| - 1] in r then r else r + [s[|s| - 1]]
  }

  function Uuids(clients: seq<Client>): seq<string> {
    seq(|clients|, i requires 0 <= i < |clients| => clients[i].uuid)
  }

  /** None if the rule was notified less than one interval ago, or has nobody to watch. */
  function PlanFor(rule: Rule, clients: seq<Client>, now: int): Option<Plan> {
    var threshold := if rule.threshold == 0.0 then 80.0 else rule.threshold;
    var ratio := Clamp(if rule.ratio == 0.0 then 0.8 else rule.ratio);
    var targets := Unique(if rule.clients != [] then rule.clients else Uuids(clients));
    if rule.lastNotified != 0 && now - rule.lastNotified < Interval(rule) then None
    else if targets == [] then None
    else Some(Plan(rule, Key(rule.metric, threshold, now - Interval(rule), now), ratio, Label(rule.metric), targets))
  }

  function Lookup(clients: seq<Client>, uuid: string): Option<Client> {
    if clients == [] then None
    else if clients[|clients| - 1].uuid == uuid then Some(clients[|clients| - 1])
    else Lookup(clients[..|clients| - 1], uuid)
  }

  /** One client under one plan, given the answers of a query. */
  function Evaluate(answers: map<string, Stats>, clients: seq<Client>, plan: Plan, uuid: string): seq<Effect> {
    var client := Lookup(clients, uuid);
    var stats := if uuid in answers then answers[uuid] else Stats(0, 0, 0.0);
    if client.None? || stats.samples < 2 then []
    else
      var exceedRatio := stats.exceeded as real / stats.samples as real;
      if exceedRatio < plan.ratio then []
      else [Alert(plan.rule, client.value, plan.caption, stats.average, plan.key.threshold, exceedRatio, plan.ratio)]
  }

  function EvaluateAll(answers: map<string, Stats>, clients: seq<Client>, plan: Plan, uuids: seq<string>): seq<Effect> {
    if uuids == [] then []
    else
      EvaluateAll(answers, clients, plan, uuids[..|uuids| - 1])
      + Evaluate(answers, clients, plan, uuids[|uuids| - 1])
  }

  /** The alerts of a plan, then its stamp if there were any. */
  function PlanEffects(answers: map<string, Stats>, clients: seq<Client>, plan: Plan): seq<Effect> {
    var alerts := EvaluateAll(answers, clients, plan, plan.targets);
    alerts + (if alerts != [] && plan.rule.id.Some? then [Stamp(plan.rule.id.value)] else [])
  }

  /** `getLoadMetricWindowStatsForClients` */
  function Query(stat: Statistics, ids: set<string>, key: Key): map<string, Stats> {
    map c | c in ids && stat(c, key).Some? :: stat(c, key).value
  }

  function Targets(plan: Plan): set<string> { set c | c in plan.targets }

  // ----- The batched check -----

  /** Into the group of the plan's key, or into a new one at the end. */
  function AddPlan(groups: seq<Group>, plan: Plan): seq<Group> {
    if groups == [] then [Group(plan.key, Targets(plan), [plan])]
    else if groups[0].key == plan.key
    then [Group(plan.key, groups[0].clientIds + Targets(plan), groups[0].plans + [plan])] + groups[1..]
    else [groups[0]] + AddPlan(groups[1..], plan)
  }

  function Grouped(rules: seq<Rule>, clients: seq<Client>, now: int): seq<Group> {
    if rules == [] then []
    else
      var groups := Grouped(rules[..|rules| - 1], clients, now);
      var plan := PlanFor(rules[|rules| - 1], clients, now);
      if plan.Some? then AddPlan(groups, plan.value) else groups
  }

  function PlansEffects(answers: map<string, Stats>, clients: seq<Client>, plans: seq<Plan>): seq<Effect> {
    if plans == [] then []
    else PlanEffects(answers, clients, plans[0]) + PlansEffects(answers, clients, plans[1..])
  }

  function GroupsEffects(stat: Statistics, clients: seq<Client>, groups: seq<Group>): seq<Effect> {
    if groups == [] then []
    else PlansEffects(Query(stat, groups[0].clientIds, groups[0].key), clients, groups[0].plans)
         + GroupsEffects(stat, clients, groups[1..])
  }

  function IndexOf(groups: seq<Group>, key: Key): (i: nat)
    ensures i <= |groups|
    ensures i < |groups| ==> groups[i].key == key
    ensures forall j :: 0 <= j < i ==> groups[j].key != key
  {
    if groups == [] || groups[0].key == key then 0 else 1 + IndexOf(groups[1..], key)
  }

  /** The groups with a plan put into the one at `i`, or into a new one. */
  function AddedAt(groups: seq<Group>, plan: Plan, i: nat): seq<Group>
    requires i <= |groups|
  {
    if i == |groups| then groups + [Group(plan.key, Targets(plan), [plan])]
    else groups[i := Group(plan.key, groups[i].clientIds + Targets(plan), groups[i].plans + [plan])]
  }

  lemma AddedBehind(groups: seq<Group>, plan: Plan, i: nat)
    requires groups != [] && i <= |groups| - 1
    ensures AddedAt(groups, plan, i + 1) == [groups[0]] + AddedAt(groups[1..], plan, i)
  {
    hide Targets;
  }

  lemma AddedFirst(groups: seq<Group>, plan: Plan)
    requires groups == [] || groups[0].key == plan.key
    ensures AddPlan(groups, plan) == AddedAt(groups, plan, 0) && IndexOf(groups, plan.key) == 0
  {
    hide Targets;
  }

  lemma AddedLater(groups: seq<Group>, plan: Plan)
    requires groups != [] && groups[0].key != plan.key
    ensures AddPlan(groups, plan) == [groups[0]] + AddPlan(groups[1..], plan)
    ensures IndexOf(groups, plan.key) == 1 + IndexOf(groups[1..], plan.key)
  {
  }

  lemma {:induction false} AddPlanAt(groups: seq<Group>, plan: Plan)
    ensures AddPlan(groups, plan) == AddedAt(groups, plan, IndexOf(groups, plan.key))
  {
    hide AddPlan, AddedAt, IndexOf;
    if groups == [] || groups[0].key == plan.key {
      AddedFirst(groups, plan);
    } else {
      AddPlanAt(groups[1..], plan);
      AddedLater(groups, plan);
      AddedBehind(groups, plan, IndexOf(groups[1..], plan.key));
    }
  }

  method EvaluatePlan(answers: map<string, Stats>, clients: seq<Client>, plan: Plan) returns (effects: seq<Effect>)
    ensures effects == PlanEffects(answers, clients, plan)
  {
    hide Evaluate;
    var notified := false;
    effects := [];
    for i := 0 to |plan.targets|
      invariant effects == EvaluateAll(answers, clients, plan, plan.targets[..i])
      invariant notified == (effects != [])
    {
      assert plan.targets[..i + 1][..i] == plan.targets[..i];
      var alert := Evaluate(answers, clients, plan, plan.targets[i]);
      effects := effects + alert;
      if alert != [] { notified := true; }
    }
    assert plan.targets[..|plan.targets|] == plan.targets;
    if notified && plan.rule.id.Some? { effects := effects + [Stamp(plan.rule.id.value)]; }
  }

  /** `groups.get(groupKey)`, a new group if there is none, then the plan and its clients. */
  method FilePlan(groups: seq<Group>, plan: Plan) returns (after: seq<Group>)
    ensures after == AddPlan(groups, plan)
  {
    AddPlanAt(groups, plan);
    hide AddPlan;
    after := groups;
    var g := IndexOf(groups, plan.key);
    if g == |groups| { after := after + [Group(plan.key, {}, [])]; }
    assert {} + Targets(plan) == Targets(plan) && [] + [plan] == [plan];
    after := after[g := after[g].(clientIds := after[g].clientIds + Targets(plan), plans := after[g].plans + [plan])];
  }

  method GroupRules(rules: seq<Rule>, clients: seq<Client>, now: int) returns (groups: seq<Group>)
    ensures groups == Grouped(rules, clients, now)
  {
    hide PlanFor, AddPlan;
    groups := [];
    for i := 0 to |rules|
      invariant groups == Grouped(rules[..i], clients, now)
    {
      assert rules[..i + 1][..i] == rules[..i];
      var plan := PlanFor(rules[i], clients, now);
      if plan.None? { continue; }
      groups := FilePlan(groups, plan.value);
    }
    assert rules[..|rules|] == rules;
  }

  method EvaluateGroup(answers: map<string, Stats>, clients: seq<Client>, plans: seq<Plan>)
      returns (effects: seq<Effect>)
    ensures effects == PlansEffects(answers, clients, plans)
  {
    hide PlanEffects;
    effects := [];
    for j := 0 to |plans|
      invariant effects + PlansEffects(answers, clients, plans[j..]) == PlansEffects(answers, clients, plans)
    {
      var more := EvaluatePlan(answers, clients, plans[j]);
      assert plans[j..][1..] == plans[j + 1..];
      effects := effects + more;
    }
  }

  // ----- Rule by rule -----

  /** A plan with a query of its own. */
  function Alone(stat: Statistics, clients: seq<Client>, plan: Plan): seq<Effect> {
    PlanEffects(Query(stat, Targets(plan), plan.key), clients, plan)
  }

  function RuleByRule(stat: Statistics, clients: seq<Client>, rules: seq<Rule>, now: int): seq<Effect> {
    if rules == [] then []
    else
      var plan := PlanFor(rules[|rules| - 1], clients, now);
      RuleByRule(stat, clients, rules[..|rules| - 1], now)
        + (if plan.Some? then Alone(stat, clients, plan.value) else [])
  }

  function AllAlone(stat: Statistics, clients: seq<Client>, plans: seq<Plan>): seq<Effect> {
    if plans == [] then [] else Alone(stat, clients, plans[0]) + AllAlone(stat, clients, plans[1..])
  }

  /** The plans in the order the groups are worked through. */
  function AllPlans(groups: seq<Group>): seq<Plan> {
    if groups == [] then [] else groups[0].plans + AllPlans(groups[1..])
  }

  /** Every plan sits in the group of its key, whose query covers its clients. */
  ghost predicate Covers(g: Group) {
    forall i :: 0 <= i < |g.plans| ==> g.plans[i].key == g.key && Targets(g.plans[i]) <= g.clientIds
  }

  ghost predicate AllCover(groups: seq<Group>) {
    forall i :: 0 <= i < |groups| ==> Covers(groups[i])
  }

  /** A wider query gives a plan the same effects. */
  lemma {:induction false} WiderQuery(stat: Statistics, clients: seq<Client>, plan: Plan, a: set<string>,
      b: set<string>, uuids: seq<string>)
    requires forall i :: 0 <= i < |uuids| ==> uuids[i] in a && uuids[i] in b
    ensures EvaluateAll(Query(stat, a, plan.key), clients, plan, uuids)
      == EvaluateAll(Query(stat, b, plan.key), clients, plan, uuids)
  {
    if uuids != [] {
      WiderQuery(stat, clients, plan, a, b, uuids[..|uuids| - 1]);
    }
  }

  lemma PlanInGroup(stat: Statistics, clients: seq<Client>, plan: Plan, ids: set<string>)
    requires Targets(plan) <= ids
    ensures PlanEffects(Query(stat, ids, plan.key), clients, plan) == Alone(stat, clients, plan)
  {
    forall i | 0 <= i < |plan.targets| ensures plan.targets[i] in Targets(plan) { }
    WiderQuery(stat, clients, plan, ids, Targets(plan), plan.targets);
  }

  lemma {:induction false} PlansInGroup(stat: Statistics, clients: seq<Client>, key: Key, ids: set<string>,
      plans: seq<Plan>)
    requires forall i :: 0 <= i < |plans| ==> plans[i].key == key && Targets(plans[i]) <= ids
    ensures PlansEffects(Query(stat, ids, key), clients, plans) == AllAlone(stat, clients, plans)
  {
    if plans != [] {
      hide PlanEffects, Query, Alone;
      PlanInGroup(stat, clients, plans[0], ids);
      PlansInGroup(stat, clients, key, ids, plans[1..]);
    }
  }

  lemma AloneStep(stat: Statistics, clients: seq<Client>, plan: Plan, rest: seq<Plan>)
    ensures AllAlone(stat, clients, [plan] + rest) == Alone(stat, clients, plan) + AllAlone(stat, clients, rest)
  {
    assert ([plan] + rest)[1..] == rest;
  }

  lemma NoneAlone(stat: Statistics, clients: seq<Client>)
    ensures AllAlone(stat, clients, []) == []
  {
  }

  lemma {:induction false} AloneAppend(stat: Statistics, clients: seq<Client>, a: seq<Plan>, b: seq<Plan>)
    ensures AllAlone(stat, clients, a + b) == AllAlone(stat, clients, a) + AllAlone(stat, clients, b)
  {
    hide *;
    if a == [] {
      NoneAlone(stat, clients);
      assert a + b == b;
    } else {
      AloneAppend(stat, clients, a[1..], b);
      AloneStep(stat, clients, a[0], a[1..]);
      AloneStep(stat, clients, a[0], a[1..] + b);
      assert a == [a[0]] + a[1..] && a + b == [a[0]] + (a[1..] + b);
    }
  }

  /** Working through the groups does exactly what their plans do alone, one after the other. */
  lemma {:induction false} GroupsAreTheirPlans(stat: Statistics, clients: seq<Client>, groups: seq<Group>)
    requires AllCover(groups)
    ensures GroupsEffects(stat, clients, groups) == AllAlone(stat, clients, AllPlans(groups))
  {
    if groups != [] {
      hide PlansEffects, Query, AllAlone;
      GroupsAreTheirPlans(stat, clients, groups[1..]);
      assert Covers(groups[0]);
      PlansInGroup(stat, clients, groups[0].key, groups[0].clientIds, groups[0].plans);
      AloneAppend(stat, clients, groups[0].plans, AllPlans(groups[1..]));
    } else {
      assert AllPlans(groups) == [];
    }
  }

  lemma {:induction false} AddPlanCovers(groups: seq<Group>, plan: Plan)
    requires AllCover(groups)
    ensures AllCover(AddPlan(groups, plan))
  {
    if groups != [] {
      assert Covers(groups[0]);
      if groups[0].key != plan.key { AddPlanCovers(groups[1..], plan); }
    }
  }

  /** Adding a plan to its group adds its own effects and nothing else. */
  lemma {:induction false} AddPlanAddsEffects(stat: Statistics, clients: seq<Client>, groups: seq<Group>, plan: Plan)
    ensures multiset(AllAlone(stat, clients, AllPlans(AddPlan(groups, plan))))
         == multiset(AllAlone(stat, clients, AllPlans(groups))) + multiset(Alone(stat, clients, plan))
  {
    hide Alone;
    SingleAlone(stat, clients, plan);
    if groups == [] {
      assert AddPlan(groups, plan)[1..] == [];
      assert AllPlans(AddPlan(groups, plan)) == [plan] + [];
    } else {
      var g, rest := groups[0], groups[1..];
      AloneAppend(stat, clients, g.plans, AllPlans(rest));
      if g.key == plan.key {
        AloneAppend(stat, clients, g.plans, [plan]);
        AloneAppend(stat, clients, g.plans + [plan], AllPlans(rest));
        assert AddPlan(groups, plan)[1..] == rest;
      } else {
        AddPlanAddsEffects(stat, clients, rest, plan);
        AloneAppend(stat, clients, g.plans, AllPlans(AddPlan(rest, plan)));
        assert AddPlan(groups, plan)[1..] == AddPlan(rest, plan);
      }
    }
  }

  lemma SingleAlone(stat: Statistics, clients: seq<Client>, plan: Plan)
    ensures AllAlone(stat, clients, [plan]) == Alone(stat, clients, plan)
  {
    assert [plan][1..] == [];
  }

  lemma {:induction false} GroupedCovers(rules: seq<Rule>, clients: seq<Client>, now: int)
    ensures AllCover(Grouped(rules, clients, now))
  {
    if rules != [] {
      hide AddPlan, PlanFor;
      GroupedCovers(rules[..|rules| - 1], clients, now);
      var plan := PlanFor(rules[|rules| - 1], clients, now);
      if plan.Some? { AddPlanCovers(Grouped(rules[..|rules| - 1], clients, now), plan.value); }
    }
  }

  lemma {:induction false} GroupingKeepsEffects(stat: Statistics, clients: seq<Client>, rules: seq<Rule>, now: int)
    ensures multiset(AllAlone(stat, clients, AllPlans(Grouped(rules, clients, now))))
      == multiset(RuleByRule(stat, clients, rules, now))
  {
    if rules != [] {
      hide PlanFor, Alone, AddPlan;
      var groups := Grouped(rules[..|rules| - 1], clients, now);
      GroupingKeepsEffects(stat, clients, rules[..|rules| - 1], now);
      var plan := PlanFor(rules[|rules| - 1], clients, now);
      if plan.Some? { AddPlanAddsEffects(stat, clients, groups, plan.value); }
    } else {
      assert AllPlans(Grouped(rules, clients, now)) == [];
    }
  }

  /** Grouping sends the same alerts and stamps the same rules as asking for every rule alone. */
  lemma BatchingIsInvisible(stat: Statistics, clients: seq<Client>, rules: seq<Rule>, now: int)
    ensures multiset(GroupsEffects(stat, clients, Grouped(rules, clients, now)))
      == multiset(RuleByRule(stat, clients, rules, now))
  {
    hide Grouped, GroupsEffects, AllAlone, RuleByRule;
    GroupedCovers(rules, clients, now);
    GroupsAreTheirPlans(stat, clients, Grouped(rules, clients, now));
    GroupingKeepsEffects(stat, clients, rules, now);
  }

  // ----- One query per key -----

  ghost predicate DistinctKeys(groups: seq<Group>) {
    forall i, j :: 0 <= i < j < |groups| ==> groups[i].key != groups[j].key
  }

  lemma AddPlanKeepsKeysDistinct(groups: seq<Group>, plan: Plan)
    requires DistinctKeys(groups)
    ensures DistinctKeys(AddPlan(groups, plan))
  {
    AddPlanAt(groups, plan);
    hide AddPlan;
  }

  /** No two groups, hence no two queries, ask about the same metric, threshold and window. */
  lemma {:induction false} OneQueryPerKey(rules: seq<Rule>, clients: seq<Client>, now: int)
    ensures DistinctKeys(Grouped(rules, clients, now))
  {
    if rules != [] {
      hide AddPlan, PlanFor, DistinctKeys;
      var groups := Grouped(rules[..|rules| - 1], clients, now);
      OneQueryPerKey(rules[..|rules| - 1], clients, now);
      var plan := PlanFor(rules[|rules| - 1], clients, now);
      if plan.Some? { AddPlanKeepsKeysDistinct(groups, plan.value); }
    }
  }

  // ----- Who is alerted -----

  /** A known client with at least two samples, enough of them over the threshold. */
  ghost predicate Overloaded(stat: Statistics, clients: seq<Client>, plan: Plan, uuid: string) {
    && uuid in Uuids(clients) && stat(uuid, plan.key).Some?
    && var stats := stat(uuid, plan.key).value;
       stats.samples >= 2 && stats.exceeded as real / stats.samples as real >= plan.ratio
  }

  lemma {:induction false} LookupFinds(clients: seq<Client>, uuid: string)
    ensures Lookup(clients, uuid).Some? <==> uuid in Uuids(clients)
    ensures Lookup(clients, uuid).Some? ==> Lookup(clients, uuid).value.uuid == uuid
  {
    if clients != [] {
      var n := |clients| - 1;
      LookupFinds(clients[..n], uuid);
      assert Uuids(clients) == Uuids(clients[..n]) + [clients[n].uuid];
    }
  }

  lemma EvaluateExactly(stat: Statistics, clients: seq<Client>, plan: Plan, ids: set<string>, uuid: string)
    requires uuid in ids
    ensures var r := Evaluate(Query(stat, ids, plan.key), clients, plan, uuid);
      && |r| == (if Overloaded(stat, clients, plan, uuid) then 1 else 0)
      && forall i :: 0 <= i < |r| ==> r[i].Alert? && r[i].rule == plan.rule && r[i].client.uuid == uuid
  {
    LookupFinds(clients, uuid);
  }

  ghost function AlertedUuids(effects: seq<Effect>): seq<string>
    requires forall i :: 0 <= i < |effects| ==> effects[i].Alert?
  {
    seq(|effects|, i requires 0 <= i < |effects| => effects[i].client.uuid)
  }

  ghost function OverloadedOf(stat: Statistics, clients: seq<Client>, plan: Plan, uuids: seq<string>): seq<string> {
    if uuids == [] then []
    else
      var last := uuids[|uuids| - 1];
      OverloadedOf(stat, clients, plan, uuids[..|uuids| - 1])
        + (if Overloaded(stat, clients, plan, last) then [last] else [])
  }

  lemma {:induction false} EvaluateAllExactly(stat: Statistics, clients: seq<Client>, plan: Plan, ids: set<string>,
      uuids: seq<string>)
    requires forall i :: 0 <= i < |uuids| ==> uuids[i] in ids
    ensures var r := EvaluateAll(Query(stat, ids, plan.key), clients, plan, uuids);
      && (forall i :: 0 <= i < |r| ==> r[i].Alert? && r[i].rule == plan.rule)
      && AlertedUuids(r) == OverloadedOf(stat, clients, plan, uuids)
  {
    if uuids != [] {
      hide Evaluate, Query, Overloaded;
      var n := |uuids| - 1;
      EvaluateAllExactly(stat, clients, plan, ids, uuids[..n]);
      EvaluateExactly(stat, clients, plan, ids, uuids[n]);
    }
  }

  /**
   A rule's plan alerts exactly its overloaded clients, each once and in order, and then
   stamps the rule if it has an id and alerted anybody.
   */
  lemma PlanAlertsExactly(stat: Statistics, clients: seq<Client>, plan: Plan)
    ensures var r := Alone(stat, clients, plan); var hit := OverloadedOf(stat, clients, plan, plan.targets);
      && |hit| <= |r| && (forall i :: 0 <= i < |hit| ==> r[i].Alert? && r[i].rule == plan.rule)
      && AlertedUuids(r[..|hit|]) == hit
      && r[|hit|..] == if hit != [] && plan.rule.id.Some? then [Stamp(plan.rule.id.value)] else []
  {
    forall i | 0 <= i < |plan.targets| ensures plan.targets[i] in Targets(plan) { }
    EvaluateAllExactly(stat, clients, plan, Targets(plan), plan.targets);
    hide EvaluateAll, Query, OverloadedOf;
    var alerts := EvaluateAll(Query(stat, Targets(plan), plan.key), clients, plan, plan.targets);
    assert Alone(stat, clients, plan)[..|alerts|] == alerts;
  }
}
