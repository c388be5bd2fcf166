/** What the load check sends, said from the stored rules alone, and how far apart over many checks. */
module LoadAlertRules {
  import opened Wrappers
  import opened LoadAlerts

  // ----- What a rule asks for -----

  /** Fifteen minutes unless the rule has its own, and one at least. */
  function Rest(rule: Rule): (ms: int)
    ensures ms >= 60000
  {
    if rule.intervalMin == 0 then 900000 else if rule.intervalMin < 1 then 60000 else 60000 * rule.intervalMin
  }

  /** Eighty unless the rule has its own. */
  function Limit(rule: Rule): real { if rule.threshold == 0.0 then 80.0 else rule.threshold }

  /** Four fifths unless the rule has its own, which counts as zero below zero and as one above one. */
  function Share(rule: Rule): (share: real)
    ensures 0.0 <= share <= 1.0
  {
    if rule.ratio == 0.0 then 0.8 else if rule.ratio < 0.0 then 0.0 else if rule.ratio > 1.0 then 1.0 else rule.ratio
  }

  /** Never notified, or not for one interval. */
  predicate Due(rule: Rule, now: int) { rule.lastNotified == 0 || now - rule.lastNotified >= Rest(rule) }

  /** A known client that the rule names, or any known one if it names none. */
  ghost predicate Watches(rule: Rule, clients: seq<Client>, uuid: string) {
    (rule.clients == [] || uuid in rule.clients) && exists i :: 0 <= i < |clients| && clients[i].uuid == uuid
  }

  /** The question put about the last interval. */
  function Asked(rule: Rule, now: int): Key { Key(rule.metric, Limit(rule), now - Rest(rule), now) }

  /** At least two samples in the last interval, the rule's share of them over its threshold. */
  ghost predicate TooBusy(stat: Statistics, rule: Rule, now: int, uuid: string) {
    && stat(uuid, Asked(rule, now)).Some?
    && var s := stat(uuid, Asked(rule, now)).value;
       s.samples >= 2 && s.exceeded as real >= Share(rule) * s.samples as real
  }

  ghost predicate ShouldAlert(stat: Statistics, clients: seq<Client>, rule: Rule, now: int, uuid: string) {
    Due(rule, now) && Watches(rule, clients, uuid) && TooBusy(stat, rule, now, uuid)
  }

  /** `client` is the one that `uuid` stands for: the last listed with it. */
  ghost predicate StandsFor(clients: seq<Client>, client: Client, uuid: string) {
    exists i :: 0 <= i < |clients| && clients[i] == client && client.uuid == uuid
      && forall j :: i < j < |clients| ==> clients[j].uuid != uuid
  }

  /** The alert that a rule owes about a client. */
  ghost predicate Owed(stat: Statistics, clients: seq<Client>, now: int, e: Effect) {
    && e.Alert? && ShouldAlert(stat, clients, e.rule, now, e.client.uuid)
    && StandsFor(clients, e.client, e.client.uuid)
    && var s := stat(e.client.uuid, Asked(e.rule, now)).value;
       && e.caption == Label(e.rule.metric) && e.average == s.average && e.threshold == Limit(e.rule)
       && e.exceedRatio == s.exceeded as real / s.samples as real && e.required == Share(e.rule)
  }

  ghost predicate Alerting(stat: Statistics, clients: seq<Client>, rule: Rule, now: int) {
    exists uuid :: ShouldAlert(stat, clients, rule, now, uuid)
  }

  /** The rules with this id that alert, each as often as it is listed. */
  ghost function Stamps(stat: Statistics, clients: seq<Client>, rules: seq<Rule>, now: int, id: int): nat {
    if rules == [] then 0
    else
      var rule := rules[|rules| - 1];
      Stamps(stat, clients, rules[..|rules| - 1], now, id)
        + (if rule.id == Some(id) && Alerting(stat, clients, rule, now) then 1 else 0)
  }

  // ----- A plan is what its rule asks for -----

  lemma {:induction false} LookupIsLast(clients: seq<Client>, uuid: string)
    ensures forall client :: StandsFor(clients, client, uuid) <==> Lookup(clients, uuid) == Some(client)
  {
    LookupFinds(clients, uuid);
    if clients != [] {
      var n := |clients| - 1;
      LookupIsLast(clients[..n], uuid);
      forall client ensures StandsFor(clients, client, uuid) <==> Lookup(clients, uuid) == Some(client) {
        if clients[n].uuid == uuid {
          if client == clients[n] { assert StandsFor(clients, client, uuid); }
        } else {
          SameBefore(clients, client, uuid);
        }
      }
    }
  }

  lemma SameBefore(clients: seq<Client>, client: Client, uuid: string)
    requires clients != [] && clients[|clients| - 1].uuid != uuid
    ensures StandsFor(clients, client, uuid) <==> StandsFor(clients[..|clients| - 1], client, uuid)
  {
    hide StandsFor;
    if StandsFor(clients, client, uuid) { StandsBefore(clients, client, uuid); }
    if StandsFor(clients[..|clients| - 1], client, uuid) { StandsStill(clients, client, uuid); }
  }

  lemma StandsBefore(clients: seq<Client>, client: Client, uuid: string)
    requires clients != [] && clients[|clients| - 1].uuid != uuid && StandsFor(clients, client, uuid)
    ensures StandsFor(clients[..|clients| - 1], client, uuid)
  {
    var i :| 0 <= i < |clients| && clients[i] == client && client.uuid == uuid
      && forall j :: i < j < |clients| ==> clients[j].uuid != uuid;
    assert clients[..|clients| - 1][i] == client;
  }

  lemma StandsStill(clients: seq<Client>, client: Client, uuid: string)
    requires clients != [] && clients[|clients| - 1].uuid != uuid && StandsFor(clients[..|clients| - 1], client, uuid)
    ensures StandsFor(clients, client, uuid)
  {
    var n := |clients| - 1;
    var before := clients[..n];
    var i :| 0 <= i < n && before[i] == client && client.uuid == uuid
      && forall j :: i < j < n ==> before[j].uuid != uuid;
    assert clients[i] == client;
    forall j | i < j < |clients| ensures clients[j].uuid != uuid { if j < n { assert clients[j] == before[j]; } }
  }

  lemma PlanIsRule(rule: Rule, clients: seq<Client>, now: int)
    ensures var plan := PlanFor(rule, clients, now);
      && (plan.Some? ==>
            && Due(rule, now) && plan.value.rule == rule && plan.value.key == Asked(rule, now)
            && plan.value.ratio == Share(rule) && plan.value.caption == Label(rule.metric))
      && (Due(rule, now) && plan.None? ==> rule.clients == [] && clients == [])
  {
    hide Label;
    if rule.clients != [] { assert rule.clients[0] in rule.clients; }
    else if clients != [] { assert Uuids(clients)[0] in Uuids(clients); }
  }

  lemma PlanTargets(rule: Rule, clients: seq<Client>, now: int, uuid: string)
    requires PlanFor(rule, clients, now).Some?
    ensures var targets := PlanFor(rule, clients, now).value.targets;
      && (forall i, j :: 0 <= i < j < |targets| ==> targets[i] != targets[j])
      && (Watches(rule, clients, uuid) <==> uuid in targets && uuid in Uuids(clients))
  {
    hide Label;
    if uuid in Uuids(clients) {
      var i :| 0 <= i < |clients| && Uuids(clients)[i] == uuid;
      assert clients[i].uuid == uuid;
    }
    if i :| 0 <= i < |clients| && clients[i].uuid == uuid { assert Uuids(clients)[i] == uuid; }
  }

  lemma ShareReached(exceeded: int, samples: int, share: real)
    requires samples >= 2
    ensures exceeded as real >= share * samples as real <==> exceeded as real / samples as real >= share
  {
    var n := samples as real;
    var q := exceeded as real / n;
    assert exceeded as real == q * n;
    if q >= share { Scaled(share, q, n); }
    if q < share { assert (share - q) * n > 0.0; }
  }

  lemma Scaled(a: real, b: real, n: real)
    requires a <= b && n > 0.0
    ensures a * n <= b * n
  {
    assert (b - a) * n >= 0.0;
  }

  lemma OverloadedIsTooBusy(stat: Statistics, clients: seq<Client>, rule: Rule, now: int, plan: Plan, uuid: string)
    requires plan.key == Asked(rule, now) && plan.ratio == Share(rule)
    ensures Overloaded(stat, clients, plan, uuid) <==> uuid in Uuids(clients) && TooBusy(stat, rule, now, uuid)
  {
    hide Asked, Share;
    if stat(uuid, plan.key).Some? && stat(uuid, plan.key).value.samples >= 2 {
      ShareReached(stat(uuid, plan.key).value.exceeded, stat(uuid, plan.key).value.samples, plan.ratio);
    }
  }

  // ----- One rule -----

  /** The alert a plan sends about an overloaded client. */
  ghost function AlertOf(stat: Statistics, clients: seq<Client>, plan: Plan, uuid: string): Effect
    requires Overloaded(stat, clients, plan, uuid)
  {
    LookupFinds(clients, uuid);
    var s := stat(uuid, plan.key).value;
    Alert(plan.rule, Lookup(clients, uuid).value, plan.caption, s.average, plan.key.threshold,
      s.exceeded as real / s.samples as real, plan.ratio)
  }

  lemma EvaluateIs(stat: Statistics, clients: seq<Client>, plan: Plan, ids: set<string>, uuid: string)
    requires uuid in ids
    ensures Evaluate(Query(stat, ids, plan.key), clients, plan, uuid) ==
      if Overloaded(stat, clients, plan, uuid) then [AlertOf(stat, clients, plan, uuid)] else []
  {
    LookupFinds(clients, uuid);
  }

  /** The alert `e` is the one its client calls for, as a question that is its own answer. */
  ghost predicate Called(stat: Statistics, clients: seq<Client>, plan: Plan, uuids: seq<string>, e: Effect) {
    && e.Alert? && e.client.uuid in uuids && Overloaded(stat, clients, plan, e.client.uuid)
    && e == AlertOf(stat, clients, plan, e.client.uuid)
  }

  lemma AlertNamesClient(stat: Statistics, clients: seq<Client>, plan: Plan, uuid: string)
    requires Overloaded(stat, clients, plan, uuid)
    ensures AlertOf(stat, clients, plan, uuid).Alert? && AlertOf(stat, clients, plan, uuid).client.uuid == uuid
  {
    LookupFinds(clients, uuid);
  }

  /** One uuid more calls for its own alert. */
  lemma CalledLast(stat: Statistics, clients: seq<Client>, plan: Plan, uuids: seq<string>, uuid: string, e: Effect)
    requires uuid !in uuids
    ensures Called(stat, clients, plan, uuids + [uuid], e) <==>
      Called(stat, clients, plan, uuids, e) ||
      (Overloaded(stat, clients, plan, uuid) && e == AlertOf(stat, clients, plan, uuid))
    ensures Called(stat, clients, plan, uuids, e) ==> !(e.Alert? && e.client.uuid == uuid)
  {
    if Overloaded(stat, clients, plan, uuid) { AlertNamesClient(stat, clients, plan, uuid); }
    hide Overloaded, AlertOf;
  }

  lemma {:induction false} EachCalledOnce(stat: Statistics, clients: seq<Client>, plan: Plan, ids: set<string>,
      uuids: seq<string>, e: Effect)
    requires forall i :: 0 <= i < |uuids| ==> uuids[i] in ids
    requires forall i, j :: 0 <= i < j < |uuids| ==> uuids[i] != uuids[j]
    ensures multiset(EvaluateAll(Query(stat, ids, plan.key), clients, plan, uuids))[e] ==
      if Called(stat, clients, plan, uuids, e) then 1 else 0
  {
    if uuids != [] {
      hide Evaluate, Query, Overloaded, AlertOf, Called;
      var n := |uuids| - 1;
      EachCalledOnce(stat, clients, plan, ids, uuids[..n], e);
      EvaluateIs(stat, clients, plan, ids, uuids[n]);
      if Overloaded(stat, clients, plan, uuids[n]) { AlertNamesClient(stat, clients, plan, uuids[n]); }
      CalledLast(stat, clients, plan, uuids[..n], uuids[n], e);
      assert uuids == uuids[..n] + [uuids[n]];
    }
  }

  ghost function RuleEffects(stat: Statistics, clients: seq<Client>, rule: Rule, now: int): seq<Effect> {
    var plan := PlanFor(rule, clients, now);
    if plan.Some? then Alone(stat, clients, plan.value) else []
  }

  lemma CalledIsOwed(stat: Statistics, clients: seq<Client>, rule: Rule, now: int, e: Effect)
    requires PlanFor(rule, clients, now).Some? && e.Alert?
    ensures var plan := PlanFor(rule, clients, now).value;
      Called(stat, clients, plan, plan.targets, e) <==> e.rule == rule && Owed(stat, clients, now, e)
  {
    var plan, uuid := PlanFor(rule, clients, now).value, e.client.uuid;
    PlanIsRule(rule, clients, now);
    PlanTargets(rule, clients, now, uuid);
    OverloadedIsTooBusy(stat, clients, rule, now, plan, uuid);
    LookupIsLast(clients, uuid);
    LookupFinds(clients, uuid);
    AskedAbout(rule, now);
    hide PlanFor, Label, Lookup, Uuids, Watches, TooBusy, Asked, Share, Limit, Due, StandsFor, Overloaded;
    if Called(stat, clients, plan, plan.targets, e) {
      assert StandsFor(clients, e.client, uuid);
      assert Owed(stat, clients, now, e);
    }
    if e.rule == rule && Owed(stat, clients, now, e) {
      assert Overloaded(stat, clients, plan, uuid);
      assert Lookup(clients, uuid) == Some(e.client);
      assert e == AlertOf(stat, clients, plan, uuid);
    }
  }

  lemma AskedAbout(rule: Rule, now: int)
    ensures Asked(rule, now).threshold == Limit(rule)
  {
  }

  /** The alerts of a rule with a plan, before its stamp. */
  ghost function RuleAlerts(stat: Statistics, clients: seq<Client>, plan: Plan): seq<Effect> {
    EvaluateAll(Query(stat, Targets(plan), plan.key), clients, plan, plan.targets)
  }

  lemma RuleAlertsAre(stat: Statistics, clients: seq<Client>, rule: Rule, now: int, e: Effect)
    requires PlanFor(rule, clients, now).Some?
    ensures multiset(RuleAlerts(stat, clients, PlanFor(rule, clients, now).value))[e] ==
      if e.Alert? && e.rule == rule && Owed(stat, clients, now, e) then 1 else 0
  {
    var plan := PlanFor(rule, clients, now).value;
    PlanTargets(rule, clients, now, "");
    hide PlanFor, EvaluateAll, Query, Owed;
    forall i | 0 <= i < |plan.targets| ensures plan.targets[i] in Targets(plan) { }
    EachCalledOnce(stat, clients, plan, Targets(plan), plan.targets, e);
    if e.Alert? { CalledIsOwed(stat, clients, rule, now, e); }
  }

  /** A rule whose watched client is too busy owes an alert about it. */
  lemma OwedAlert(stat: Statistics, clients: seq<Client>, rule: Rule, now: int, uuid: string) returns (e: Effect)
    requires ShouldAlert(stat, clients, rule, now, uuid)
    ensures e.Alert? && e.rule == rule && e.client.uuid == uuid && Owed(stat, clients, now, e)
  {
    LookupIsLast(clients, uuid);
    assert Lookup(clients, uuid).Some? by {
      LookupFinds(clients, uuid);
      var i :| 0 <= i < |clients| && clients[i].uuid == uuid;
      assert Uuids(clients)[i] == uuid;
    }
    hide Lookup, StandsFor, Label, Watches;
    var client := Lookup(clients, uuid).value;
    assert StandsFor(clients, client, uuid);
    assert client.uuid == uuid by { LookupFinds(clients, uuid); }
    var s := stat(uuid, Asked(rule, now)).value;
    e := Alert(rule, client, Label(rule.metric), s.average, Limit(rule), s.exceeded as real / s.samples as real,
      Share(rule));
  }

  lemma RuleStamps(stat: Statistics, clients: seq<Client>, rule: Rule, now: int)
    requires PlanFor(rule, clients, now).Some?
    ensures RuleAlerts(stat, clients, PlanFor(rule, clients, now).value) != [] <==> Alerting(stat, clients, rule, now)
  {
    hide PlanFor, RuleAlerts, ShouldAlert;
    var alerts := RuleAlerts(stat, clients, PlanFor(rule, clients, now).value);
    if alerts != [] {
      RuleAlertsAre(stat, clients, rule, now, alerts[0]);
      assert alerts[0] in alerts;
      assert ShouldAlert(stat, clients, rule, now, alerts[0].client.uuid);
    }
    if Alerting(stat, clients, rule, now) {
      var uuid :| ShouldAlert(stat, clients, rule, now, uuid);
      var e := OwedAlert(stat, clients, rule, now, uuid);
      RuleAlertsAre(stat, clients, rule, now, e);
      assert e in multiset(alerts);
    }
  }

  /** Without a plan there is nothing to alert. */
  lemma NoPlanNoAlert(stat: Statistics, clients: seq<Client>, rule: Rule, now: int, uuid: string)
    requires PlanFor(rule, clients, now).None?
    ensures !ShouldAlert(stat, clients, rule, now, uuid)
  {
    PlanIsRule(rule, clients, now);
    hide PlanFor, TooBusy, Due;
  }

  /** One rule sends exactly the alerts it owes, each once, and is stamped if it sent any and has an id. */
  lemma RuleSends(stat: Statistics, clients: seq<Client>, rule: Rule, now: int, e: Effect)
    ensures multiset(RuleEffects(stat, clients, rule, now))[e] ==
      match e
      case Stamp(id) => if rule.id == Some(id) && Alerting(stat, clients, rule, now) then 1 else 0
      case _ => if e.rule == rule && Owed(stat, clients, now, e) then 1 else 0
  {
    hide PlanFor, ShouldAlert, EvaluateAll, Query, Targets;
    if PlanFor(rule, clients, now).Some? {
      var plan := PlanFor(rule, clients, now).value;
      assert plan.rule == rule by { PlanIsRule(rule, clients, now); }
      RuleAlertsAre(stat, clients, rule, now, e);
      RuleStamps(stat, clients, rule, now);
      hide Owed, Alerting;
      assert Alone(stat, clients, plan) == RuleAlerts(stat, clients, plan) +
        (if RuleAlerts(stat, clients, plan) != [] && rule.id.Some? then [Stamp(rule.id.value)] else []);
    } else {
      forall uuid ensures !ShouldAlert(stat, clients, rule, now, uuid) {
        NoPlanNoAlert(stat, clients, rule, now, uuid);
      }
    }
  }

  // ----- The whole check -----

  /** How often the check should send `e`: an owed alert once for every time its rule is listed. */
  ghost function Expected(stat: Statistics, clients: seq<Client>, rules: seq<Rule>, now: int, e: Effect): nat {
    match e
    case Stamp(id) => Stamps(stat, clients, rules, now, id)
    case _ => if Owed(stat, clients, now, e) then multiset(rules)[e.rule] else 0
  }

  lemma {:induction false} RulesSend(stat: Statistics, clients: seq<Client>, rules: seq<Rule>, now: int, e: Effect)
    ensures multiset(RuleByRule(stat, clients, rules, now))[e] == Expected(stat, clients, rules, now, e)
  {
    hide PlanFor, Alone, Owed, Alerting;
    if rules != [] {
      var n := |rules| - 1;
      RulesSend(stat, clients, rules[..n], now, e);
      RuleSends(stat, clients, rules[n], now, e);
      assert rules == rules[..n] + [rules[n]];
    }
  }

  /**
   From the rules alone, batching and all: the check sends every owed alert once for every time its rule
   is listed, no other alert, and one stamp for every alerting rule with an id.
   */
  lemma CheckSendsExactly(stat: Statistics, clients: seq<Client>, rules: seq<Rule>, now: int, e: Effect)
    ensures multiset(GroupsEffects(stat, clients, Grouped(rules, clients, now)))[e]
         == Expected(stat, clients, rules, now, e)
  {
    hide *;
    BatchingIsInvisible(stat, clients, rules, now);
    RulesSend(stat, clients, rules, now, e);
  }

  /** Who is alerted: the check alerts for a rule and a client if and only if the rule owes it. */
  lemma AlertsExactly(stat: Statistics, clients: seq<Client>, rules: seq<Rule>, now: int, rule: Rule, uuid: string)
    ensures var effects := GroupsEffects(stat, clients, Grouped(rules, clients, now));
      (exists e :: e in effects && e.Alert? && e.rule == rule && e.client.uuid == uuid) <==>
      rule in rules && ShouldAlert(stat, clients, rule, now, uuid)
  {
    var effects := GroupsEffects(stat, clients, Grouped(rules, clients, now));
    hide GroupsEffects, Grouped, ShouldAlert;
    if e :| e in effects && e.Alert? && e.rule == rule && e.client.uuid == uuid {
      CheckSendsExactly(stat, clients, rules, now, e);
      assert e in multiset(effects);
    }
    if rule in rules && ShouldAlert(stat, clients, rule, now, uuid) {
      var e := OwedAlert(stat, clients, rule, now, uuid);
      CheckSendsExactly(stat, clients, rules, now, e);
      assert rule in multiset(rules) && e in multiset(effects);
    }
  }

  /** The whole check: batched, and with exactly the alerts and stamps that the rules call for. */
  method RunLoadCheck(stat: Statistics, rules: seq<Rule>, clients: seq<Client>, now: int) returns (effects: seq<Effect>)
    ensures effects == GroupsEffects(stat, clients, Grouped(rules, clients, now))
    ensures forall e :: multiset(effects)[e] == Expected(stat, clients, rules, now, e)
  {
    hide Grouped, PlansEffects, Query, Expected;
    forall e ensures multiset(GroupsEffects(stat, clients, Grouped(rules, clients, now)))[e]
                  == Expected(stat, clients, rules, now, e) {
      CheckSendsExactly(stat, clients, rules, now, e);
    }
    effects := [];
    var groups := GroupRules(rules, clients, now);
    for i := 0 to |groups|
      invariant effects + GroupsEffects(stat, clients, groups[i..]) == GroupsEffects(stat, clients, groups)
    {
      var answers := Query(stat, groups[i].clientIds, groups[i].key);
      var more := EvaluateGroup(answers, clients, groups[i].plans);
      assert groups[i..][1..] == groups[i + 1..];
      effects := effects + more;
    }
  }

  // ----- Over many checks -----

  /** One scheduled check: its time, and what the database holds about clients then. */
  datatype Check = Check(now: int, clients: seq<Client>, stat: Statistics)

  /** Every stamped rule was notified now. */
  function Stamped(rules: seq<Rule>, effects: seq<Effect>, now: int): (after: seq<Rule>)
    ensures |after| == |rules|
  {
    seq(|rules|, i requires 0 <= i < |rules| =>
      if rules[i].id.Some? && Stamp(rules[i].id.value) in effects then rules[i].(lastNotified := now) else rules[i])
  }

  /** The stored rules after some checks, each of which writes its stamps back. */
  ghost function RulesAfter(rules: seq<Rule>, checks: seq<Check>): (after: seq<Rule>)
    ensures |after| == |rules|
  {
    if |checks| == 0 then rules
    else
      var before, c := RulesAfter(rules, checks[..|checks| - 1]), checks[|checks| - 1];
      Stamped(before, GroupsEffects(c.stat, c.clients, Grouped(before, c.clients, c.now)), c.now)
  }

  ghost predicate ForwardClock(checks: seq<Check>) {
    (forall i :: 0 <= i < |checks| ==> checks[i].now > 0) &&
    forall i, j :: 0 <= i < j < |checks| ==> checks[i].now <= checks[j].now
  }

  /** Check `i` alerts for the k-th rule. */
  ghost predicate AlertsAt(rules: seq<Rule>, checks: seq<Check>, i: nat, k: nat)
    requires i < |checks| && k < |rules|
  {
    Alerting(checks[i].stat, checks[i].clients, RulesAfter(rules, checks[..i])[k], checks[i].now)
  }

  lemma {:induction false} SomeStamp(stat: Statistics, clients: seq<Client>, rules: seq<Rule>, now: int, k: nat)
    requires k < |rules| && rules[k].id.Some? && Alerting(stat, clients, rules[k], now)
    ensures Stamps(stat, clients, rules, now, rules[k].id.value) > 0
  {
    hide Alerting;
    var n := |rules| - 1;
    if k < n { SomeStamp(stat, clients, rules[..n], now, k); }
  }

  /** An alerting rule with an id is stamped; a stamp moves nothing but the time of the last notice. */
  lemma CheckStamps(rules: seq<Rule>, c: Check, k: nat)
    requires k < |rules|
    ensures var after := Stamped(rules, GroupsEffects(c.stat, c.clients, Grouped(rules, c.clients, c.now)), c.now);
      && (after[k] == rules[k] || after[k] == rules[k].(lastNotified := c.now))
      && (rules[k].id.Some? && Alerting(c.stat, c.clients, rules[k], c.now) ==>
            after[k] == rules[k].(lastNotified := c.now))
  {
    hide GroupsEffects, Grouped, Alerting, Owed;
    var effects := GroupsEffects(c.stat, c.clients, Grouped(rules, c.clients, c.now));
    if rules[k].id.Some? && Alerting(c.stat, c.clients, rules[k], c.now) {
      var stamp := Stamp(rules[k].id.value);
      CheckSendsExactly(c.stat, c.clients, rules, c.now, stamp);
      SomeStamp(c.stat, c.clients, rules, c.now, k);
      assert stamp in multiset(effects);
    }
  }

  lemma RulesStep(rules: seq<Rule>, checks: seq<Check>, n: nat, k: nat)
    requires k < |rules| && n < |checks|
    ensures var before, after, now := RulesAfter(rules, checks[..n])[k], RulesAfter(rules, checks[..n + 1])[k],
        checks[n].now;
      && (after == before || after == before.(lastNotified := now))
      && (before.id.Some? && AlertsAt(rules, checks, n, k) ==> after == before.(lastNotified := now))
  {
    hide GroupsEffects, Grouped, Alerting, Stamped;
    assert checks[..n + 1][..n] == checks[..n] && checks[..n + 1][n] == checks[n];
    CheckStamps(RulesAfter(rules, checks[..n]), checks[n], k);
  }

  lemma {:induction false} RuleStays(rules: seq<Rule>, checks: seq<Check>, n: nat, k: nat)
    requires k < |rules| && n <= |checks|
    ensures var rule := RulesAfter(rules, checks[..n])[k]; rule == rules[k].(lastNotified := rule.lastNotified)
  {
    hide *;
    if n > 0 {
      RuleStays(rules, checks, n - 1, k);
      RulesStep(rules, checks, n - 1, k);
    } else {
      NoChecksYet(rules, checks);
    }
  }

  lemma NoChecksYet(rules: seq<Rule>, checks: seq<Check>)
    ensures RulesAfter(rules, checks[..0]) == rules
  {
  }

  /** After a check that alerted, the rule's last notice is that check or a later one. */
  lemma {:induction false} NoticeIsKept(rules: seq<Rule>, checks: seq<Check>, i: nat, n: nat, k: nat)
    requires ForwardClock(checks) && k < |rules| && i < n <= |checks| && rules[k].id.Some?
    requires AlertsAt(rules, checks, i, k)
    ensures RulesAfter(rules, checks[..n])[k].lastNotified >= checks[i].now
  {
    hide AlertsAt, RulesAfter;
    RuleStays(rules, checks, n - 1, k);
    RulesStep(rules, checks, n - 1, k);
    if i < n - 1 { NoticeIsKept(rules, checks, i, n - 1, k); }
  }

  lemma AlertingIsDue(stat: Statistics, clients: seq<Client>, rule: Rule, now: int)
    requires Alerting(stat, clients, rule, now)
    ensures Due(rule, now)
  {
  }

  lemma SameRest(rule: Rule, notified: int)
    ensures Rest(rule.(lastNotified := notified)) == Rest(rule)
  {
  }

  /** Two checks that alert for a rule with an id are at least the rule's own interval apart. */
  lemma AlertsAreSpaced(rules: seq<Rule>, checks: seq<Check>, i: nat, j: nat, k: nat)
    requires ForwardClock(checks) && k < |rules| && i < j < |checks| && rules[k].id.Some?
    requires AlertsAt(rules, checks, i, k) && AlertsAt(rules, checks, j, k)
    ensures checks[j].now - checks[i].now >= Rest(rules[k])
  {
    NoticeIsKept(rules, checks, i, j, k);
    RuleStays(rules, checks, j, k);
    hide RulesAfter, Alerting, Rest;
    var rule := RulesAfter(rules, checks[..j])[k];
    AlertingIsDue(checks[j].stat, checks[j].clients, rule, checks[j].now);
    SameRest(rules[k], rule.lastNotified);
  }
}
