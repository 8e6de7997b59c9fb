/** Redirect rules of the proxy: each configuration load appends, for every listed
    port of every domain that resolves, a rule that is not in the chain yet. */
module Redirect {
  import opened Wrappers

  /** Both kinds of ports are redirected to the HTTP port. */
  const REDIRECT_PORT := 5533

  datatype Rule = Rule(ip: string, port: int, toPort: int)

  datatype Ports = Ports(http: seq<int>, https: seq<int>)

  datatype ProxyRule = ProxyRule(domain: string, proxies: seq<Ports>)

  /** The answer to each lookup of one call, in order; none if it failed or was empty. */
  type Answers = seq<Option<string>>

  function RuleFor(ip: string, port: int): Rule { Rule(ip, port, REDIRECT_PORT) }

  // ----- what a call should install -------------------------------------

  function Listed(proxies: seq<Ports>): seq<int> {
    if proxies == [] then []
    else Listed(proxies[..|proxies| - 1]) + proxies[|proxies| - 1].http + proxies[|proxies| - 1].https
  }

  function RulesFor(ip: string, ports: seq<int>): seq<Rule> {
    seq(|ports|, i requires 0 <= i < |ports| => RuleFor(ip, ports[i]))
  }

  /** The rules of every domain that resolves, in the order of the configuration. */
  function Wanted(config: seq<ProxyRule>, answers: Answers): seq<Rule>
    requires |answers| >= |config|
  {
    if config == [] then []
    else
      var n := |config| - 1;
      if answers[n].None? then Wanted(config[..n], answers)
      else Wanted(config[..n], answers) + RulesFor(answers[n].value, Listed(config[n].proxies))
  }

  predicate Lists(proxies: seq<Ports>, port: int) {
    exists j :: 0 <= j < |proxies| && port in proxies[j].http + proxies[j].https
  }

  /** The port is listed under a domain that resolved to the address. */
  predicate IsWanted(config: seq<ProxyRule>, answers: Answers, r: Rule) {
    && r.toPort == REDIRECT_PORT
    && exists i :: 0 <= i < |config| && i < |answers| && answers[i] == Some(r.ip) && Lists(config[i].proxies, r.port)
  }

  lemma {:induction false} ListedIff(proxies: seq<Ports>, port: int)
    ensures port in Listed(proxies) <==> Lists(proxies, port)
  {
    if proxies != [] {
      var n := |proxies| - 1;
      ListedIff(proxies[..n], port);
      assert forall j :: 0 <= j < n ==> proxies[..n][j] == proxies[j];
      if port in Listed(proxies[..n]) {
        var j :| 0 <= j < n && port in proxies[..n][j].http + proxies[..n][j].https;
        assert port in proxies[j].http + proxies[j].https;
      }
    }
  }

  lemma RulesForIff(ip: string, ports: seq<int>, r: Rule)
    ensures r in RulesFor(ip, ports) <==> r.ip == ip && r.toPort == REDIRECT_PORT && r.port in ports
  {
    if r.ip == ip && r.toPort == REDIRECT_PORT && r.port in ports {
      var k :| 0 <= k < |ports| && ports[k] == r.port;
      assert RulesFor(ip, ports)[k] == r;
    }
  }

  lemma {:induction false} WantedIff(config: seq<ProxyRule>, answers: Answers, r: Rule)
    requires |answers| >= |config|
    ensures r in Wanted(config, answers) <==> IsWanted(config, answers, r)
  {
    hide Lists, Listed, RulesFor;
    if config != [] {
      var n := |config| - 1;
      WantedIff(config[..n], answers, r);
      ListedIff(config[n].proxies, r.port);
      if answers[n].Some? {
        RulesForIff(answers[n].value, Listed(config[n].proxies), r);
      }
      assert forall i :: 0 <= i < n ==> config[..n][i] == config[i];
    }
  }

  /** The rules come domain by domain and block by block, in each block the HTTP ports first. */
  lemma WantedInOrder(config: seq<ProxyRule>, answers: Answers, domain: string, blocks: seq<Ports>, block: Ports,
                      ip: string)
    requires |answers| == |config|
    ensures Wanted(config + [ProxyRule(domain, blocks)], answers + [None]) == Wanted(config, answers)
    ensures Wanted(config + [ProxyRule(domain, [])], answers + [Some(ip)]) == Wanted(config, answers)
    ensures Wanted(config + [ProxyRule(domain, blocks + [block])], answers + [Some(ip)]) ==
      Wanted(config + [ProxyRule(domain, blocks)], answers + [Some(ip)])
        + seq(|block.http|, i requires 0 <= i < |block.http| => Rule(ip, block.http[i], 5533))
        + seq(|block.https|, i requires 0 <= i < |block.https| => Rule(ip, block.https[i], 5533))
  {
    hide *;
    WantedSnoc(config, answers, ProxyRule(domain, blocks), None);
    WantedSnoc(config, answers, ProxyRule(domain, []), Some(ip));
    WantedSnoc(config, answers, ProxyRule(domain, blocks), Some(ip));
    WantedSnoc(config, answers, ProxyRule(domain, blocks + [block]), Some(ip));
    ListedSnoc(ip, blocks, block);
    assert Wanted(config, answers) + [] == Wanted(config, answers);
  }

  lemma WantedSnoc(config: seq<ProxyRule>, answers: Answers, rule: ProxyRule, answer: Option<string>)
    requires |answers| == |config|
    ensures Wanted(config + [rule], answers + [answer]) ==
      if answer.None? then Wanted(config, answers)
      else Wanted(config, answers) + RulesFor(answer.value, Listed(rule.proxies))
  {
    hide RulesFor, Listed;
    AnswersOnly(config, answers, answers + [answer]);
    assert (config + [rule])[..|config|] == config;
  }

  lemma ListedSnoc(ip: string, blocks: seq<Ports>, block: Ports)
    ensures RulesFor(ip, Listed([])) == []
    ensures RulesFor(ip, Listed(blocks + [block])) ==
      RulesFor(ip, Listed(blocks))
        + seq(|block.http|, i requires 0 <= i < |block.http| => Rule(ip, block.http[i], 5533))
        + seq(|block.https|, i requires 0 <= i < |block.https| => Rule(ip, block.https[i], 5533))
  {
    assert (blocks + [block])[..|blocks|] == blocks;
    RulesForAppend(ip, Listed(blocks) + block.http, block.https);
    RulesForAppend(ip, Listed(blocks), block.http);
  }

  /** Further answers do not matter. */
  lemma {:induction false} AnswersOnly(config: seq<ProxyRule>, answers: Answers, more: Answers)
    requires |config| <= |answers| <= |more| && answers == more[..|answers|]
    ensures Wanted(config, more) == Wanted(config, answers)
  {
    if config != [] {
      AnswersOnly(config[..|config| - 1], answers, more);
    }
  }

  // ----- the chain ------------------------------------------------------

  /** The chain with each rule appended that it does not hold yet. */
  function Installed(chain: seq<Rule>, rules: seq<Rule>): seq<Rule> {
    if rules == [] then chain
    else
      var before := Installed(chain, rules[..|rules| - 1]);
      if rules[|rules| - 1] in before then before else before + [rules[|rules| - 1]]
  }

  class Chain {
    var rules: seq<Rule>
    ghost var failures: nat // how many appends have failed

    constructor (rules: seq<Rule>)
      ensures this.rules == rules && failures == 0
    {
      this.rules, failures := rules, 0;
    }

    method Exists(r: Rule) returns (found: Option<bool>)
      ensures found.Some? ==> found.value == (r in rules)
    {
      var broken: bool := *;
      return if broken then None else Some(r in rules);
    }

    method AppendUnique(r: Rule) returns (ok: bool)
      modifies this
      ensures rules == if ok then Installed(old(rules), [r]) else old(rules)
      ensures failures == old(failures) + if ok then 0 else 1
    {
      InstalledOne(rules, r);
      var broken: bool := *;
      if broken {
        failures := failures + 1;
        return false;
      }
      if r !in rules {
        rules := rules + [r];
      }
      return true;
    }
  }

  lemma InstalledOne(chain: seq<Rule>, r: Rule)
    ensures Installed(chain, [r]) == if r in chain then chain else chain + [r]
  {
    assert Installed(chain, [r][..0]) == chain;
  }

  /** A check that fails counts as a rule that is missing. */
  method RuleExists(chain: Chain, ip: string, port: int) returns (found: bool)
    ensures found ==> RuleFor(ip, port) in chain.rules
  {
    var answer := chain.Exists(RuleFor(ip, port));
    return answer.Some? && answer.value;
  }

  method AddRule(chain: Chain, ip: string, port: int) returns (ok: bool)
    modifies chain
    ensures chain.rules == if ok then Installed(old(chain.rules), [RuleFor(ip, port)]) else old(chain.rules)
    ensures chain.failures == old(chain.failures) + if ok then 0 else 1
  {
    InstalledOne(chain.rules, RuleFor(ip, port));
    var found := RuleExists(chain, ip, port);
    if found {
      return true;
    }
    ok := chain.AppendUnique(RuleFor(ip, port));
  }

  lemma {:induction false} InstalledAppend(chain: seq<Rule>, a: seq<Rule>, b: seq<Rule>)
    ensures Installed(Installed(chain, a), b) == Installed(chain, a + b)
    decreases |b|
  {
    if b == [] {
      assert a + b == a;
    } else {
      InstalledAppend(chain, a, b[..|b| - 1]);
      assert (a + b)[..|a + b| - 1] == a + b[..|b| - 1];
    }
  }

  // ----- a call ---------------------------------------------------------

  /** The first sequence is the second with some of its elements left out. */
  predicate LeavesOut(some: seq<Rule>, all: seq<Rule>) {
    if all == [] then some == []
    else
      var n := |all| - 1;
      || LeavesOut(some, all[..n])
      || (some != [] && some[|some| - 1] == all[n] && LeavesOut(some[..|some| - 1], all[..n]))
  }

  lemma {:induction false} LeavesOutMeans(some: seq<Rule>, all: seq<Rule>)
    requires LeavesOut(some, all)
    ensures |some| <= |all| && (|some| == |all| ==> some == all)
    ensures forall r :: r in some ==> r in all
  {
    if all != [] {
      var n := |all| - 1;
      if LeavesOut(some, all[..n]) {
        LeavesOutMeans(some, all[..n]);
      } else {
        LeavesOutMeans(some[..|some| - 1], all[..n]);
        assert some == some[..|some| - 1] + [all[n]] && all == all[..n] + [all[n]];
      }
    }
  }

  lemma LeavesOutNext(some: seq<Rule>, all: seq<Rule>, r: Rule)
    requires LeavesOut(some, all)
    ensures LeavesOut(some, all + [r]) && LeavesOut(some + [r], all + [r])
  {
    assert (all + [r])[..|all|] == all && (some + [r])[..|some|] == some;
  }

  lemma {:induction false} LeavesOutInTurn(a: seq<Rule>, b: seq<Rule>, c: seq<Rule>, d: seq<Rule>)
    requires LeavesOut(a, b) && LeavesOut(c, d)
    ensures LeavesOut(a + c, b + d)
    decreases |d|
  {
    if d == [] {
      assert a + c == a && b + d == b;
    } else {
      var n := |d| - 1;
      assert b + d == (b + d[..n]) + [d[n]];
      if LeavesOut(c, d[..n]) {
        LeavesOutInTurn(a, b, c, d[..n]);
        LeavesOutNext(a + c, b + d[..n], d[n]);
      } else {
        var m := |c| - 1;
        LeavesOutInTurn(a, b, c[..m], d[..n]);
        LeavesOutNext(a + c[..m], b + d[..n], d[n]);
        assert a + c == (a + c[..m]) + [d[n]];
      }
    }
  }

  /** The rules that did not fail, in order: exactly as many are left out as appends failed. */
  predicate AddedFrom(added: seq<Rule>, wanted: seq<Rule>, failures: int) {
    LeavesOut(added, wanted) && |added| + failures == |wanted|
  }

  /** A failing rule is logged and the rest goes on. */
  method AddRules(chain: Chain, ip: string, ports: seq<int>) returns (ghost added: seq<Rule>)
    modifies chain
    ensures chain.rules == Installed(old(chain.rules), added)
    ensures AddedFrom(added, RulesFor(ip, ports), chain.failures - old(chain.failures))
  {
    added := [];
    ghost var all := RulesFor(ip, ports);
    for i := 0 to |ports|
      invariant chain.rules == Installed(old(chain.rules), added)
      invariant AddedFrom(added, all[..i], chain.failures - old(chain.failures))
    {
      assert all[..i + 1] == all[..i] + [RuleFor(ip, ports[i])];
      LeavesOutNext(added, all[..i], RuleFor(ip, ports[i]));
      var ok := AddRule(chain, ip, ports[i]);
      if ok {
        InstalledAppend(old(chain.rules), added, [RuleFor(ip, ports[i])]);
        added := added + [RuleFor(ip, ports[i])];
      }
    }
    assert all[..|ports|] == all;
  }

  lemma RulesForAppend(ip: string, a: seq<int>, b: seq<int>)
    ensures RulesFor(ip, a + b) == RulesFor(ip, a) + RulesFor(ip, b)
  {
  }

  /** The ports of one domain. */
  method AddDomain(chain: Chain, ip: string, proxies: seq<Ports>) returns (ghost added: seq<Rule>)
    modifies chain
    ensures chain.rules == Installed(old(chain.rules), added)
    ensures AddedFrom(added, RulesFor(ip, Listed(proxies)), chain.failures - old(chain.failures))
  {
    hide Installed, LeavesOut, RulesFor;
    added := [];
    NothingToAdd(chain.rules, ip);
    for j := 0 to |proxies|
      invariant chain.rules == Installed(old(chain.rules), added)
      invariant AddedFrom(added, RulesFor(ip, Listed(proxies[..j])), chain.failures - old(chain.failures))
    {
      ghost var before := Listed(proxies[..j]);
      assert proxies[..j + 1][..j] == proxies[..j];
      added := AddMore(chain, ip, proxies[j].http, old(chain.rules), before, added,
                       chain.failures - old(chain.failures));
      added := AddMore(chain, ip, proxies[j].https, old(chain.rules), before + proxies[j].http, added,
                       chain.failures - old(chain.failures));
    }
    assert proxies[..|proxies|] == proxies;
  }

  lemma NothingToAdd(rules: seq<Rule>, ip: string)
    ensures Installed(rules, []) == rules && AddedFrom([], RulesFor(ip, []), 0) && AddedFrom([], [], 0)
  {
  }

  /** The ports of one kind, after those before them. */
  method AddMore(chain: Chain, ip: string, ports: seq<int>, ghost start: seq<Rule>, ghost before: seq<int>,
                 ghost added0: seq<Rule>, ghost failed: int) returns (ghost added: seq<Rule>)
    requires chain.rules == Installed(start, added0) && AddedFrom(added0, RulesFor(ip, before), failed)
    modifies chain
    ensures chain.rules == Installed(start, added)
    ensures AddedFrom(added, RulesFor(ip, before + ports), failed + chain.failures - old(chain.failures))
  {
    hide Installed, LeavesOut, RulesFor;
    added := AddRules(chain, ip, ports);
    InstalledAppend(start, added0, added);
    RulesForAppend(ip, before, ports);
    LeavesOutInTurn(added0, RulesFor(ip, before), added, RulesFor(ip, ports));
    added := added0 + added;
  }

  /** One load of the configuration; a domain that does not resolve is skipped. */
  method ApplyRules(chain: Chain, config: seq<ProxyRule>, answers: Answers) returns (ghost added: seq<Rule>)
    requires |answers| == |config|
    modifies chain
    ensures chain.rules == Installed(old(chain.rules), added)
    ensures AddedFrom(added, Wanted(config, answers), chain.failures - old(chain.failures))
  {
    hide Installed, LeavesOut, RulesFor;
    added := [];
    NothingToAdd(chain.rules, "");
    for i := 0 to |config|
      invariant chain.rules == Installed(old(chain.rules), added)
      invariant AddedFrom(added, Wanted(config[..i], answers), chain.failures - old(chain.failures))
    {
      assert config[..i + 1][..i] == config[..i];
      if answers[i].None? {
        continue;
      }
      ghost var some := AddDomain(chain, answers[i].value, config[i].proxies);
      InstalledAppend(old(chain.rules), added, some);
      LeavesOutInTurn(added, Wanted(config[..i], answers), some, RulesFor(answers[i].value, Listed(config[i].proxies)));
      added := added + some;
    }
    assert config[..|config|] == config;
  }

  // ----- any sequence of calls ------------------------------------------

  /** Installing keeps the chain as a prefix and appends, once each, what was missing. */
  lemma {:induction false} InstalledShape(chain: seq<Rule>, rules: seq<Rule>)
    ensures var now := Installed(chain, rules);
      && chain <= now
      && (forall k :: |chain| <= k < |now| ==> now[k] in rules && now[k] !in now[..k])
      && (forall r :: r in rules ==> r in now)
    decreases |rules|
  {
    if rules != [] {
      var n := |rules| - 1;
      InstalledShape(chain, rules[..n]);
      var before, now := Installed(chain, rules[..n]), Installed(chain, rules);
      assert rules == rules[..n] + [rules[n]];
      forall k | |chain| <= k < |now| ensures now[k] in rules && now[k] !in now[..k] {
        assert k < |before| ==> now[..k] == before[..k];
        assert k == |before| ==> now[..k] == before;
      }
    }
  }

  /** What a call was given, which of its rules did not fail, and how many appends did. */
  datatype Call = Call(config: seq<ProxyRule>, answers: Answers, added: seq<Rule>, failures: nat)

  predicate Possible(c: Call) {
    |c.answers| == |c.config| && AddedFrom(c.added, Wanted(c.config, c.answers), c.failures)
  }

  predicate Clean(c: Call) { c.failures == 0 }

  lemma AddsOnlyWanted(c: Call, r: Rule)
    requires Possible(c) && r in c.added
    ensures IsWanted(c.config, c.answers, r)
  {
    LeavesOutMeans(c.added, Wanted(c.config, c.answers));
    WantedIff(c.config, c.answers, r);
  }

  lemma CleanAddsAll(c: Call, r: Rule)
    requires Possible(c) && Clean(c) && IsWanted(c.config, c.answers, r)
    ensures r in c.added
  {
    LeavesOutMeans(c.added, Wanted(c.config, c.answers));
    WantedIff(c.config, c.answers, r);
  }

  function AfterCalls(chain: seq<Rule>, calls: seq<Call>): seq<Rule> {
    if calls == [] then chain else Installed(AfterCalls(chain, calls[..|calls| - 1]), calls[|calls| - 1].added)
  }

  /** What a call without failures wanted stays in the chain. */
  lemma {:induction false} CleanCallsLast(chain: seq<Rule>, calls: seq<Call>, c: Call, r: Rule)
    requires c in calls && Possible(c) && Clean(c) && IsWanted(c.config, c.answers, r)
    ensures r in AfterCalls(chain, calls)
    decreases |calls|
  {
    hide Possible, IsWanted, Installed;
    var n := |calls| - 1;
    var before, last := AfterCalls(chain, calls[..n]), calls[n];
    InstalledShape(before, last.added);
    if c == last {
      CleanAddsAll(c, r);
    } else {
      assert calls == calls[..n] + [last];
      CleanCallsLast(chain, calls[..n], c, r);
    }
  }

  /** After any calls with any lookup answers and any failures: the old chain is a
      prefix, every appended rule is new where it stands and redirects a port that
      one of the calls listed at an address that it resolved, and every rule wanted
      by a call without failures is there. */
  lemma {:induction false} AfterReloads(chain: seq<Rule>, calls: seq<Call>)
    requires forall c :: c in calls ==> Possible(c)
    ensures var now := AfterCalls(chain, calls);
      && chain <= now
      && (forall k :: |chain| <= k < |now| ==>
            now[k] !in now[..k] && exists c :: c in calls && IsWanted(c.config, c.answers, now[k]))
      && (forall c, r :: c in calls && Clean(c) && IsWanted(c.config, c.answers, r) ==> r in now)
    decreases |calls|
  {
    hide IsWanted, Installed, Clean, Possible;
    if calls != [] {
      var n := |calls| - 1;
      var before, now, last := AfterCalls(chain, calls[..n]), AfterCalls(chain, calls), calls[n];
      assert calls == calls[..n] + [last];
      AfterReloads(chain, calls[..n]);
      InstalledShape(before, last.added);
      forall k | |chain| <= k < |now|
        ensures now[k] !in now[..k] && exists c :: c in calls && IsWanted(c.config, c.answers, now[k])
      {
        if k < |before| {
          assert now[k] == before[k] && now[..k] == before[..k];
        } else {
          AddsOnlyWanted(last, now[k]);
          assert last in calls && IsWanted(last.config, last.answers, now[k]);
        }
      }
      forall c, r | c in calls && Clean(c) && IsWanted(c.config, c.answers, r) ensures r in now {
        CleanCallsLast(chain, calls, c, r);
      }
    }
  }

  /** Whatever follows a call without failures, repeating it with the same answers
      changes nothing, even if some of its rules now fail. */
  lemma {:induction false} RepeatChangesNothing(chain: seq<Rule>, rules: seq<Rule>)
    requires forall r :: r in rules ==> r in chain
    ensures Installed(chain, rules) == chain
    decreases |rules|
  {
    if rules != [] {
      assert forall r :: r in rules[..|rules| - 1] ==> r in rules;
      RepeatChangesNothing(chain, rules[..|rules| - 1]);
    }
  }

  lemma RepeatedCall(chain: seq<Rule>, calls: seq<Call>, first: Call, again: Call)
    requires forall c :: c in calls + [again] ==> Possible(c)
    requires first in calls && Clean(first) && again.config == first.config && again.answers == first.answers
    ensures AfterCalls(chain, calls + [again]) == AfterCalls(chain, calls)
  {
    AfterReloads(chain, calls);
    assert (calls + [again])[..|calls|] == calls;
    assert again in calls + [again];
    forall r | r in again.added ensures r in AfterCalls(chain, calls) {
      AddsOnlyWanted(again, r);
      assert IsWanted(first.config, first.answers, r);
    }
    RepeatChangesNothing(AfterCalls(chain, calls), again.added);
  }

  /** The domain of some entry resolved to the address and lists the port, of either kind. */
  predicate Redirected(c: Call, ip: string, port: int) {
    exists i :: 0 <= i < |c.config| && i < |c.answers| && c.answers[i] == Some(ip) &&
      exists j :: 0 <= j < |c.config[i].proxies| &&
        (port in c.config[i].proxies[j].http || port in c.config[i].proxies[j].https)
  }

  lemma RedirectedIff(c: Call, r: Rule)
    ensures IsWanted(c.config, c.answers, r) <==> r.toPort == 5533 && Redirected(c, r.ip, r.port)
  {
    if IsWanted(c.config, c.answers, r) {
      var i :| 0 <= i < |c.config| && i < |c.answers| && c.answers[i] == Some(r.ip)
        && Lists(c.config[i].proxies, r.port);
      var j :| 0 <= j < |c.config[i].proxies| && r.port in c.config[i].proxies[j].http + c.config[i].proxies[j].https;
    }
    if Redirected(c, r.ip, r.port) {
      var i :| 0 <= i < |c.config| && i < |c.answers| && c.answers[i] == Some(r.ip) &&
        exists j :: 0 <= j < |c.config[i].proxies| &&
          (r.port in c.config[i].proxies[j].http || r.port in c.config[i].proxies[j].https);
      var j :| 0 <= j < |c.config[i].proxies| &&
        (r.port in c.config[i].proxies[j].http || r.port in c.config[i].proxies[j].https);
      assert r.port in c.config[i].proxies[j].http + c.config[i].proxies[j].https;
      assert Lists(c.config[i].proxies, r.port);
    }
  }

  /** If no append fails in any of the loads, the chain ends up with exactly the rules that
      it had and those that send a listed port, HTTP or HTTPS, of a domain that resolved in
      some load to the HTTP port. */
  lemma ChainIff(chain: seq<Rule>, calls: seq<Call>, ip: string, port: int, toPort: int)
    requires forall c :: c in calls ==> Possible(c) && Clean(c)
    ensures Rule(ip, port, toPort) in AfterCalls(chain, calls) <==>
      || Rule(ip, port, toPort) in chain
      || (toPort == 5533 && exists c :: c in calls && Redirected(c, ip, port))
  {
    hide Possible, Clean, IsWanted, Redirected;
    AfterReloads(chain, calls);
    var now, r := AfterCalls(chain, calls), Rule(ip, port, toPort);
    forall c: Call ensures IsWanted(c.config, c.answers, r) <==> toPort == 5533 && Redirected(c, ip, port) {
      RedirectedIff(c, r);
    }
    if r in now && r !in chain {
      assert forall k :: 0 <= k < |chain| ==> now[k] == chain[k] && chain[k] in chain;
      var k :| 0 <= k < |now| && now[k] == r;
    }
  }

  /** What a load without failures leaves for an HTTPS port of a domain that resolved: a
      rule to the HTTP port, and none to any other port that was not there before. */
  lemma HttpsPortsGoToHttp(chain: seq<Rule>, calls: seq<Call>, c: Call, i: nat, j: nat, port: int)
    requires (forall c :: c in calls ==> Possible(c)) && c in calls && Clean(c)
    requires i < |c.config| == |c.answers| && c.answers[i].Some? && j < |c.config[i].proxies|
      && port in c.config[i].proxies[j].https
    ensures Rule(c.answers[i].value, port, 5533) in AfterCalls(chain, calls)
    ensures forall r :: r in AfterCalls(chain, calls) && r.toPort != 5533 ==> r in chain
  {
    AfterReloads(chain, calls);
    var now, r := AfterCalls(chain, calls), RuleFor(c.answers[i].value, port);
    assert port in c.config[i].proxies[j].http + c.config[i].proxies[j].https;
    assert Lists(c.config[i].proxies, port) && IsWanted(c.config, c.answers, r);
    forall r | r in now && r.toPort != 5533 ensures r in chain {
      var k :| 0 <= k < |now| && now[k] == r;
    }
  }
}
