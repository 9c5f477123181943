/** HTTPRoute rules into ReverseProxyService backends: one per path and
    surviving backendRef, failing closed on anything the proxy cannot represent
    (internal/controller/gateway_controller.go). */
module RouteCompiler {
  import opened Api

  datatype PathType = PathPrefix | Exact | RegularExpression

  datatype PathMatch = PathMatch(type_: Option<PathType>, value: Option<string>)

  /** Only the path of a match is translated; header and method matches are not. */
  datatype Match = Match(path: Option<PathMatch>)

  datatype BackendRef = BackendRef(name: string, port: Option<int>, weight: Option<int>, filters: nat)

  datatype Rule = Rule(filters: nat, matches: seq<Match>, refs: seq<BackendRef>)

  datatype Backend = Backend(service: string, port: Option<int>, path: string)

  datatype Reason = RuleFilters | NotPrefix | RefFilters | DifferingWeights | NoTraffic | NoRules | TooMany

  datatype Compiled = Accepted(backends: seq<Backend>) | Rejected(reason: Reason)

  const MAX_PROXY_BACKENDS: nat := 64

  function Weight(r: BackendRef): int {
    if r.weight.Some? then r.weight.value else 1
  }

  predicate Survives(r: BackendRef) {
    Weight(r) != 0
  }

  predicate IsPrefix(m: Match) {
    m.path.Some? && m.path.value.type_.Some? ==> m.path.value.type_.value == PathPrefix
  }

  function PathOf(m: Match): string {
    if m.path.None? || m.path.value.value.None? then "/" else m.path.value.value.value
  }

  /** The paths of the matches, each once, in the order of first appearance. */
  function Distinct(ms: seq<Match>): seq<string> {
    if ms == [] then []
    else
      var d := Distinct(ms[..|ms| - 1]);
      var p := PathOf(ms[|ms| - 1]);
      if p in d then d else d + [p]
  }

  /** The prefixes a rule answers for; a rule without matches answers for "/". */
  function Paths(rule: Rule): seq<string> {
    if rule.matches == [] then ["/"] else Distinct(rule.matches)
  }

  predicate HasPath(ms: seq<Match>, p: string) {
    exists i :: 0 <= i < |ms| && PathOf(ms[i]) == p
  }

  lemma {:induction false} DistinctIsExact(ms: seq<Match>, p: string)
    ensures NoRepeats(Distinct(ms))
    ensures p in Distinct(ms) <==> HasPath(ms, p)
    ensures Distinct(ms) == [] <==> ms == []
  {
    if ms != [] {
      var n := |ms| - 1;
      DistinctIsExact(ms[..n], p);
      assert HasPath(ms, p) <==> HasPath(ms[..n], p) || PathOf(ms[n]) == p by {
        if HasPath(ms, p) && PathOf(ms[n]) != p {
          var i :| 0 <= i < |ms| && PathOf(ms[i]) == p;
          assert ms[..n][i] == ms[i];
        }
        if HasPath(ms[..n], p) {
          var i :| 0 <= i < n && PathOf(ms[..n][i]) == p;
          assert ms[i] == ms[..n][i];
        }
      }
    }
  }

  method RulePaths(rule: Rule) returns (paths: seq<string>, ok: bool)
    ensures ok <==> forall i :: 0 <= i < |rule.matches| ==> IsPrefix(rule.matches[i])
    ensures ok ==> paths == Paths(rule)
  {
    paths := [];
    var seen: set<string> := {};
    for i := 0 to |rule.matches|
      invariant forall j :: 0 <= j < i ==> IsPrefix(rule.matches[j])
      invariant forall p :: p in seen <==> p in paths
      invariant paths == Distinct(rule.matches[..i])
    {
      var m := rule.matches[i];
      assert rule.matches[..i + 1][..i] == rule.matches[..i];
      if m.path.Some? && m.path.value.type_.Some? && m.path.value.type_.value != PathPrefix {
        return [], false;
      }
      var p := if m.path.None? || m.path.value.value.None? then "/" else m.path.value.value.value;
      if p !in seen {
        seen := seen + {p};
        paths := paths + [p];
      }
    }
    assert rule.matches[..|rule.matches|] == rule.matches;
    DistinctIsExact(rule.matches, "/");
    if |paths| == 0 {
      paths := paths + ["/"];
    }
    ok := true;
  }

  // ---- What is produced ----

  function Row(r: BackendRef, paths: seq<string>): (b: seq<Backend>)
    ensures |b| == |paths|
    ensures forall i :: 0 <= i < |paths| ==> b[i] == Backend(r.name, r.port, paths[i])
  {
    seq(|paths|, i requires 0 <= i < |paths| => Backend(r.name, r.port, paths[i]))
  }

  function Rows(refs: seq<BackendRef>, paths: seq<string>): seq<Backend> {
    if refs == [] then []
    else
      var r := refs[|refs| - 1];
      Rows(refs[..|refs| - 1], paths) + (if Survives(r) then Row(r, paths) else [])
  }

  function FanOut(rules: seq<Rule>): seq<Backend> {
    if rules == [] then []
    else
      var rule := rules[|rules| - 1];
      FanOut(rules[..|rules| - 1]) + Rows(rule.refs, Paths(rule))
  }

  // ---- What is accepted ----

  /** The weight of the last surviving ref, -1 before there is one. */
  function LastWeight(refs: seq<BackendRef>): int {
    if refs == [] then -1
    else if Survives(refs[|refs| - 1]) then Weight(refs[|refs| - 1])
    else LastWeight(refs[..|refs| - 1])
  }

  /** The weight comparison as it is made: each surviving ref against the one
      before it, unless that one's weight is negative. */
  predicate WeightsMatch(refs: seq<BackendRef>) {
    refs == [] ||
    var n := |refs| - 1;
    WeightsMatch(refs[..n]) && (!Survives(refs[n]) || LastWeight(refs[..n]) < 0 || Weight(refs[n]) == LastWeight(refs[..n]))
  }

  /** Some ref survives. */
  predicate HasTraffic(refs: seq<BackendRef>) {
    refs != [] && (Survives(refs[|refs| - 1]) || HasTraffic(refs[..|refs| - 1]))
  }

  lemma {:induction false} TrafficIsSome(refs: seq<BackendRef>)
    ensures HasTraffic(refs) <==> exists i :: 0 <= i < |refs| && Survives(refs[i])
  {
    if refs != [] {
      var n := |refs| - 1;
      TrafficIsSome(refs[..n]);
      assert forall i :: 0 <= i < n ==> refs[..n][i] == refs[i];
    }
  }

  ghost predicate CleanRule(rule: Rule) {
    && rule.filters == 0
    && (forall i :: 0 <= i < |rule.matches| ==> IsPrefix(rule.matches[i]))
    && (forall i :: 0 <= i < |rule.refs| ==> rule.refs[i].filters == 0)
    && WeightsMatch(rule.refs) && HasTraffic(rule.refs)
  }

  ghost predicate AllClean(rules: seq<Rule>) {
    forall i :: 0 <= i < |rules| ==> CleanRule(rules[i])
  }

  ghost predicate Translatable(rules: seq<Rule>) {
    && rules != [] && AllClean(rules) && |FanOut(rules)| <= MAX_PROXY_BACKENDS
  }

  /** The reason given for a rejection is true of the rule. */
  ghost predicate RuleFault(reason: Reason, rule: Rule) {
    match reason
    case RuleFilters => rule.filters > 0
    case NotPrefix => exists j :: 0 <= j < |rule.matches| && !IsPrefix(rule.matches[j])
    case RefFilters => exists j :: 0 <= j < |rule.refs| && rule.refs[j].filters > 0
    case DifferingWeights => !WeightsMatch(rule.refs)
    case NoTraffic => !HasTraffic(rule.refs)
    case _ => false
  }

  /** The reason given for a rejection is true of the route. */
  ghost predicate Accurate(reason: Reason, rules: seq<Rule>) {
    match reason
    case NoRules => rules == []
    case TooMany => |FanOut(rules)| > MAX_PROXY_BACKENDS
    case _ => exists i :: 0 <= i < |rules| && RuleFault(reason, rules[i])
  }

  lemma OneMoreRef(refs: seq<BackendRef>, i: nat, paths: seq<string>)
    requires i < |refs|
    ensures Rows(refs[..i + 1], paths) == Rows(refs[..i], paths) + if Survives(refs[i]) then Row(refs[i], paths) else []
    ensures LastWeight(refs[..i + 1]) == if Survives(refs[i]) then Weight(refs[i]) else LastWeight(refs[..i])
    ensures WeightsMatch(refs[..i + 1]) <==>
            WeightsMatch(refs[..i]) && (!Survives(refs[i]) || LastWeight(refs[..i]) < 0 || Weight(refs[i]) == LastWeight(refs[..i]))
    ensures HasTraffic(refs[..i + 1]) <==> HasTraffic(refs[..i]) || Survives(refs[i])
  {
    assert refs[..i + 1][..i] == refs[..i];
  }

  /** One surviving ref's backends, a path each. */
  method AppendRow(rows: seq<Backend>, br: BackendRef, paths: seq<string>) returns (out: seq<Backend>)
    ensures out == rows + Row(br, paths)
  {
    out := rows;
    for k := 0 to |paths|
      invariant out == rows + Row(br, paths)[..k]
    {
      out := out + [Backend(br.name, br.port, paths[k])];
    }
  }

  /** One rule's refs: either a truthful reason to reject, or the rows of the
      surviving ones. */
  method RuleBackends(rule: Rule, paths: seq<string>) returns (out: Compiled)
    ensures out.Accepted? <==>
      (forall i :: 0 <= i < |rule.refs| ==> rule.refs[i].filters == 0) && WeightsMatch(rule.refs) && HasTraffic(rule.refs)
    ensures out.Accepted? ==> out.backends == Rows(rule.refs, paths)
    ensures out.Rejected? ==> RuleFault(out.reason, rule)
  {
    var rows: seq<Backend> := [];
    var weight := -1;
    var ruleBackends := 0;
    for i := 0 to |rule.refs|
      invariant rows == Rows(rule.refs[..i], paths)
      invariant forall k :: 0 <= k < i ==> rule.refs[k].filters == 0
      invariant ruleBackends >= 0 && (ruleBackends > 0 <==> HasTraffic(rule.refs[..i]))
      invariant weight == LastWeight(rule.refs[..i]) && WeightsMatch(rule.refs[..i])
    {
      var br := rule.refs[i];
      OneMoreRef(rule.refs, i, paths);
      if br.filters > 0 {
        return Rejected(RefFilters);
      }
      var w := if br.weight.Some? then br.weight.value else 1;
      if w == 0 {
        continue;
      }
      if weight >= 0 && w != weight {
        if WeightsMatch(rule.refs) { PrefixMatches(rule.refs, i + 1); }
        return Rejected(DifferingWeights);
      }
      weight := w;
      rows := AppendRow(rows, br, paths);
      ruleBackends := ruleBackends + 1;
    }
    assert rule.refs[..|rule.refs|] == rule.refs;
    if ruleBackends == 0 {
      return Rejected(NoTraffic);
    }
    return Accepted(rows);
  }

  lemma {:induction false} PrefixMatches(refs: seq<BackendRef>, n: nat)
    requires n <= |refs| && WeightsMatch(refs)
    ensures WeightsMatch(refs[..n])
  {
    if n < |refs| {
      assert refs[..|refs| - 1][..n] == refs[..n];
      PrefixMatches(refs[..|refs| - 1], n);
    } else {
      assert refs[..n] == refs;
    }
  }

  /** One rule: accepted exactly when it is clean. */
  method CompileRule(rule: Rule) returns (out: Compiled)
    ensures out.Accepted? <==> CleanRule(rule)
    ensures out.Accepted? ==> out.backends == Rows(rule.refs, Paths(rule))
    ensures out.Rejected? ==> RuleFault(out.reason, rule)
  {
    if rule.filters > 0 {
      return Rejected(RuleFilters);
    }
    var paths, ok := RulePaths(rule);
    if !ok {
      return Rejected(NotPrefix);
    }
    out := RuleBackends(rule, paths);
  }

  /** Every rule in turn: a true fault of some rule, or the fan-out of clean rules. */
  method CompileRules(rules: seq<Rule>) returns (out: Compiled)
    ensures out.Accepted? <==> AllClean(rules)
    ensures out.Accepted? ==> out.backends == FanOut(rules)
    ensures out.Rejected? ==> exists i :: 0 <= i < |rules| && RuleFault(out.reason, rules[i])
  {
    var backends: seq<Backend> := [];
    for i := 0 to |rules|
      invariant backends == FanOut(rules[..i])
      invariant forall k :: 0 <= k < i ==> CleanRule(rules[k])
    {
      var compiled := CompileRule(rules[i]);
      if compiled.Rejected? {
        return compiled;
      }
      assert rules[..i + 1][..i] == rules[..i];
      backends := backends + compiled.backends;
    }
    assert rules[..|rules|] == rules;
    return Accepted(backends);
  }

  method RouteBackends(rules: seq<Rule>) returns (out: Compiled)
    ensures out.Accepted? <==> Translatable(rules)
    ensures out.Accepted? ==> out.backends == FanOut(rules)
    ensures out.Rejected? ==> Accurate(out.reason, rules)
  {
    out := CompileRules(rules);
    if out.Rejected? {
      return;
    }
    CleanRulesProduce(rules);
    if |out.backends| == 0 {
      return Rejected(NoRules);
    }
    if |out.backends| > MAX_PROXY_BACKENDS {
      return Rejected(TooMany);
    }
  }

  // ---- Membership and size ----

  lemma {:induction false} RowsMembers(refs: seq<BackendRef>, paths: seq<string>, b: Backend)
    ensures b in Rows(refs, paths) <==>
            b.path in paths && exists k :: 0 <= k < |refs| && Survives(refs[k]) && refs[k].name == b.service && refs[k].port == b.port
  {
    if refs != [] {
      var n := |refs| - 1;
      RowsMembers(refs[..n], paths, b);
      var row := Row(refs[n], paths);
      assert b in row <==> b.path in paths && refs[n].name == b.service && refs[n].port == b.port by {
        if b.path in paths && refs[n].name == b.service && refs[n].port == b.port {
          var i :| 0 <= i < |paths| && paths[i] == b.path;
          assert row[i] == b;
        }
      }
      assert forall k :: 0 <= k < n ==> refs[..n][k] == refs[k];
    }
  }

  /** The rule sends the ref (service, port) traffic. */
  predicate Sends(rule: Rule, service: string, port: Option<int>) {
    exists k :: 0 <= k < |rule.refs| && Survives(rule.refs[k]) && rule.refs[k].name == service && rule.refs[k].port == port
  }

  predicate Produces(rule: Rule, b: Backend) {
    b.path in Paths(rule) && Sends(rule, b.service, b.port)
  }

  ghost predicate SomeProduces(rules: seq<Rule>, b: Backend) {
    exists i :: 0 <= i < |rules| && Produces(rules[i], b)
  }

  lemma SomeProducesGrows(rules: seq<Rule>, rule: Rule, b: Backend)
    ensures SomeProduces(rules + [rule], b) <==> SomeProduces(rules, b) || Produces(rule, b)
  {
    var all := rules + [rule];
    assert all[|rules|] == rule;
    if i :| 0 <= i < |rules| && Produces(rules[i], b) {
      assert Produces(all[i], b);
    }
  }

  lemma FanOutGrows(rules: seq<Rule>, rule: Rule, b: Backend)
    ensures b in FanOut(rules + [rule]) <==> b in FanOut(rules) || Produces(rule, b)
  {
    assert (rules + [rule])[..|rules|] == rules;
    RowsMembers(rule.refs, Paths(rule), b);
  }

  lemma MembersGrow(rules: seq<Rule>, rule: Rule, b: Backend)
    requires b in FanOut(rules) <==> SomeProduces(rules, b)
    ensures b in FanOut(rules + [rule]) <==> SomeProduces(rules + [rule], b)
  {
    FanOutGrows(rules, rule, b);
    SomeProducesGrows(rules, rule, b);
  }

  /** The backends produced are exactly the combinations of a rule's paths with
      its surviving refs. */
  lemma {:induction false} FanOutMembers(rules: seq<Rule>, b: Backend)
    ensures b in FanOut(rules) <==> SomeProduces(rules, b)
  {
    if rules != [] {
      var n := |rules| - 1;
      FanOutMembers(rules[..n], b);
      MembersGrow(rules[..n], rules[n], b);
      assert rules == rules[..n] + [rules[n]];
    }
  }

  lemma CleanRuleProduces(rule: Rule)
    requires CleanRule(rule)
    ensures Rows(rule.refs, Paths(rule)) != []
  {
    TrafficIsSome(rule.refs);
    var k :| 0 <= k < |rule.refs| && Survives(rule.refs[k]);
    DistinctIsExact(rule.matches, "/");
    RowsMembers(rule.refs, Paths(rule), Backend(rule.refs[k].name, rule.refs[k].port, Paths(rule)[0]));
  }

  lemma CleanRulesProduce(rules: seq<Rule>)
    requires forall i :: 0 <= i < |rules| ==> CleanRule(rules[i])
    ensures FanOut(rules) == [] <==> rules == []
  {
    if rules != [] {
      CleanRuleProduces(rules[|rules| - 1]);
    }
  }

  // ---- Meaning preservation ----

  /** A rule has a path match that satisfies p; no matches means "/". */
  predicate Satisfied(rule: Rule, p: string -> bool) {
    if rule.matches == [] then p("/") else exists i :: 0 <= i < |rule.matches| && p(PathOf(rule.matches[i]))
  }

  lemma SatisfiedByAPath(rule: Rule, p: string -> bool)
    ensures Satisfied(rule, p) <==> exists path :: path in Paths(rule) && p(path)
  {
    if rule.matches != [] {
      forall path ensures path in Paths(rule) <==> HasPath(rule.matches, path) { DistinctIsExact(rule.matches, path); }
      if Satisfied(rule, p) {
        var i :| 0 <= i < |rule.matches| && p(PathOf(rule.matches[i]));
        assert HasPath(rule.matches, PathOf(rule.matches[i]));
      }
    } else {
      assert "/" in Paths(rule);
    }
  }

  /** Some translated backend for (service, port) has a path that satisfies p. */
  ghost predicate Reachable(backends: seq<Backend>, p: string -> bool, service: string, port: Option<int>) {
    exists b :: b in backends && p(b.path) && b.service == service && b.port == port
  }

  /** For every predicate on paths whatsoever, the (service, port) pairs behind
      the translated backends whose path satisfies it are exactly those of the
      non-zero-weight backendRefs of rules with a satisfying path match. */
  lemma MeaningPreserved(rules: seq<Rule>, p: string -> bool, service: string, port: Option<int>)
    ensures Reachable(FanOut(rules), p, service, port) <==>
            (exists i :: 0 <= i < |rules| && Satisfied(rules[i], p) && Sends(rules[i], service, port))
  {
    if Reachable(FanOut(rules), p, service, port) {
      var b :| b in FanOut(rules) && p(b.path) && b.service == service && b.port == port;
      FanOutMembers(rules, b);
      var i :| 0 <= i < |rules| && b.path in Paths(rules[i]) && Sends(rules[i], service, port);
      SatisfiedByAPath(rules[i], p);
    }
    if i :| 0 <= i < |rules| && Satisfied(rules[i], p) && Sends(rules[i], service, port) {
      SatisfiedByAPath(rules[i], p);
      var path :| path in Paths(rules[i]) && p(path);
      FanOutMembers(rules, Backend(service, port, path));
    }
  }
}
