/** Laws of the route compiler: fail-closed exactly, whatever the order, and
    faithful to longest-prefix selection exactly when rules do not compete. */
module RouteLaws {
  import opened Api
  import opened RouteCompiler
  import opened Sequences

  // ---- Sums and permutations ----

  function Sum<T>(s: seq<T>, f: T -> nat): nat {
    if s == [] then 0 else Sum(s[..|s| - 1], f) + f(s[|s| - 1])
  }

  lemma {:induction false} SumWithout<T>(s: seq<T>, f: T -> nat, i: nat)
    requires i < |s|
    ensures Sum(s, f) == Sum(Without(s, i), f) + f(s[i])
  {
    var n := |s| - 1;
    if i == n {
      assert Without(s, i) == s[..n];
    } else {
      SumWithout(s[..n], f, i);
      var t := Without(s, i);
      assert t[..n - 1] == Without(s[..n], i) && t[n - 1] == s[n] && s[..n][i] == s[i];
      assert Sum(t, f) == Sum(t[..n - 1], f) + f(t[n - 1]);
    }
  }

  lemma {:induction false} SumOfPermutation<T>(a: seq<T>, b: seq<T>, f: T -> nat)
    requires multiset(a) == multiset(b)
    ensures Sum(a, f) == Sum(b, f)
  {
    if a == [] {
      assert |multiset(b)| == 0;
    } else {
      var n := |a| - 1;
      var j := LastIn(a, b);
      DropFromBoth(a, n, b, j);
      SumWithout(a, f, n);
      SumWithout(b, f, j);
      SumOfPermutation(Without(a, n), Without(b, j), f);
    }
  }

  // ---- Acceptance in terms that do not mention any order ----

  function PathSet(rule: Rule): set<string> {
    if rule.matches == [] then {"/"} else set m | m in rule.matches :: PathOf(m)
  }

  function Surviving(refs: seq<BackendRef>): nat {
    Sum(refs, (r: BackendRef) => if Survives(r) then 1 else 0)
  }

  /** Distinct paths times surviving refs. */
  function Size(rule: Rule): nat {
    |PathSet(rule)| * Surviving(rule.refs)
  }

  ghost predicate OneWeight(refs: seq<BackendRef>) {
    forall r1, r2 :: r1 in refs && r2 in refs && Survives(r1) && Survives(r2) ==> Weight(r1) == Weight(r2)
  }

  ghost predicate Representable(rule: Rule) {
    && rule.filters == 0
    && (forall m :: m in rule.matches ==> IsPrefix(m))
    && (forall r :: r in rule.refs ==> r.filters == 0)
    && OneWeight(rule.refs) && (exists r :: r in rule.refs && Survives(r))
  }

  ghost predicate AllRepresentable(rules: seq<Rule>) {
    forall rule :: rule in rules ==> Representable(rule)
  }

  /** At least one rule, every rule representable, and few enough combinations. */
  ghost predicate RouteOk(rules: seq<Rule>) {
    && rules != [] && AllRepresentable(rules) && Sum(rules, Size) <= 64
  }

  /** What CRD validation guarantees of weights. */
  predicate NonNegative(rules: seq<Rule>) {
    forall i :: 0 <= i < |rules| ==> forall k :: 0 <= k < |rules[i].refs| ==> Weight(rules[i].refs[k]) >= 0
  }

  /** The Gateway API defaults: weight 1, a prefix match, the path "/"; only a weight of
      zero takes a ref out. */
  lemma DefaultsMean(r: BackendRef, m: Match)
    ensures r.weight.None? ==> Survives(r) && Weight(r) == 1
    ensures r.weight.Some? ==> Weight(r) == r.weight.value && (Survives(r) <==> r.weight != Some(0))
    ensures IsPrefix(m) <==> m.path.None? || m.path.value.type_.None? || m.path.value.type_ == Some(PathPrefix)
    ensures m.path.None? || m.path.value.value.None? ==> PathOf(m) == "/"
    ensures m.path.Some? && m.path.value.value.Some? ==> PathOf(m) == m.path.value.value.value
  {
  }

  lemma {:induction false} DistinctCount(s: seq<string>)
    requires NoRepeats(s)
    ensures |set p | p in s| == |s|
  {
    if s != [] {
      var n := |s| - 1;
      DistinctCount(s[..n]);
      assert (set p | p in s) == (set p | p in s[..n]) + {s[n]};
    }
  }

  lemma PathCount(rule: Rule)
    ensures |Paths(rule)| == |PathSet(rule)|
    ensures forall p :: p in Paths(rule) <==> p in PathSet(rule)
  {
    forall p ensures p in Paths(rule) <==> p in PathSet(rule) {
      DistinctIsExact(rule.matches, p);
    }
    DistinctIsExact(rule.matches, "/");
    assert NoRepeats(Paths(rule));
    DistinctCount(Paths(rule));
    assert PathSet(rule) == set p | p in Paths(rule);
  }

  lemma OneMoreFactor(a: nat, b: nat, c: nat)
    requires c <= 1
    ensures a * (b + c) == a * b + (if c == 1 then a else 0)
  {
  }

  lemma {:induction false} RowsCount(refs: seq<BackendRef>, paths: seq<string>)
    ensures |Rows(refs, paths)| == |paths| * Surviving(refs)
  {
    if refs != [] {
      var n := |refs| - 1;
      RowsCount(refs[..n], paths);
      var before, last := Surviving(refs[..n]), if Survives(refs[n]) then 1 else 0;
      assert Surviving(refs) == before + last;
      OneMoreFactor(|paths|, before, last);
    }
  }

  /** The output has one backend per combination. */
  lemma {:induction false} FanOutCount(rules: seq<Rule>)
    ensures |FanOut(rules)| == Sum(rules, Size)
  {
    if rules != [] {
      var rule := rules[|rules| - 1];
      FanOutCount(rules[..|rules| - 1]);
      RowsCount(rule.refs, Paths(rule));
      PathCount(rule);
    }
  }

  ghost predicate Carries(refs: seq<BackendRef>, weight: int) {
    exists r :: r in refs && Survives(r) && Weight(r) == weight
  }

  lemma {:induction false} LastWeightIsCarried(refs: seq<BackendRef>)
    requires forall r :: r in refs ==> Weight(r) >= 0
    ensures if LastWeight(refs) >= 0 then Carries(refs, LastWeight(refs)) else forall r :: r in refs ==> !Survives(r)
  {
    if refs != [] {
      var n := |refs| - 1;
      assert refs == refs[..n] + [refs[n]];
      LastWeightIsCarried(refs[..n]);
    }
  }

  lemma OneWeightGrows(t: seq<BackendRef>, x: BackendRef)
    requires forall r :: r in t ==> Weight(r) >= 0
    ensures OneWeight(t + [x]) <==> OneWeight(t) && (!Survives(x) || LastWeight(t) < 0 || Weight(x) == LastWeight(t))
  {
    LastWeightIsCarried(t);
    if LastWeight(t) >= 0 {
      var r :| r in t && Survives(r) && Weight(r) == LastWeight(t);
      assert r in t + [x] && x in t + [x];
    }
    assert forall r :: r in t ==> r in t + [x];
    assert forall r :: r in t + [x] ==> r in t || r == x;
  }

  /** Comparing each surviving ref with the one before compares them all. */
  lemma {:induction false} ComparedIsEqual(refs: seq<BackendRef>)
    requires forall r :: r in refs ==> Weight(r) >= 0
    ensures WeightsMatch(refs) <==> OneWeight(refs)
  {
    if refs != [] {
      var n := |refs| - 1;
      assert refs == refs[..n] + [refs[n]];
      ComparedIsEqual(refs[..n]);
      OneWeightGrows(refs[..n], refs[n]);
    }
  }

  lemma CleanIsRepresentable(rule: Rule)
    requires forall k :: 0 <= k < |rule.refs| ==> Weight(rule.refs[k]) >= 0
    ensures CleanRule(rule) <==> Representable(rule)
  {
    ComparedIsEqual(rule.refs);
    TrafficIsSome(rule.refs);
    if r :| r in rule.refs && Survives(r) {
      var k :| 0 <= k < |rule.refs| && rule.refs[k] == r;
    }
  }

  /** Fail-closed is exact: a route with valid weights is accepted if and only if
      it has a rule, no filters, only prefix matches, one non-zero weight and at
      least one surviving ref per rule, and at most 64 combinations. */
  lemma AcceptedExactlyWhenOk(rules: seq<Rule>)
    requires NonNegative(rules)
    ensures Translatable(rules) <==> RouteOk(rules)
    ensures |FanOut(rules)| == Sum(rules, Size)
  {
    FanOutCount(rules);
    forall i | 0 <= i < |rules| ensures CleanRule(rules[i]) <==> Representable(rules[i]) {
      CleanIsRepresentable(rules[i]);
    }
  }

  /** The same rule with matches and refs in some other order. */
  ghost predicate Reordered(a: Rule, b: Rule) {
    a.filters == b.filters && multiset(a.matches) == multiset(b.matches) && multiset(a.refs) == multiset(b.refs)
  }

  lemma ReorderedRule(a: Rule, b: Rule)
    requires Reordered(a, b)
    ensures Representable(a) <==> Representable(b)
    ensures Size(a) == Size(b)
  {
    forall m ensures m in a.matches <==> m in b.matches { PermutationMembers(a.matches, b.matches, m); }
    forall r ensures r in a.refs <==> r in b.refs { PermutationMembers(a.refs, b.refs, r); }
    SumOfPermutation(a.refs, b.refs, (r: BackendRef) => if Survives(r) then 1 else 0);
    assert |a.matches| == |multiset(a.matches)| == |multiset(b.matches)| == |b.matches|;
    assert PathSet(a) == PathSet(b);
  }

  lemma {:induction false} ReorderedSum(a: seq<Rule>, b: seq<Rule>)
    requires |a| == |b| && forall i :: 0 <= i < |a| ==> Reordered(a[i], b[i])
    ensures Sum(a, Size) == Sum(b, Size)
  {
    if a != [] {
      ReorderedSum(a[..|a| - 1], b[..|b| - 1]);
      ReorderedRule(a[|a| - 1], b[|b| - 1]);
    }
  }

  lemma PermutedStayRepresentable(a: seq<Rule>, b: seq<Rule>)
    requires multiset(a) == multiset(b)
    ensures AllRepresentable(a) <==> AllRepresentable(b)
  {
    forall rule ensures rule in a <==> rule in b { PermutationMembers(a, b, rule); }
  }

  lemma AllPointwise<T>(a: seq<T>, b: seq<T>, p: T -> bool)
    requires |a| == |b| && forall i :: 0 <= i < |a| ==> p(a[i]) == p(b[i])
    ensures (forall x :: x in a ==> p(x)) <==> (forall x :: x in b ==> p(x))
  {
    assert forall i :: 0 <= i < |a| ==> a[i] in a && b[i] in b;
  }

  lemma ReorderedStayRepresentable(a: seq<Rule>, b: seq<Rule>)
    requires |a| == |b| && forall i :: 0 <= i < |a| ==> Reordered(a[i], b[i])
    ensures AllRepresentable(a) <==> AllRepresentable(b)
  {
    forall i | 0 <= i < |a| ensures Representable(a[i]) <==> Representable(b[i]) {
      ReorderedRule(a[i], b[i]);
    }
    AllPointwise(a, b, Representable);
  }

  lemma ReorderedIsNonNegative(a: seq<Rule>, mid: seq<Rule>, b: seq<Rule>)
    requires multiset(a) == multiset(mid) && |mid| == |b| && forall i :: 0 <= i < |b| ==> Reordered(mid[i], b[i])
    requires NonNegative(a)
    ensures NonNegative(b)
  {
    forall i, k | 0 <= i < |b| && 0 <= k < |b[i].refs| ensures Weight(b[i].refs[k]) >= 0 {
      PermutationMembers(a, mid, mid[i]);
      PermutationMembers(mid[i].refs, b[i].refs, b[i].refs[k]);
      assert mid[i] in mid && b[i].refs[k] in b[i].refs;
    }
  }

  /** Fail-closed does not depend on order: b has a's rules in some order (mid),
      each with its matches and refs in some order. */
  lemma AcceptanceIgnoresOrder(a: seq<Rule>, mid: seq<Rule>, b: seq<Rule>)
    requires multiset(a) == multiset(mid) && |mid| == |b| && forall i :: 0 <= i < |b| ==> Reordered(mid[i], b[i])
    requires NonNegative(a)
    ensures Translatable(a) <==> Translatable(b)
    ensures |FanOut(a)| == |FanOut(b)|
  {
    ReorderedIsNonNegative(a, mid, b);
    AcceptedExactlyWhenOk(a);
    AcceptedExactlyWhenOk(b);
    SumOfPermutation(a, mid, Size);
    ReorderedSum(mid, b);
    assert |a| == |multiset(a)| == |multiset(mid)| == |mid|;
    PermutedStayRepresentable(a, mid);
    ReorderedStayRepresentable(mid, b);
  }

  // ---- Longest prefix, first rule ----

  /** A path prefix without its trailing slash, which Gateway API ignores. */
  function Trim(p: string): string {
    if p != "" && p[|p| - 1] == '/' then p[..|p| - 1] else p
  }

  /** The prefixes that match a request path, element by element. */
  function Covering(request: string): string -> bool {
    (p: string) => Trim(p) <= request && (|Trim(p)| == |request| || request[|Trim(p)|] == '/')
  }

  /** A request is covered by at most one prefix of each length. */
  lemma CoveringPrefixIsUnique(request: string, p: string, q: string)
    requires Covering(request)(p) && Covering(request)(q) && |p| == |q|
    ensures p == q
  {
    assert p == Trim(p) || p == Trim(p) + "/";
    assert q == Trim(q) || q == Trim(q) + "/";
    assert Trim(p) == request[..|Trim(p)|] && Trim(q) == request[..|Trim(q)|];
  }

  ghost predicate Offered(rules: seq<Rule>, p: string) {
    exists i :: 0 <= i < |rules| && p in Paths(rules[i])
  }

  /** p is the longest of the route's prefixes that covers the request. */
  ghost predicate Longest(rules: seq<Rule>, covers: string -> bool, p: string) {
    Offered(rules, p) && covers(p) && forall q :: Offered(rules, q) && covers(q) ==> |q| <= |p|
  }

  ghost predicate FirstRuleWith(rules: seq<Rule>, p: string, i: int) {
    0 <= i < |rules| && p in Paths(rules[i]) && forall j :: 0 <= j < i ==> p !in Paths(rules[j])
  }

  /** Gateway API selection: the longest matching prefix wins, ties go to the
      first rule, and that rule's refs serve. */
  ghost predicate GatewayServes(rules: seq<Rule>, covers: string -> bool, service: string, port: Option<int>) {
    exists p, i :: Longest(rules, covers, p) && FirstRuleWith(rules, p, i) && Sends(rules[i], service, port)
  }

  /** The proxy: the backends with the longest covering path serve. */
  ghost predicate ProxyServes(backends: seq<Backend>, covers: string -> bool, service: string, port: Option<int>) {
    exists b :: b in backends && covers(b.path) && b.service == service && b.port == port
                && forall c :: c in backends && covers(c.path) ==> |c.path| <= |b.path|
  }

  /** p is offered with a trailing slash too. That matches the same requests and
      is longer, so p itself is never selected. */
  ghost predicate Shadowed(rules: seq<Rule>, p: string) {
    Trim(p) == p && Offered(rules, p + "/")
  }

  /** Wherever rules share a path that can be selected, the later ones send
      nothing the first does not. */
  ghost predicate Uncontested(rules: seq<Rule>) {
    forall p, i, j, service, port ::
      !Shadowed(rules, p) && FirstRuleWith(rules, p, i) && Adds(rules, p, j, service, port) ==> Sends(rules[i], service, port)
  }

  lemma LongestIsNotShadowed(rules: seq<Rule>, request: string, p: string)
    requires Longest(rules, Covering(request), p)
    ensures !Shadowed(rules, p)
  {
    assert Trim(p + "/") == p;
    assert Trim(p) == p ==> Covering(request)(p + "/");
  }

  /** What Gateway API validation lets through as a path prefix. */
  predicate ValidPath(p: string) {
    p != "" && p[0] == '/' && forall i :: 0 <= i < |p| - 1 ==> p[i] != '/' || p[i + 1] != '/'
  }

  ghost predicate ValidPaths(rules: seq<Rule>) {
    forall p :: Offered(rules, p) ==> ValidPath(p)
  }

  /** What a client can ask for. */
  predicate IsRequest(request: string) {
    request != "" && request[0] == '/'
  }

  /** The request for a path: the path without its trailing slash, or "/". */
  function RequestFor(p: string): string {
    if Trim(p) == "" then "/" else Trim(p)
  }

  lemma TrimShape(p: string)
    ensures |Trim(p)| <= |p| <= |Trim(p)| + 1 && Trim(p) == p[..|Trim(p)|]
    ensures |p| == |Trim(p)| + 1 ==> p[|p| - 1] == '/'
  {
  }

  lemma RootCoverIsShort(q: string)
    requires ValidPath(q) && Covering("/")(q)
    ensures |q| <= 1
  {
    TrimShape(q);
  }

  lemma LongerByASlash(p: string, q: string)
    requires |q| == |p| + 1 && q[..|p|] == p && q[|p|] == '/'
    ensures q == p + "/"
  {
  }

  lemma CoverIsNoLonger(p: string, q: string)
    requires ValidPath(p) && ValidPath(q) && Covering(RequestFor(p))(q)
    ensures |q| <= |p| || (Trim(p) == p && q == p + "/")
  {
    TrimShape(p);
    TrimShape(q);
    if Trim(p) == "" {
      RootCoverIsShort(q);
    } else if |q| > |p| {
      LongerByASlash(p, q);
    }
  }

  lemma CoversItself(p: string)
    requires ValidPath(p)
    ensures IsRequest(RequestFor(p)) && Covering(RequestFor(p))(p)
  {
    TrimShape(p);
  }

  lemma UnshadowedIsLonger(rules: seq<Rule>, p: string, q: string)
    requires ValidPath(p) && ValidPath(q) && Offered(rules, q) && !Shadowed(rules, p) && Covering(RequestFor(p))(q)
    ensures |q| <= |p|
  {
    CoverIsNoLonger(p, q);
  }

  /** Every offered path that is not shadowed is the longest match of some
      request: the one for that very path. */
  lemma SelectedByItself(rules: seq<Rule>, p: string)
    requires ValidPaths(rules) && Offered(rules, p) && !Shadowed(rules, p)
    ensures IsRequest(RequestFor(p)) && Longest(rules, Covering(RequestFor(p)), p)
  {
    CoversItself(p);
    forall q | Offered(rules, q) && Covering(RequestFor(p))(q) ensures |q| <= |p| {
      UnshadowedIsLonger(rules, p, q);
    }
  }

  /** Rule j has the path p and sends (service, port) traffic. */
  ghost predicate Adds(rules: seq<Rule>, p: string, j: int, service: string, port: Option<int>) {
    0 <= j < |rules| && p in Paths(rules[j]) && Sends(rules[j], service, port)
  }

  ghost predicate EveryRuleSends(rules: seq<Rule>) {
    forall i :: 0 <= i < |rules| ==> SendsSome(rules[i])
  }

  ghost predicate SendsSome(rule: Rule) {
    exists service, port :: Sends(rule, service, port)
  }

  lemma AcceptedRulesSend(rules: seq<Rule>)
    requires Translatable(rules)
    ensures EveryRuleSends(rules)
  {
    forall i | 0 <= i < |rules| ensures SendsSome(rules[i]) {
      TrafficIsSome(rules[i].refs);
      var k :| 0 <= k < |rules[i].refs| && Survives(rules[i].refs[k]);
      assert Sends(rules[i], rules[i].refs[k].name, rules[i].refs[k].port);
    }
  }

  /** The backends offer exactly the paths of the rules. */
  lemma BackendPaths(rules: seq<Rule>, p: string)
    requires EveryRuleSends(rules)
    ensures Offered(rules, p) <==> exists b :: b in FanOut(rules) && b.path == p
  {
    if Offered(rules, p) {
      var i :| 0 <= i < |rules| && p in Paths(rules[i]);
      var service, port :| Sends(rules[i], service, port);
      FanOutMembers(rules, Backend(service, port, p));
      assert Backend(service, port, p).path == p;
    }
    if b :| b in FanOut(rules) && b.path == p {
      FanOutMembers(rules, b);
    }
  }

  lemma {:induction false} FirstRuleExists(rules: seq<Rule>, p: string) returns (i: nat)
    requires Offered(rules, p)
    ensures FirstRuleWith(rules, p, i)
  {
    var n := |rules| - 1;
    if Offered(rules[..n], p) {
      i := FirstRuleExists(rules[..n], p);
      assert forall j :: 0 <= j <= i ==> rules[..n][j] == rules[j];
    } else {
      i := n;
      assert forall j :: 0 <= j < n ==> rules[..n][j] == rules[j];
    }
  }

  /** What the proxy serves, said of the rules: the refs of every rule that has
      the longest covering path. */
  ghost predicate SomeRuleServes(rules: seq<Rule>, covers: string -> bool, service: string, port: Option<int>) {
    exists p, j :: Longest(rules, covers, p) && Adds(rules, p, j, service, port)
  }

  lemma LongestOfBackends(rules: seq<Rule>, covers: string -> bool, p: string)
    requires EveryRuleSends(rules) && Offered(rules, p) && covers(p)
    ensures Longest(rules, covers, p) <==> forall c :: c in FanOut(rules) && covers(c.path) ==> |c.path| <= |p|
  {
    forall q ensures Offered(rules, q) <==> exists b :: b in FanOut(rules) && b.path == q { BackendPaths(rules, q); }
  }

  lemma ProxyServesFromRules(rules: seq<Rule>, covers: string -> bool, service: string, port: Option<int>)
    requires EveryRuleSends(rules)
    ensures ProxyServes(FanOut(rules), covers, service, port) <==> SomeRuleServes(rules, covers, service, port)
  {
    if ProxyServes(FanOut(rules), covers, service, port) {
      var b :| b in FanOut(rules) && covers(b.path) && b.service == service && b.port == port
               && forall c :: c in FanOut(rules) && covers(c.path) ==> |c.path| <= |b.path|;
      FanOutMembers(rules, b);
      var j :| 0 <= j < |rules| && b.path in Paths(rules[j]) && Sends(rules[j], service, port);
      LongestOfBackends(rules, covers, b.path);
      assert Adds(rules, b.path, j, service, port);
    }
    if SomeRuleServes(rules, covers, service, port) {
      var p, j :| Longest(rules, covers, p) && Adds(rules, p, j, service, port);
      FanOutMembers(rules, Backend(service, port, p));
      LongestOfBackends(rules, covers, p);
      assert Backend(service, port, p).path == p;
    }
  }

  /** Uncontested rules are served alike by Gateway selection and by the proxy. */
  lemma SelectionPreserved(rules: seq<Rule>, request: string, service: string, port: Option<int>)
    requires EveryRuleSends(rules) && Uncontested(rules)
    ensures GatewayServes(rules, Covering(request), service, port) <==> ProxyServes(FanOut(rules), Covering(request), service, port)
  {
    var covers := Covering(request);
    ProxyServesFromRules(rules, covers, service, port);
    if SomeRuleServes(rules, covers, service, port) {
      var p, j :| Longest(rules, covers, p) && Adds(rules, p, j, service, port);
      var i := FirstRuleExists(rules, p);
      LongestIsNotShadowed(rules, request, p);
      assert Sends(rules[i], service, port);
    }
    if GatewayServes(rules, covers, service, port) {
      var p, i :| Longest(rules, covers, p) && FirstRuleWith(rules, p, i) && Sends(rules[i], service, port);
      assert Adds(rules, p, i, service, port);
    }
  }

  /** A contested path is served differently: for the request that is the path
      itself, the proxy adds the later rule's ref. */
  lemma SelectionBroken(rules: seq<Rule>, p: string, i: nat, j: nat, service: string, port: Option<int>)
    requires EveryRuleSends(rules) && ValidPaths(rules)
    requires !Shadowed(rules, p) && FirstRuleWith(rules, p, i) && Adds(rules, p, j, service, port)
    requires !Sends(rules[i], service, port)
    ensures IsRequest(RequestFor(p))
    ensures ProxyServes(FanOut(rules), Covering(RequestFor(p)), service, port)
    ensures !GatewayServes(rules, Covering(RequestFor(p)), service, port)
  {
    var covers := Covering(RequestFor(p));
    SelectedByItself(rules, p);
    ProxyServesFromRules(rules, covers, service, port);
    forall q, k | Longest(rules, covers, q) && FirstRuleWith(rules, q, k) ensures !Sends(rules[k], service, port) {
      CoveringPrefixIsUnique(RequestFor(p), p, q);
      assert k == i;
    }
  }

  /** Every request is served by the same refs. */
  ghost predicate SameSelection(rules: seq<Rule>) {
    forall request, service, port :: IsRequest(request) ==>
      (GatewayServes(rules, Covering(request), service, port) <==> ProxyServes(FanOut(rules), Covering(request), service, port))
  }

  lemma UncontestedKeepsSelection(rules: seq<Rule>)
    requires EveryRuleSends(rules) && Uncontested(rules)
    ensures SameSelection(rules)
  {
    forall request, service, port | IsRequest(request)
      ensures GatewayServes(rules, Covering(request), service, port) <==> ProxyServes(FanOut(rules), Covering(request), service, port)
    {
      SelectionPreserved(rules, request, service, port);
    }
  }

  /** An accepted route keeps Gateway API's longest-prefix, first-rule selection
      for every request exactly when no path is contested. */
  lemma SelectionPreservedIff(rules: seq<Rule>)
    requires Translatable(rules) && ValidPaths(rules)
    ensures SameSelection(rules) <==> Uncontested(rules)
  {
    AcceptedRulesSend(rules);
    if Uncontested(rules) {
      UncontestedKeepsSelection(rules);
    } else {
      var p, i, j, service, port :|
        !Shadowed(rules, p) && FirstRuleWith(rules, p, i) && Adds(rules, p, j, service, port) && !Sends(rules[i], service, port);
      SelectionBroken(rules, p, i, j, service, port);
    }
  }

  /** Rules that share no path are uncontested. */
  lemma DisjointRulesAreUncontested(rules: seq<Rule>)
    requires forall i, j, p :: 0 <= i < j < |rules| && p in Paths(rules[i]) ==> p !in Paths(rules[j])
    ensures Uncontested(rules)
  {
  }
}
