/** Names that fit Kubernetes' caps and do not collide
    (internal/controller/gateway_controller.go). */
module ChildNames {
  const LABEL_VALUE_MAX_LEN: nat := 63
  const OBJECT_NAME_MAX_LEN: nat := 253

  /** The first eight hex digits of SHA-256, kept abstract. */
  type Hash = string -> string

  predicate HexDigit(c: char) {
    '0' <= c <= '9' || 'a' <= c <= 'f'
  }

  ghost predicate EightHexDigits(hash: Hash) {
    forall s :: |hash(s)| == 8 && forall i :: 0 <= i < 8 ==> HexDigit(hash(s)[i])
  }

  function TrimRight(s: string): (r: string)
    ensures r <= s
    ensures r == "" || r[|r| - 1] !in "-._"
    ensures forall i :: |r| <= i < |s| ==> s[i] in "-._"
  {
    if s != "" && s[|s| - 1] in "-._" then TrimRight(s[..|s| - 1]) else s
  }

  /** The over-long name s cut down, its tail replaced by a hash of all of it. */
  function Cut(hash: Hash, s: string, max: nat): string
    requires 9 <= max < |s|
  {
    TrimRight(s[..max - 9]) + "-" + hash(s)
  }

  function SafeName(hash: Hash, s: string, max: nat): string
    requires max >= 9
  {
    if |s| <= max then s else Cut(hash, s, max)
  }

  /** A safe name fits, is the name itself when that fits, and is safe already. */
  lemma SafeNameFits(hash: Hash, s: string, max: nat)
    requires EightHexDigits(hash) && max >= 9
    ensures |SafeName(hash, s, max)| <= max
    ensures |s| <= max ==> SafeName(hash, s, max) == s
    ensures |s| > max ==> |SafeName(hash, s, max)| >= 9 && HexDigit(SafeName(hash, s, max)[|SafeName(hash, s, max)| - 1])
    ensures SafeName(hash, SafeName(hash, s, max), max) == SafeName(hash, s, max)
  {
    if |s| > max {
      var head := TrimRight(s[..max - 9]);
      assert Cut(hash, s, max) == head + ("-" + hash(s));
      assert Cut(hash, s, max)[|head| + 8] == hash(s)[7];
    }
  }

  lemma SuffixOfCut(hash: Hash, s: string, max: nat)
    requires EightHexDigits(hash) && 9 <= max < |s|
    ensures var c := Cut(hash, s, max); |c| >= 8 && c[|c| - 8..] == hash(s)
  {
  }

  /** Two names that must both be cut stay apart when their hashes differ. */
  lemma CutNamesStayApart(hash: Hash, a: string, b: string, max: nat)
    requires EightHexDigits(hash) && 9 <= max < |a| && max < |b| && hash(a) != hash(b)
    ensures SafeName(hash, a, max) != SafeName(hash, b, max)
  {
    SuffixOfCut(hash, a, max);
    SuffixOfCut(hash, b, max);
  }

  /** Exactly when two different names become one safe name: one fits and is what
      the other is cut to, or both are cut, to one head and one hash. */
  lemma SafeNamesCollideIff(hash: Hash, a: string, b: string, max: nat)
    requires EightHexDigits(hash) && max >= 9 && a != b
    ensures SafeName(hash, a, max) == SafeName(hash, b, max) <==>
            || (|a| <= max < |b| && a == Cut(hash, b, max))
            || (|b| <= max < |a| && b == Cut(hash, a, max))
            || (max < |a| && max < |b| && TrimRight(a[..max - 9]) == TrimRight(b[..max - 9]) && hash(a) == hash(b))
  {
    if max < |a| && max < |b| && Cut(hash, a, max) == Cut(hash, b, max) {
      SuffixOfCut(hash, a, max);
      SuffixOfCut(hash, b, max);
      var c := Cut(hash, a, max);
      assert c[..|c| - 9] == TrimRight(a[..max - 9]);
      assert Cut(hash, b, max)[..|c| - 9] == TrimRight(b[..max - 9]);
    }
  }

  /** What an over-long name is cut to is itself a name, and the two become one. */
  lemma CutNameIsShared(hash: Hash, s: string, max: nat)
    requires EightHexDigits(hash) && 9 <= max < |s|
    ensures SafeName(hash, s, max) != s && SafeName(hash, SafeName(hash, s, max), max) == SafeName(hash, s, max)
  {
    SafeNameFits(hash, s, max);
  }

  /** A hostname as part of an object name: one label, without dots or asterisks. */
  function Dashed(hostname: string): (r: string)
    ensures forall i :: 0 <= i < |r| ==> r[i] != '.' && r[i] != '*'
    ensures |r| >= |hostname|
  {
    if hostname == "" then ""
    else (if hostname[0] == '*' then "wildcard" else if hostname[0] == '.' then "-" else [hostname[0]]) + Dashed(hostname[1..])
  }

  /** What the name's hash is taken of. */
  function PairKey(route: string, hostname: string): string {
    route + "\0" + hostname
  }

  function RouteChildName(hash: Hash, route: string, hostname: string): string {
    SafeName(hash, route + "-" + Dashed(hostname), OBJECT_NAME_MAX_LEN - 9) + "-" + hash(PairKey(route, hostname))
  }

  function RouteLabel(hash: Hash, route: string): string {
    SafeName(hash, route, LABEL_VALUE_MAX_LEN)
  }

  predicate NulFree(s: string) {
    forall i :: 0 <= i < |s| ==> s[i] != '\0'
  }

  /** The hash tells these two pairs apart. */
  predicate NoCollision(hash: Hash, r1: string, h1: string, r2: string, h2: string) {
    hash(PairKey(r1, h1)) == hash(PairKey(r2, h2)) ==> PairKey(r1, h1) == PairKey(r2, h2)
  }

  lemma PairKeyIsInjective(r1: string, h1: string, r2: string, h2: string)
    requires NulFree(r1) && NulFree(r2) && PairKey(r1, h1) == PairKey(r2, h2)
    ensures r1 == r2 && h1 == h2
  {
    var k1, k2 := PairKey(r1, h1), PairKey(r2, h2);
    assert k1[|r1|] == '\0' && k2[|r2|] == '\0';
    assert |r1| == |r2|;
    assert k1[..|r1|] == r1 && k2[..|r2|] == r2;
    assert k1[|r1| + 1..] == h1 && k2[|r2| + 1..] == h2;
  }

  /** A child name fits an object name and ends in a hex digit. */
  lemma RouteChildNameFits(hash: Hash, route: string, hostname: string)
    requires EightHexDigits(hash)
    ensures 0 < |RouteChildName(hash, route, hostname)| <= 253
    ensures HexDigit(RouteChildName(hash, route, hostname)[|RouteChildName(hash, route, hostname)| - 1])
  {
    var head := SafeName(hash, route + "-" + Dashed(hostname), OBJECT_NAME_MAX_LEN - 9);
    SafeNameFits(hash, route + "-" + Dashed(hostname), OBJECT_NAME_MAX_LEN - 9);
    var n := RouteChildName(hash, route, hostname);
    assert n == head + ("-" + hash(PairKey(route, hostname)));
    assert n[|head| + 8] == hash(PairKey(route, hostname))[7];
  }

  /** Different (route, hostname) pairs get different child names. */
  lemma RouteChildNameIsInjective(hash: Hash, r1: string, h1: string, r2: string, h2: string)
    requires EightHexDigits(hash) && NulFree(r1) && NulFree(r2) && NoCollision(hash, r1, h1, r2, h2)
    requires RouteChildName(hash, r1, h1) == RouteChildName(hash, r2, h2)
    ensures r1 == r2 && h1 == h2
  {
    var n1, n2 := RouteChildName(hash, r1, h1), RouteChildName(hash, r2, h2);
    assert n1[|n1| - 8..] == hash(PairKey(r1, h1)) && n2[|n2| - 8..] == hash(PairKey(r2, h2));
    PairKeyIsInjective(r1, h1, r2, h2);
  }

  /** A label value is at most 63 characters long, and the route's name when that fits. */
  lemma RouteLabelFits(hash: Hash, route: string)
    requires EightHexDigits(hash)
    ensures |RouteLabel(hash, route)| <= 63
    ensures |route| <= 63 ==> RouteLabel(hash, route) == route
  {
    SafeNameFits(hash, route, LABEL_VALUE_MAX_LEN);
  }
}
