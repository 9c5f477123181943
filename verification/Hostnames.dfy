/** Hostname arithmetic of the Gateway controller (internal/controller/gateway_controller.go). */
module Hostnames {
  predicate HasPrefix(s: string, p: string) {
    p <= s
  }

  predicate HasSuffix(s: string, t: string) {
    |t| <= |s| && s[|s| - |t|..] == t
  }

  function TrimPrefix(s: string, p: string): string {
    if HasPrefix(s, p) then s[|p|..] else s
  }

  predicate NoHyphen(s: string) {
    forall i :: 0 <= i < |s| ==> s[i] != '-'
  }

  /** Joining three parts by hyphens, from either end. */
  lemma HyphensAssociate(a: string, b: string, c: string)
    ensures a + "-" + (b + "-" + c) == a + "-" + b + "-" + c
  {
  }

  const WILDCARD: string := "*."

  /** hostname is domain itself or a name under it. */
  predicate UnderDomain(hostname: string, domain: string) {
    hostname == domain || HasSuffix(hostname, "." + domain)
  }

  lemma SuffixIsTransitive(a: string, b: string, c: string)
    requires HasSuffix(a, b) && HasSuffix(b, c)
    ensures HasSuffix(a, c)
  {
    assert a[|a| - |c|..] == a[|a| - |b|..][|b| - |c|..];
  }

  /** A name under a name under a domain is under that domain. */
  lemma UnderIsTransitive(a: string, b: string, c: string)
    requires UnderDomain(a, b) && UnderDomain(b, c)
    ensures UnderDomain(a, c)
  {
    if a != b && b != c {
      assert ("." + b)[1..] == b;
      assert HasSuffix("." + b, b);
      SuffixIsTransitive(a, "." + b, b);
      SuffixIsTransitive(a, b, "." + c);
    }
  }

  /** A suffix is what remains after some first part. */
  lemma SuffixMeans(s: string, t: string)
    ensures HasSuffix(s, t) <==> exists p: string :: s == p + t
  {
    if HasSuffix(s, t) {
      assert s == s[..|s| - |t|] + t;
    }
  }

  /** Under a domain: the domain itself, or something, a dot, and the domain. */
  lemma UnderDomainMeans(hostname: string, domain: string)
    ensures UnderDomain(hostname, domain) <==> hostname == domain || exists p: string :: hostname == p + ("." + domain)
  {
    SuffixMeans(hostname, "." + domain);
  }
}
