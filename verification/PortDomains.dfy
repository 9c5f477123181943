/** The per-port domains of TCP and UDP services
    (internal/controller/reverseproxyservice_mirror.go). */
module PortDomains {
  import opened Api
  import opened Hostnames

  predicate NoDot(s: string) {
    forall i :: 0 <= i < |s| ==> s[i] != '.'
  }

  /** strings.Cut at the first dot; None when there is no dot. */
  function Cut(host: string): (r: (string, Option<string>))
    ensures NoDot(r.0)
    ensures host == if r.1.Some? then r.0 + "." + r.1.value else r.0
  {
    if host == "" then ("", None)
    else if host[0] == '.' then ("", Some(host[1..]))
    else
      var c := Cut(host[1..]);
      ([host[0]] + c.0, c.1)
  }

  function PortLabelDomain(host: string, tag: string): string {
    var c := Cut(host);
    match c.1
    case None => c.0 + "-" + tag
    case Some(rest) => c.0 + "-" + tag + "." + rest
  }

  /** Cutting is unique: a dot-free head and the rest determine the cut. */
  lemma {:induction false} CutOf(first: string, rest: Option<string>)
    requires NoDot(first)
    ensures Cut(if rest.Some? then first + "." + rest.value else first) == (first, rest)
  {
    var host := if rest.Some? then first + "." + rest.value else first;
    if first != "" {
      assert first == [first[0]] + first[1..];
      CutOf(first[1..], rest);
      assert host[1..] == if rest.Some? then first[1..] + "." + rest.value else first[1..];
    } else if rest.Some? {
      assert host[1..] == rest.value;
    }
  }

  lemma CutOfPortLabel(host: string, tag: string)
    requires NoDot(tag)
    ensures Cut(PortLabelDomain(host, tag)) == (Cut(host).0 + "-" + tag, Cut(host).1)
  {
    CutOf(Cut(host).0 + "-" + tag, Cut(host).1);
  }

  /** Two per-port domains coincide exactly when the hosts have one parent and
      the hyphen-joined first labels coincide. */
  lemma PortLabelsCollideIff(host1: string, tag1: string, host2: string, tag2: string)
    requires NoDot(tag1) && NoDot(tag2)
    ensures PortLabelDomain(host1, tag1) == PortLabelDomain(host2, tag2) <==>
            Cut(host1).1 == Cut(host2).1 && Cut(host1).0 + "-" + tag1 == Cut(host2).0 + "-" + tag2
  {
    CutOfPortLabel(host1, tag1);
    CutOfPortLabel(host2, tag2);
  }

  /** Ports of one host get different domains; so do ports of different hosts
      when the port names have no hyphen. */
  lemma PortsGetDistinctDomains(host1: string, tag1: string, host2: string, tag2: string)
    requires NoDot(tag1) && NoDot(tag2)
    requires host1 == host2 || (NoHyphen(tag1) && NoHyphen(tag2))
    requires PortLabelDomain(host1, tag1) == PortLabelDomain(host2, tag2)
    ensures host1 == host2 && tag1 == tag2
  {
    PortLabelsCollideIff(host1, tag1, host2, tag2);
    var f1, f2 := Cut(host1).0, Cut(host2).0;
    var s1, s2 := f1 + "-" + tag1, f2 + "-" + tag2;
    assert s1[|f1|] == '-' && s2[|f2|] == '-';
    assert s1[..|f1|] == f1 && s2[..|f2|] == f2;
    assert s1[|f1| + 1..] == tag1 && s2[|f2| + 1..] == tag2;
  }

  /** With a hyphen in a port name, two hosts share a per-port domain: port "b-c"
      of a.example.com and port "c" of a-b.example.com, for all such a, b and c. */
  lemma HyphenatedPortNamesCollide(a: string, b: string, c: string, parent: string)
    requires NoDot(a) && NoDot(b) && NoDot(c)
    ensures PortLabelDomain(a + "." + parent, b + "-" + c) == PortLabelDomain(a + "-" + b + "." + parent, c)
  {
    CutOf(a, Some(parent));
    CutOf(a + "-" + b, Some(parent));
    HyphensAssociate(a, b, c);
    PortLabelsCollideIff(a + "." + parent, b + "-" + c, a + "-" + b + "." + parent, c);
  }

  /** A name is strictly under a domain exactly when what follows its first dot is under it. */
  lemma StrictlyUnderIsParentUnder(host: string, domain: string)
    ensures HasSuffix(host, "." + domain) <==> Cut(host).1.Some? && UnderDomain(Cut(host).1.value, domain)
  {
    var c := Cut(host);
    var t := "." + domain;
    if HasSuffix(host, t) {
      var at := |host| - |t|;
      assert host[at] == host[at..][0] == '.';
      if c.1.Some? {
        assert |c.0| <= at;
        var rest := c.1.value;
        assert host[|c.0| + 1..] == rest;
        if at == |c.0| {
          assert rest == host[at..][1..] == domain;
        } else {
          assert rest[|rest| - |t|..] == host[at..];
        }
      }
    }
    if c.1.Some? && UnderDomain(c.1.value, domain) {
      assert host[|c.0| + 1..] == c.1.value;
      assert host[|host| - |t|..] == t;
    }
  }

  /** The per-port domain is strictly under exactly the domains its host is strictly under. */
  lemma PortLabelKeepsParents(host: string, tag: string, domain: string)
    requires NoDot(tag)
    ensures HasSuffix(PortLabelDomain(host, tag), "." + domain) <==> HasSuffix(host, "." + domain)
  {
    CutOfPortLabel(host, tag);
    StrictlyUnderIsParentUnder(host, domain);
    StrictlyUnderIsParentUnder(PortLabelDomain(host, tag), domain);
  }
}
