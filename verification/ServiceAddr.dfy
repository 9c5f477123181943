/** Names and address families (internal/controller/serviceaddr.go). */
module ServiceAddr {
  import opened Api
  import opened Hostnames

  datatype IpAddr = V4(bits: nat) | V6(bits: nat)

  /** net.ParseIP and IP.String, kept abstract. */
  datatype IpText = IpText(parse: string -> Option<IpAddr>, print_: IpAddr -> string)

  /** Printing an address and parsing it back gives the address. */
  ghost predicate RoundTrips(ip: IpText) {
    forall a :: ip.parse(ip.print_(a)) == Some(a)
  }

  datatype IPFamily = IPv4 | IPv6

  datatype RecordType = A | AAAA | CNAME

  function IpFamilyOf(ip: IpText, address: string): Option<IPFamily> {
    match ip.parse(address)
    case None => None
    case Some(V4(_)) => Some(IPv4)
    case Some(V6(_)) => Some(IPv6)
  }

  function DnsRecordTypeFor(ip: IpText, address: string): Option<RecordType> {
    match IpFamilyOf(ip, address)
    case None => None
    case Some(IPv4) => Some(A)
    case Some(IPv6) => Some(AAAA)
  }

  function FamilySuffix(family: IPFamily): string {
    if family == IPv4 then "-ipv4" else "-ipv6"
  }

  function ChildName(svc: string, family: IPFamily): string {
    svc + FamilySuffix(family)
  }

  /** Two children of the same name are the same child of the same Service. */
  lemma ChildNameIsInjective(svc1: string, family1: IPFamily, svc2: string, family2: IPFamily)
    requires ChildName(svc1, family1) == ChildName(svc2, family2)
    ensures svc1 == svc2 && family1 == family2
  {
    var n1, n2 := ChildName(svc1, family1), ChildName(svc2, family2);
    assert n1[..|svc1|] == svc1 && n2[..|svc2|] == svc2;
    assert n1[|n1| - 1] == (if family1 == IPv4 then '4' else '6');
    assert n2[|n2| - 1] == (if family2 == IPv4 then '4' else '6');
  }

  function ServiceFqdn(svc: string, namespace: string, zone: string): string {
    svc + "-" + namespace + "." + zone
  }

  /** Two Services of one zone share a name exactly when their names and namespaces
      are the same text once joined by a hyphen. */
  lemma ServiceNamesCollideIff(svc1: string, ns1: string, svc2: string, ns2: string, zone: string)
    ensures ServiceFqdn(svc1, ns1, zone) == ServiceFqdn(svc2, ns2, zone) <==> svc1 + "-" + ns1 == svc2 + "-" + ns2
  {
    var a, b := svc1 + "-" + ns1, svc2 + "-" + ns2;
    var t := "." + zone;
    assert ServiceFqdn(svc1, ns1, zone) == a + t && ServiceFqdn(svc2, ns2, zone) == b + t;
    if a + t == b + t {
      assert |a| == |b| && (a + t)[..|a|] == a && (b + t)[..|b|] == b;
    }
  }

  /** They do for all a, b and c: Service a-b of namespace c, and Service a of
      namespace b-c. */
  lemma HyphenatedServicesCollide(a: string, b: string, c: string, zone: string)
    ensures ServiceFqdn(a + "-" + b, c, zone) == ServiceFqdn(a, b + "-" + c, zone)
  {
    ServiceNamesCollideIff(a + "-" + b, c, a, b + "-" + c, zone);
    HyphensAssociate(a, b, c);
  }

  /** Within one namespace, or among namespaces without hyphens, the name tells
      Services apart. */
  lemma ServiceNamesAreDistinct(svc1: string, ns1: string, svc2: string, ns2: string, zone: string)
    requires ns1 == ns2 || (NoHyphen(ns1) && NoHyphen(ns2))
    requires ServiceFqdn(svc1, ns1, zone) == ServiceFqdn(svc2, ns2, zone)
    ensures svc1 == svc2 && ns1 == ns2
  {
    ServiceNamesCollideIff(svc1, ns1, svc2, ns2, zone);
    var a, b := svc1 + "-" + ns1, svc2 + "-" + ns2;
    assert a[|svc1|] == '-' && b[|svc2|] == '-';
    assert a[..|svc1|] == svc1 && b[..|svc2|] == svc2;
    assert a[|svc1| + 1..] == ns1 && b[|svc2| + 1..] == ns2;
  }

  /** One textual form per address; anything else is compared as it is. */
  function Canonical(ip: IpText, content: string): string {
    match ip.parse(content)
    case Some(a) => ip.print_(a)
    case None => content
  }

  function RecordMatchKey(ip: IpText, type_: string, content: string): string {
    type_ + "|" + Canonical(ip, content)
  }

  predicate NoBar(s: string) {
    forall i :: 0 <= i < |s| ==> s[i] != '|'
  }

  /** Same content: the same address in any spelling, or the same text. */
  predicate SameContent(ip: IpText, c1: string, c2: string) {
    ip.parse(c1) == ip.parse(c2) && (ip.parse(c1).None? ==> c1 == c2)
  }

  /** Records match on the key exactly when they have one type and one content,
      whichever way an address is spelled. */
  lemma RecordMatchKeyIsExact(ip: IpText, t1: string, c1: string, t2: string, c2: string)
    requires RoundTrips(ip) && NoBar(t1) && NoBar(t2)
    ensures RecordMatchKey(ip, t1, c1) == RecordMatchKey(ip, t2, c2) <==> t1 == t2 && SameContent(ip, c1, c2)
  {
    var k1, k2 := RecordMatchKey(ip, t1, c1), RecordMatchKey(ip, t2, c2);
    if k1 == k2 {
      assert k1[|t1|] == '|' && k2[|t2|] == '|';
      assert |t1| == |t2|;
      assert k1[..|t1|] == t1 && k2[..|t2|] == t2;
      assert k1[|t1| + 1..] == Canonical(ip, c1) && k2[|t2| + 1..] == Canonical(ip, c2);
      assert Canonical(ip, c1) == Canonical(ip, c2);
    }
  }
}
