// Orders and the certificates issued for them: which names may be asked for, the
// authorisations they need, and what a certificate then holds. Parsing IP addresses,
// host name syntax and IDNA are foreign code, taken as the parameter `dns`.
module Issuance {
  import opened Wrappers
  import opened Text

  datatype Dns = Dns(isIp: string -> bool, validHostname: string -> bool, toAscii: string -> Option<string>)

  datatype Problem =
    | RejectedIdentifier
    | UnsupportedIdentifier
    | Malformed
    | BadCsr

  // --- Labels ---

  // The dot-separated labels of a name.
  function Labels(name: string): (ls: seq<string>)
    ensures ls != []
  {
    if name == [] then [""]
    else Prefixed(name[0], Labels(name[1..]))
  }

  function Joined(ls: seq<string>): string
    requires ls != []
  {
    if |ls| == 1 then ls[0] else ls[0] + "." + Joined(ls[1..])
  }

  lemma {:induction false} JoinedLabels(name: string)
    ensures Joined(Labels(name)) == name
    decreases |name|
  {
    if name != [] {
      var rest := Labels(name[1..]);
      JoinedLabels(name[1..]);
      assert name == [name[0]] + name[1..];
      if name[0] == '.' {
        assert ([""] + rest)[1..] == rest;
      } else {
        var ls := [[name[0]] + rest[0]] + rest[1..];
        assert ls[1..] == rest[1..];
      }
    }
  }

  // One more character on the front of a name.
  function Prefixed(c: char, ls: seq<string>): seq<string>
    requires ls != []
  {
    if c == '.' then [""] + ls else [[c] + ls[0]] + ls[1..]
  }

  lemma PrefixedConcat(c: char, p: seq<string>, q: seq<string>)
    requires p != []
    ensures Prefixed(c, p + q) == Prefixed(c, p) + q
  {
    assert (p + q)[1..] == p[1..] + q;
  }

  lemma {:induction false} LabelsOfDotted(a: string, b: string)
    ensures Labels(a + ("." + b)) == Labels(a) + Labels(b)
    decreases |a|
  {
    var tail := "." + b;
    if a == [] {
      assert a + tail == tail && tail[1..] == b;
    } else {
      assert (a + tail)[1..] == a[1..] + tail && (a + tail)[0] == a[0];
      LabelsOfDotted(a[1..], b);
      PrefixedConcat(a[0], Labels(a[1..]), Labels(b));
    }
  }

  lemma {:induction false} JoinedConcat(p: seq<string>, q: seq<string>)
    requires p != [] && q != []
    ensures Joined(p + q) == Joined(p) + ("." + Joined(q))
    decreases |p|
  {
    assert (p + q)[1..] == p[1..] + q;
    if |p| == 1 {
      assert p[1..] + q == q;
    } else {
      JoinedConcat(p[1..], q);
      assert p[0] + "." + (Joined(p[1..]) + ("." + Joined(q))) == (p[0] + "." + Joined(p[1..])) + ("." + Joined(q));
    }
  }

  predicate EndsWith(s: string, end: string) {
    |end| <= |s| && s[|s| - |end|..] == end
  }

  predicate Under(labels: seq<string>, domain: seq<string>) {
    |domain| <= |labels| && labels[|labels| - |domain|..] == domain
  }

  lemma TailEnds(a: string, tail: string)
    ensures EndsWith(a + tail, tail)
  {
  }

  lemma DottedIsUnder(host: string, domain: string)
    requires EndsWith(host, "." + domain)
    ensures Under(Labels(host), Labels(domain))
  {
    var a := host[..|host| - |domain| - 1];
    assert host == a + ("." + domain);
    LabelsOfDotted(a, domain);
  }

  lemma UnderIsDotted(host: string, domain: string, front: seq<string>)
    requires Labels(host) == front + Labels(domain)
    ensures front == [] ==> host == domain
    ensures front != [] ==> EndsWith(host, "." + domain)
  {
    JoinedLabels(host);
    JoinedLabels(domain);
    if front == [] {
      assert Labels(host) == Labels(domain);
    } else {
      JoinedConcat(front, Labels(domain));
      TailEnds(Joined(front), "." + domain);
    }
  }

  // Ending with a dot and the domain is having its labels at the end of one's own.
  lemma SuffixIsLabelSuffix(host: string, domain: string)
    ensures host == domain || EndsWith(host, "." + domain) <==> Under(Labels(host), Labels(domain))
  {
    var ls, ds := Labels(host), Labels(domain);
    if EndsWith(host, "." + domain) {
      DottedIsUnder(host, domain);
    }
    if Under(ls, ds) {
      assert ls == ls[..|ls| - |ds|] + ds;
      UnderIsDotted(host, domain, ls[..|ls| - |ds|]);
    }
  }

  // --- Names the broker may issue for ---

  function TrimDots(s: string): string {
    if s != [] && s[|s| - 1] == '.' then TrimDots(s[..|s| - 1]) else s
  }

  predicate HostWithin(dns: Dns, host: string, domains: seq<string>) {
    var host := Lower(TrimDots(host));
    && !dns.isIp(host)
    && exists i :: 0 <= i < |domains| && (host == Lower(domains[i]) || EndsWith(host, "." + Lower(domains[i])))
  }

  // The name with a leading wildcard label taken off.
  predicate IsWildcard(name: string) {
    "*." <= name
  }

  function Base(name: string): string {
    if IsWildcard(name) then name[2..] else name
  }

  // Whether `check_identifier` lets `name` through.
  predicate Permitted(dns: Dns, name: string, domains: seq<string>) {
    var base := Base(name);
    && !dns.isIp(name)
    && '*' !in base
    && !EndsWith(base, ".") && Lower(name) == name
    && dns.validHostname(base)
    && dns.toAscii(base) == Some(base)
    && HostWithin(dns, base, domains)
  }

  // Some permitted domain's labels end `name`'s, case aside.
  predicate InDomain(name: string, domains: seq<string>) {
    exists i :: 0 <= i < |domains| && Under(Labels(name), Labels(Lower(domains[i])))
  }

  lemma PlainBase(name: string)
    requires Lower(name) == name && !EndsWith(Base(name), ".")
    ensures Lower(TrimDots(Base(name))) == Base(name)
  {
    var base := Base(name);
    assert base != [] ==> base[|base| - 1..] == [base[|base| - 1]];
    forall i | 0 <= i < |base| ensures LowerChar(base[i]) == base[i] {
      assert base[i] == name[if IsWildcard(name) then i + 2 else i];
    }
  }

  // A permitted name is a domain's, label by label, with a wildcard nowhere but in front.
  lemma PermittedIsInDomain(dns: Dns, name: string, domains: seq<string>)
    requires Permitted(dns, name, domains)
    ensures InDomain(Base(name), domains) && !dns.isIp(name) && !dns.isIp(Base(name))
    ensures forall i :: 0 <= i < |name| && name[i] == '*' ==> i == 0 && IsWildcard(name)
  {
    var base := Base(name);
    PlainBase(name);
    var i :| 0 <= i < |domains| && (base == Lower(domains[i]) || EndsWith(base, "." + Lower(domains[i])));
    SuffixIsLabelSuffix(base, Lower(domains[i]));
    StarsInFront(name);
  }

  lemma StarsInFront(name: string)
    requires '*' !in Base(name)
    ensures forall i :: 0 <= i < |name| && name[i] == '*' ==> i == 0 && IsWildcard(name)
  {
    if IsWildcard(name) {
      assert forall i :: 2 <= i < |name| ==> name[i] == Base(name)[i - 2];
    }
  }

  // And nothing in a domain is refused but for its syntax: a name is let through exactly
  // when it is in lower case, no IP address, starred nowhere but in front, not rooted, a
  // host name that is its own ASCII form, and in a permitted domain.
  lemma InDomainIsPermitted(dns: Dns, name: string, domains: seq<string>)
    ensures var base := Base(name);
      && (name == base || name == "*." + base)
      && (Permitted(dns, name, domains) <==>
            && (forall i :: 0 <= i < |name| ==> !('A' <= name[i] <= 'Z'))
            && !dns.isIp(name) && !dns.isIp(base) && '*' !in base && (base == "" || base[|base| - 1] != '.')
            && dns.validHostname(base) && dns.toAscii(base) == Some(base)
            && InDomain(base, domains))
  {
    assert IsWildcard(name) ==> name == "*." + Base(name);
    LowerIsItself(name);
    EndsInDot(Base(name));
    if Lower(name) == name && !EndsWith(Base(name), ".") {
      PlainWithin(dns, name, domains);
    }
  }

  lemma EndsInDot(base: string)
    ensures EndsWith(base, ".") <==> base != "" && base[|base| - 1] == '.'
  {
    assert base != "" ==> base[|base| - 1..] == [base[|base| - 1]];
  }

  lemma PlainWithin(dns: Dns, name: string, domains: seq<string>)
    requires Lower(name) == name && !EndsWith(Base(name), ".")
    ensures HostWithin(dns, Base(name), domains) <==> !dns.isIp(Base(name)) && InDomain(Base(name), domains)
  {
    var base := Base(name);
    PlainBase(name);
    if i :| 0 <= i < |domains| && (base == Lower(domains[i]) || EndsWith(base, "." + Lower(domains[i]))) {
      SuffixIsLabelSuffix(base, Lower(domains[i]));
    }
    if i :| 0 <= i < |domains| && Under(Labels(base), Labels(Lower(domains[i]))) {
      SuffixIsLabelSuffix(base, Lower(domains[i]));
    }
  }

  lemma LowerIsItself(name: string)
    ensures Lower(name) == name <==> forall i :: 0 <= i < |name| ==> !('A' <= name[i] <= 'Z')
  {
    if Lower(name) == name {
      forall i | 0 <= i < |name| ensures !('A' <= name[i] <= 'Z') {
        assert Lower(name)[i] == LowerChar(name[i]);
      }
    }
  }

  // --- Orders ---

  const MAX_IDENTIFIERS := 100

  datatype Identifier = Identifier(kind: string, value: string)

  function OrderName(dns: Dns, id: Identifier, domains: seq<string>): Result<string, Problem> {
    if id.kind == "dns" then
      if Permitted(dns, Lower(id.value), domains) then Ok(Lower(id.value)) else Err(RejectedIdentifier)
    else if id.kind == "ip" then Err(RejectedIdentifier)
    else Err(UnsupportedIdentifier)
  }

  // The set collected, or the first refusal.
  function Collected(dns: Dns, ids: seq<Identifier>, domains: seq<string>): Result<set<string>, Problem> {
    if ids == [] then Ok({})
    else
      match OrderName(dns, ids[0], domains)
      case Err(e) => Err(e)
      case Ok(name) =>
        var rest := Collected(dns, ids[1..], domains);
        if rest.Ok? then Ok({name} + rest.value) else rest
  }

  function Names(dns: Dns, ids: seq<Identifier>, domains: seq<string>): Result<set<string>, Problem> {
    if ids == [] || |ids| > MAX_IDENTIFIERS then Err(Malformed) else Collected(dns, ids, domains)
  }

  predicate Orderable(dns: Dns, id: Identifier, domains: seq<string>) {
    id.kind == "dns" && Permitted(dns, Lower(id.value), domains)
  }

  // Refused for any identifier that is not a permitted DNS name, and else all of them.
  lemma {:induction false} CollectedNames(dns: Dns, ids: seq<Identifier>, domains: seq<string>)
    ensures var r := Collected(dns, ids, domains);
      && (r.Ok? <==> forall i :: 0 <= i < |ids| ==> Orderable(dns, ids[i], domains))
      && (r.Ok? ==> r.value == set i | 0 <= i < |ids| :: Lower(ids[i].value))
    decreases |ids|
  {
    if ids != [] {
      var rest := ids[1..];
      CollectedNames(dns, rest, domains);
      NamesOfOneMore(ids);
      AllOfOneMore(dns, ids, domains);
    }
  }

  // The identifiers before number `i` can be had, and that one cannot.
  predicate FirstUnorderable(dns: Dns, ids: seq<Identifier>, domains: seq<string>, i: nat)
    requires i < |ids|
  {
    !Orderable(dns, ids[i], domains) && forall j :: 0 <= j < i ==> Orderable(dns, ids[j], domains)
  }

  lemma {:induction false} CollectedStopsAtFirst(dns: Dns, ids: seq<Identifier>, domains: seq<string>, i: nat)
    requires i < |ids| && FirstUnorderable(dns, ids, domains, i)
    ensures Collected(dns, ids, domains) ==
      Err(if ids[i].kind == "dns" || ids[i].kind == "ip" then RejectedIdentifier else UnsupportedIdentifier)
    decreases i
  {
    if i > 0 {
      assert Orderable(dns, ids[0], domains);
      assert FirstUnorderable(dns, ids[1..], domains, i - 1);
      CollectedStopsAtFirst(dns, ids[1..], domains, i - 1);
    }
  }

  // An order is made for one to a hundred identifiers, each a DNS name that may be had,
  // and refused otherwise by the count, or by the first that may not.
  lemma NamesExactlyWhen(dns: Dns, ids: seq<Identifier>, domains: seq<string>)
    ensures var r := Names(dns, ids, domains);
      && (r.Ok? <==>
            1 <= |ids| <= 100
            && forall i :: 0 <= i < |ids| ==> ids[i].kind == "dns" && Permitted(dns, Lower(ids[i].value), domains))
      && (!(1 <= |ids| <= 100) ==> r == Err(Malformed))
      && (1 <= |ids| <= 100 ==>
            forall i :: 0 <= i < |ids| && FirstUnorderable(dns, ids, domains, i) ==>
              r == Err(if ids[i].kind == "dns" || ids[i].kind == "ip"
                       then RejectedIdentifier else UnsupportedIdentifier))
  {
    CollectedNames(dns, ids, domains);
    forall i | 0 <= i < |ids| && FirstUnorderable(dns, ids, domains, i)
      ensures Collected(dns, ids, domains) ==
        Err(if ids[i].kind == "dns" || ids[i].kind == "ip" then RejectedIdentifier else UnsupportedIdentifier)
    {
      CollectedStopsAtFirst(dns, ids, domains, i);
    }
    if forall i :: 0 <= i < |ids| ==> Orderable(dns, ids[i], domains) {
      forall i | 0 <= i < |ids| ensures ids[i].kind == "dns" && Permitted(dns, Lower(ids[i].value), domains) {
        assert Orderable(dns, ids[i], domains);
      }
    }
  }

  lemma AllOfOneMore(dns: Dns, ids: seq<Identifier>, domains: seq<string>)
    requires ids != []
    ensures (forall i :: 0 <= i < |ids| ==> Orderable(dns, ids[i], domains)) <==>
      && Orderable(dns, ids[0], domains)
      && forall i :: 0 <= i < |ids[1..]| ==> Orderable(dns, ids[1..][i], domains)
  {
    assert forall i :: 1 <= i < |ids| ==> ids[i] == ids[1..][i - 1];
  }

  lemma NamesOfOneMore(ids: seq<Identifier>)
    requires ids != []
    ensures (set i | 0 <= i < |ids| :: Lower(ids[i].value)) ==
      {Lower(ids[0].value)} + set i | 0 <= i < |ids[1..]| :: Lower(ids[1..][i].value)
  {
    var rest := ids[1..];
    var all := set i | 0 <= i < |ids| :: Lower(ids[i].value);
    var some := set i | 0 <= i < |rest| :: Lower(rest[i].value);
    forall n | n in all ensures n in {Lower(ids[0].value)} + some {
      var i :| 0 <= i < |ids| && n == Lower(ids[i].value);
      assert i > 0 ==> n == Lower(rest[i - 1].value);
    }
    forall n | n in some ensures n in all {
      var i :| 0 <= i < |rest| && n == Lower(rest[i].value);
      assert n == Lower(ids[i + 1].value);
    }
  }

  datatype ChallengeType = Http01 | Dns01 | TlsAlpn01

  datatype NewAuthorisation = NewAuthorisation(identifier: string, wildcard: bool, challenges: seq<ChallengeType>)

  function AuthorisationFor(name: string, offered: seq<ChallengeType>): Result<NewAuthorisation, Problem> {
    var wildcard := IsWildcard(name);
    var challenges := if wildcard then OnlyDns(offered) else offered;
    if challenges == [] then Err(RejectedIdentifier)
    else Ok(NewAuthorisation(Base(name), wildcard, challenges))
  }

  function OnlyDns(offered: seq<ChallengeType>): seq<ChallengeType> {
    if offered == [] then []
    else (if offered[0] == Dns01 then [Dns01] else []) + OnlyDns(offered[1..])
  }

  lemma {:induction false} OnlyDnsIs(offered: seq<ChallengeType>)
    ensures forall c :: c in OnlyDns(offered) <==> c == Dns01 && c in offered
    ensures |OnlyDns(offered)| == multiset(offered)[Dns01]
    decreases |offered|
  {
    if offered != [] {
      OnlyDnsIs(offered[1..]);
      assert offered == [offered[0]] + offered[1..];
    }
  }

  // The identifier an authorisation stands for.
  function NameOf(a: NewAuthorisation): string {
    if a.wildcard then "*." + a.identifier else a.identifier
  }

  // An authorisation stands for its name alone, so an order's authorisations and its
  // identifiers are one to one; a wildcard is validated by dns-01 and nothing else, and
  // refused exactly when that is not offered.
  lemma AuthorisationsAreOneToOne(a: string, b: string, offered: seq<ChallengeType>)
    ensures var ra, rb := AuthorisationFor(a, offered), AuthorisationFor(b, offered);
      && (ra.Ok? ==>
            && NameOf(ra.value) == a && ra.value.challenges != []
            && (forall c :: c in ra.value.challenges <==> c in offered && (IsWildcard(a) ==> c == Dns01))
            && (if IsWildcard(a) then |ra.value.challenges| == multiset(offered)[Dns01]
                else ra.value.challenges == offered))
      && (ra.Ok? <==> if IsWildcard(a) then Dns01 in offered else offered != [])
      && (ra.Ok? && rb.Ok? ==>
            ra.value.identifier == rb.value.identifier && ra.value.wildcard == rb.value.wildcard ==> a == b)
  {
    OnlyDnsIs(offered);
    assert IsWildcard(a) ==> a == "*." + a[2..];
    assert IsWildcard(b) ==> b == "*." + b[2..];
    if OnlyDns(offered) != [] {
      assert OnlyDns(offered)[0] in OnlyDns(offered);
    }
  }

  // --- Certificates ---

  const DAY := 86_400
  const BACKDATE := 60
  const COMMON_NAME_MAX := 64

  datatype San = DnsName(dns: string) | IpName | OtherName

  datatype Csr = Csr(readable: bool, key: Key, spki: seq<int>, names: seq<San>, commonName: Option<string>)

  datatype Key = Rsa(bits: Option<nat>) | Ecdsa(curve: Option<string>) | OtherKey

  datatype Order = Order(identifiers: seq<string>, notBefore: Option<int>, notAfter: Option<int>)

  datatype Config = Config(permittedDomains: seq<string>, leafDays: nat, leafMaxDays: nat)

  datatype Issuer = Issuer(serial: string, notAfter: int, config: Config)

  datatype Validity = Validity(notBefore: int, notAfter: int)

  datatype Certificate = Certificate(
    commonName: Option<string>, sans: set<string>, validity: Validity, issuerSerial: string)

  predicate KeyAllowed(key: Key) {
    match key
    case Rsa(bits) => bits.Some? && 2048 <= bits.value <= 8192
    case Ecdsa(curve) => curve == Some("P-256") || curve == Some("P-384")
    case OtherKey => false
  }

  function SanRefusal(dns: Dns, san: San, domains: seq<string>): Option<Problem> {
    match san
    case DnsName(name) => if Permitted(dns, Lower(name), domains) then None else Some(RejectedIdentifier)
    case IpName => Some(RejectedIdentifier)
    case OtherName => Some(BadCsr)
  }

  function ValidityFor(issuer: Issuer, order: Order, now: int): Result<Validity, Problem> {
    var earliest := now - BACKDATE;
    var notBefore :=
      if order.notBefore.Some? && order.notBefore.value > earliest then order.notBefore.value else earliest;
    var wanted := if order.notAfter.Some? then order.notAfter.value else notBefore + DAY * issuer.config.leafDays;
    var notAfter := Min(Min(wanted, notBefore + DAY * issuer.config.leafMaxDays), issuer.notAfter);
    if notAfter <= notBefore then Err(Malformed) else Ok(Validity(notBefore, notAfter))
  }

  // The window an order may have: not before a minute ago or its own start, within the
  // longest lifetime and the subordinate's, and no longer than was asked for.
  predicate Allowed(issuer: Issuer, order: Order, now: int, v: Validity) {
    && v.notBefore < v.notAfter
    && v.notBefore >= now - 60 && (order.notBefore.Some? ==> v.notBefore >= order.notBefore.value)
    && v.notAfter <= v.notBefore + 86_400 * issuer.config.leafMaxDays && v.notAfter <= issuer.notAfter
    && (if order.notAfter.Some? then v.notAfter <= order.notAfter.value
        else v.notAfter <= v.notBefore + 86_400 * issuer.config.leafDays)
  }

  // It begins as early as any allowed window, and of those that begin then ends latest;
  // it is refused exactly when nothing is allowed.
  lemma ValidityIsWidestAllowed(issuer: Issuer, order: Order, now: int)
    ensures var r := ValidityFor(issuer, order, now);
      && (r.Ok? ==> Allowed(issuer, order, now, r.value))
      && (forall v :: Allowed(issuer, order, now, v) ==>
            r.Ok? && r.value.notBefore <= v.notBefore
            && (v.notBefore == r.value.notBefore ==> v.notAfter <= r.value.notAfter))
  {
  }

  // The CSR's DNS names short enough for a common name, lower-case, in its order.
  function Fitting(names: seq<San>): seq<string> {
    if names == [] then []
    else
      (if names[0].DnsName? && |names[0].dns| <= COMMON_NAME_MAX then [Lower(names[0].dns)] else [])
      + Fitting(names[1..])
  }

  function LeafCommonName(csr: Csr): Option<string> {
    var fitting := Fitting(csr.names);
    if csr.commonName.Some? && Lower(csr.commonName.value) in fitting then Some(Lower(csr.commonName.value))
    else if fitting != [] then Some(fitting[0])
    else None
  }

  function SanNames(names: seq<San>): set<string> {
    set i | 0 <= i < |names| && names[i].DnsName? :: Lower(names[i].dns)
  }

  lemma {:induction false} FittingNames(names: seq<San>, cn: string)
    ensures cn in Fitting(names) <==> cn in SanNames(names) && |cn| <= COMMON_NAME_MAX
    decreases |names|
  {
    if names != [] {
      FittingNames(names[1..], cn);
      var rest := names[1..];
      assert forall i :: 1 <= i < |names| ==> names[i] == rest[i - 1];
      if i :| 0 <= i < |names| && names[i].DnsName? && Lower(names[i].dns) == cn {
        if i > 0 {
          assert rest[i - 1].DnsName? && Lower(rest[i - 1].dns) == cn;
        }
      }
      if i :| 0 <= i < |rest| && rest[i].DnsName? && Lower(rest[i].dns) == cn {
        assert names[i + 1].DnsName? && Lower(names[i + 1].dns) == cn;
      }
    }
  }

  // The common name is one of the SANs and fits, the CSR's own if that does and else the
  // first that does, and is missing only when none fits.
  lemma CommonNameIsFittingSan(csr: Csr)
    ensures var cn := LeafCommonName(csr);
      && (cn.Some? ==> cn.value in SanNames(csr.names) && |cn.value| <= COMMON_NAME_MAX)
      && (cn.None? ==> forall n :: n in SanNames(csr.names) ==> |n| > COMMON_NAME_MAX)
      && (csr.commonName.Some? && |csr.commonName.value| <= COMMON_NAME_MAX ==>
            Lower(csr.commonName.value) in SanNames(csr.names) ==> cn == Some(Lower(csr.commonName.value)))
      && (cn.Some? && (csr.commonName.None? || cn.value != Lower(csr.commonName.value)) ==>
            exists i :: 0 <= i < |csr.names| && FirstToFit(csr.names, i) && cn.value == Lower(csr.names[i].dns))
  {
    forall n ensures n in Fitting(csr.names) <==> n in SanNames(csr.names) && |n| <= COMMON_NAME_MAX {
      FittingNames(csr.names, n);
    }
    if Fitting(csr.names) != [] {
      assert Fitting(csr.names)[0] in Fitting(csr.names);
      var i := FirstFitting(csr.names);
    }
  }

  // The first of the CSR's names with at most 64 characters, as `find` comes to it.
  predicate FirstToFit(names: seq<San>, i: nat)
    requires i < |names|
  {
    && names[i].DnsName? && |names[i].dns| <= 64
    && forall j :: 0 <= j < i && names[j].DnsName? ==> |names[j].dns| > 64
  }

  lemma {:induction false} FirstFitting(names: seq<San>) returns (i: nat)
    requires Fitting(names) != []
    ensures i < |names| && FirstToFit(names, i) && Fitting(names)[0] == Lower(names[i].dns)
    decreases |names|
  {
    if names[0].DnsName? && |names[0].dns| <= COMMON_NAME_MAX {
      i := 0;
    } else {
      var k := FirstFitting(names[1..]);
      i := k + 1;
      assert forall j :: 1 <= j < i ==> names[j] == names[1..][j - 1];
    }
  }

  // The refusal the loop stops at, if any.
  function FirstRefusal(dns: Dns, names: seq<San>, domains: seq<string>): (r: Option<Problem>)
    ensures r.None? <==> forall i :: 0 <= i < |names| ==> SanRefusal(dns, names[i], domains).None?
  {
    if names == [] then None
    else
      var first := SanRefusal(dns, names[0], domains);
      if first.Some? then first
      else
        assert forall i :: 1 <= i < |names| ==> names[i] == names[1..][i - 1];
        FirstRefusal(dns, names[1..], domains)
  }

  function NamesRequested(dns: Dns, csr: Csr, domains: seq<string>): Result<set<string>, Problem> {
    var refusal := FirstRefusal(dns, csr.names, domains);
    if refusal.Some? then Err(refusal.value)
    else if csr.names == [] then Err(BadCsr)
    else Ok(SanNames(csr.names))
  }

  // `requested_names`.
  method RequestedNames(dns: Dns, csr: Csr, domains: seq<string>) returns (r: Result<set<string>, Problem>)
    ensures r == NamesRequested(dns, csr, domains)
  {
    var names := {};
    var all := csr.names;
    for i := 0 to |all|
      invariant names == SanNames(all[..i])
      invariant FirstRefusal(dns, all, domains) == FirstRefusal(dns, all[i..], domains)
      invariant forall j :: 0 <= j < i ==> all[j].DnsName?
    {
      assert all[i..][1..] == all[i + 1..];
      match all[i] {
        case DnsName(name) =>
          if !Permitted(dns, Lower(name), domains) {
            return Err(RejectedIdentifier);
          }
          SanNamesOfOneMore(all, i);
          names := names + {Lower(name)};
        case IpName => return Err(RejectedIdentifier);
        case OtherName => return Err(BadCsr);
      }
    }
    assert all[..|all|] == all;
    NoNames(all);
    if names == {} {
      return Err(BadCsr);
    }
    r := Ok(names);
  }

  lemma NoNames(names: seq<San>)
    requires forall i :: 0 <= i < |names| ==> names[i].DnsName?
    ensures SanNames(names) == {} <==> names == []
  {
    if names != [] {
      assert Lower(names[0].dns) in SanNames(names);
    }
  }

  lemma SanNamesOfOneMore(names: seq<San>, i: nat)
    requires i < |names| && names[i].DnsName?
    ensures SanNames(names[..i + 1]) == SanNames(names[..i]) + {Lower(names[i].dns)}
  {
    var front, more := names[..i], names[..i + 1];
    forall n ensures n in SanNames(more) <==> n in SanNames(front) + {Lower(names[i].dns)} {
      if j :| 0 <= j < |more| && more[j].DnsName? && Lower(more[j].dns) == n {
        if j < i {
          assert front[j] == more[j];
        }
      }
      if j :| 0 <= j < |front| && front[j].DnsName? && Lower(front[j].dns) == n {
        assert more[j] == front[j];
      }
      if n == Lower(names[i].dns) {
        assert more[i] == names[i];
      }
    }
  }

  function Ordered(order: Order): set<string> {
    set i | 0 <= i < |order.identifiers| :: Lower(order.identifiers[i])
  }

  function Issue(dns: Dns, issuer: Issuer, order: Order, csr: Csr, accountKey: seq<int>, now: int)
    : Result<Certificate, Problem>
  {
    if !csr.readable || csr.spki == accountKey || !KeyAllowed(csr.key) then Err(BadCsr)
    else
      var names := NamesRequested(dns, csr, issuer.config.permittedDomains);
      if names.Err? then Err(names.error)
      else if names.value != Ordered(order) then Err(BadCsr)
      else
        var validity := ValidityFor(issuer, order, now);
        if validity.Err? then Err(validity.error)
        else Ok(Certificate(LeafCommonName(csr), names.value, validity.value, issuer.serial))
  }

  // Everything a certificate promises, from the order, the issuer and the clock alone.
  ghost predicate AsOrdered(dns: Dns, issuer: Issuer, order: Order, now: int, cert: Certificate) {
    && cert.sans == Ordered(order)
    && cert.sans != {}
    && (forall n :: n in cert.sans ==>
          InDomain(Base(n), issuer.config.permittedDomains) && '*' !in Base(n) && !dns.isIp(n) && Lower(n) == n)
    && (cert.commonName.Some? ==> cert.commonName.value in cert.sans && |cert.commonName.value| <= COMMON_NAME_MAX)
    && (cert.commonName.None? ==> forall n :: n in cert.sans ==> |n| > COMMON_NAME_MAX)
    && Allowed(issuer, order, now, cert.validity)
    && cert.issuerSerial == issuer.serial
  }

  lemma IssuedAsOrdered(dns: Dns, issuer: Issuer, order: Order, csr: Csr, accountKey: seq<int>, now: int)
    requires Issue(dns, issuer, order, csr, accountKey, now).Ok?
    ensures AsOrdered(dns, issuer, order, now, Issue(dns, issuer, order, csr, accountKey, now).value)
    ensures var cert := Issue(dns, issuer, order, csr, accountKey, now).value;
      && cert.commonName == LeafCommonName(csr)
      && forall v :: Allowed(issuer, order, now, v) ==>
           && cert.validity.notBefore <= v.notBefore
           && (v.notBefore == cert.validity.notBefore ==> v.notAfter <= cert.validity.notAfter)
    ensures csr.readable && csr.spki != accountKey
    ensures match csr.key
      case Rsa(bits) => bits.Some? && 2048 <= bits.value <= 8192
      case Ecdsa(curve) => curve == Some("P-256") || curve == Some("P-384")
      case OtherKey => false
  {
    var domains := issuer.config.permittedDomains;
    ValidityIsWidestAllowed(issuer, order, now);
    CommonNameIsFittingSan(csr);
    assert Lower(csr.names[0].dns) in SanNames(csr.names) by {
      assert SanRefusal(dns, csr.names[0], domains).None?;
    }
    forall n | n in SanNames(csr.names)
      ensures InDomain(Base(n), domains) && '*' !in Base(n) && !dns.isIp(n) && Lower(n) == n
    {
      var i :| 0 <= i < |csr.names| && csr.names[i].DnsName? && n == Lower(csr.names[i].dns);
      assert SanRefusal(dns, csr.names[i], domains).None?;
      PermittedIsInDomain(dns, n, domains);
    }
  }

  // The loop's refusal is that of the first name that is not a permitted DNS name.
  predicate FirstRefused(dns: Dns, names: seq<San>, domains: seq<string>, i: nat)
    requires i < |names|
  {
    && !Passes(dns, names[i], domains)
    && forall j :: 0 <= j < i ==> Passes(dns, names[j], domains)
  }

  predicate Passes(dns: Dns, san: San, domains: seq<string>) {
    san.DnsName? && Permitted(dns, Lower(san.dns), domains)
  }

  lemma {:induction false} RefusedAtFirst(dns: Dns, names: seq<San>, domains: seq<string>)
    ensures FirstRefusal(dns, names, domains).None? <==> forall i :: 0 <= i < |names| ==> Passes(dns, names[i], domains)
    ensures forall i :: 0 <= i < |names| && FirstRefused(dns, names, domains, i) ==>
      FirstRefusal(dns, names, domains) == Some(if names[i].OtherName? then BadCsr else RejectedIdentifier)
    decreases |names|
  {
    if names != [] {
      RefusedAtFirst(dns, names[1..], domains);
      assert forall i :: 1 <= i < |names| ==> names[i] == names[1..][i - 1];
      forall i | 0 <= i < |names| && FirstRefused(dns, names, domains, i)
        ensures i > 0 ==> FirstRefused(dns, names[1..], domains, i - 1)
      {
      }
    }
  }

  // A certificate is issued exactly for a readable CSR over an allowed key that is not
  // the account's, whose names are permitted DNS names and just those ordered, where the
  // order has a window.
  lemma IssuedExactlyWhen(dns: Dns, issuer: Issuer, order: Order, csr: Csr, accountKey: seq<int>, now: int)
    ensures Issue(dns, issuer, order, csr, accountKey, now).Ok? <==>
              && csr.readable && csr.spki != accountKey && KeyAllowed(csr.key) && csr.names != []
              && (forall i :: 0 <= i < |csr.names| ==> Passes(dns, csr.names[i], issuer.config.permittedDomains))
              && SanNames(csr.names) == Ordered(order)
              && exists v :: Allowed(issuer, order, now, v)
  {
    RefusedAtFirst(dns, csr.names, issuer.config.permittedDomains);
    ValidityIsWidestAllowed(issuer, order, now);
  }

  // And refused for the first thing wrong: the CSR or its key, the first of its names
  // that may not be had, their difference from the order, and last the window.
  lemma RefusedFor(dns: Dns, issuer: Issuer, order: Order, csr: Csr, accountKey: seq<int>, now: int, i: nat)
    requires i <= |csr.names|
    ensures var r := Issue(dns, issuer, order, csr, accountKey, now);
      var domains := issuer.config.permittedDomains;
      && (!csr.readable || csr.spki == accountKey || !KeyAllowed(csr.key) ==> r == Err(BadCsr))
      && (csr.readable && csr.spki != accountKey && KeyAllowed(csr.key) ==>
            && (i < |csr.names| && FirstRefused(dns, csr.names, domains, i) ==>
                  r == Err(if csr.names[i].OtherName? then BadCsr else RejectedIdentifier))
            && ((forall j :: 0 <= j < |csr.names| ==> Passes(dns, csr.names[j], domains)) ==>
                  && (csr.names == [] || SanNames(csr.names) != Ordered(order) ==> r == Err(BadCsr))
                  && (r.Err? && csr.names != [] && SanNames(csr.names) == Ordered(order) ==> r == Err(Malformed))))
  {
    RefusedAtFirst(dns, csr.names, issuer.config.permittedDomains);
  }

  // And nothing ordered is refused at the end: with the config it was ordered under, a
  // CSR of an allowed key that names just the order's identifiers, in any case and order,
  // is refused only for its window.
  lemma OrderedIsIssued(dns: Dns, issuer: Issuer, ids: seq<Identifier>, order: Order, csr: Csr,
                        accountKey: seq<int>, now: int)
    requires Names(dns, ids, issuer.config.permittedDomains) == Ok(Ordered(order))
    requires csr.readable && csr.spki != accountKey
    requires
      || (csr.key.Rsa? && csr.key.bits.Some? && 2048 <= csr.key.bits.value <= 8192)
      || csr.key == Ecdsa(Some("P-256")) || csr.key == Ecdsa(Some("P-384"))
    requires (forall i :: 0 <= i < |csr.names| ==> csr.names[i].DnsName?) && SanNames(csr.names) == Ordered(order)
    ensures var r := Issue(dns, issuer, order, csr, accountKey, now);
      r.Ok? <==> exists v :: Allowed(issuer, order, now, v)
  {
    var domains := issuer.config.permittedDomains;
    CollectedNames(dns, ids, domains);
    assert Lower(ids[0].value) in SanNames(csr.names);
    forall i | 0 <= i < |csr.names| ensures SanRefusal(dns, csr.names[i], domains).None? {
      assert Lower(csr.names[i].dns) in SanNames(csr.names);
      var j :| 0 <= j < |ids| && Lower(csr.names[i].dns) == Lower(ids[j].value);
    }
    ValidityIsWidestAllowed(issuer, order, now);
  }
}
