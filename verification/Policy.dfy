/**
 Policy rules: which backend a connection is pinned to by client address, destination
 address, destination port or destination name. Addresses and patterns arrive parsed.
 */
module Policy {
  import opened Options
  import opened Text
  import opened Addresses

  datatype PortRange = PortRange(lo: int, hi: int)

  datatype Rule =
    | ClientIp(wan: string, nets: seq<Net>, ips: seq<IP>)
    | DestIp(wan: string, nets: seq<Net>, ips: seq<IP>)
    | Port(wan: string, ports: seq<PortRange>)
    | Domain(wan: string, doms: seq<string>)

  /** What is known of one connection; an address is None when it does not parse. */
  datatype Request = Request(client: string, clientIp: Option<IP>, destIp: Option<IP>,
                             destHost: string, destPort: int, now: int)

  // ---- matching ------------------------------------------------------------

  predicate IpIn(ip: IP, nets: seq<Net>, ips: seq<IP>) {
    (exists n :: n in nets && Contains(n, ip)) || ip in ips
  }

  /** Patterns are compared as they are; only the host is lowercased. */
  predicate DomainMatch(host: string, doms: seq<string>) {
    var h := Lower(TrimSuffixDot(host));
    exists p :: p in doms && (h == TrimPrefixStar(p) || HasSuffix(h, "." + TrimPrefixStar(p)))
  }

  predicate Matches(r: Rule, q: Request) {
    match r
    case ClientIp(_, nets, ips) => q.clientIp.Some? && IpIn(q.clientIp.value, nets, ips)
    case DestIp(_, nets, ips) => q.destIp.Some? && IpIn(q.destIp.value, nets, ips)
    case Port(_, ports) => exists p :: p in ports && p.lo <= q.destPort <= p.hi
    case Domain(_, doms) => q.destHost != "" && DomainMatch(q.destHost, doms)
  }

  /** The backend name of the first rule that matches, "" when none does. */
  function PolicyWan(rules: seq<Rule>, q: Request): string {
    if rules == [] then ""
    else if Matches(rules[0], q) then rules[0].wan
    else PolicyWan(rules[1..], q)
  }

  lemma {:induction false} PolicyWanIsFirstMatch(rules: seq<Rule>, q: Request, i: nat)
    requires i <= |rules| && forall j :: 0 <= j < i ==> !Matches(rules[j], q)
    ensures i == |rules| ==> PolicyWan(rules, q) == ""
    ensures i < |rules| && Matches(rules[i], q) ==> PolicyWan(rules, q) == rules[i].wan
    decreases i
  {
    hide Matches;
    if i > 0 {
      assert forall j :: 0 <= j < i - 1 ==> rules[1..][j] == rules[j + 1];
      PolicyWanIsFirstMatch(rules[1..], q, i - 1);
    }
  }

  // ---- what a rule matches ---------------------------------------------------

  /** The address is one of these, or shares its first bits with one of these nets. */
  ghost predicate OneOf(ip: Option<IP>, nets: seq<Net>, ips: seq<IP>) {
    ip.Some? && (ip.value in ips || exists n :: n in nets && SharesPrefix(n.base, ip.value, n.prefix))
  }

  /** The name ends in the labels of one of these patterns. */
  ghost predicate EndsLikeOneOf(host: string, doms: seq<string>) {
    exists p :: p in doms && HasSuffix(Labels(Lower(TrimSuffixDot(host))), Labels(TrimPrefixStar(p)))
  }

  /** Exactly which connections a rule of each kind claims. */
  lemma {:induction false} RuleClaims(r: Rule, q: Request)
    ensures Matches(r, q) <==>
      match r
      case ClientIp(_, nets, ips) => OneOf(q.clientIp, nets, ips)
      case DestIp(_, nets, ips) => OneOf(q.destIp, nets, ips)
      case Port(_, ports) => exists i :: 0 <= i < |ports| && ports[i].lo <= q.destPort <= ports[i].hi
      case Domain(_, doms) => q.destHost != "" && EndsLikeOneOf(q.destHost, doms)
  {
    hide Contains, SharesPrefix, DomainMatch, Labels;
    forall n: Net, ip: IP {
      ContainsIsPrefix(n, ip);
    }
    if r.Domain? { DomainMatchByLabels(q.destHost, r.doms); }
  }

  /** A rule looks at one thing only: two connections that agree in it get the same verdict. */
  lemma {:induction false} RuleLooksAtOneThing(r: Rule, q: Request, q': Request)
    requires match r
      case ClientIp(_, _, _) => q'.clientIp == q.clientIp
      case DestIp(_, _, _) => q'.destIp == q.destIp
      case Port(_, _) => q'.destPort == q.destPort
      case Domain(_, _) => q'.destHost == q.destHost
    ensures Matches(r, q') <==> Matches(r, q)
  {
    hide OneOf, EndsLikeOneOf;
    RuleClaims(r, q);
    RuleClaims(r, q');
  }

  // ---- the same matching, said with labels ---------------------------------

  /** The domain rule accepts a host iff the labels of some pattern's base end the host's labels. */
  lemma {:induction false} DomainMatchByLabels(host: string, doms: seq<string>)
    ensures DomainMatch(host, doms) <==>
      exists p :: p in doms && HasSuffix(Labels(Lower(TrimSuffixDot(host))), Labels(TrimPrefixStar(p)))
  {
    forall p: string {
      SuffixIsLabelSuffix(Lower(TrimSuffixDot(host)), TrimPrefixStar(p));
    }
  }

  lemma OnePattern(host: string, p: string)
    ensures DomainMatch(host, [p]) <==>
      var h, base := Lower(TrimSuffixDot(host)), TrimPrefixStar(p);
      h == base || HasSuffix(h, "." + base)
  {
    assert p in [p];
  }

  /** A leading "*." of a pattern and a final "." of a name change nothing. */
  lemma {:induction false} StarAndDotAreFree(host: string, base: string)
    ensures !("*." <= base) ==> (DomainMatch(host, ["*." + base]) <==> DomainMatch(host, [base]))
    ensures !HasSuffix(host, ".") ==> (DomainMatch(host + ".", [base]) <==> DomainMatch(host, [base]))
  {
    hide Lower, HasSuffix, TrimSuffixDot, TrimPrefixStar, DomainMatch;
    OnePattern(host, "*." + base);
    OnePattern(host, base);
    OnePattern(host + ".", base);
    TrimsBack(host);
    TrimsBack(base);
  }

  /** The case of a name does not matter. */
  lemma {:induction false} CaseIsFree(host: string, other: string, doms: seq<string>)
    requires Lower(other) == Lower(host)
    ensures DomainMatch(other, doms) <==> DomainMatch(host, doms)
  {
    hide Lower, HasSuffix;
    LowerTrims(other);
    LowerTrims(host);
  }

  /** A small-lettered name is claimed by the pattern it is, and by no other one of as many letters. */
  lemma {:induction false} PlainNameIsItsPattern(host: string, base: string)
    requires Lower(host) == host && !HasSuffix(host, ".") && !("*." <= base) && |base| >= |host|
    ensures DomainMatch(host, [base]) <==> host == base
  {
    hide Lower, DomainMatch;
    OnePattern(host, base);
    TrimsBack(host);
    TrimsBack(base);
  }
}
