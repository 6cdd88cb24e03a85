/** The host gate that decides whether the messaging widget may run on the
    current deployment: local development hosts, the configured domains and
    every subdomain of a configured domain pass; everything else is refused. */
module Hostname {

  /** The domains the page's operator controls. */
  const ALLOWED_DOMAINS: seq<string> := ["sjun.me", "mjsung.com", "sjun-me-home.vercel.app"]

  /** `s.endsWith(suffix)`. */
  predicate EndsWith(s: string, suffix: string) {
    |suffix| <= |s| && s[|s| - |suffix|..] == suffix
  }

  /** The test applied to one configured domain: the host is the domain
      itself or ends with a dot followed by the domain. */
  predicate MatchesDomain(hostname: string, domain: string) {
    hostname == domain || EndsWith(hostname, "." + domain)
  }

  /** `domains.some(domain => MatchesDomain(hostname, domain))`. */
  function SomeDomainMatches(hostname: string, domains: seq<string>): (r: bool)
    ensures r <==> exists i :: 0 <= i < |domains| && MatchesDomain(hostname, domains[i])
  {
    if domains == [] then false
    else MatchesDomain(hostname, domains[0]) || SomeDomainMatches(hostname, domains[1..])
  }

  /** The two hosts a developer runs the page on locally. */
  predicate IsLocalHost(hostname: string) {
    hostname == "localhost" || hostname == "127.0.0.1"
  }

  /** A reference reading of the gate that does not go through the suffix
      test: a host passes when it is a local host, or when it is a configured
      domain or has a label boundary (a dot) right before a configured domain. */
  ghost predicate AllowedByLabels(hostname: string) {
    || IsLocalHost(hostname)
    || (exists d :: d in ALLOWED_DOMAINS && hostname == d)
    || (exists d, k :: d in ALLOWED_DOMAINS && 0 <= k < |hostname| && hostname[k] == '.' && hostname[k + 1..] == d)
  }

  /** `isAllowedHostname`: the empty host is refused, the local hosts pass,
      and otherwise some configured domain must match. It agrees with the
      reference reading on every string. */
  predicate IsAllowedHostname(hostname: string)
    ensures IsAllowedHostname(hostname) <==> AllowedByLabels(hostname)
  {
    if hostname == "" then false
    else if IsLocalHost(hostname) then true
    else DomainRuleIff(hostname); SomeDomainMatches(hostname, ALLOWED_DOMAINS)
  }

  /** Ending with "." + d is the same as having a dot right before a copy of
      d that runs to the end of the string. */
  lemma {:induction false} DotSuffixIff(s: string, d: string)
    ensures EndsWith(s, "." + d) <==> exists k :: 0 <= k < |s| && s[k] == '.' && s[k + 1..] == d
  {
    if EndsWith(s, "." + d) {
      var k := |s| - |d| - 1;
      assert s[k..] == "." + d;
      assert s[k] == ("." + d)[0] == '.';
      assert s[k + 1..] == s[k..][1..] == d;
    }
    if k :| 0 <= k < |s| && s[k] == '.' && s[k + 1..] == d {
      assert |d| == |s| - k - 1;
      assert s[k..] == [s[k]] + s[k + 1..];
      assert s[|s| - |"." + d|..] == "." + d;
    }
  }

  /** The domain rule agrees with the label-boundary reading on every host
      that is neither empty nor a local host. */
  lemma {:induction false} DomainRuleIff(hostname: string)
    requires hostname != "" && !IsLocalHost(hostname)
    ensures SomeDomainMatches(hostname, ALLOWED_DOMAINS) <==> AllowedByLabels(hostname)
  {
    forall d | d in ALLOWED_DOMAINS
      ensures MatchesDomain(hostname, d) <==>
        (hostname == d || exists k :: 0 <= k < |hostname| && hostname[k] == '.' && hostname[k + 1..] == d)
    {
      DotSuffixIff(hostname, d);
    }
    assert SomeDomainMatches(hostname, ALLOWED_DOMAINS) <==> exists d :: d in ALLOWED_DOMAINS && MatchesDomain(hostname, d) by {
      forall d | d in ALLOWED_DOMAINS ensures exists i :: 0 <= i < |ALLOWED_DOMAINS| && ALLOWED_DOMAINS[i] == d {
        var i :| 0 <= i < |ALLOWED_DOMAINS| && ALLOWED_DOMAINS[i] == d;
      }
    }
  }

  /** A host admitted through a domain rule ends with that domain. */
  lemma {:induction false} DomainMatchEndsWithDomain(hostname: string, domain: string)
    requires MatchesDomain(hostname, domain)
    ensures EndsWith(hostname, domain)
  {
    if hostname != domain {
      var n := |hostname|;
      assert hostname[n - |domain| - 1..] == "." + domain;
      assert hostname[n - |domain|..] == hostname[n - |domain| - 1..][1..];
    }
  }

  /** Putting anything in front of a string keeps its suffixes. */
  lemma {:induction false} EndsWithPrepend(p: string, s: string, suffix: string)
    requires EndsWith(s, suffix)
    ensures EndsWith(p + s, suffix)
  {
    var h := p + s;
    assert h[|h| - |suffix|..] == s[|s| - |suffix|..];
  }

  /** Prefixing a label keeps a domain match, for any list of domains. */
  lemma {:induction false} SubdomainMatches(sub: string, hostname: string, domains: seq<string>)
    requires SomeDomainMatches(hostname, domains)
    ensures SomeDomainMatches(sub + "." + hostname, domains)
  {
    var i :| 0 <= i < |domains| && MatchesDomain(hostname, domains[i]);
    var d := domains[i];
    if hostname == d {
      assert EndsWith("." + d, "." + d);
      EndsWithPrepend(sub, "." + d, "." + d);
      assert sub + "." + hostname == sub + ("." + d);
    } else {
      EndsWithPrepend(sub + ".", hostname, "." + d);
    }
    assert MatchesDomain(sub + "." + hostname, domains[i]);
  }

  /** Prefixing a label to a host admitted through a domain rule gives a host
      that is admitted too: every subdomain of a configured domain passes. */
  lemma {:induction false} SubdomainAllowed(sub: string, hostname: string)
    requires SomeDomainMatches(hostname, ALLOWED_DOMAINS)
    ensures IsAllowedHostname(sub + "." + hostname)
  {
    var h := sub + "." + hostname;
    SubdomainMatches(sub, hostname, ALLOWED_DOMAINS);
    var i :| 0 <= i < |ALLOWED_DOMAINS| && MatchesDomain(h, ALLOWED_DOMAINS[i]);
    NotLocalHost(h, ALLOWED_DOMAINS[i]);
  }

  /** No host that ends with a configured domain is a local host. */
  lemma {:induction false} NotLocalHost(h: string, d: string)
    requires d in ALLOWED_DOMAINS && MatchesDomain(h, d)
    ensures !IsLocalHost(h) && h != ""
  {
    DomainMatchEndsWithDomain(h, d);
    assert h[|h| - 1] == h[|h| - |d|..][|d| - 1] == d[|d| - 1];
    assert d[|d| - 1] in {'e', 'm', 'p'} by {
      assert d == ALLOWED_DOMAINS[0] || d == ALLOWED_DOMAINS[1] || d == ALLOWED_DOMAINS[2];
    }
    assert "localhost"[8] == 't' && "127.0.0.1"[8] == '1';
  }

  /** The empty host and the local hosts: the first is refused, the two local
      hosts always pass. */
  lemma LocalAndEmptyHosts()
    ensures !IsAllowedHostname("")
    ensures IsAllowedHostname("localhost") && IsAllowedHostname("127.0.0.1")
  {
  }

  /** A subdomain of a configured domain passes. */
  lemma SubdomainExample()
    ensures IsAllowedHostname("sjun.me") && IsAllowedHostname("a.sjun.me")
  {
    assert MatchesDomain("a.sjun.me", "sjun.me") by {
      assert "a.sjun.me"[1..] == ".sjun.me";
    }
  }

  /** A host that only shares a configured domain's trailing letters, without
      the dot boundary, is refused. */
  lemma NoLabelBoundaryExample()
    ensures !IsAllowedHostname("notsjun.me")
  {
    var h := "notsjun.me";
    assert !MatchesDomain(h, ALLOWED_DOMAINS[0]) by { assert h[2] == 't'; }
    assert !MatchesDomain(h, ALLOWED_DOMAINS[1]);
    assert !MatchesDomain(h, ALLOWED_DOMAINS[2]);
  }

  /** An unrelated host is refused. */
  lemma UnrelatedHostExample()
    ensures !IsAllowedHostname("evil.example.com")
  {
    var h := "evil.example.com";
    assert !MatchesDomain(h, ALLOWED_DOMAINS[0]) by { assert h[15] == 'm'; }
    assert !MatchesDomain(h, ALLOWED_DOMAINS[1]) by { assert h[5] == 'e'; }
    assert !MatchesDomain(h, ALLOWED_DOMAINS[2]);
  }

  /** A host that merely starts with a configured domain is refused: the rule
      looks at the end of the host only. */
  lemma PrefixOnlyExample()
    ensures !IsAllowedHostname("sjun.me.evil.com")
  {
    var h := "sjun.me.evil.com";
    assert !MatchesDomain(h, ALLOWED_DOMAINS[0]) by { assert h[15] == 'm'; }
    assert !MatchesDomain(h, ALLOWED_DOMAINS[1]) by { assert h[5] == 'm'; assert h[6] == 'e'; }
    assert !MatchesDomain(h, ALLOWED_DOMAINS[2]);
  }

  /** The local hosts are exact: a subdomain of one is refused. */
  lemma LocalHostIsExactExample()
    ensures !IsAllowedHostname("a.localhost")
  {
    var h := "a.localhost";
    assert !MatchesDomain(h, ALLOWED_DOMAINS[0]) by { assert h[10] == 't'; }
    assert !MatchesDomain(h, ALLOWED_DOMAINS[1]) by { assert h[10] == 't'; }
    assert !MatchesDomain(h, ALLOWED_DOMAINS[2]);
  }
}
