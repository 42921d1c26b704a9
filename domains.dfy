/**
 * Domain policy of the proxy: the hostname/pattern matcher `dnsDomainIs`,
 * the whitelist-then-blacklist policy `isHostAllowed` and the forward-or-403
 * decision of `domainFilterHandler`. The lists are parameters here; in the
 * program they come from the configuration.
 */
module Domains {
  import opened Text

  /**
   * `dnsDomainIs(hostname, domain)`: exact match, the root-domain form
   * (`.example.com` matches `example.com`) and the subdomain form (`.example.com`
   * matches every hostname ending in `.example.com`). No case folding.
   */
  predicate DnsDomainIs(hostname: string, domain: string) {
    || domain == hostname
    || (|domain| > 1 && HasPrefix(domain, ".") && domain[1..] == hostname)
    || (HasPrefix(domain, ".") && HasSuffix(hostname, domain))
  }

  /**
   * A leading-dot pattern `.d` matches the hostname `d` itself (unless `d` is
   * empty) and exactly the hostnames that end in the whole pattern, dot included.
   */
  lemma DotPatternMatches(hostname: string, d: string)
    ensures DnsDomainIs(hostname, "." + d) <==> (d != "" && hostname == d) || HasSuffix(hostname, "." + d)
  {
    var p := "." + d;
    assert HasPrefix(p, ".");
    assert p[1..] == d;
    if hostname == p {
      assert hostname[|hostname| - |p|..] == p;
    }
  }

  /** A pattern without a leading dot matches by equality only. */
  lemma PlainPatternMatchesExactly(hostname: string, domain: string)
    requires domain == [] || domain[0] != '.'
    ensures DnsDomainIs(hostname, domain) <==> hostname == domain
  {
    if domain != [] {
      assert domain[..1] == [domain[0]];
    }
  }

  /** Every subdomain of `d` matches the pattern `.d`, and so does `d` when it is not empty. */
  lemma SubdomainsMatch(sub: string, d: string)
    ensures DnsDomainIs(sub + "." + d, "." + d)
    ensures d != "" ==> DnsDomainIs(d, "." + d)
  {
    var h := sub + "." + d;
    assert h[|h| - |"." + d|..] == "." + d;
    DotPatternMatches(d, d);
  }

  /** Some pattern of `patterns` matches `hostname`: the reference the scans are checked against. */
  ghost predicate Matches(hostname: string, patterns: seq<string>) {
    exists p :: p in patterns && DnsDomainIs(hostname, p)
  }

  /** One read-only scan of `isHostAllowed`: stops at the first matching pattern. */
  function MatchesAny(hostname: string, patterns: seq<string>): (r: bool)
    ensures r <==> Matches(hostname, patterns)
  {
    if patterns == [] then false
    else if DnsDomainIs(hostname, patterns[0]) then true
    else
      var r := MatchesAny(hostname, patterns[1..]);
      assert forall p :: p in patterns ==> p == patterns[0] || p in patterns[1..];
      r
  }

  /** The three return points of `isHostAllowed`. */
  datatype HostDecision = Whitelisted | Blacklisted | DefaultAllowed

  /** Whitelist first, then blacklist, otherwise allowed by default. */
  function Classify(hostname: string, whitelist: seq<string>, blacklist: seq<string>): (c: HostDecision)
    ensures c == Whitelisted <==> Matches(hostname, whitelist)
    ensures c == Blacklisted <==> !Matches(hostname, whitelist) && Matches(hostname, blacklist)
    ensures c == DefaultAllowed <==> !Matches(hostname, whitelist) && !Matches(hostname, blacklist)
  {
    if MatchesAny(hostname, whitelist) then Whitelisted
    else if MatchesAny(hostname, blacklist) then Blacklisted
    else DefaultAllowed
  }

  /**
   * `isHostAllowed`: a whitelisted host is allowed whatever the blacklist
   * holds; a host is refused exactly when no whitelist pattern and some
   * blacklist pattern matches it.
   */
  function IsHostAllowed(hostname: string, whitelist: seq<string>, blacklist: seq<string>): (allowed: bool)
    ensures Matches(hostname, whitelist) ==> allowed
    ensures !allowed <==> !Matches(hostname, whitelist) && Matches(hostname, blacklist)
  {
    Classify(hostname, whitelist, blacklist) != Blacklisted
  }

  /** What `domainFilterHandler` does with a request. */
  datatype FilterAction = Forward | Forbid403

  /**
   * `domainFilterHandler`: forward to the next handler iff the request's host
   * is allowed, otherwise answer 403. The program evaluates `isHostAllowed`
   * twice; both calls read the same lists, so its last branch is dead and
   * the decision is this one.
   */
  function DomainFilter(host: string, whitelist: seq<string>, blacklist: seq<string>): (a: FilterAction)
    ensures a == Forward <==> IsHostAllowed(host, whitelist, blacklist)
    ensures a == Forbid403 <==> !Matches(host, whitelist) && Matches(host, blacklist)
  {
    if IsHostAllowed(host, whitelist, blacklist) then Forward
    else Forbid403
  }
}
