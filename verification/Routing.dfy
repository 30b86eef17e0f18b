/**
 * Routing rules and their three renderings (src/sublink.rs). Rules are data here; the text of the
 * sing-box, Clash and Surge formats is not modelled.
 */
module Routing {
  import opened Seqs

  datatype RuleAction = Proxy | Direct | Reject

  datatype RulePreset = Minimal | Balanced | Comprehensive | China

  datatype RuleSpec = RuleSpec(name: string, sites: seq<string>, ips: seq<string>, action: RuleAction)

  datatype DomainRule = Exact(domain: string) | Suffix(domain: string)

  datatype CustomRules = CustomRules(whitelist: seq<DomainRule>, blacklist: seq<DomainRule>)

  const COMMON_RULES: seq<RuleSpec> := [
    RuleSpec("Ad Block", ["category-ads-all"], [], Reject),
    RuleSpec("AI Services", ["category-ai-!cn"], [], Proxy),
    RuleSpec("Bilibili", ["bilibili"], [], Proxy),
    RuleSpec("Youtube", ["youtube"], [], Proxy),
    RuleSpec("Google", ["google"], ["google"], Proxy)
  ]

  const REGION_RULES: seq<RuleSpec> := [
    RuleSpec("Private", [], ["private"], Direct),
    RuleSpec("Location:CN", ["geolocation-cn", "cn"], ["cn"], Direct),
    RuleSpec("Telegram", [], ["telegram"], Proxy),
    RuleSpec("Github", ["github", "gitlab"], [], Proxy)
  ]

  const MEDIA_RULES: seq<RuleSpec> := [
    RuleSpec("Microsoft", ["microsoft"], [], Proxy),
    RuleSpec("Apple", ["apple"], [], Proxy),
    RuleSpec("Social Media", ["facebook", "instagram", "twitter", "tiktok", "linkedin"], [], Proxy),
    RuleSpec("Streaming", ["netflix", "hulu", "disney", "hbo", "amazon", "bahamut"], [], Proxy)
  ]

  const SERVICE_RULES: seq<RuleSpec> := [
    RuleSpec("Gaming", ["steam", "epicgames", "ea", "ubisoft", "blizzard"], [], Proxy),
    RuleSpec("Education", ["coursera", "edx", "udemy", "khanacademy", "category-scholar-!cn"], [], Proxy),
    RuleSpec("Financial", ["paypal", "visa", "mastercard", "stripe", "wise"], [], Proxy),
    RuleSpec("Cloud Services", ["aws", "azure", "digitalocean", "heroku", "dropbox"], [], Proxy),
    RuleSpec("Non-China", ["geolocation-!cn"], [], Proxy)
  ]

  /** The table of the presets other than China, in its order. */
  const RULES: seq<RuleSpec> := COMMON_RULES + REGION_RULES + MEDIA_RULES + SERVICE_RULES

  const CHINA_DIRECT_RULES: seq<RuleSpec> := [
    RuleSpec("Ad Block", ["category-ads-all"], [], Reject),
    RuleSpec("Private", ["private"], ["private"], Direct),
    RuleSpec("China Services", ["apple-cn", "microsoft@cn", "steam@cn", "category-games@cn", "bilibili"], [], Direct)
  ]

  const CHINA_PROXY_RULES: seq<RuleSpec> := [
    RuleSpec("AI Services", ["category-ai-!cn"], [], Proxy),
    RuleSpec("Youtube", ["youtube"], [], Proxy),
    RuleSpec("Google", ["google"], ["google"], Proxy),
    RuleSpec("Telegram", [], ["telegram"], Proxy),
    RuleSpec("Github", ["github", "gitlab"], [], Proxy)
  ]

  const CHINA_REGION_RULES: seq<RuleSpec> := [
    RuleSpec("Location:CN", ["geolocation-cn", "cn"], ["cn"], Direct),
    RuleSpec("Non-China", ["geolocation-!cn"], [], Proxy)
  ]

  const CHINA_RULES: seq<RuleSpec> := CHINA_DIRECT_RULES + CHINA_PROXY_RULES + CHINA_REGION_RULES

  // ----- what the rules mean -----

  /**
   * One destination: which domain rules match it, which site lists contain it, which address lists
   * contain the address it was given by (none for a name), and which contain the address a DNS
   * lookup of its name would give.
   */
  datatype Dest = Dest(domain: DomainRule -> bool, site: string -> bool, ip: string -> bool, lookup: string -> bool)

  predicate AnyDomain(rules: seq<DomainRule>, d: Dest) {
    exists i :: 0 <= i < |rules| && d.domain(rules[i])
  }

  predicate InSpec(spec: RuleSpec, d: Dest) {
    || (exists i :: 0 <= i < |spec.sites| && d.site(spec.sites[i]))
    || (exists i :: 0 <= i < |spec.ips| && d.ip(spec.ips[i]))
  }

  function FirstSpec(specs: seq<RuleSpec>, d: Dest): RuleAction {
    if specs == [] then Proxy
    else if InSpec(specs[0], d) then specs[0].action
    else FirstSpec(specs[1..], d)
  }

  /** The meaning every rendering has to preserve: blacklist, whitelist, first matching preset rule, proxy. */
  function Decide(specs: seq<RuleSpec>, custom: CustomRules, d: Dest): RuleAction {
    if AnyDomain(custom.blacklist, d) then Reject
    else if AnyDomain(custom.whitelist, d) then Direct
    else FirstSpec(specs, d)
  }

  // ----- rule sets and their tags -----

  datatype Source = Site(name: string) | Ip(name: string)

  /** A downloaded list and the tag it is referred to by. */
  datatype RuleSet = RuleSet(tag: string, source: Source)

  function TagOf(source: Source): string {
    match source
    case Site(name) => name
    case Ip(name) => name + "-ip"
  }

  /** The lists of a preset rule, sites before addresses. */
  function SourcesOf(spec: RuleSpec): (r: seq<Source>)
    ensures |r| == |spec.sites| + |spec.ips|
    ensures forall i :: 0 <= i < |r| ==> r[i] == if i < |spec.sites| then Site(spec.sites[i]) else Ip(spec.ips[i - |spec.sites|])
  {
    seq(|spec.sites| + |spec.ips|, i requires 0 <= i < |spec.sites| + |spec.ips| =>
      if i < |spec.sites| then Site(spec.sites[i]) else Ip(spec.ips[i - |spec.sites|]))
  }

  predicate Contains(source: Source, d: Dest) {
    match source
    case Site(name) => d.site(name)
    case Ip(name) => d.ip(name)
  }

  function SetsOf(specs: seq<RuleSpec>): seq<RuleSet> {
    if specs == [] then [] else SetsOfOne(SourcesOf(specs[0])) + SetsOf(specs[1..])
  }

  function SetsOfOne(sources: seq<Source>): (r: seq<RuleSet>)
    ensures |r| == |sources| && forall i :: 0 <= i < |r| ==> r[i] == RuleSet(TagOf(sources[i]), sources[i])
  {
    seq(|sources|, i requires 0 <= i < |sources| => RuleSet(TagOf(sources[i]), sources[i]))
  }

  /** Looking a tag up among the declared rule sets: the first declaration counts. */
  predicate TagContains(sets: seq<RuleSet>, tag: string, d: Dest) {
    if sets == [] then false
    else if sets[0].tag == tag then Contains(sets[0].source, d)
    else TagContains(sets[1..], tag, d)
  }

  /** One tag never stands for two different lists. */
  ghost predicate TagsAgree(sets: seq<RuleSet>) {
    forall i, j :: 0 <= i < |sets| && 0 <= j < |sets| && sets[i].tag == sets[j].tag ==> sets[i].source == sets[j].source
  }

  lemma {:induction false} DeclaredTagResolves(sets: seq<RuleSet>, i: nat, d: Dest)
    requires i < |sets| && TagsAgree(sets)
    ensures TagContains(sets, sets[i].tag, d) == Contains(sets[i].source, d)
  {
    if sets[0].tag != sets[i].tag {
      var rest := sets[1..];
      assert rest[i - 1] == sets[i];
      forall a, b | 0 <= a < |rest| && 0 <= b < |rest| && rest[a].tag == rest[b].tag
        ensures rest[a].source == rest[b].source
      {
        assert rest[a] == sets[a + 1] && rest[b] == sets[b + 1];
      }
      DeclaredTagResolves(rest, i - 1, d);
    }
  }

  // ----- sing-box: one grouped rule per list or preset rule -----

  datatype RouteRule =
    | DomainRoute(exact: seq<string>, suffix: seq<string>, verdict: RuleAction)
    | SetRoute(tags: seq<string>, verdict: RuleAction)

  datatype SingBox = SingBox(routes: seq<RouteRule>, sets: seq<RuleSet>)

  predicate RouteMatches(r: RouteRule, sets: seq<RuleSet>, d: Dest) {
    match r
    case DomainRoute(exact, suffix, _) =>
      || (exists i :: 0 <= i < |exact| && d.domain(Exact(exact[i])))
      || (exists i :: 0 <= i < |suffix| && d.domain(Suffix(suffix[i])))
    case SetRoute(tags, _) => exists i :: 0 <= i < |tags| && TagContains(sets, tags[i], d)
  }

  /** First match, with PROXY as the final outbound; the rendered rules ask for no lookup. */
  function EvalRoutes(routes: seq<RouteRule>, sets: seq<RuleSet>, d: Dest): RuleAction {
    if routes == [] then Proxy
    else if RouteMatches(routes[0], sets, d) then routes[0].verdict
    else EvalRoutes(routes[1..], sets, d)
  }

  function Exacts(rules: seq<DomainRule>): seq<string> {
    if rules == [] then [] else
    Exacts(rules[..|rules| - 1]) + if rules[|rules| - 1].Exact? then [rules[|rules| - 1].domain] else []
  }

  function Suffixes(rules: seq<DomainRule>): seq<string> {
    if rules == [] then [] else
    Suffixes(rules[..|rules| - 1]) + if rules[|rules| - 1].Suffix? then [rules[|rules| - 1].domain] else []
  }

  /** `push_singbox_custom_rule`: no rule at all for an empty list. */
  function CustomRoute(rules: seq<DomainRule>, verdict: RuleAction): seq<RouteRule> {
    if rules == [] then [] else [DomainRoute(Exacts(rules), Suffixes(rules), verdict)]
  }

  function TagsOf(spec: RuleSpec): (r: seq<string>)
    ensures |r| == |SourcesOf(spec)| && forall i :: 0 <= i < |r| ==> r[i] == TagOf(SourcesOf(spec)[i])
  {
    seq(|SourcesOf(spec)|, i requires 0 <= i < |SourcesOf(spec)| => TagOf(SourcesOf(spec)[i]))
  }

  function SetRoutes(specs: seq<RuleSpec>): seq<RouteRule> {
    if specs == [] then [] else [SetRoute(TagsOf(specs[0]), specs[0].action)] + SetRoutes(specs[1..])
  }

  function SingBoxOf(specs: seq<RuleSpec>, custom: CustomRules): SingBox {
    SingBox(CustomRoute(custom.blacklist, Reject) + CustomRoute(custom.whitelist, Direct) + SetRoutes(specs), SetsOf(specs))
  }

  function EvalSingBox(s: SingBox, d: Dest): RuleAction { EvalRoutes(s.routes, s.sets, d) }

  // ----- Clash and Surge: one line per domain and per list -----

  /**
   * Clash refers to a declared provider by tag, Surge to the list by its address. A line without
   * `no-resolve` makes the client look a name up and try its address as well.
   */
  datatype Line =
    | DomainLine(rule: DomainRule, policy: RuleAction)
    | TagLine(tag: string, policy: RuleAction, noResolve: bool)
    | UrlLine(source: Source, policy: RuleAction, noResolve: bool)

  datatype Clash = Clash(lines: seq<Line>, providers: seq<RuleSet>)

  /** The destination as a line sees it, after the lookup it asks for. */
  function Seen(d: Dest, noResolve: bool): Dest {
    if noResolve then d else d.(ip := name => d.ip(name) || d.lookup(name))
  }

  predicate LineMatches(l: Line, sets: seq<RuleSet>, d: Dest) {
    match l
    case DomainLine(rule, _) => d.domain(rule)
    case TagLine(tag, _, noResolve) => TagContains(sets, tag, Seen(d, noResolve))
    case UrlLine(source, _, noResolve) => Contains(source, Seen(d, noResolve))
  }

  /** First match, with MATCH,PROXY or FINAL,PROXY at the end. */
  function EvalLines(lines: seq<Line>, sets: seq<RuleSet>, d: Dest): RuleAction {
    if lines == [] then Proxy
    else if LineMatches(lines[0], sets, d) then lines[0].policy
    else EvalLines(lines[1..], sets, d)
  }

  function DomainLines(rules: seq<DomainRule>, policy: RuleAction): (r: seq<Line>)
    ensures |r| == |rules| && forall i :: 0 <= i < |r| ==> r[i] == DomainLine(rules[i], policy)
  {
    seq(|rules|, i requires 0 <= i < |rules| => DomainLine(rules[i], policy))
  }

  /** The lines of one preset rule, by tag or by address. */
  function SpecLines(spec: RuleSpec, byTag: bool): (r: seq<Line>)
    ensures |r| == |SourcesOf(spec)|
    ensures forall i :: 0 <= i < |r| ==>
              r[i] == var source := SourcesOf(spec)[i];
                      if byTag then TagLine(TagOf(source), spec.action, source.Ip?) else UrlLine(source, spec.action, source.Ip?)
  {
    seq(|SourcesOf(spec)|, i requires 0 <= i < |SourcesOf(spec)| =>
      var source := SourcesOf(spec)[i];
      if byTag then TagLine(TagOf(source), spec.action, source.Ip?) else UrlLine(source, spec.action, source.Ip?))
  }

  function AllSpecLines(specs: seq<RuleSpec>, byTag: bool): seq<Line> {
    if specs == [] then [] else SpecLines(specs[0], byTag) + AllSpecLines(specs[1..], byTag)
  }

  function LinesOf(specs: seq<RuleSpec>, custom: CustomRules, byTag: bool): seq<Line> {
    DomainLines(custom.blacklist, Reject) + DomainLines(custom.whitelist, Direct) + AllSpecLines(specs, byTag)
  }

  // ----- evaluation respects grouping -----

  predicate AnyLine(lines: seq<Line>, sets: seq<RuleSet>, d: Dest) {
    exists i :: 0 <= i < |lines| && LineMatches(lines[i], sets, d)
  }

  /** A block of lines with one policy acts like one grouped rule. */
  lemma {:induction false} BlockOfLines(a: seq<Line>, b: seq<Line>, policy: RuleAction, sets: seq<RuleSet>, d: Dest)
    requires forall i :: 0 <= i < |a| ==> a[i].policy == policy
    ensures EvalLines(a + b, sets, d) == if AnyLine(a, sets, d) then policy else EvalLines(b, sets, d)
  {
    if a == [] {
      assert a + b == b;
    } else {
      assert (a + b)[1..] == a[1..] + b;
      BlockOfLines(a[1..], b, policy, sets, d);
      assert forall i :: 0 <= i < |a[1..]| ==> a[1..][i] == a[i + 1];
      if AnyLine(a, sets, d) && !LineMatches(a[0], sets, d) {
        var i :| 0 <= i < |a| && LineMatches(a[i], sets, d);
        assert a[1..][i - 1] == a[i];
      }
    }
  }

  lemma DomainLinesMatch(rules: seq<DomainRule>, policy: RuleAction, sets: seq<RuleSet>, d: Dest)
    ensures AnyLine(DomainLines(rules, policy), sets, d) == AnyDomain(rules, d)
  {
    var lines := DomainLines(rules, policy);
    if AnyDomain(rules, d) {
      var i :| 0 <= i < |rules| && d.domain(rules[i]);
      assert LineMatches(lines[i], sets, d);
    }
  }

  lemma {:induction false} ExactsComplete(rules: seq<DomainRule>, x: string)
    ensures x in Exacts(rules) <==> Exact(x) in rules
    ensures x in Suffixes(rules) <==> Suffix(x) in rules
  {
    if rules != [] {
      var n := |rules| - 1;
      ExactsComplete(rules[..n], x);
      assert rules == rules[..n] + [rules[n]];
    }
  }

  /** Splitting a list into exact and suffix fields loses and adds nothing. */
  lemma CustomRouteMatches(rules: seq<DomainRule>, verdict: RuleAction, sets: seq<RuleSet>, d: Dest)
    ensures RouteMatches(DomainRoute(Exacts(rules), Suffixes(rules), verdict), sets, d) == AnyDomain(rules, d)
  {
    var e, s := Exacts(rules), Suffixes(rules);
    if AnyDomain(rules, d) {
      var i :| 0 <= i < |rules| && d.domain(rules[i]);
      assert rules[i] in rules;
      ExactsComplete(rules, rules[i].domain);
      if rules[i].Exact? {
        var k :| 0 <= k < |e| && e[k] == rules[i].domain;
        assert d.domain(Exact(e[k]));
      } else {
        var k :| 0 <= k < |s| && s[k] == rules[i].domain;
        assert d.domain(Suffix(s[k]));
      }
    }
    forall k | 0 <= k < |e| && d.domain(Exact(e[k]))
      ensures AnyDomain(rules, d)
    {
      ExactsComplete(rules, e[k]);
      var i :| 0 <= i < |rules| && rules[i] == Exact(e[k]);
    }
    forall k | 0 <= k < |s| && d.domain(Suffix(s[k]))
      ensures AnyDomain(rules, d)
    {
      ExactsComplete(rules, s[k]);
      var i :| 0 <= i < |rules| && rules[i] == Suffix(s[k]);
    }
  }

  /** Some list of the preset rule contains the destination. */
  predicate AnySource(sources: seq<Source>, d: Dest) {
    exists i :: 0 <= i < |sources| && Contains(sources[i], d)
  }

  lemma SourcesMatch(spec: RuleSpec, d: Dest)
    ensures AnySource(SourcesOf(spec), d) == InSpec(spec, d)
  {
    var sources := SourcesOf(spec);
    if InSpec(spec, d) {
      if i :| 0 <= i < |spec.sites| && d.site(spec.sites[i]) {
        assert Contains(sources[i], d);
      } else {
        var i :| 0 <= i < |spec.ips| && d.ip(spec.ips[i]);
        assert sources[|spec.sites| + i] == Ip(spec.ips[i]);
        assert Contains(sources[|spec.sites| + i], d);
      }
    }
    if AnySource(sources, d) {
      var i :| 0 <= i < |sources| && Contains(sources[i], d);
      if i < |spec.sites| {
        assert d.site(spec.sites[i]);
      } else {
        assert d.ip(spec.ips[i - |spec.sites|]);
      }
    }
  }

  /** Every list of the rule is declared among the sets. */
  ghost predicate Declares(sets: seq<RuleSet>, spec: RuleSpec) {
    forall i :: 0 <= i < |SourcesOf(spec)| ==> RuleSet(TagOf(SourcesOf(spec)[i]), SourcesOf(spec)[i]) in sets
  }

  lemma {:induction false} SetsDeclareAll(specs: seq<RuleSpec>, k: nat)
    requires k < |specs|
    ensures Declares(SetsOf(specs), specs[k])
  {
    if k > 0 {
      SetsDeclareAll(specs[1..], k - 1);
    } else {
      var one := SetsOfOne(SourcesOf(specs[0]));
      forall i | 0 <= i < |one|
        ensures one[i] in SetsOf(specs)
      {
        assert SetsOf(specs)[i] == one[i];
      }
    }
  }

  lemma TagResolves(sets: seq<RuleSet>, source: Source, d: Dest)
    requires TagsAgree(sets) && RuleSet(TagOf(source), source) in sets
    ensures TagContains(sets, TagOf(source), d) == Contains(source, d)
  {
    var i :| 0 <= i < |sets| && sets[i] == RuleSet(TagOf(source), source);
    DeclaredTagResolves(sets, i, d);
  }

  lemma SetRouteMatches(spec: RuleSpec, sets: seq<RuleSet>, d: Dest)
    requires TagsAgree(sets) && Declares(sets, spec)
    ensures RouteMatches(SetRoute(TagsOf(spec), spec.action), sets, d) == InSpec(spec, d)
  {
    SourcesMatch(spec, d);
    var sources, tags := SourcesOf(spec), TagsOf(spec);
    forall i | 0 <= i < |sources|
      ensures TagContains(sets, tags[i], d) == Contains(sources[i], d)
    {
      TagResolves(sets, sources[i], d);
    }
  }

  lemma SpecLinesMatch(spec: RuleSpec, byTag: bool, sets: seq<RuleSet>, d: Dest)
    requires byTag ==> TagsAgree(sets) && Declares(sets, spec)
    ensures AnyLine(SpecLines(spec, byTag), sets, d) == InSpec(spec, d)
  {
    SourcesMatch(spec, d);
    var sources, lines := SourcesOf(spec), SpecLines(spec, byTag);
    forall i | 0 <= i < |sources|
      ensures LineMatches(lines[i], sets, d) == Contains(sources[i], d)
    {
      if byTag { TagResolves(sets, sources[i], Seen(d, sources[i].Ip?)); }
    }
  }

  lemma {:induction false} SetRoutesDecide(specs: seq<RuleSpec>, sets: seq<RuleSet>, d: Dest)
    requires TagsAgree(sets) && forall k :: 0 <= k < |specs| ==> Declares(sets, specs[k])
    ensures EvalRoutes(SetRoutes(specs), sets, d) == FirstSpec(specs, d)
  {
    if specs != [] {
      SetRouteMatches(specs[0], sets, d);
      SetRoutesDecide(specs[1..], sets, d);
      assert SetRoutes(specs)[1..] == SetRoutes(specs[1..]);
    }
  }

  lemma {:induction false} SpecLinesDecide(specs: seq<RuleSpec>, byTag: bool, sets: seq<RuleSet>, d: Dest)
    requires byTag ==> TagsAgree(sets) && forall k :: 0 <= k < |specs| ==> Declares(sets, specs[k])
    ensures EvalLines(AllSpecLines(specs, byTag), sets, d) == FirstSpec(specs, d)
  {
    if specs != [] {
      SpecLinesMatch(specs[0], byTag, sets, d);
      SpecLinesDecide(specs[1..], byTag, sets, d);
      BlockOfLines(SpecLines(specs[0], byTag), AllSpecLines(specs[1..], byTag), specs[0].action, sets, d);
    }
  }

  lemma {:induction false} CustomRouteStep(rules: seq<DomainRule>, verdict: RuleAction, rest: seq<RouteRule>, sets: seq<RuleSet>, d: Dest)
    ensures EvalRoutes(CustomRoute(rules, verdict) + rest, sets, d)
         == if AnyDomain(rules, d) then verdict else EvalRoutes(rest, sets, d)
  {
    var route := CustomRoute(rules, verdict);
    if rules == [] {
      assert route + rest == rest;
    } else {
      CustomRouteMatches(rules, verdict, sets, d);
      assert (route + rest)[1..] == rest;
    }
  }

  lemma {:induction false} DomainLinesStep(rules: seq<DomainRule>, verdict: RuleAction, rest: seq<Line>, sets: seq<RuleSet>, d: Dest)
    ensures EvalLines(DomainLines(rules, verdict) + rest, sets, d)
         == if AnyDomain(rules, d) then verdict else EvalLines(rest, sets, d)
  {
    DomainLinesMatch(rules, verdict, sets, d);
    BlockOfLines(DomainLines(rules, verdict), rest, verdict, sets, d);
  }

  /** The custom rules come before any list of grouped rules. */
  lemma {:induction false} CustomRoutesFirst(custom: CustomRules, rest: seq<RouteRule>, sets: seq<RuleSet>, d: Dest)
    ensures EvalRoutes(CustomRoute(custom.blacklist, Reject) + CustomRoute(custom.whitelist, Direct) + rest, sets, d)
         == if AnyDomain(custom.blacklist, d) then Reject
            else if AnyDomain(custom.whitelist, d) then Direct
            else EvalRoutes(rest, sets, d)
  {
    var black, white := CustomRoute(custom.blacklist, Reject), CustomRoute(custom.whitelist, Direct);
    CustomRouteStep(custom.whitelist, Direct, rest, sets, d);
    CustomRouteStep(custom.blacklist, Reject, white + rest, sets, d);
    assert black + (white + rest) == black + white + rest;
  }

  /** The custom rules come before any list of lines. */
  lemma {:induction false} CustomLinesFirst(custom: CustomRules, rest: seq<Line>, sets: seq<RuleSet>, d: Dest)
    ensures EvalLines(DomainLines(custom.blacklist, Reject) + DomainLines(custom.whitelist, Direct) + rest, sets, d)
         == if AnyDomain(custom.blacklist, d) then Reject
            else if AnyDomain(custom.whitelist, d) then Direct
            else EvalLines(rest, sets, d)
  {
    var black, white := DomainLines(custom.blacklist, Reject), DomainLines(custom.whitelist, Direct);
    DomainLinesStep(custom.whitelist, Direct, rest, sets, d);
    DomainLinesStep(custom.blacklist, Reject, white + rest, sets, d);
    assert black + (white + rest) == black + white + rest;
  }

  /** The grouped sing-box rules decide every destination as the rules mean. */
  lemma {:induction false} SingBoxDecides(specs: seq<RuleSpec>, custom: CustomRules, d: Dest)
    requires TagsAgree(SetsOf(specs))
    ensures EvalSingBox(SingBoxOf(specs, custom), d) == Decide(specs, custom, d)
  {
    var sets := SetsOf(specs);
    forall k | 0 <= k < |specs| ensures Declares(sets, specs[k]) { SetsDeclareAll(specs, k); }
    SetRoutesDecide(specs, sets, d);
    CustomRoutesFirst(custom, SetRoutes(specs), sets, d);
  }

  /** So do the flat lines, by tag with agreeing tags (Clash) or by address (Surge). */
  lemma {:induction false} LinesDecide(specs: seq<RuleSpec>, custom: CustomRules, byTag: bool, d: Dest)
    requires byTag ==> TagsAgree(SetsOf(specs))
    ensures EvalLines(LinesOf(specs, custom, byTag), SetsOf(specs), d) == Decide(specs, custom, d)
  {
    var sets := SetsOf(specs);
    forall k | 0 <= k < |specs| ensures Declares(sets, specs[k]) { SetsDeclareAll(specs, k); }
    SpecLinesDecide(specs, byTag, sets, d);
    CustomLinesFirst(custom, AllSpecLines(specs, byTag), sets, d);
  }

  /** All three renderings decide every destination alike, and as the rules mean. */
  lemma {:induction false} RenderingPreservesMeaning(specs: seq<RuleSpec>, custom: CustomRules, d: Dest)
    requires TagsAgree(SetsOf(specs))
    ensures EvalSingBox(SingBoxOf(specs, custom), d) == Decide(specs, custom, d)
    ensures EvalLines(LinesOf(specs, custom, true), SetsOf(specs), d) == Decide(specs, custom, d)
    ensures EvalLines(LinesOf(specs, custom, false), SetsOf(specs), d) == Decide(specs, custom, d)
  {
    SingBoxDecides(specs, custom, d);
    LinesDecide(specs, custom, true, d);
    LinesDecide(specs, custom, false, d);
  }

  // ----- presets -----

  predicate InMinimal(name: string) { name == "Location:CN" || name == "Private" || name == "Non-China" }

  predicate InBalanced(name: string) {
    || InMinimal(name) || name == "Github" || name == "Google" || name == "Youtube" || name == "AI Services"
    || name == "Telegram"
  }

  predicate Included(preset: Option<RulePreset>, adBlock: bool, name: string) {
    || (adBlock && name == "Ad Block")
    || match preset
       case None => false
       case Some(Minimal) => InMinimal(name)
       case Some(Balanced) => InBalanced(name)
       case Some(Comprehensive) => true
       case Some(China) => name != "Ad Block"
  }

  function Keep(specs: seq<RuleSpec>, preset: Option<RulePreset>, adBlock: bool): seq<RuleSpec> {
    if specs == [] then [] else
    var n := |specs| - 1;
    Keep(specs[..n], preset, adBlock) + if Included(preset, adBlock, specs[n].name) then [specs[n]] else []
  }

  function TableFor(preset: Option<RulePreset>): seq<RuleSpec> {
    if preset == Some(China) then CHINA_RULES else RULES
  }

  /** `selected_rule_specs`. */
  method SelectedRuleSpecs(preset: Option<RulePreset>, adBlock: bool) returns (selected: seq<RuleSpec>)
    ensures selected == Keep(TableFor(preset), preset, adBlock)
  {
    selected := SelectFrom(TableFor(preset), preset, adBlock);
  }

  method SelectFrom(table: seq<RuleSpec>, preset: Option<RulePreset>, adBlock: bool) returns (selected: seq<RuleSpec>)
    ensures selected == Keep(table, preset, adBlock)
  {
    selected := [];
    for i := 0 to |table|
      invariant selected == Keep(table[..i], preset, adBlock)
    {
      assert table[..i + 1][..i] == table[..i];
      if Included(preset, adBlock, table[i].name) {
        selected := selected + [table[i]];
      }
    }
    assert table[..|table|] == table;
  }

  lemma {:induction false} KeptFromTable(specs: seq<RuleSpec>, preset: Option<RulePreset>, adBlock: bool)
    ensures forall x :: x in Keep(specs, preset, adBlock) <==> x in specs && Included(preset, adBlock, x.name)
  {
    if specs != [] {
      var n := |specs| - 1;
      KeptFromTable(specs[..n], preset, adBlock);
      assert specs == specs[..n] + [specs[n]];
    }
  }

  /** A site name that cannot be mistaken for the tag of an address list. */
  predicate PlainSite(site: string) { site != "" && site[|site| - 1] != 'p' }

  ghost predicate PlainSites(specs: seq<RuleSpec>) {
    forall k, i :: 0 <= k < |specs| && 0 <= i < |specs[k].sites| ==> PlainSite(specs[k].sites[i])
  }

  lemma {:induction false} SetsAreTagged(specs: seq<RuleSpec>)
    requires PlainSites(specs)
    ensures forall i :: 0 <= i < |SetsOf(specs)| ==>
              var s := SetsOf(specs)[i]; s.tag == TagOf(s.source) && (s.source.Site? ==> PlainSite(s.source.name))
  {
    if specs != [] {
      SetsAreTagged(specs[1..]);
    }
  }

  lemma SameTagSameSource(a: Source, b: Source)
    requires TagOf(a) == TagOf(b)
    requires (a.Site? ==> PlainSite(a.name)) && (b.Site? ==> PlainSite(b.name))
    ensures a == b
  {
    assert a.Ip? ==> TagOf(a)[|TagOf(a)| - 1] == 'p';
    assert b.Ip? ==> TagOf(b)[|TagOf(b)| - 1] == 'p';
    if a.Ip? {
      assert a.name == TagOf(a)[..|TagOf(a)| - 3];
      assert b.name == TagOf(b)[..|TagOf(b)| - 3];
    }
  }

  lemma PlainTagsAgree(specs: seq<RuleSpec>)
    requires PlainSites(specs)
    ensures TagsAgree(SetsOf(specs))
  {
    SetsAreTagged(specs);
    var sets := SetsOf(specs);
    forall i, j | 0 <= i < |sets| && 0 <= j < |sets| && sets[i].tag == sets[j].tag
      ensures sets[i].source == sets[j].source
    {
      SameTagSameSource(sets[i].source, sets[j].source);
    }
  }

  lemma PlainSitesAppend(a: seq<RuleSpec>, b: seq<RuleSpec>)
    requires PlainSites(a) && PlainSites(b)
    ensures PlainSites(a + b)
  {
  }

  lemma CommonSitesArePlain()
    ensures PlainSites(COMMON_RULES)
  {
  }

  lemma RegionSitesArePlain()
    ensures PlainSites(REGION_RULES)
  {
  }

  lemma MediaSitesArePlain()
    ensures PlainSites(MEDIA_RULES)
  {
  }

  lemma ServiceSitesArePlain()
    ensures PlainSites(SERVICE_RULES)
  {
  }

  lemma BuiltInSitesArePlain()
    ensures PlainSites(RULES)
  {
    CommonSitesArePlain();
    RegionSitesArePlain();
    MediaSitesArePlain();
    ServiceSitesArePlain();
    PlainSitesAppend(COMMON_RULES, REGION_RULES);
    PlainSitesAppend(COMMON_RULES + REGION_RULES, MEDIA_RULES);
    PlainSitesAppend(COMMON_RULES + REGION_RULES + MEDIA_RULES, SERVICE_RULES);
  }

  lemma ChinaDirectSitesArePlain()
    ensures PlainSites(CHINA_DIRECT_RULES)
  {
  }

  lemma ChinaOtherSitesArePlain()
    ensures PlainSites(CHINA_PROXY_RULES) && PlainSites(CHINA_REGION_RULES)
  {
  }

  lemma ChinaSitesArePlain()
    ensures PlainSites(CHINA_RULES)
  {
    ChinaDirectSitesArePlain();
    ChinaOtherSitesArePlain();
    PlainSitesAppend(CHINA_DIRECT_RULES, CHINA_PROXY_RULES);
    PlainSitesAppend(CHINA_DIRECT_RULES + CHINA_PROXY_RULES, CHINA_REGION_RULES);
  }

  /** For every preset the three renderings agree: no tag of the built-in tables names two lists. */
  lemma {:induction false} PresetsRenderAlike(preset: Option<RulePreset>, adBlock: bool, custom: CustomRules, d: Dest)
    ensures var specs := Keep(TableFor(preset), preset, adBlock);
            && EvalSingBox(SingBoxOf(specs, custom), d) == Decide(specs, custom, d)
            && EvalLines(LinesOf(specs, custom, true), SetsOf(specs), d) == Decide(specs, custom, d)
            && EvalLines(LinesOf(specs, custom, false), SetsOf(specs), d) == Decide(specs, custom, d)
  {
    var table := TableFor(preset);
    var specs := Keep(table, preset, adBlock);
    BuiltInSitesArePlain();
    ChinaSitesArePlain();
    KeptFromTable(table, preset, adBlock);
    forall k, i | 0 <= k < |specs| && 0 <= i < |specs[k].sites|
      ensures PlainSite(specs[k].sites[i])
    {
      assert specs[k] in table;
      var n :| 0 <= n < |table| && table[n] == specs[k];
    }
    PlainTagsAgree(specs);
    RenderingPreservesMeaning(specs, custom, d);
  }

  /** Exactly one preset blocks advertisements without being asked to. */
  lemma RejectsAdsExactlyWhen(preset: Option<RulePreset>, adBlock: bool)
    ensures (exists x :: x in Keep(TableFor(preset), preset, adBlock) && x.action == Reject)
       <==> adBlock || preset == Some(Comprehensive)
  {
    var table := TableFor(preset);
    KeptFromTable(table, preset, adBlock);
    OnlyAdBlockRejects();
    OnlyAdBlockRejectsInChina();
    assert table[0] in table;
    NotOtherwiseIncluded();
    if adBlock || preset == Some(Comprehensive) {
      assert table[0] in Keep(table, preset, adBlock);
    }
  }

  ghost predicate NoneRejects(specs: seq<RuleSpec>) {
    forall x :: x in specs ==> x.action != Reject
  }

  lemma OthersDoNotReject()
    ensures NoneRejects(REGION_RULES) && NoneRejects(MEDIA_RULES) && NoneRejects(SERVICE_RULES)
  {
  }

  lemma OnlyAdBlockRejectsCommon()
    ensures forall x :: x in COMMON_RULES && x.action == Reject ==> x.name == "Ad Block"
    ensures COMMON_RULES[0].action == Reject && COMMON_RULES[0].name == "Ad Block"
  {
  }

  lemma OnlyAdBlockRejects()
    ensures forall x :: x in RULES && x.action == Reject ==> x.name == "Ad Block"
    ensures RULES[0].action == Reject && RULES[0].name == "Ad Block"
  {
    OthersDoNotReject();
    OnlyAdBlockRejectsCommon();
  }

  lemma OnlyAdBlockRejectsDirect()
    ensures forall x :: x in CHINA_DIRECT_RULES && x.action == Reject ==> x.name == "Ad Block"
    ensures CHINA_DIRECT_RULES[0].action == Reject && CHINA_DIRECT_RULES[0].name == "Ad Block"
  {
  }

  lemma OtherChinaRulesDoNotReject()
    ensures NoneRejects(CHINA_PROXY_RULES) && NoneRejects(CHINA_REGION_RULES)
  {
  }

  lemma OnlyAdBlockRejectsInChina()
    ensures forall x :: x in CHINA_RULES && x.action == Reject ==> x.name == "Ad Block"
    ensures CHINA_RULES[0].action == Reject && CHINA_RULES[0].name == "Ad Block"
  {
    OnlyAdBlockRejectsDirect();
    OtherChinaRulesDoNotReject();
  }

  lemma NotOtherwiseIncluded()
    ensures !InBalanced("Ad Block") && !InMinimal("Ad Block")
  {
    assert "Ad Block"[0] == 'A' && "Telegram"[0] == 'T';
    assert |"Ad Block"| == 8;
  }

  // ----- what the presets decide -----

  /** The first rule that is included and contains the destination. */
  function FirstHit(specs: seq<RuleSpec>, preset: Option<RulePreset>, adBlock: bool, d: Dest): Option<RuleAction> {
    if specs == [] then None
    else if Included(preset, adBlock, specs[0].name) && InSpec(specs[0], d) then Some(specs[0].action)
    else FirstHit(specs[1..], preset, adBlock, d)
  }

  function OrProxy(hit: Option<RuleAction>): RuleAction { if hit.Some? then hit.value else Proxy }

  lemma {:induction false} HitConcat(a: seq<RuleSpec>, b: seq<RuleSpec>, preset: Option<RulePreset>, adBlock: bool, d: Dest)
    ensures FirstHit(a + b, preset, adBlock, d)
         == var hit := FirstHit(a, preset, adBlock, d); if hit.Some? then hit else FirstHit(b, preset, adBlock, d)
  {
    if a == [] {
      assert a + b == b;
    } else {
      assert (a + b)[1..] == a[1..] + b;
      HitConcat(a[1..], b, preset, adBlock, d);
    }
  }

  /** The selected rules hit what the table hits where it is included. */
  lemma {:induction false} KeepHits(specs: seq<RuleSpec>, preset: Option<RulePreset>, adBlock: bool, d: Dest)
    ensures FirstHit(Keep(specs, preset, adBlock), preset, adBlock, d) == FirstHit(specs, preset, adBlock, d)
  {
    if specs != [] {
      var n := |specs| - 1;
      KeepHits(specs[..n], preset, adBlock, d);
      assert specs == specs[..n] + [specs[n]];
      HitConcat(specs[..n], [specs[n]], preset, adBlock, d);
      HitConcat(Keep(specs[..n], preset, adBlock),
                if Included(preset, adBlock, specs[n].name) then [specs[n]] else [], preset, adBlock, d);
    }
  }

  lemma {:induction false} AllIncluded(specs: seq<RuleSpec>, preset: Option<RulePreset>, adBlock: bool, d: Dest)
    requires forall x :: x in specs ==> Included(preset, adBlock, x.name)
    ensures FirstSpec(specs, d) == OrProxy(FirstHit(specs, preset, adBlock, d))
  {
    if specs != [] {
      assert specs[0] in specs;
      AllIncluded(specs[1..], preset, adBlock, d);
    }
  }

  lemma SelectionDecides(specs: seq<RuleSpec>, preset: Option<RulePreset>, adBlock: bool, d: Dest)
    ensures FirstSpec(Keep(specs, preset, adBlock), d) == OrProxy(FirstHit(specs, preset, adBlock, d))
  {
    KeptFromTable(specs, preset, adBlock);
    AllIncluded(Keep(specs, preset, adBlock), preset, adBlock, d);
    KeepHits(specs, preset, adBlock, d);
  }

  /** One rule of a table. */
  lemma HitOne(spec: RuleSpec, rest: seq<RuleSpec>, preset: Option<RulePreset>, adBlock: bool, d: Dest)
    ensures FirstHit([spec] + rest, preset, adBlock, d)
         == if Included(preset, adBlock, spec.name) && InSpec(spec, d) then Some(spec.action)
            else FirstHit(rest, preset, adBlock, d)
  {
    assert ([spec] + rest)[1..] == rest;
  }

  /** Which presets have a rule: the two larger ones, or all three. */
  predicate Larger(preset: Option<RulePreset>) { preset == Some(Balanced) || preset == Some(Comprehensive) }

  predicate Whole(preset: Option<RulePreset>) { preset == Some(Comprehensive) }

  lemma IncludedCommon(preset: Option<RulePreset>, adBlock: bool)
    requires preset != Some(China)
    ensures Included(preset, adBlock, "Ad Block") <==> adBlock || Whole(preset)
    ensures Included(preset, adBlock, "AI Services") <==> Larger(preset)
    ensures Included(preset, adBlock, "Bilibili") <==> Whole(preset)
    ensures Included(preset, adBlock, "Youtube") <==> Larger(preset)
    ensures Included(preset, adBlock, "Google") <==> Larger(preset)
  {
    assert "Ad Block"[0] == 'A' && "Telegram"[0] == 'T' && "Bilibili"[0] == 'B';
    assert "Private"[0] == 'P' && "Youtube"[0] == 'Y';
    assert "Location:CN"[0] == 'L' && "AI Services"[0] == 'A';
    assert "Github"[1] == 'i' && "Google"[1] == 'o';
  }

  lemma IncludedRegion(preset: Option<RulePreset>, adBlock: bool)
    requires preset != Some(China)
    ensures Included(preset, adBlock, "Private") <==> preset.Some?
    ensures Included(preset, adBlock, "Location:CN") <==> preset.Some?
    ensures Included(preset, adBlock, "Telegram") <==> Larger(preset)
    ensures Included(preset, adBlock, "Github") <==> Larger(preset)
  {
    assert "Ad Block"[0] == 'A' && "Telegram"[0] == 'T';
    assert "Private"[0] == 'P' && "Youtube"[0] == 'Y';
    assert "Location:CN"[0] == 'L' && "AI Services"[0] == 'A';
    assert "Github"[1] == 'i' && "Google"[1] == 'o';
  }

  /** Lists of mainland China. */
  predicate InChina(d: Dest) { d.site("geolocation-cn") || d.site("cn") || d.ip("cn") }

  predicate InGoogle(d: Dest) { d.site("google") || d.ip("google") }

  /** What each preset is for, in one table. */
  function PresetDecision(preset: Option<RulePreset>, adBlock: bool, d: Dest): RuleAction {
    if (adBlock || preset == Some(Comprehensive)) && d.site("category-ads-all") then Reject else
    match preset
    case None => Proxy
    case Some(Minimal) => if d.ip("private") || InChina(d) then Direct else Proxy
    case Some(Balanced) =>
      if d.site("category-ai-!cn") || d.site("youtube") || InGoogle(d) then Proxy
      else if d.ip("private") || InChina(d) then Direct else Proxy
    case Some(Comprehensive) =>
      if d.site("category-ai-!cn") || d.site("bilibili") || d.site("youtube") || InGoogle(d) then Proxy
      else if d.ip("private") || InChina(d) then Direct else Proxy
    case Some(China) =>
      if || d.site("private") || d.ip("private") || d.site("apple-cn") || d.site("microsoft@cn") || d.site("steam@cn")
         || d.site("category-games@cn") || d.site("bilibili") then Direct
      else if || d.site("category-ai-!cn") || d.site("youtube") || InGoogle(d) || d.ip("telegram")
              || d.site("github") || d.site("gitlab") then Proxy
      else if InChina(d) then Direct else Proxy
  }

  lemma InSpecOf(spec: RuleSpec, d: Dest)
    ensures |spec.sites| == 1 && spec.ips == [] ==> (InSpec(spec, d) <==> d.site(spec.sites[0]))
    ensures |spec.sites| == 0 && |spec.ips| == 1 ==> (InSpec(spec, d) <==> d.ip(spec.ips[0]))
    ensures |spec.sites| == 1 && |spec.ips| == 1 ==> (InSpec(spec, d) <==> d.site(spec.sites[0]) || d.ip(spec.ips[0]))
    ensures |spec.sites| == 2 && spec.ips == [] ==> (InSpec(spec, d) <==> d.site(spec.sites[0]) || d.site(spec.sites[1]))
    ensures |spec.sites| == 2 && |spec.ips| == 1 ==>
              (InSpec(spec, d) <==> d.site(spec.sites[0]) || d.site(spec.sites[1]) || d.ip(spec.ips[0]))
  {
  }

  function CommonHit(preset: Option<RulePreset>, adBlock: bool, d: Dest): Option<RuleAction> {
    if (adBlock || Whole(preset)) && d.site("category-ads-all") then Some(Reject)
    else if || (Larger(preset) && (d.site("category-ai-!cn") || d.site("youtube") || InGoogle(d)))
            || (Whole(preset) && d.site("bilibili")) then Some(Proxy)
    else None
  }

  function RegionHit(preset: Option<RulePreset>, d: Dest): Option<RuleAction> {
    if preset.Some? && (d.ip("private") || InChina(d)) then Some(Direct)
    else if Larger(preset) && (d.ip("telegram") || d.site("github") || d.site("gitlab")) then Some(Proxy)
    else None
  }

  lemma DecisionOfHits(preset: Option<RulePreset>, adBlock: bool, d: Dest)
    requires preset != Some(China)
    ensures PresetDecision(preset, adBlock, d)
         == var hit := CommonHit(preset, adBlock, d); if hit.Some? then hit.value else OrProxy(RegionHit(preset, d))
  {
  }

  lemma CommonHits(preset: Option<RulePreset>, adBlock: bool, d: Dest)
    requires preset != Some(China)
    ensures FirstHit(COMMON_RULES, preset, adBlock, d) == CommonHit(preset, adBlock, d)
  {
    var t := COMMON_RULES;
    IncludedCommon(preset, adBlock);
    assert t == [t[0]] + ([t[1]] + ([t[2]] + ([t[3]] + ([t[4]] + []))));
    HitOne(t[0], [t[1]] + ([t[2]] + ([t[3]] + ([t[4]] + []))), preset, adBlock, d);
    HitOne(t[1], [t[2]] + ([t[3]] + ([t[4]] + [])), preset, adBlock, d);
    HitOne(t[2], [t[3]] + ([t[4]] + []), preset, adBlock, d);
    HitOne(t[3], [t[4]] + [], preset, adBlock, d);
    HitOne(t[4], [], preset, adBlock, d);
    InSpecOf(t[0], d);
    InSpecOf(t[1], d);
    InSpecOf(t[2], d);
    InSpecOf(t[3], d);
    InSpecOf(t[4], d);
  }

  lemma RegionHits(preset: Option<RulePreset>, adBlock: bool, d: Dest)
    requires preset != Some(China)
    ensures FirstHit(REGION_RULES, preset, adBlock, d) == RegionHit(preset, d)
  {
    var t := REGION_RULES;
    IncludedRegion(preset, adBlock);
    assert t == [t[0]] + ([t[1]] + ([t[2]] + ([t[3]] + [])));
    HitOne(t[0], [t[1]] + ([t[2]] + ([t[3]] + [])), preset, adBlock, d);
    HitOne(t[1], [t[2]] + ([t[3]] + []), preset, adBlock, d);
    HitOne(t[2], [t[3]] + [], preset, adBlock, d);
    HitOne(t[3], [], preset, adBlock, d);
    InSpecOf(t[0], d);
    InSpecOf(t[1], d);
    InSpecOf(t[2], d);
    InSpecOf(t[3], d);
  }

  lemma {:induction false} ProxyHits(specs: seq<RuleSpec>, preset: Option<RulePreset>, adBlock: bool, d: Dest)
    requires forall k :: 0 <= k < |specs| ==> specs[k].action == Proxy
    ensures OrProxy(FirstHit(specs, preset, adBlock, d)) == Proxy
  {
    if specs != [] {
      ProxyHits(specs[1..], preset, adBlock, d);
    }
  }

  lemma TheRestProxies(preset: Option<RulePreset>, adBlock: bool, d: Dest)
    ensures OrProxy(FirstHit(MEDIA_RULES, preset, adBlock, d)) == Proxy
    ensures OrProxy(FirstHit(SERVICE_RULES, preset, adBlock, d)) == Proxy
  {
    ProxyHits(MEDIA_RULES, preset, adBlock, d);
    ProxyHits(SERVICE_RULES, preset, adBlock, d);
  }

  /** A table in four parts: the first part that hits decides. */
  lemma HitFour(a: seq<RuleSpec>, b: seq<RuleSpec>, c: seq<RuleSpec>, e: seq<RuleSpec>,
                preset: Option<RulePreset>, adBlock: bool, d: Dest)
    requires OrProxy(FirstHit(c, preset, adBlock, d)) == Proxy && OrProxy(FirstHit(e, preset, adBlock, d)) == Proxy
    ensures OrProxy(FirstHit(a + b + c + e, preset, adBlock, d))
         == var hit := FirstHit(a, preset, adBlock, d);
            if hit.Some? then hit.value else OrProxy(FirstHit(b, preset, adBlock, d))
  {
    HitConcat(a, b, preset, adBlock, d);
    HitConcat(a + b, c, preset, adBlock, d);
    HitConcat(a + b + c, e, preset, adBlock, d);
  }

  lemma TableDecides(preset: Option<RulePreset>, adBlock: bool, d: Dest)
    requires preset != Some(China)
    ensures OrProxy(FirstHit(RULES, preset, adBlock, d)) == PresetDecision(preset, adBlock, d)
  {
    CommonHits(preset, adBlock, d);
    RegionHits(preset, adBlock, d);
    TheRestProxies(preset, adBlock, d);
    DecisionOfHits(preset, adBlock, d);
    HitFour(COMMON_RULES, REGION_RULES, MEDIA_RULES, SERVICE_RULES, preset, adBlock, d);
  }

  /** The rules of the China table beside ad blocking. */
  const CHINA_NAMES: seq<string> :=
    ["Private", "China Services", "AI Services", "Youtube", "Google", "Telegram", "Github", "Location:CN", "Non-China"]

  lemma IncludedChina(adBlock: bool)
    ensures Included(Some(China), adBlock, "Ad Block") <==> adBlock
    ensures forall name :: name in CHINA_NAMES ==> Included(Some(China), adBlock, name)
  {
    assert "Ad Block"[0] == 'A' && "Telegram"[0] == 'T';
  }

  predicate ChinaService(d: Dest) {
    || d.site("apple-cn") || d.site("microsoft@cn") || d.site("steam@cn") || d.site("category-games@cn") || d.site("bilibili")
  }

  lemma InChinaServices(d: Dest)
    ensures InSpec(CHINA_DIRECT_RULES[2], d) <==> ChinaService(d)
  {
    var sites := CHINA_DIRECT_RULES[2].sites;
    assert |sites| == 5 && sites[0] == "apple-cn" && sites[1] == "microsoft@cn" && sites[2] == "steam@cn";
    assert sites[3] == "category-games@cn" && sites[4] == "bilibili";
  }

  lemma ChinaDirectHits(adBlock: bool, d: Dest)
    ensures FirstHit(CHINA_DIRECT_RULES, Some(China), adBlock, d)
         == if adBlock && d.site("category-ads-all") then Some(Reject)
            else if d.site("private") || d.ip("private") || ChinaService(d) then Some(Direct)
            else None
  {
    var t, p := CHINA_DIRECT_RULES, Some(China);
    IncludedChina(adBlock);
    assert t == [t[0]] + ([t[1]] + ([t[2]] + []));
    HitOne(t[0], [t[1]] + ([t[2]] + []), p, adBlock, d);
    HitOne(t[1], [t[2]] + [], p, adBlock, d);
    HitOne(t[2], [], p, adBlock, d);
    InSpecOf(t[0], d);
    InSpecOf(t[1], d);
    InChinaServices(d);
  }

  lemma ChinaProxyHits(adBlock: bool, d: Dest)
    ensures FirstHit(CHINA_PROXY_RULES, Some(China), adBlock, d)
         == if || d.site("category-ai-!cn") || d.site("youtube") || InGoogle(d) || d.ip("telegram")
               || d.site("github") || d.site("gitlab") then Some(Proxy)
            else None
  {
    var t, p := CHINA_PROXY_RULES, Some(China);
    IncludedChina(adBlock);
    assert t == [t[0]] + ([t[1]] + ([t[2]] + ([t[3]] + ([t[4]] + []))));
    HitOne(t[0], [t[1]] + ([t[2]] + ([t[3]] + ([t[4]] + []))), p, adBlock, d);
    HitOne(t[1], [t[2]] + ([t[3]] + ([t[4]] + [])), p, adBlock, d);
    HitOne(t[2], [t[3]] + ([t[4]] + []), p, adBlock, d);
    HitOne(t[3], [t[4]] + [], p, adBlock, d);
    HitOne(t[4], [], p, adBlock, d);
    InSpecOf(t[0], d);
    InSpecOf(t[1], d);
    InSpecOf(t[2], d);
    InSpecOf(t[3], d);
    InSpecOf(t[4], d);
  }

  lemma ChinaRegionHits(adBlock: bool, d: Dest)
    ensures OrProxy(FirstHit(CHINA_REGION_RULES, Some(China), adBlock, d)) == if InChina(d) then Direct else Proxy
  {
    var t, p := CHINA_REGION_RULES, Some(China);
    IncludedChina(adBlock);
    assert t == [t[0]] + ([t[1]] + []);
    HitOne(t[0], [t[1]] + [], p, adBlock, d);
    HitOne(t[1], [], p, adBlock, d);
    InSpecOf(t[0], d);
  }

  lemma ChinaDecides(adBlock: bool, d: Dest)
    ensures OrProxy(FirstHit(CHINA_RULES, Some(China), adBlock, d)) == PresetDecision(Some(China), adBlock, d)
  {
    HitConcat(CHINA_DIRECT_RULES, CHINA_PROXY_RULES, Some(China), adBlock, d);
    HitConcat(CHINA_DIRECT_RULES + CHINA_PROXY_RULES, CHINA_REGION_RULES, Some(China), adBlock, d);
    ChinaDirectHits(adBlock, d);
    ChinaProxyHits(adBlock, d);
    ChinaRegionHits(adBlock, d);
  }

  /** What every preset decides for every destination, whichever client reads the rendering. */
  lemma PresetsDecide(preset: Option<RulePreset>, adBlock: bool, custom: CustomRules, d: Dest)
    ensures var specs := Keep(TableFor(preset), preset, adBlock);
            var decision := if AnyDomain(custom.blacklist, d) then Reject
                            else if AnyDomain(custom.whitelist, d) then Direct
                            else PresetDecision(preset, adBlock, d);
            && EvalSingBox(SingBoxOf(specs, custom), d) == decision
            && EvalLines(LinesOf(specs, custom, true), SetsOf(specs), d) == decision
            && EvalLines(LinesOf(specs, custom, false), SetsOf(specs), d) == decision
  {
    PresetsRenderAlike(preset, adBlock, custom, d);
    SelectionDecides(TableFor(preset), preset, adBlock, d);
    if preset == Some(China) {
      ChinaDecides(adBlock, d);
    } else {
      TableDecides(preset, adBlock, d);
    }
  }

  /** A larger preset has every rule of a smaller one. */
  lemma PresetsGrow(adBlock: bool, x: RuleSpec)
    ensures x in Keep(RULES, None, adBlock) ==> x in Keep(RULES, Some(Minimal), adBlock)
    ensures x in Keep(RULES, Some(Minimal), adBlock) ==> x in Keep(RULES, Some(Balanced), adBlock)
    ensures x in Keep(RULES, Some(Balanced), adBlock) ==> x in Keep(RULES, Some(Comprehensive), adBlock)
    ensures x in Keep(RULES, Some(Comprehensive), adBlock) <==> x in RULES
  {
    KeptFromTable(RULES, None, adBlock);
    KeptFromTable(RULES, Some(Minimal), adBlock);
    KeptFromTable(RULES, Some(Balanced), adBlock);
    KeptFromTable(RULES, Some(Comprehensive), adBlock);
  }

  // ----- the renderers -----

  lemma {:induction false} SetsOfAppend(a: seq<RuleSpec>, spec: RuleSpec)
    ensures SetsOf(a + [spec]) == SetsOf(a) + SetsOfOne(SourcesOf(spec))
  {
    if a == [] {
      assert a + [spec] == [spec] && [spec][1..] == [];
    } else {
      SetsOfAppend(a[1..], spec);
      assert (a + [spec])[1..] == a[1..] + [spec];
      Reassociate(SetsOfOne(SourcesOf(a[0])), SetsOf(a[1..]), SetsOfOne(SourcesOf(spec)));
    }
  }

  lemma {:induction false} SetRoutesAppend(a: seq<RuleSpec>, spec: RuleSpec)
    ensures SetRoutes(a + [spec]) == SetRoutes(a) + [SetRoute(TagsOf(spec), spec.action)]
  {
    if a == [] {
      assert a + [spec] == [spec] && [spec][1..] == [];
    } else {
      SetRoutesAppend(a[1..], spec);
      assert (a + [spec])[1..] == a[1..] + [spec];
    }
  }

  lemma {:induction false} SpecLinesAppend(a: seq<RuleSpec>, spec: RuleSpec, byTag: bool)
    ensures AllSpecLines(a + [spec], byTag) == AllSpecLines(a, byTag) + SpecLines(spec, byTag)
  {
    if a == [] {
      assert a + [spec] == [spec] && [spec][1..] == [];
    } else {
      SpecLinesAppend(a[1..], spec, byTag);
      assert (a + [spec])[1..] == a[1..] + [spec];
      Reassociate(SpecLines(a[0], byTag), AllSpecLines(a[1..], byTag), SpecLines(spec, byTag));
    }
  }

  /** `domain_rule_fields`. */
  method DomainRuleFields(rules: seq<DomainRule>) returns (exact: seq<string>, suffix: seq<string>)
    ensures exact == Exacts(rules) && suffix == Suffixes(rules)
  {
    exact, suffix := [], [];
    for i := 0 to |rules|
      invariant exact == Exacts(rules[..i]) && suffix == Suffixes(rules[..i])
    {
      assert rules[..i + 1][..i] == rules[..i];
      match rules[i]
      case Exact(domain) => exact := exact + [domain];
      case Suffix(domain) => suffix := suffix + [domain];
    }
    assert rules[..|rules|] == rules;
  }

  method CustomRouteRule(rules: seq<DomainRule>, verdict: RuleAction) returns (routes: seq<RouteRule>)
    ensures routes == CustomRoute(rules, verdict)
  {
    if rules == [] {
      return [];
    }
    var exact, suffix := DomainRuleFields(rules);
    return [DomainRoute(exact, suffix, verdict)];
  }

  /** The inner loops of `render_singbox`: tags and set declarations of one preset rule. */
  method RuleSetsOf(spec: RuleSpec) returns (tags: seq<string>, sets: seq<RuleSet>)
    ensures tags == TagsOf(spec) && sets == SetsOfOne(SourcesOf(spec))
  {
    tags, sets := [], [];
    ghost var sources := SourcesOf(spec);
    for i := 0 to |spec.sites|
      invariant Tagged(tags, sets, sources, i)
    {
      assert sources[i] == Site(spec.sites[i]);
      tags := tags + [spec.sites[i]];
      sets := sets + [RuleSet(spec.sites[i], Site(spec.sites[i]))];
    }
    for i := 0 to |spec.ips|
      invariant Tagged(tags, sets, sources, |spec.sites| + i)
    {
      assert sources[|spec.sites| + i] == Ip(spec.ips[i]);
      var tag := spec.ips[i] + "-ip";
      tags := tags + [tag];
      sets := sets + [RuleSet(tag, Ip(spec.ips[i]))];
    }
  }

  /** Tags and declarations of the first n lists. */
  ghost predicate Tagged(tags: seq<string>, sets: seq<RuleSet>, sources: seq<Source>, n: nat) {
    && |tags| == |sets| == n <= |sources|
    && forall k :: 0 <= k < n ==> tags[k] == TagOf(sources[k]) && sets[k] == RuleSet(TagOf(sources[k]), sources[k])
  }

  /** The rule part of `render_singbox`. */
  method RenderSingBox(specs: seq<RuleSpec>, custom: CustomRules) returns (s: SingBox)
    ensures s == SingBoxOf(specs, custom)
  {
    var black := CustomRouteRule(custom.blacklist, Reject);
    var white := CustomRouteRule(custom.whitelist, Direct);
    var routes, sets := [], [];
    for k := 0 to |specs|
      invariant routes == SetRoutes(specs[..k]) && sets == SetsOf(specs[..k])
    {
      SetsOfAppend(specs[..k], specs[k]);
      SetRoutesAppend(specs[..k], specs[k]);
      assert specs[..k + 1] == specs[..k] + [specs[k]];
      var tags, more := RuleSetsOf(specs[k]);
      routes := routes + [SetRoute(tags, specs[k].action)];
      sets := sets + more;
    }
    assert specs[..|specs|] == specs;
    return SingBox(black + white + routes, sets);
  }

  method WriteDomainLines(rules: seq<DomainRule>, policy: RuleAction) returns (lines: seq<Line>)
    ensures lines == DomainLines(rules, policy)
  {
    lines := [];
    for i := 0 to |rules|
      invariant lines == DomainLines(rules, policy)[..i]
    {
      lines := lines + [DomainLine(rules[i], policy)];
    }
    assert DomainLines(rules, policy)[..|rules|] == DomainLines(rules, policy);
  }

  method WriteSpecLines(spec: RuleSpec, byTag: bool) returns (lines: seq<Line>)
    ensures lines == SpecLines(spec, byTag)
  {
    lines := [];
    ghost var all := SpecLines(spec, byTag);
    for i := 0 to |spec.sites|
      invariant lines == all[..i]
    {
      var site := spec.sites[i];
      lines := lines + [if byTag then TagLine(site, spec.action, false) else UrlLine(Site(site), spec.action, false)];
    }
    for i := 0 to |spec.ips|
      invariant lines == all[..|spec.sites| + i]
    {
      var ip := spec.ips[i];
      lines := lines + [if byTag then TagLine(ip + "-ip", spec.action, true) else UrlLine(Ip(ip), spec.action, true)];
    }
    assert all[..|all|] == all;
  }

  /** The rule lines of `render_clash` (by tag) and `render_surge` (by address). */
  method RenderLines(specs: seq<RuleSpec>, custom: CustomRules, byTag: bool) returns (lines: seq<Line>)
    ensures lines == LinesOf(specs, custom, byTag)
  {
    var black := WriteDomainLines(custom.blacklist, Reject);
    var white := WriteDomainLines(custom.whitelist, Direct);
    var rest := [];
    for k := 0 to |specs|
      invariant rest == AllSpecLines(specs[..k], byTag)
    {
      SpecLinesAppend(specs[..k], specs[k], byTag);
      assert specs[..k + 1] == specs[..k] + [specs[k]];
      var more := WriteSpecLines(specs[k], byTag);
      rest := rest + more;
    }
    assert specs[..|specs|] == specs;
    return black + white + rest;
  }

  /** `render_clash` also declares one provider per list. */
  method RenderClash(specs: seq<RuleSpec>, custom: CustomRules) returns (c: Clash)
    ensures c == Clash(LinesOf(specs, custom, true), SetsOf(specs))
  {
    var providers := [];
    for k := 0 to |specs|
      invariant providers == SetsOf(specs[..k])
    {
      SetsOfAppend(specs[..k], specs[k]);
      assert specs[..k + 1] == specs[..k] + [specs[k]];
      var _, more := RuleSetsOf(specs[k]);
      providers := providers + more;
    }
    assert specs[..|specs|] == specs;
    var lines := RenderLines(specs, custom, true);
    return Clash(lines, providers);
  }
}
