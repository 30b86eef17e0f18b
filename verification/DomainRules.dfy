/** Parsing and deduplication of custom domain lists (src/sublink.rs). */
module DomainRules {
  import opened Seqs
  import opened Routing

  const MAX_LIST_BYTES: nat := 8 * 1024
  const MAX_LIST_RULES: nat := 128

  /** What the URL library makes of a host name. */
  datatype Host = Domain(name: string) | Address | Unparsable

  datatype ParseError = TooLarge | InvalidDomain(raw: string) | OnlyDomains(raw: string) | TooMany

  type ParseHost = string -> Host

  predicate IsSeparator(c: char) { c == ',' || c == '\n' || c == '\r' }

  /** The Unicode White_Space property. */
  predicate IsWhitespace(c: char) {
    || '\U{9}' <= c <= '\U{D}' || c == ' ' || c == '\U{85}' || c == '\U{A0}' || c == '\U{1680}'
    || '\U{2000}' <= c <= '\U{200A}' || c == '\U{2028}' || c == '\U{2029}' || c == '\U{202F}'
    || c == '\U{205F}' || c == '\U{3000}'
  }

  function Utf8Length(s: string): nat {
    if s == "" then 0 else
    Utf8Length(s[..|s| - 1])
    + var c := s[|s| - 1]; if c < '\U{80}' then 1 else if c < '\U{800}' then 2 else if c < '\U{10000}' then 3 else 4
  }

  /** `split` at separators: always at least one piece. */
  function Split(s: string): (r: seq<string>)
    ensures r != []
  {
    if s == "" then [""]
    else if IsSeparator(s[0]) then [""] + Split(s[1..])
    else var rest := Split(s[1..]); [[s[0]] + rest[0]] + rest[1..]
  }

  function TrimStart(s: string): string {
    if s != "" && IsWhitespace(s[0]) then TrimStart(s[1..]) else s
  }

  function TrimEnd(s: string): string {
    if s != "" && IsWhitespace(s[|s| - 1]) then TrimEnd(s[..|s| - 1]) else s
  }

  function TrimDots(s: string): string {
    if s != "" && s[|s| - 1] == '.' then TrimDots(s[..|s| - 1]) else s
  }

  /** One piece of the list: nothing when blank, a rule, or an error. */
  function ParsePiece(piece: string, parseHost: ParseHost): Result<Option<DomainRule>, ParseError> {
    var raw := TrimEnd(TrimStart(piece));
    if raw == "" then Ok(None) else ParseRaw(raw, parseHost)
  }

  /** `strip_prefix` of the two suffix spellings. */
  function Strip(raw: string): (bool, string) {
    if "*." <= raw then (true, raw[2..]) else if "." <= raw then (true, raw[1..]) else (false, raw)
  }

  predicate BadChar(c: char) { c == '*' || IsWhitespace(c) }

  /** A trimmed piece that is not blank. */
  function ParseRaw(raw: string, parseHost: ParseHost): Result<Option<DomainRule>, ParseError> {
    var (isSuffix, rest) := Strip(raw);
    var domain := TrimDots(rest);
    if domain == "" || exists i :: 0 <= i < |domain| && BadChar(domain[i]) then Err(InvalidDomain(raw))
    else
      match parseHost(domain)
      case Unparsable => Err(InvalidDomain(raw))
      case Address => Err(OnlyDomains(raw))
      case Domain(name) => Ok(Some(if isSuffix then Suffix(name) else Exact(name)))
  }

  /** All rules of the list, repeats included, or the first error. */
  function ParseAll(pieces: seq<string>, parseHost: ParseHost): Result<seq<DomainRule>, ParseError> {
    if pieces == [] then Ok([]) else
    var n := |pieces| - 1;
    match ParseAll(pieces[..n], parseHost)
    case Err(e) => Err(e)
    case Ok(rules) =>
      match ParsePiece(pieces[n], parseHost)
      case Err(e) => Err(e)
      case Ok(None) => Ok(rules)
      case Ok(Some(rule)) => Ok(rules + [rule])
  }

  /** First occurrences, in order. */
  function Dedup(rules: seq<DomainRule>): seq<DomainRule> {
    if rules == [] then [] else
    var n := |rules| - 1;
    Dedup(rules[..n]) + if rules[n] in rules[..n] then [] else [rules[n]]
  }

  function Parsed(value: string, parseHost: ParseHost): Result<seq<DomainRule>, ParseError> {
    if Utf8Length(value) > MAX_LIST_BYTES then Err(TooLarge) else
    match ParseAll(Split(value), parseHost)
    case Err(e) => Err(e)
    case Ok(rules) => if |Dedup(rules)| > MAX_LIST_RULES then Err(TooMany) else Ok(Dedup(rules))
  }

  lemma ParseAllStep(pieces: seq<string>, i: nat, all: seq<DomainRule>, parsed: Result<Option<DomainRule>, ParseError>,
                     parseHost: ParseHost)
    requires i < |pieces| && ParseAll(pieces[..i], parseHost) == Ok(all)
    requires parsed == ParsePiece(pieces[i], parseHost)
    ensures ParseAll(pieces[..i + 1], parseHost)
         == match parsed
            case Err(e) => Err(e)
            case Ok(None) => Ok(all)
            case Ok(Some(rule)) => Ok(all + [rule])
  {
    assert pieces[..i + 1][..i] == pieces[..i];
  }

  lemma DedupStep(all: seq<DomainRule>, rule: DomainRule)
    ensures Dedup(all + [rule]) == Dedup(all) + if rule in all then [] else [rule]
  {
    assert (all + [rule])[..|all|] == all;
  }

  /** `parse_domain_rules`: the loop with its set of rules already seen. */
  method ParseDomainRules(value: string, parseHost: ParseHost) returns (r: Result<seq<DomainRule>, ParseError>)
    ensures r == Parsed(value, parseHost)
  {
    if Utf8Length(value) > MAX_LIST_BYTES {
      return Err(TooLarge);
    }
    var seen: set<DomainRule> := {};
    var rules := [];
    var pieces := Split(value);
    ghost var all: seq<DomainRule> := [];
    for i := 0 to |pieces|
      invariant ParseAll(pieces[..i], parseHost) == Ok(all)
      invariant rules == Dedup(all)
      invariant forall x :: x in seen <==> x in all
    {
      var parsed := ParsePiece(pieces[i], parseHost);
      ParseAllStep(pieces, i, all, parsed, parseHost);
      if parsed.Err? {
        ErrorSticks(pieces, i + 1, parseHost);
        return Err(parsed.error);
      }
      if parsed.value.Some? {
        var rule := parsed.value.value;
        DedupStep(all, rule);
        if rule !in seen {
          seen := seen + {rule};
          rules := rules + [rule];
        }
        all := all + [rule];
      }
    }
    assert pieces[..|pieces|] == pieces;
    if |rules| > MAX_LIST_RULES {
      return Err(TooMany);
    }
    return Ok(rules);
  }

  lemma {:induction false} ErrorSticks(pieces: seq<string>, k: nat, parseHost: ParseHost)
    requires k <= |pieces| && ParseAll(pieces[..k], parseHost).Err?
    ensures ParseAll(pieces, parseHost) == ParseAll(pieces[..k], parseHost)
  {
    if k < |pieces| {
      var n := |pieces| - 1;
      assert pieces[..n][..k] == pieces[..k];
      ErrorSticks(pieces[..n], k, parseHost);
    } else {
      assert pieces[..k] == pieces;
    }
  }

  /** Deduplication keeps exactly the rules there are, each once. */
  lemma {:induction false} DedupSound(rules: seq<DomainRule>)
    ensures forall x :: x in Dedup(rules) <==> x in rules
    ensures forall i, j :: 0 <= i < j < |Dedup(rules)| ==> Dedup(rules)[i] != Dedup(rules)[j]
  {
    if rules != [] {
      var n := |rules| - 1;
      DedupSound(rules[..n]);
      assert rules == rules[..n] + [rules[n]];
      if rules[n] !in rules[..n] {
        assert rules[n] !in Dedup(rules[..n]);
      }
    }
  }

  /** Deduplicating the lists changes no decision. */
  lemma DedupKeepsDecisions(specs: seq<RuleSpec>, custom: CustomRules, d: Dest)
    ensures Decide(specs, CustomRules(Dedup(custom.whitelist), Dedup(custom.blacklist)), d) == Decide(specs, custom, d)
  {
    DedupKeepsMatches(custom.whitelist, d);
    DedupKeepsMatches(custom.blacklist, d);
  }

  lemma DedupKeepsMatches(rules: seq<DomainRule>, d: Dest)
    ensures AnyDomain(Dedup(rules), d) == AnyDomain(rules, d)
  {
    DedupSound(rules);
    var once := Dedup(rules);
    if AnyDomain(rules, d) {
      var i :| 0 <= i < |rules| && d.domain(rules[i]);
      assert rules[i] in once;
      var k :| 0 <= k < |once| && once[k] == rules[i];
      assert d.domain(once[k]);
    }
    if AnyDomain(once, d) {
      var i :| 0 <= i < |once| && d.domain(once[i]);
      assert once[i] in rules;
      var k :| 0 <= k < |rules| && rules[k] == once[i];
      assert d.domain(rules[k]);
    }
  }

  // ----- printing and parsing -----

  /** A name the list syntax can carry unchanged and the URL library accepts as it is. */
  ghost predicate CleanDomain(d: string, parseHost: ParseHost) {
    && d != "" && d[0] != '.' && d[|d| - 1] != '.' && parseHost(d) == Domain(d)
    && forall i :: 0 <= i < |d| ==> d[i] != '*' && !IsSeparator(d[i]) && !IsWhitespace(d[i])
  }

  /** How a rule is written in a list. */
  function RuleText(rule: DomainRule): string {
    match rule
    case Exact(domain) => domain
    case Suffix(domain) => "*." + domain
  }

  /** Reading a written rule gives the rule back. */
  lemma ParseRuleText(rule: DomainRule, parseHost: ParseHost)
    requires CleanDomain(rule.domain, parseHost)
    ensures ParsePiece(RuleText(rule), parseHost) == Ok(Some(rule))
  {
    var d, raw := rule.domain, RuleText(rule);
    assert raw[|raw| - 1] == d[|d| - 1];
    assert TrimStart(raw) == raw && TrimEnd(raw) == raw && TrimDots(d) == d;
    if rule.Suffix? {
      assert "*." <= raw && raw[2..] == d;
    } else {
      assert !("*." <= raw) && !("." <= raw);
    }
  }

  /** `join("\n")`. */
  function JoinLines(lines: seq<string>): string
    requires lines != []
  {
    if |lines| == 1 then lines[0] else lines[0] + "\n" + JoinLines(lines[1..])
  }

  predicate NoSeparator(s: string) { forall i :: 0 <= i < |s| ==> !IsSeparator(s[i]) }

  lemma {:induction false} SplitHead(s: string, rest: string)
    requires NoSeparator(s)
    ensures Split(s + "\n" + rest) == [s] + Split(rest)
  {
    var whole := s + "\n" + rest;
    if s == "" {
      assert whole[1..] == rest;
    } else {
      SplitHead(s[1..], rest);
      assert whole[1..] == s[1..] + "\n" + rest;
      assert s == [s[0]] + s[1..];
    }
  }

  lemma {:induction false} SplitSingle(s: string)
    requires NoSeparator(s)
    ensures Split(s) == [s]
  {
    if s != "" {
      SplitSingle(s[1..]);
      assert s == [s[0]] + s[1..];
    }
  }

  lemma {:induction false} SplitJoin(lines: seq<string>)
    requires lines != [] && forall i :: 0 <= i < |lines| ==> NoSeparator(lines[i])
    ensures Split(JoinLines(lines)) == lines
  {
    if |lines| == 1 {
      SplitSingle(lines[0]);
    } else {
      SplitJoin(lines[1..]);
      SplitHead(lines[0], JoinLines(lines[1..]));
    }
  }

  function Texts(rules: seq<DomainRule>): (r: seq<string>)
    ensures |r| == |rules| && forall i :: 0 <= i < |r| ==> r[i] == RuleText(rules[i])
  {
    seq(|rules|, i requires 0 <= i < |rules| => RuleText(rules[i]))
  }

  lemma {:induction false} ParseEach(pieces: seq<string>, rules: seq<DomainRule>, parseHost: ParseHost)
    requires |pieces| == |rules|
    requires forall i :: 0 <= i < |rules| ==> ParsePiece(pieces[i], parseHost) == Ok(Some(rules[i]))
    ensures ParseAll(pieces, parseHost) == Ok(rules)
  {
    if rules != [] {
      var n := |rules| - 1;
      ParseEach(pieces[..n], rules[..n], parseHost);
      ParseAllStep(pieces, n, rules[..n], Ok(Some(rules[n])), parseHost);
      assert pieces[..n + 1] == pieces && rules == rules[..n] + [rules[n]];
    }
  }

  lemma ParseTexts(rules: seq<DomainRule>, parseHost: ParseHost)
    requires forall i :: 0 <= i < |rules| ==> CleanDomain(rules[i].domain, parseHost)
    ensures ParseAll(Texts(rules), parseHost) == Ok(rules)
  {
    forall i | 0 <= i < |rules|
      ensures ParsePiece(Texts(rules)[i], parseHost) == Ok(Some(rules[i]))
    {
      ParseRuleText(rules[i], parseHost);
    }
    ParseEach(Texts(rules), rules, parseHost);
  }

  /** A list written one rule per line reads back as its rules without repeats, or is refused for its size. */
  lemma ParsePrinted(rules: seq<DomainRule>, parseHost: ParseHost)
    requires rules != [] && forall i :: 0 <= i < |rules| ==> CleanDomain(rules[i].domain, parseHost)
    ensures var text := JoinLines(Texts(rules));
            Parsed(text, parseHost)
            == if Utf8Length(text) > MAX_LIST_BYTES then Err(TooLarge)
               else if |Dedup(rules)| > MAX_LIST_RULES then Err(TooMany)
               else Ok(Dedup(rules))
  {
    forall i | 0 <= i < |rules|
      ensures NoSeparator(Texts(rules)[i])
    {
      var d := rules[i].domain;
      assert Texts(rules)[i] == RuleText(rules[i]);
      assert forall j :: 0 <= j < |d| ==> !IsSeparator(d[j]);
    }
    SplitJoin(Texts(rules));
    ParseTexts(rules, parseHost);
  }

  // ----- every way to write a list -----

  datatype Spelling = Plain | Star | Dot

  /** A piece of a list as somebody writes it: blank, or a name with blanks around and dots behind. */
  datatype Written =
    | Blank(blanks: string)
    | Name(before: string, spelling: Spelling, domain: string, dots: nat, after: string)

  function Dots(n: nat): string { if n == 0 then "" else Dots(n - 1) + "." }

  function Core(w: Written): string
    requires w.Name?
  {
    (match w.spelling case Plain => "" case Star => "*." case Dot => ".") + w.domain + Dots(w.dots)
  }

  function WrittenText(w: Written): string {
    match w
    case Blank(blanks) => blanks
    case Name(before, _, _, _, after) => before + Core(w) + after
  }

  predicate IsBlank(s: string) { forall i :: 0 <= i < |s| ==> IsWhitespace(s[i]) }

  /** Blanks around, and a name that neither starts nor ends with a dot or a blank, and no `*.` of its own. */
  predicate WellWritten(w: Written) {
    match w
    case Blank(blanks) => IsBlank(blanks)
    case Name(before, _, d, _, after) =>
      && IsBlank(before) && IsBlank(after) && d != "" && d[0] != '.' && d[|d| - 1] != '.' && !("*." <= d)
      && (d == "*" ==> w.dots == 0)
      && !IsWhitespace(d[0]) && !IsWhitespace(d[|d| - 1])
  }

  /** What the piece means. */
  function Meaning(w: Written, parseHost: ParseHost): Result<Option<DomainRule>, ParseError> {
    match w
    case Blank(_) => Ok(None)
    case Name(_, spelling, d, _, _) =>
      if exists i :: 0 <= i < |d| && (d[i] == '*' || IsWhitespace(d[i])) then Err(InvalidDomain(Core(w)))
      else
        match parseHost(d)
        case Unparsable => Err(InvalidDomain(Core(w)))
        case Address => Err(OnlyDomains(Core(w)))
        case Domain(name) => Ok(Some(if spelling == Plain then Exact(name) else Suffix(name)))
  }

  lemma {:induction false} TrimStartBlank(before: string, core: string)
    requires IsBlank(before) && (core != "" ==> !IsWhitespace(core[0]))
    ensures TrimStart(before + core) == core
  {
    if before == "" {
      assert before + core == core;
    } else {
      TrimStartBlank(before[1..], core);
      assert (before + core)[1..] == before[1..] + core;
    }
  }

  lemma {:induction false} TrimEndBlank(core: string, after: string)
    requires IsBlank(after) && (core != "" ==> !IsWhitespace(core[|core| - 1]))
    ensures TrimEnd(core + after) == core
  {
    if after == "" {
      assert core + after == core;
    } else {
      var n := |after| - 1;
      TrimEndBlank(core, after[..n]);
      assert (core + after)[..|core| + n] == core + after[..n];
    }
  }

  lemma Trimmed(before: string, core: string, after: string)
    requires IsBlank(before) && IsBlank(after) && core != "" && !IsWhitespace(core[0]) && !IsWhitespace(core[|core| - 1])
    ensures TrimEnd(TrimStart(before + core + after)) == core
  {
    assert before + core + after == before + (core + after);
    TrimStartBlank(before, core + after);
    TrimEndBlank(core, after);
  }

  lemma {:induction false} TrimDotsBack(d: string, n: nat)
    requires d != "" && d[|d| - 1] != '.'
    ensures TrimDots(d + Dots(n)) == d
  {
    if n == 0 {
      assert d + Dots(0) == d;
    } else {
      TrimDotsBack(d, n - 1);
      assert d + Dots(n) == (d + Dots(n - 1)) + ".";
      assert (d + Dots(n))[..|d + Dots(n - 1)|] == d + Dots(n - 1);
    }
  }

  lemma {:induction false} DotsEnd(n: nat)
    ensures |Dots(n)| == n && forall i :: 0 <= i < n ==> Dots(n)[i] == '.'
  {
    if n > 0 {
      DotsEnd(n - 1);
    }
  }

  lemma StarPrefix(s: string)
    ensures "*." <= s <==> |s| >= 2 && s[0] == '*' && s[1] == '.'
    ensures "." <= s <==> |s| >= 1 && s[0] == '.'
  {
  }

  lemma CoreStrips(w: Written)
    requires WellWritten(w) && w.Name?
    ensures Strip(Core(w)) == (w.spelling != Plain, w.domain + Dots(w.dots))
  {
    DotsEnd(w.dots);
    var core, tail := Core(w), w.domain + Dots(w.dots);
    StarPrefix(core);
    StarPrefix(w.domain);
    match w.spelling
    case Plain => assert core == tail;
    case Star => assert core == "*." + tail && core[2..] == tail;
    case Dot => assert core == "." + tail && core[1..] == tail;
  }

  /** A core starts and ends without a blank. */
  lemma CoreShape(w: Written)
    requires WellWritten(w) && w.Name?
    ensures var core := Core(w); core != "" && !IsWhitespace(core[0]) && !IsWhitespace(core[|core| - 1])
  {
    DotsEnd(w.dots);
    var core, tail := Core(w), w.domain + Dots(w.dots);
    assert tail[|tail| - 1] == if w.dots > 0 then '.' else w.domain[|w.domain| - 1];
    assert core[|core| - 1] == tail[|tail| - 1];
    assert core[0] == match w.spelling case Plain => w.domain[0] case Star => '*' case Dot => '.';
  }

  lemma ParseCore(w: Written, parseHost: ParseHost)
    requires WellWritten(w) && w.Name?
    ensures ParseRaw(Core(w), parseHost) == Meaning(w, parseHost)
  {
    CoreStrips(w);
    TrimDotsBack(w.domain, w.dots);
    var d := w.domain;
    assert (exists i :: 0 <= i < |d| && BadChar(d[i])) <==> exists i :: 0 <= i < |d| && (d[i] == '*' || IsWhitespace(d[i]));
  }

  /** However a piece is written, it is read as what it means. */
  lemma ParseWritten(w: Written, parseHost: ParseHost)
    requires WellWritten(w)
    ensures ParsePiece(WrittenText(w), parseHost) == Meaning(w, parseHost)
  {
    match w
    case Blank(blanks) =>
      TrimStartBlank(blanks, "");
      assert blanks + "" == blanks;
    case Name(before, _, _, _, after) =>
      CoreShape(w);
      Trimmed(before, Core(w), after);
      ParseCore(w, parseHost);
  }

  /** Pieces joined by any separators. */
  function JoinWith(pieces: seq<string>, separators: seq<char>): string
    requires |pieces| == |separators| + 1
  {
    if |pieces| == 1 then pieces[0] else pieces[0] + [separators[0]] + JoinWith(pieces[1..], separators[1..])
  }

  lemma {:induction false} SplitOne(s: string, c: char, rest: string)
    requires NoSeparator(s) && c in [',', '\n', '\r']
    ensures Split(s + [c] + rest) == [s] + Split(rest)
  {
    var whole := s + [c] + rest;
    if s == "" {
      assert whole[1..] == rest;
    } else {
      SplitOne(s[1..], c, rest);
      assert whole[1..] == s[1..] + [c] + rest;
      assert s == [s[0]] + s[1..];
    }
  }

  lemma {:induction false} SplitJoinWith(pieces: seq<string>, separators: seq<char>)
    requires |pieces| == |separators| + 1
    requires forall i :: 0 <= i < |pieces| ==> NoSeparator(pieces[i])
    requires forall i :: 0 <= i < |separators| ==> separators[i] in [',', '\n', '\r']
    ensures Split(JoinWith(pieces, separators)) == pieces
  {
    if |pieces| == 1 {
      SplitSingle(pieces[0]);
    } else {
      SplitJoinWith(pieces[1..], separators[1..]);
      SplitOne(pieces[0], separators[0], JoinWith(pieces[1..], separators[1..]));
    }
  }

  function WrittenTexts(ws: seq<Written>): (r: seq<string>)
    ensures |r| == |ws| && forall i :: 0 <= i < |r| ==> r[i] == WrittenText(ws[i])
  {
    seq(|ws|, i requires 0 <= i < |ws| => WrittenText(ws[i]))
  }

  /** The meanings of all pieces, or the first error. */
  function Meanings(ws: seq<Written>, parseHost: ParseHost): Result<seq<DomainRule>, ParseError> {
    if ws == [] then Ok([]) else
    match Meanings(ws[..|ws| - 1], parseHost)
    case Err(e) => Err(e)
    case Ok(rules) =>
      match Meaning(ws[|ws| - 1], parseHost)
      case Err(e) => Err(e)
      case Ok(None) => Ok(rules)
      case Ok(Some(rule)) => Ok(rules + [rule])
  }

  lemma {:induction false} ParseAllWritten(ws: seq<Written>, parseHost: ParseHost)
    requires forall i :: 0 <= i < |ws| ==> WellWritten(ws[i])
    ensures ParseAll(WrittenTexts(ws), parseHost) == Meanings(ws, parseHost)
  {
    if ws != [] {
      var n := |ws| - 1;
      ParseAllWritten(ws[..n], parseHost);
      ParseWritten(ws[n], parseHost);
      assert WrittenTexts(ws)[..n] == WrittenTexts(ws[..n]);
      assert WrittenTexts(ws)[n] == WrittenText(ws[n]);
    }
  }

  /**
   * A list in any spelling (separators, blanks, trailing dots, `*.name` or `.name`) is read as the
   * rules it means without repeats, or refused with the first error or for its size.
   */
  lemma ParseAnySpelling(ws: seq<Written>, separators: seq<char>, parseHost: ParseHost)
    requires |ws| == |separators| + 1
    requires forall i :: 0 <= i < |ws| ==> WellWritten(ws[i]) && NoSeparator(WrittenText(ws[i]))
    requires forall i :: 0 <= i < |separators| ==> separators[i] in [',', '\n', '\r']
    ensures var text := JoinWith(WrittenTexts(ws), separators);
            Parsed(text, parseHost)
            == if Utf8Length(text) > 8192 then Err(TooLarge)
               else match Meanings(ws, parseHost)
                    case Err(e) => Err(e)
                    case Ok(rules) => if |Dedup(rules)| > 128 then Err(TooMany) else Ok(Dedup(rules))
  {
    SplitJoinWith(WrittenTexts(ws), separators);
    ParseAllWritten(ws, parseHost);
  }

  /** The length limit counts bytes of UTF-8: lengths add up, and a character takes one to four bytes by its code point. */
  lemma {:induction false} Utf8Adds(a: string, b: string)
    ensures Utf8Length(a + b) == Utf8Length(a) + Utf8Length(b)
  {
    if b == "" {
      assert a + b == a;
    } else {
      var n := |b| - 1;
      Utf8Adds(a, b[..n]);
      assert (a + b)[..|a| + n] == a + b[..n];
    }
  }

  lemma Utf8OfChar(c: char)
    ensures Utf8Length([c]) == if c as int < 0x80 then 1 else if c as int < 0x800 then 2 else if c as int < 0x10000 then 3 else 4
  {
    assert [c][..0] == "";
  }
}
