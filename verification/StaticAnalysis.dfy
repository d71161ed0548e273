/**
 The static analyser: every line of every text file is matched against the rules, with caps on what is
 recorded, and a decision is taken from the record and its truncation flags.
 */
module StaticAnalysis {
  import opened Wrappers
  import opened Bytes
  import opened ScanLimits

  // ----- Rules and given functions --------------------------------------------------------------------

  datatype Severity = Critical | High | Medium | Low

  datatype Rule = Rule(id: string, severity: Severity)

  const RULES: seq<Rule> := [
    Rule("CP001", High), Rule("CP002", Medium), Rule("CP003", Medium), Rule("CP004", Critical),
    Rule("CP005", High), Rule("CP006", High), Rule("CP007", High), Rule("CP008", High),
    Rule("CP009", High), Rule("CP010", Low), Rule("CP011", High), Rule("CP012", Critical)]

  datatype Requirement = FilesystemRead | FilesystemWrite | ProcessSpawn | Network | Secrets

  const REQUIREMENTS := [FilesystemRead, FilesystemWrite, ProcessSpawn, Network, Secrets]

  /** A URL found in a line: its host in lower case, if it has one and can be parsed. */
  datatype Link = Malformed | NoHost | Host(name: string)

  datatype File = File(path: string, content: Octets)

  /**
   What the patterns and Python's text library compute: which files are text, their characters and
   lines, and what a line matches, links to, needs and looks like in the report.
   */
  datatype Patterns = Patterns(
    candidate: File -> bool,
    decode: Octets -> Text,
    lines: string -> seq<string>,
    matches: (Rule, string) -> bool,
    links: string -> seq<Link>,
    needs: (Requirement, string) -> bool,
    excerpt: (string, nat) -> string)

  // ----- What the scan sees ------------------------------------------------------------------------------

  const FINDING_EXCERPT := 240
  const EVIDENCE_EXCERPT := 140

  datatype Finding = Finding(rule: Rule, path: string, line: nat, excerpt: string)

  datatype Evidence = Evidence(path: string, line: nat, excerpt: string)

  datatype Reason = TextSizeLimit | NonUtf8

  datatype Skipped = Skipped(path: string, reason: Reason)

  /** One thing to record. */
  datatype Event = Skip(skipped: Skipped) | Saw(link: Link) | Hit(finding: Finding) | Need(kind: Requirement, evidence: Evidence)

  function Links(links: seq<Link>): seq<Event> {
    if links == [] then [] else Links(links[..|links| - 1]) + [Saw(links[|links| - 1])]
  }

  function Hits(p: Patterns, path: string, n: nat, line: string, rules: seq<Rule>): seq<Event> {
    if rules == [] then []
    else
      var rule := rules[|rules| - 1];
      Hits(p, path, n, line, rules[..|rules| - 1])
      + if p.matches(rule, line) then [Hit(Finding(rule, path, n, p.excerpt(line, FINDING_EXCERPT)))] else []
  }

  function Needs(p: Patterns, path: string, n: nat, line: string, kinds: seq<Requirement>): seq<Event> {
    if kinds == [] then []
    else
      var kind := kinds[|kinds| - 1];
      Needs(p, path, n, line, kinds[..|kinds| - 1])
      + if p.needs(kind, line) then [Need(kind, Evidence(path, n, p.excerpt(line, EVIDENCE_EXCERPT)))] else []
  }

  function LineEvents(p: Patterns, path: string, n: nat, line: string): seq<Event> {
    Links(p.links(line)) + Hits(p, path, n, line, RULES) + Needs(p, path, n, line, REQUIREMENTS)
  }

  function LinesEvents(p: Patterns, path: string, lines: seq<string>): seq<Event> {
    if lines == [] then []
    else LinesEvents(p, path, lines[..|lines| - 1]) + LineEvents(p, path, |lines|, lines[|lines| - 1])
  }

  function FileEvents(l: Limits, p: Patterns, f: File): seq<Event> {
    if !p.candidate(f) then []
    else if |f.content| > l.maxTextBytes then [Skip(Skipped(f.path, TextSizeLimit))]
    else
      match p.decode(f.content)
      case Undecodable => [Skip(Skipped(f.path, NonUtf8))]
      case Text(characters) => LinesEvents(p, f.path, p.lines(characters))
  }

  function FilesEvents(l: Limits, p: Patterns, files: seq<File>): seq<Event> {
    if files == [] then [] else FilesEvents(l, p, files[..|files| - 1]) + FileEvents(l, p, files[|files| - 1])
  }

  /** A skill whose metadata allows a shell needs processes, whatever its files say. */
  function ScanEvents(l: Limits, p: Patterns, files: seq<File>, shell: bool): seq<Event> {
    FilesEvents(l, p, files)
    + if shell then [Need(ProcessSpawn, Evidence(SKILL_MD, 1, "allowed-tools includes a shell-capable tool"))] else []
  }

  // ----- The bounded record ---------------------------------------------------------------------------------

  datatype Record = Record(
    findings: seq<Finding>,
    perRule: map<string, nat>,
    skipped: seq<Skipped>,
    hosts: set<string>,
    evidence: map<Requirement, seq<Evidence>>,
    evidenceLimits: set<Requirement>,
    malformed: nat,
    findingLimit: bool,
    perRuleLimit: bool,
    hostLimit: bool)

  const EMPTY := Record([], map[], [], {}, map[], {}, 0, false, false, false)

  function CountOf(perRule: map<string, nat>, id: string): nat { if id in perRule then perRule[id] else 0 }

  function EvidenceFor(evidence: map<Requirement, seq<Evidence>>, kind: Requirement): seq<Evidence> {
    if kind in evidence then evidence[kind] else []
  }

  function AddFinding(l: Limits, s: Record, f: Finding): Record {
    if |s.findings| >= l.maxFindings then s.(findingLimit := true)
    else if CountOf(s.perRule, f.rule.id) >= l.maxFindingsPerRule then s.(perRuleLimit := true)
    else s.(findings := s.findings + [f], perRule := s.perRule[f.rule.id := CountOf(s.perRule, f.rule.id) + 1])
  }

  function AddLink(l: Limits, s: Record, link: Link): Record {
    match link
    case Malformed => s.(malformed := s.malformed + 1)
    case NoHost => s
    case Host(name) =>
      if name in s.hosts then s
      else if |s.hosts| >= l.maxReferencedHosts then s.(hostLimit := true)
      else s.(hosts := s.hosts + {name})
  }

  function AddRequirement(l: Limits, s: Record, kind: Requirement, e: Evidence): Record {
    var known := EvidenceFor(s.evidence, kind);
    if |known| >= l.maxRequirementEvidencePerKind then s.(evidenceLimits := s.evidenceLimits + {kind})
    else s.(evidence := s.evidence[kind := known + [e]])
  }

  function Apply(l: Limits, s: Record, e: Event): Record {
    match e
    case Skip(skipped) => s.(skipped := s.skipped + [skipped])
    case Saw(link) => AddLink(l, s, link)
    case Hit(finding) => AddFinding(l, s, finding)
    case Need(kind, evidence) => AddRequirement(l, s, kind, evidence)
  }

  function Fold(l: Limits, s: Record, events: seq<Event>): Record {
    if events == [] then s else Apply(l, Fold(l, s, events[..|events| - 1]), events[|events| - 1])
  }

  lemma {:induction false} FoldAppends(l: Limits, s: Record, a: seq<Event>, b: seq<Event>)
    ensures Fold(l, s, a + b) == Fold(l, Fold(l, s, a), b)
    decreases |b|
  {
    if b == [] {
      assert a + b == a;
    } else {
      assert (a + b)[..|a + b| - 1] == a + b[..|b| - 1];
      FoldAppends(l, s, a, b[..|b| - 1]);
    }
  }

  lemma FoldOne(l: Limits, s: Record, a: seq<Event>, e: Event)
    ensures Fold(l, s, a + [e]) == Apply(l, Fold(l, s, a), e)
  {
    assert (a + [e])[..|a|] == a;
  }

  /** One line: its links, then the rules, then what it needs. */
  method ScanLine(l: Limits, p: Patterns, path: string, n: nat, line: string, before: Record) returns (s: Record)
    ensures s == Fold(l, before, LineEvents(p, path, n, line))
  {
    hide Fold, EvidenceFor, AddRequirement;
    s := before;
    FoldNothing(l, before);
    var links := p.links(line);
    ghost var seen: seq<Event> := [];
    for i := 0 to |links|
      invariant seen == Links(links[..i]) && s == Fold(l, before, seen)
    {
      assert links[..i + 1][..i] == links[..i];
      FoldOne(l, before, seen, Saw(links[i]));
      seen := seen + [Saw(links[i])];
      match links[i] {
        case Malformed => s := s.(malformed := s.malformed + 1);
        case NoHost =>
        case Host(name) =>
          if name !in s.hosts {
            if |s.hosts| >= l.maxReferencedHosts { s := s.(hostLimit := true); } else { s := s.(hosts := s.hosts + {name}); }
          }
      }
    }
    assert links[..|links|] == links;
    ghost var base := seen;
    for i := 0 to |RULES|
      invariant seen == base + Hits(p, path, n, line, RULES[..i]) && s == Fold(l, before, seen)
    {
      var rule := RULES[i];
      assert RULES[..i + 1][..i] == RULES[..i];
      if !p.matches(rule, line) { continue; }
      ghost var e := Hit(Finding(rule, path, n, p.excerpt(line, FINDING_EXCERPT)));
      FoldOne(l, before, seen, e);
      seen := seen + [e];
      if |s.findings| >= l.maxFindings {
        s := s.(findingLimit := true);
        continue;
      }
      if CountOf(s.perRule, rule.id) >= l.maxFindingsPerRule {
        s := s.(perRuleLimit := true);
        continue;
      }
      s := s.(findings := s.findings + [Finding(rule, path, n, p.excerpt(line, FINDING_EXCERPT))],
              perRule := s.perRule[rule.id := CountOf(s.perRule, rule.id) + 1]);
    }
    assert RULES[..|RULES|] == RULES;
    base := seen;
    for i := 0 to |REQUIREMENTS|
      invariant seen == base + Needs(p, path, n, line, REQUIREMENTS[..i]) && s == Fold(l, before, seen)
    {
      assert REQUIREMENTS[..i + 1][..i] == REQUIREMENTS[..i];
      if p.needs(REQUIREMENTS[i], line) {
        var evidence := Evidence(path, n, p.excerpt(line, EVIDENCE_EXCERPT));
        FoldOne(l, before, seen, Need(REQUIREMENTS[i], evidence));
        seen := seen + [Need(REQUIREMENTS[i], evidence)];
        s := AddRequirement(l, s, REQUIREMENTS[i], evidence);
      }
    }
    assert REQUIREMENTS[..|REQUIREMENTS|] == REQUIREMENTS;
  }

  lemma FoldNothing(l: Limits, s: Record)
    ensures Fold(l, s, []) == s
  {
  }

  /** The lines of one file, in order. */
  method ScanLines(l: Limits, p: Patterns, path: string, lines: seq<string>, before: Record) returns (s: Record)
    ensures s == Fold(l, before, LinesEvents(p, path, lines))
  {
    hide Fold, LineEvents;
    s := before;
    FoldNothing(l, before);
    for j := 0 to |lines|
      invariant s == Fold(l, before, LinesEvents(p, path, lines[..j]))
    {
      assert lines[..j + 1][..j] == lines[..j];
      s := ScanLine(l, p, path, j + 1, lines[j], s);
      FoldAppends(l, before, LinesEvents(p, path, lines[..j]), LineEvents(p, path, j + 1, lines[j]));
    }
    assert lines[..|lines|] == lines;
  }

  method AnalyzeStatic(l: Limits, p: Patterns, files: seq<File>, shell: bool) returns (s: Record)
    ensures s == Fold(l, EMPTY, ScanEvents(l, p, files, shell))
  {
    hide Fold, LinesEvents;
    s := EMPTY;
    FoldNothing(l, EMPTY);
    ghost var seen: seq<Event> := [];
    for i := 0 to |files|
      invariant seen == FilesEvents(l, p, files[..i]) && s == Fold(l, EMPTY, seen)
    {
      var item := files[i];
      assert files[..i + 1][..i] == files[..i];
      if !p.candidate(item) { continue; }
      if |item.content| > l.maxTextBytes {
        FoldOne(l, EMPTY, seen, Skip(Skipped(item.path, TextSizeLimit)));
        seen := seen + [Skip(Skipped(item.path, TextSizeLimit))];
        s := s.(skipped := s.skipped + [Skipped(item.path, TextSizeLimit)]);
        continue;
      }
      var text := p.decode(item.content);
      if text.Undecodable? {
        FoldOne(l, EMPTY, seen, Skip(Skipped(item.path, NonUtf8)));
        seen := seen + [Skip(Skipped(item.path, NonUtf8))];
        s := s.(skipped := s.skipped + [Skipped(item.path, NonUtf8)]);
        continue;
      }
      s := ScanLines(l, p, item.path, p.lines(text.characters), s);
      FoldAppends(l, EMPTY, seen, LinesEvents(p, item.path, p.lines(text.characters)));
      seen := seen + LinesEvents(p, item.path, p.lines(text.characters));
    }
    assert files[..|files|] == files && seen + [] == seen;
    if shell {
      var evidence := Evidence(SKILL_MD, 1, "allowed-tools includes a shell-capable tool");
      FoldOne(l, EMPTY, seen, Need(ProcessSpawn, evidence));
      s := AddRequirement(l, s, ProcessSpawn, evidence);
    }
  }
}
