/** What the unbounded scan sees: exactly what the lines of the readable text files contain, and which files it skips. */
module StaticScan {
  import opened ScanLimits
  import opened StaticAnalysis
  import opened StaticDecision

  /** What a scan of this line records. */
  predicate OnLine(p: Patterns, path: string, n: nat, line: string, e: Event) {
    match e
    case Skip(_) => false
    case Saw(link) => link in p.links(line)
    case Hit(f) => f.rule in RULES && p.matches(f.rule, line) && f.path == path && f.line == n && f.excerpt == p.excerpt(line, 240)
    case Need(kind, evidence) => p.needs(kind, line) && evidence == Evidence(path, n, p.excerpt(line, 140))
  }

  ghost predicate OnLines(p: Patterns, path: string, lines: seq<string>, e: Event) {
    exists k: nat :: k < |lines| && OnLine(p, path, k + 1, lines[k], e)
  }

  predicate IsSkip(e: Event, path: string, reason: Reason) { e == Skip(Skipped(path, reason)) }

  /** What a scan of this file records: that it is skipped, or what is on its lines. */
  ghost predicate InFile(l: Limits, p: Patterns, f: File, e: Event) {
    && p.candidate(f)
    && if |f.content| > l.maxTextBytes then IsSkip(e, f.path, TextSizeLimit)
       else if p.decode(f.content).Undecodable? then IsSkip(e, f.path, NonUtf8)
       else OnLines(p, f.path, p.lines(p.decode(f.content).characters), e)
  }

  lemma {:induction false} LinksSee(links: seq<Link>, e: Event)
    ensures e in Links(links) <==> e.Saw? && e.link in links
  {
    if links != [] {
      var front := links[..|links| - 1];
      LinksSee(front, e);
      assert links == front + [links[|links| - 1]];
    }
  }

  lemma {:induction false} HitsSee(p: Patterns, path: string, n: nat, line: string, rules: seq<Rule>, e: Event)
    ensures e in Hits(p, path, n, line, rules)
            <==> e.Hit? && e.finding.rule in rules && p.matches(e.finding.rule, line)
                 && e.finding == Finding(e.finding.rule, path, n, p.excerpt(line, 240))
  {
    if rules != [] {
      var front := rules[..|rules| - 1];
      HitsSee(p, path, n, line, front, e);
      assert rules == front + [rules[|rules| - 1]];
    }
  }

  lemma {:induction false} NeedsSee(p: Patterns, path: string, n: nat, line: string, kinds: seq<Requirement>, e: Event)
    ensures e in Needs(p, path, n, line, kinds)
            <==> e.Need? && e.kind in kinds && p.needs(e.kind, line) && e.evidence == Evidence(path, n, p.excerpt(line, 140))
  {
    if kinds != [] {
      var front := kinds[..|kinds| - 1];
      NeedsSee(p, path, n, line, front, e);
      assert kinds == front + [kinds[|kinds| - 1]];
    }
  }

  lemma AllRequirements(kind: Requirement)
    ensures kind in REQUIREMENTS
  {
    assert REQUIREMENTS[0] == FilesystemRead && REQUIREMENTS[1] == FilesystemWrite && REQUIREMENTS[2] == ProcessSpawn;
    assert REQUIREMENTS[3] == Network && REQUIREMENTS[4] == Secrets;
  }

  lemma LineSees(p: Patterns, path: string, n: nat, line: string, e: Event)
    ensures e in LineEvents(p, path, n, line) <==> OnLine(p, path, n, line, e)
  {
    LinksSee(p.links(line), e);
    HitsSee(p, path, n, line, RULES, e);
    NeedsSee(p, path, n, line, REQUIREMENTS, e);
    if e.Need? { AllRequirements(e.kind); }
    hide RULES, REQUIREMENTS;
  }

  lemma {:induction false} LinesSee(p: Patterns, path: string, lines: seq<string>, e: Event)
    ensures e in LinesEvents(p, path, lines) <==> OnLines(p, path, lines, e)
  {
    hide LineEvents, OnLine;
    if lines != [] {
      var front := lines[..|lines| - 1];
      LinesSee(p, path, front, e);
      LineSees(p, path, |lines|, lines[|lines| - 1], e);
      if k: nat :| k < |lines| && OnLine(p, path, k + 1, lines[k], e) {
        if k < |front| { assert front[k] == lines[k]; }
      }
      if k: nat :| k < |front| && OnLine(p, path, k + 1, front[k], e) { assert lines[k] == front[k]; }
    }
  }

  lemma FileSees(l: Limits, p: Patterns, f: File, e: Event)
    ensures e in FileEvents(l, p, f) <==> InFile(l, p, f, e)
  {
    hide LinesEvents, OnLines;
    if p.candidate(f) && |f.content| <= l.maxTextBytes && p.decode(f.content).Text? {
      LinesSee(p, f.path, p.lines(p.decode(f.content).characters), e);
    }
  }

  lemma {:induction false} FilesSee(l: Limits, p: Patterns, files: seq<File>, e: Event)
    ensures e in FilesEvents(l, p, files) <==> exists f <- files :: InFile(l, p, f, e)
  {
    hide FileEvents, InFile;
    if files != [] {
      var front, last := files[..|files| - 1], files[|files| - 1];
      FilesSee(l, p, front, e);
      FileSees(l, p, last, e);
      assert files == front + [last];
      if f :| f in front && InFile(l, p, f, e) { assert f in files; }
      if InFile(l, p, last, e) { assert last in files; }
    }
  }

  /** The evidence that a shell in the metadata gives. */
  predicate IsShellNeed(e: Event) {
    e == Need(ProcessSpawn, Evidence("SKILL.md", 1, "allowed-tools includes a shell-capable tool"))
  }

  /** The scan records exactly what its files contain, and that a shell was allowed. */
  lemma ScanSees(l: Limits, p: Patterns, files: seq<File>, shell: bool, e: Event)
    ensures e in ScanEvents(l, p, files, shell) <==> (exists f <- files :: InFile(l, p, f, e)) || (shell && IsShellNeed(e))
  {
    hide FilesEvents, InFile;
    FilesSee(l, p, files, e);
  }

  lemma {:induction false} EventsCollect(events: seq<Event>)
    ensures forall f :: f in AllFindings(events) <==> Hit(f) in events
    ensures forall s :: s in AllSkipped(events) <==> Skip(s) in events
    ensures forall h :: h in AllHosts(events) <==> Saw(Host(h)) in events
    ensures forall kind, e :: e in AllEvidence(kind, events) <==> Need(kind, e) in events
    ensures AllMalformed(events) > 0 <==> Saw(Malformed) in events
  {
    if events != [] {
      var front := events[..|events| - 1];
      EventsCollect(front);
      assert events == front + [events[|events| - 1]];
    }
  }

  /**
   The findings, skipped files, hosts and evidence of the unbounded scan, from which the record keeps its
   part, are exactly those in the files.
   */
  lemma ScanCollects(l: Limits, p: Patterns, files: seq<File>, shell: bool)
    ensures var events := ScanEvents(l, p, files, shell);
            && (forall f :: f in AllFindings(events) <==> exists file <- files :: InFile(l, p, file, Hit(f)))
            && (forall s :: s in AllSkipped(events) <==> exists file <- files :: InFile(l, p, file, Skip(s)))
            && (forall h :: h in AllHosts(events) <==> exists file <- files :: InFile(l, p, file, Saw(Host(h))))
            && (forall kind, e :: e in AllEvidence(kind, events)
                  <==> (exists file <- files :: InFile(l, p, file, Need(kind, e))) || (shell && IsShellNeed(Need(kind, e))))
            && (AllMalformed(events) > 0 <==> exists file <- files :: InFile(l, p, file, Saw(Malformed)))
  {
    hide InFile, ScanEvents;
    var events := ScanEvents(l, p, files, shell);
    EventsCollect(events);
    hide AllFindings, AllSkipped, AllHosts, AllEvidence, AllMalformed;
    forall e ensures e in events <==> (exists f <- files :: InFile(l, p, f, e)) || (shell && IsShellNeed(e)) {
      ScanSees(l, p, files, shell, e);
    }
  }
}
