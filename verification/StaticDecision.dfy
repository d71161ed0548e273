/**
 The bounded record of the analyser compared with an unbounded scan, and the decision that is taken
 from the record.
 */
module StaticDecision {
  import opened Bytes
  import opened MapSums
  import opened ScanLimits
  import opened StaticAnalysis

  // ----- The unbounded scan ---------------------------------------------------------------------------

  function AllFindings(events: seq<Event>): seq<Finding> {
    if events == [] then []
    else
      var e := events[|events| - 1];
      AllFindings(events[..|events| - 1]) + if e.Hit? then [e.finding] else []
  }

  function AllSkipped(events: seq<Event>): seq<Skipped> {
    if events == [] then []
    else
      var e := events[|events| - 1];
      AllSkipped(events[..|events| - 1]) + if e.Skip? then [e.skipped] else []
  }

  function AllHosts(events: seq<Event>): set<string> {
    if events == [] then {}
    else
      var e := events[|events| - 1];
      AllHosts(events[..|events| - 1]) + if e.Saw? && e.link.Host? then {e.link.name} else {}
  }

  function AllMalformed(events: seq<Event>): nat {
    if events == [] then 0
    else
      var e := events[|events| - 1];
      AllMalformed(events[..|events| - 1]) + if e.Saw? && e.link.Malformed? then 1 else 0
  }

  function AllEvidence(kind: Requirement, events: seq<Event>): seq<Evidence> {
    if events == [] then []
    else
      var e := events[|events| - 1];
      AllEvidence(kind, events[..|events| - 1]) + if e.Need? && e.kind == kind then [e.evidence] else []
  }

  /** The findings of one rule, in order. */
  function Of(id: string, findings: seq<Finding>): seq<Finding> {
    if findings == [] then []
    else
      var f := findings[|findings| - 1];
      Of(id, findings[..|findings| - 1]) + if f.rule.id == id then [f] else []
  }

  lemma OfOne(id: string, findings: seq<Finding>, f: Finding)
    ensures Of(id, findings + [f]) == Of(id, findings) + if f.rule.id == id then [f] else []
  {
    assert (findings + [f])[..|findings|] == findings;
  }

  lemma {:induction false} OfIsShorter(id: string, findings: seq<Finding>)
    ensures |Of(id, findings)| <= |findings|
  {
    if findings != [] { OfIsShorter(id, findings[..|findings| - 1]); }
  }

  // ----- The record against the scan ----------------------------------------------------------------------

  /** A rule's kept findings are its first matches; a rule that lost one is full, or the record is. */
  ghost predicate RuleKept(l: Limits, s: Record, all: seq<Finding>, id: string) {
    var kept := Of(id, s.findings);
    && CountOf(s.perRule, id) == |kept| <= l.maxFindingsPerRule
    && kept <= Of(id, all)
    && (kept != Of(id, all) ==> |s.findings| == l.maxFindings || |kept| == l.maxFindingsPerRule)
  }

  ghost predicate Overfull(l: Limits, all: seq<Finding>) {
    |all| > l.maxFindings || exists id :: |Of(id, all)| > l.maxFindingsPerRule
  }

  ghost predicate FindingsKept(l: Limits, s: Record, all: seq<Finding>) {
    && |s.findings| <= l.maxFindings && |s.findings| <= |all|
    && (forall id :: RuleKept(l, s, all, id))
    && (s.findingLimit || s.perRuleLimit <==> Overfull(l, all))
    && (s.findingLimit || s.perRuleLimit <==> s.findings != all)
  }

  ghost predicate HostsKept(l: Limits, s: Record, all: set<string>) {
    && s.hosts <= all && |s.hosts| <= l.maxReferencedHosts
    && (s.hostLimit <==> |all| > l.maxReferencedHosts)
    && (s.hostLimit <==> s.hosts != all)
  }

  /** The evidence of a kind is the first of its occurrences, up to the cap. */
  ghost predicate EvidenceKept(l: Limits, s: Record, kind: Requirement, all: seq<Evidence>) {
    var cap := l.maxRequirementEvidencePerKind;
    && EvidenceFor(s.evidence, kind) == (if |all| <= cap then all else all[..cap])
    && (kind in s.evidenceLimits <==> |all| > cap)
  }

  lemma RuleStillKept(l: Limits, s: Record, all: seq<Finding>, f: Finding, id: string)
    requires |s.findings| <= l.maxFindings && RuleKept(l, s, all, id) && RuleKept(l, s, all, f.rule.id)
    ensures RuleKept(l, AddFinding(l, s, f), all + [f], id)
  {
    OfOne(id, all, f);
    OfOne(id, s.findings, f);
    hide Of;
  }

  lemma RulesKept(l: Limits, s: Record, all: seq<Finding>, f: Finding)
    requires FindingsKept(l, s, all)
    ensures forall id :: RuleKept(l, AddFinding(l, s, f), all + [f], id)
  {
    hide RuleKept, Of;
    forall id ensures RuleKept(l, AddFinding(l, s, f), all + [f], id) {
      assert RuleKept(l, s, all, id) && RuleKept(l, s, all, f.rule.id);
      RuleStillKept(l, s, all, f, id);
    }
  }

  lemma FindingAdded(l: Limits, s: Record, all: seq<Finding>, f: Finding)
    requires FindingsKept(l, s, all)
    ensures FindingsKept(l, AddFinding(l, s, f), all + [f])
  {
    RulesKept(l, s, all, f);
    if s.findingLimit || s.perRuleLimit {
      OverfullGrows(l, all, f);
      assert s.findings != all && s.findings != all + [f] && s.findings + [f] != all + [f] by {
        assert |s.findings| <= |all| < |all + [f]|;
        assert (s.findings + [f])[..|s.findings|] == s.findings && (all + [f])[..|all|] == all;
      }
    } else if AddFinding(l, s, f).findings == s.findings {
      FirstLoss(l, s, all, f);
    } else {
      NoLoss(l, AddFinding(l, s, f), all + [f]);
    }
  }

  lemma FirstLoss(l: Limits, s: Record, all: seq<Finding>, f: Finding)
    requires FindingsKept(l, s, all) && s.findings == all && AddFinding(l, s, f).findings == s.findings
    ensures Overfull(l, all + [f])
  {
    assert RuleKept(l, s, all, f.rule.id);
    OfOne(f.rule.id, all, f);
    if |all| < l.maxFindings { assert |Of(f.rule.id, all + [f])| > l.maxFindingsPerRule; }
  }

  lemma NoLoss(l: Limits, t: Record, all: seq<Finding>)
    requires t.findings == all && |all| <= l.maxFindings && forall id :: RuleKept(l, t, all, id)
    ensures !Overfull(l, all)
  {
    forall id ensures |Of(id, all)| <= l.maxFindingsPerRule { assert RuleKept(l, t, all, id); }
  }

  lemma OverfullGrows(l: Limits, all: seq<Finding>, f: Finding)
    requires Overfull(l, all)
    ensures Overfull(l, all + [f])
  {
    if |all| <= l.maxFindings {
      var id :| |Of(id, all)| > l.maxFindingsPerRule;
      OfOne(id, all, f);
      assert |Of(id, all + [f])| > l.maxFindingsPerRule;
    }
  }

  lemma HostAdded(l: Limits, s: Record, all: set<string>, name: string)
    requires HostsKept(l, s, all)
    ensures HostsKept(l, AddLink(l, s, Host(name)), all + {name})
  {
    SubsetSize(s.hosts + {name}, all + {name});
    SubsetSize(all, all + {name});
  }

  lemma EvidenceAdded(l: Limits, s: Record, kind: Requirement, all: seq<Evidence>, e: Evidence)
    requires EvidenceKept(l, s, kind, all)
    ensures EvidenceKept(l, AddRequirement(l, s, kind, e), kind, all + [e])
  {
  }

  lemma FindingStep(l: Limits, s: Record, all: seq<Finding>, e: Event)
    requires FindingsKept(l, s, all)
    ensures FindingsKept(l, Apply(l, s, e), all + if e.Hit? then [e.finding] else [])
  {
    hide FindingsKept, AddFinding;
    if e.Hit? {
      FindingAdded(l, s, all, e.finding);
    } else {
      SameFindings(l, s, Apply(l, s, e), all);
      assert all + [] == all;
    }
  }

  lemma {:induction false} FindingsAreKept(l: Limits, events: seq<Event>)
    ensures FindingsKept(l, Fold(l, EMPTY, events), AllFindings(events))
  {
    hide FindingsKept, Apply;
    if events == [] {
      NothingFound(l);
    } else {
      FindingsAreKept(l, events[..|events| - 1]);
      FindingStep(l, Fold(l, EMPTY, events[..|events| - 1]), AllFindings(events[..|events| - 1]), events[|events| - 1]);
    }
  }

  lemma NothingFound(l: Limits)
    ensures FindingsKept(l, EMPTY, [])
  {
    assert forall id :: Of(id, []) == [] && RuleKept(l, EMPTY, [], id);
  }

  lemma SameFindings(l: Limits, s: Record, t: Record, all: seq<Finding>)
    requires FindingsKept(l, s, all) && t.findings == s.findings && t.perRule == s.perRule
    requires t.findingLimit == s.findingLimit && t.perRuleLimit == s.perRuleLimit
    ensures FindingsKept(l, t, all)
  {
    forall id ensures RuleKept(l, t, all, id) { assert RuleKept(l, s, all, id); }
  }

  lemma SkipStep(l: Limits, s: Record, e: Event)
    ensures var t := Apply(l, s, e);
            && t.skipped == s.skipped + (if e.Skip? then [e.skipped] else [])
            && t.malformed == s.malformed + (if e.Saw? && e.link.Malformed? then 1 else 0)
  {
  }

  lemma {:induction false} SkipsAreKept(l: Limits, events: seq<Event>)
    ensures var s := Fold(l, EMPTY, events);
            s.skipped == AllSkipped(events) && s.malformed == AllMalformed(events)
  {
    hide Apply;
    if events != [] {
      SkipsAreKept(l, events[..|events| - 1]);
      SkipStep(l, Fold(l, EMPTY, events[..|events| - 1]), events[|events| - 1]);
    }
  }

  lemma HostStep(l: Limits, s: Record, all: set<string>, e: Event)
    requires HostsKept(l, s, all)
    ensures HostsKept(l, Apply(l, s, e), all + if e.Saw? && e.link.Host? then {e.link.name} else {})
  {
    if e.Saw? && e.link.Host? { HostAdded(l, s, all, e.link.name); } else { assert all + {} == all; }
  }

  lemma {:induction false} HostsAreKept(l: Limits, events: seq<Event>)
    ensures HostsKept(l, Fold(l, EMPTY, events), AllHosts(events))
  {
    if events != [] {
      hide Apply, HostsKept;
      HostsAreKept(l, events[..|events| - 1]);
      HostStep(l, Fold(l, EMPTY, events[..|events| - 1]), AllHosts(events[..|events| - 1]), events[|events| - 1]);
    }
  }

  lemma EvidenceStep(l: Limits, s: Record, kind: Requirement, all: seq<Evidence>, e: Event)
    requires EvidenceKept(l, s, kind, all)
    ensures EvidenceKept(l, Apply(l, s, e), kind, all + if e.Need? && e.kind == kind then [e.evidence] else [])
  {
    if e.Need? && e.kind == kind { EvidenceAdded(l, s, kind, all, e.evidence); } else { assert all + [] == all; }
  }

  lemma {:induction false} EvidenceIsKept(l: Limits, events: seq<Event>, kind: Requirement)
    ensures EvidenceKept(l, Fold(l, EMPTY, events), kind, AllEvidence(kind, events))
  {
    if events != [] {
      hide Apply, EvidenceKept;
      var front, e := events[..|events| - 1], events[|events| - 1];
      EvidenceIsKept(l, front, kind);
      EvidenceStep(l, Fold(l, EMPTY, front), kind, AllEvidence(kind, front), e);
    }
  }

  /**
   What the bounded record keeps of the unbounded scan, and what its flags say: a flag is raised exactly
   when something was lost, which happens exactly when the scan exceeds a cap.
   */
  lemma RecordSummarizes(l: Limits, p: Patterns, files: seq<File>, shell: bool)
    ensures var events := ScanEvents(l, p, files, shell);
            var s := Fold(l, EMPTY, events);
            && FindingsKept(l, s, AllFindings(events))
            && HostsKept(l, s, AllHosts(events))
            && s.skipped == AllSkipped(events) && s.malformed == AllMalformed(events)
            && forall kind :: EvidenceKept(l, s, kind, AllEvidence(kind, events))
  {
    hide Fold, FindingsKept, HostsKept, EvidenceKept;
    var events := ScanEvents(l, p, files, shell);
    FindingsAreKept(l, events);
    HostsAreKept(l, events);
    SkipsAreKept(l, events);
    forall kind ensures EvidenceKept(l, Fold(l, EMPTY, events), kind, AllEvidence(kind, events)) {
      EvidenceIsKept(l, events, kind);
    }
  }

  // ----- The files themselves -----------------------------------------------------------------------------

  predicate IsSevere(rule: Rule) { rule.severity == Critical || rule.severity == High }

  /** The twelve rules and which of them are severe: all but the second, the third and the tenth. */
  lemma SevereRules(i: nat)
    requires i < 12
    ensures |RULES| == 12 && RULES[i].id[..3] == "CP0"
    ensures RULES[i].id[3..] == ["01", "02", "03", "04", "05", "06", "07", "08", "09", "10", "11", "12"][i]
    ensures IsSevere(RULES[i]) <==> i != 1 && i != 2 && i != 9
  {
    RuleNames(i);
  }

  lemma RuleNames(i: nat)
    requires i < 12
    ensures RULES[i].id == "CP0" + ["01", "02", "03", "04", "05", "06", "07", "08", "09", "10", "11", "12"][i]
  {
  }

  /** A text file that the analyser can read in full. */
  predicate Readable(l: Limits, p: Patterns, f: File) { |f.content| <= l.maxTextBytes && p.decode(f.content).Text? }

  ghost predicate AllReadable(l: Limits, p: Patterns, files: seq<File>) {
    forall f <- files :: p.candidate(f) ==> Readable(l, p, f)
  }

  /** No line of the text matches a rule of high or critical severity. */
  ghost predicate HarmlessText(p: Patterns, characters: string) {
    forall line <- p.lines(characters), rule <- RULES :: IsSevere(rule) ==> !p.matches(rule, line)
  }

  /** No text file that can be decoded, of whatever size, has a line that matches a severe rule. */
  ghost predicate Harmless(p: Patterns, files: seq<File>) {
    forall f <- files :: p.candidate(f) && p.decode(f.content).Text? ==> HarmlessText(p, p.decode(f.content).characters)
  }

  ghost predicate NoneSevere(findings: seq<Finding>) { forall f <- findings :: !IsSevere(f.rule) }

  lemma NothingSevere()
    ensures NoneSevere([])
  {
  }

  lemma {:induction false} FindingsAppend(a: seq<Event>, b: seq<Event>)
    ensures AllFindings(a + b) == AllFindings(a) + AllFindings(b)
    ensures AllSkipped(a + b) == AllSkipped(a) + AllSkipped(b)
    decreases |b|
  {
    if b == [] {
      assert a + b == a;
    } else {
      assert (a + b)[..|a + b| - 1] == a + b[..|b| - 1];
      FindingsAppend(a, b[..|b| - 1]);
    }
  }

  lemma {:induction false} LinksFindNothing(links: seq<Link>)
    ensures AllFindings(Links(links)) == [] && AllSkipped(Links(links)) == []
  {
    if links != [] {
      LinksFindNothing(links[..|links| - 1]);
      assert Links(links)[..|Links(links)| - 1] == Links(links[..|links| - 1]);
    }
  }

  lemma {:induction false} NeedsFindNothing(p: Patterns, path: string, n: nat, line: string, kinds: seq<Requirement>)
    ensures AllFindings(Needs(p, path, n, line, kinds)) == [] && AllSkipped(Needs(p, path, n, line, kinds)) == []
  {
    if kinds != [] {
      var front := Needs(p, path, n, line, kinds[..|kinds| - 1]);
      NeedsFindNothing(p, path, n, line, kinds[..|kinds| - 1]);
      var all := Needs(p, path, n, line, kinds);
      if |all| > |front| { assert all[..|all| - 1] == front; } else { assert all == front; }
    }
  }

  lemma {:induction false} HitsFind(p: Patterns, path: string, n: nat, line: string, rules: seq<Rule>)
    ensures var hits := Hits(p, path, n, line, rules);
            && AllSkipped(hits) == []
            && (NoneSevere(AllFindings(hits)) <==> forall rule <- rules :: IsSevere(rule) ==> !p.matches(rule, line))
  {
    if rules != [] {
      var front, rule := rules[..|rules| - 1], rules[|rules| - 1];
      HitsFind(p, path, n, line, front);
      assert rules == front + [rule];
      var hits := Hits(p, path, n, line, front);
      if p.matches(rule, line) {
        var f := Finding(rule, path, n, p.excerpt(line, FINDING_EXCERPT));
        FindingsAppend(hits, [Hit(f)]);
        SevereAppend(AllFindings(hits), f);
      } else {
        assert hits + [] == hits;
      }
    }
  }

  lemma SevereAppend(findings: seq<Finding>, f: Finding)
    ensures NoneSevere(findings + [f]) <==> NoneSevere(findings) && !IsSevere(f.rule)
    ensures AllFindings([Hit(f)]) == [f] && AllSkipped([Hit(f)]) == []
  {
    assert [Hit(f)][..0] == [];
    assert f in findings + [f] && forall x <- findings :: x in findings + [f];
  }

  lemma SevereConcat(a: seq<Finding>, b: seq<Finding>)
    ensures NoneSevere(a + b) <==> NoneSevere(a) && NoneSevere(b)
  {
    assert (forall x <- a :: x in a + b) && forall x <- b :: x in a + b;
  }

  lemma LineFinds(p: Patterns, path: string, n: nat, line: string)
    ensures var events := LineEvents(p, path, n, line);
            && AllSkipped(events) == []
            && (NoneSevere(AllFindings(events)) <==> forall rule <- RULES :: IsSevere(rule) ==> !p.matches(rule, line))
  {
    var a, b, c := Links(p.links(line)), Hits(p, path, n, line, RULES), Needs(p, path, n, line, REQUIREMENTS);
    LinksFindNothing(p.links(line));
    HitsFind(p, path, n, line, RULES);
    NeedsFindNothing(p, path, n, line, REQUIREMENTS);
    FindingsAppend(a, b);
    FindingsAppend(a + b, c);
    assert [] + AllFindings(b) + [] == AllFindings(b);
  }

  lemma {:induction false} LinesFind(p: Patterns, path: string, lines: seq<string>)
    ensures var events := LinesEvents(p, path, lines);
            && AllSkipped(events) == []
            && (NoneSevere(AllFindings(events))
                <==> forall line <- lines, rule <- RULES :: IsSevere(rule) ==> !p.matches(rule, line))
  {
    hide LineEvents, NoneSevere;
    if lines == [] {
      NothingSevere();
    } else {
      var front, line := lines[..|lines| - 1], lines[|lines| - 1];
      LinesFind(p, path, front);
      LineFinds(p, path, |lines|, line);
      assert lines == front + [line];
      FindingsAppend(LinesEvents(p, path, front), LineEvents(p, path, |lines|, line));
      SevereConcat(AllFindings(LinesEvents(p, path, front)), AllFindings(LineEvents(p, path, |lines|, line)));
    }
  }

  lemma FileFinds(l: Limits, p: Patterns, f: File)
    ensures var events := FileEvents(l, p, f);
            && (AllSkipped(events) == [] <==> (p.candidate(f) ==> Readable(l, p, f)))
            && (AllSkipped(events) == []
                ==> (NoneSevere(AllFindings(events))
                     <==> (p.candidate(f) ==> HarmlessText(p, p.decode(f.content).characters))))
  {
    if p.candidate(f) && Readable(l, p, f) { LinesFind(p, f.path, p.lines(p.decode(f.content).characters)); }
  }

  lemma {:induction false} FilesFind(l: Limits, p: Patterns, files: seq<File>)
    ensures var events := FilesEvents(l, p, files);
            && (AllSkipped(events) == [] <==> AllReadable(l, p, files))
            && (AllSkipped(events) == [] ==> (NoneSevere(AllFindings(events)) <==> Harmless(p, files)))
  {
    hide FileEvents, HarmlessText, NoneSevere;
    if files == [] {
      NothingSevere();
    } else {
      var front, f := files[..|files| - 1], files[|files| - 1];
      FilesFind(l, p, front);
      FileFinds(l, p, f);
      assert files == front + [f];
      FindingsAppend(FilesEvents(l, p, front), FileEvents(l, p, f));
      SevereConcat(AllFindings(FilesEvents(l, p, front)), AllFindings(FileEvents(l, p, f)));
    }
  }

  // ----- The decision --------------------------------------------------------------------------------------

  datatype Decision = RejectStructural | ReviewRequired | Eligible

  /** `_decision`, with what the manifests' dependencies came to. */
  function Decide(structureValid: bool, s: Record, manifestFailures: nat, dependencyLimit: bool): Decision {
    if !structureValid then RejectStructural
    else if exists f <- s.findings :: IsSevere(f.rule) then ReviewRequired
    else if s.skipped != [] || manifestFailures > 0 || s.findingLimit || s.perRuleLimit || dependencyLimit
            || s.hostLimit || s.malformed > 0 || s.evidenceLimits != {} then ReviewRequired
    else Eligible
  }

  /** The unbounded scan stays within every cap. */
  ghost predicate FitsCaps(l: Limits, events: seq<Event>) {
    && !Overfull(l, AllFindings(events))
    && |AllHosts(events)| <= l.maxReferencedHosts
    && AllMalformed(events) == 0
    && forall kind :: |AllEvidence(kind, events)| <= l.maxRequirementEvidencePerKind
  }

  lemma NoEvidenceLost(l: Limits, s: Record, events: seq<Event>)
    requires forall kind :: EvidenceKept(l, s, kind, AllEvidence(kind, events))
    ensures s.evidenceLimits == {} <==> forall kind :: |AllEvidence(kind, events)| <= l.maxRequirementEvidencePerKind
  {
    forall kind ensures kind in s.evidenceLimits <==> |AllEvidence(kind, events)| > l.maxRequirementEvidencePerKind {
      assert EvidenceKept(l, s, kind, AllEvidence(kind, events));
    }
    if s.evidenceLimits != {} {
      var kind :| kind in s.evidenceLimits;
      assert |AllEvidence(kind, events)| > l.maxRequirementEvidencePerKind;
    }
  }

  lemma HostLimitMeans(l: Limits, s: Record, all: set<string>)
    requires HostsKept(l, s, all)
    ensures s.hostLimit <==> |all| > l.maxReferencedHosts
  {
  }

  lemma ShellFindsNothing(l: Limits, p: Patterns, files: seq<File>, shell: bool)
    ensures AllFindings(ScanEvents(l, p, files, shell)) == AllFindings(FilesEvents(l, p, files))
    ensures AllSkipped(ScanEvents(l, p, files, shell)) == AllSkipped(FilesEvents(l, p, files))
  {
    var extra := if shell then [Need(ProcessSpawn, Evidence(SKILL_MD, 1, "allowed-tools includes a shell-capable tool"))] else [];
    FindingsAppend(FilesEvents(l, p, files), extra);
    assert shell ==> extra[..0] == [];
    assert AllFindings(extra) == [] && AllSkipped(extra) == [];
  }

  /**
   A skill is eligible exactly when its structure and manifests are in order, every text file could be
   read in full, no line of any of them matches a severe rule, and the unbounded scan exceeds no cap.
   */
  lemma EligibleMeans(l: Limits, p: Patterns, files: seq<File>, shell: bool, structureValid: bool,
                      manifestFailures: nat, dependencyLimit: bool)
    ensures var events := ScanEvents(l, p, files, shell);
            Decide(structureValid, Fold(l, EMPTY, events), manifestFailures, dependencyLimit) == Eligible
            <==> && structureValid && manifestFailures == 0 && !dependencyLimit
                 && AllReadable(l, p, files) && Harmless(p, files) && FitsCaps(l, events)
    ensures Decide(structureValid, Fold(l, EMPTY, ScanEvents(l, p, files, shell)), manifestFailures, dependencyLimit) == RejectStructural
            <==> !structureValid
  {
    hide Fold, HostsKept, RuleKept, Overfull, AllReadable, Harmless;
    var events := ScanEvents(l, p, files, shell);
    var s := Fold(l, EMPTY, events);
    RecordSummarizes(l, p, files, shell);
    NoEvidenceLost(l, s, events);
    ShellFindsNothing(l, p, files, shell);
    FilesFind(l, p, files);
    HostLimitMeans(l, s, AllHosts(events));
    assert (exists f <- s.findings :: IsSevere(f.rule)) <==> !NoneSevere(s.findings);
  }
}
