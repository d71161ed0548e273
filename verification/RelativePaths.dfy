/**
 The check of a path inside a frozen source, and the walk from such a path to the top of its tree.
 The walk asks for the parent until it is "."; the check lets absolute paths through, whose parents
 never become ".".
 */
module RelativePaths {
  import opened Wrappers
  import opened PythonBytes
  import opened ScanLimits

  // ----- The check ---------------------------------------------------------------------------------

  predicate IsAbsolute(path: string) { path != "" && path[0] == '/' }

  /** The root of a POSIX path: exactly two leading slashes are a root of their own. */
  function Root(path: string): string {
    if !IsAbsolute(path) then ""
    else if |path| > 1 && path[1] == '/' && (|path| == 2 || path[2] != '/') then "//"
    else "/"
  }

  /** What follows the root. */
  function Body(path: string): string { path[|Root(path)|..] }

  function Names(path: string): seq<string> {
    if Body(path) == "" then [] else SplitOn(Body(path), '/')
  }

  /** The parts of a path; a root is a part. */
  function Parts(path: string): seq<string> { (if Root(path) == "" then [] else [Root(path)]) + Names(path) }

  /** Normalising the path would not change it. */
  predicate IsNormal(path: string) { forall name <- Names(path) :: name != "" && name != "." }

  const VERSION_CONTROL: set<string> := {".git", ".hg", ".svn"}

  const WINDOWS_RESERVED: set<string> := {
    "con", "prn", "aux", "nul",
    "com1", "com2", "com3", "com4", "com5", "com6", "com7", "com8", "com9",
    "lpt1", "lpt2", "lpt3", "lpt4", "lpt5", "lpt6", "lpt7", "lpt8", "lpt9"}

  predicate PortableName(u: Unicode, name: string) {
    && name !in {"", ".", ".."} && u.fold(name) !in VERSION_CONTROL
    && name[|name| - 1] !in {' ', '.'} && |u.encode(name)| <= 255
    && u.fold(SplitOn(name, '.')[0]) !in WINDOWS_RESERVED
  }

  predicate PortableCharacter(c: char) { c != '\\' && c != ':' && c as int >= 32 && c as int != 127 }

  /** `_validate_artifact_relative` */
  predicate ValidRelative(u: Unicode, l: Limits, path: string) {
    && path != ""
    && u.nfc(path) == path
    && (forall c <- path :: PortableCharacter(c))
    && IsNormal(path) && 0 < |Parts(path)| <= l.maxDepth
    && |u.encode(path)| <= l.maxPathBytes
    && forall name <- Parts(path) :: PortableName(u, name)
  }

  /** Characters and names are fine. */
  ghost predicate PortableBody(u: Unicode, body: string) {
    && (forall c <- body :: PortableCharacter(c))
    && (body == "" || forall name <- SplitOn(body, '/') :: PortableName(u, name))
  }

  lemma RootedPath(path: string)
    ensures path == Root(path) + Body(path) && (Root(path) == "" <==> !IsAbsolute(path))
    ensures Root(path) in {"", "/", "//"}
  {
  }

  /**
   Which paths the check accepts: a relative path with portable names, and equally an absolute one whose
   root passes as a name and what follows it as a path, the root counting as one level.
   */
  lemma AcceptedPaths(u: Unicode, l: Limits, path: string)
    ensures ValidRelative(u, l, path)
            <==> path != "" && u.nfc(path) == path && |u.encode(path)| <= l.maxPathBytes
                 && (IsAbsolute(path) ==> PortableName(u, Root(path)))
                 && |Names(path)| + (if IsAbsolute(path) then 1 else 0) <= l.maxDepth
                 && PortableBody(u, Body(path))
  {
    hide PortableName, PortableCharacter;
    RootedPath(path);
    CharactersOfBody(path);
    NamesOfParts(u, path);
    NamesAreProper(u, Names(path));
  }

  lemma CharactersOfBody(path: string)
    ensures (forall c <- path :: PortableCharacter(c)) <==> forall c <- Body(path) :: PortableCharacter(c)
  {
    RootedPath(path);
    assert forall c <- Root(path) :: c == '/';
    assert forall c <- path :: c in Root(path) || c in Body(path);
    assert forall c <- Body(path) :: c in path;
  }

  lemma NamesOfParts(u: Unicode, path: string)
    ensures (forall name <- Parts(path) :: PortableName(u, name))
            <==> (IsAbsolute(path) ==> PortableName(u, Root(path))) && forall name <- Names(path) :: PortableName(u, name)
  {
    hide PortableName;
    RootedPath(path);
    assert forall name <- Names(path) :: name in Parts(path);
    if IsAbsolute(path) { assert Root(path) == Parts(path)[0] && Root(path) in Parts(path); }
    assert forall name <- Parts(path) :: name in Names(path) || (IsAbsolute(path) && name == Root(path));
  }

  lemma NamesAreProper(u: Unicode, names: seq<string>)
    ensures forall name <- names :: PortableName(u, name) ==> name != "" && name != "."
  {
  }

  // ----- Where an accepted path leads ----------------------------------------------------------------

  /** Where a walk along the names ends, as the names below its start, unless it leaves the directory it starts in. */
  function Resolve(names: seq<string>, at: seq<string>): Option<seq<string>> {
    if names == [] then Some(at)
    else if names[0] == "" || names[0] == "." then Resolve(names[1..], at)
    else if names[0] == ".." then (if at == [] then None else Resolve(names[1..], at[..|at| - 1]))
    else Resolve(names[1..], at + [names[0]])
  }

  lemma {:induction false} ProperNamesResolve(names: seq<string>, at: seq<string>)
    requires forall name <- names :: name !in {"", ".", ".."}
    ensures Resolve(names, at) == Some(at + names)
    decreases |names|
  {
    if names == [] {
      assert at + names == at;
    } else {
      assert names[0] in names && forall name <- names[1..] :: name in names;
      ProperNamesResolve(names[1..], at + [names[0]]);
      assert at + [names[0]] + names[1..] == at + names;
    }
  }

  /** A name that means the same file on every system: no separator, drive or control character, and no reserved word. */
  predicate IsPlainName(u: Unicode, name: string) {
    && name != "" && (forall c <- name :: c !in {'/', '\\', ':'} && 32 <= c as int != 127)
    && name[|name| - 1] != ' ' && name[|name| - 1] != '.' && |u.encode(name)| <= 255
    && u.fold(name) != ".git" && u.fold(name) != ".hg" && u.fold(name) != ".svn"
    && var stem := u.fold(SplitOn(name, '.')[0]);
       stem !in {"con", "prn", "aux", "nul"}
       && !IsPort(stem)
  }

  /** A serial or parallel port, numbered from one. */
  predicate IsPort(stem: string) { |stem| == 4 && stem[..3] in {"com", "lpt"} && '1' <= stem[3] <= '9' }

  /** Every part of a split is made of characters of the whole. */
  lemma {:induction false} PartsAreOf<T>(s: seq<T>, mark: T)
    ensures forall part <- SplitOn(s, mark), c <- part :: c in s
    decreases |s|
  {
    if mark in s {
      var i := First(s, mark);
      PartsAreOf(s[i + 1..], mark);
      assert forall c <- s[..i] :: c in s;
      assert forall c <- s[i + 1..] :: c in s;
    }
  }

  lemma PortableIsPlain(u: Unicode, name: string)
    requires PortableName(u, name) && (forall c <- name :: PortableCharacter(c)) && '/' !in name
    ensures IsPlainName(u, name)
  {
    var stem := u.fold(SplitOn(name, '.')[0]);
    if IsPort(stem) { PortIsReserved(stem); }
  }

  lemma PortIsReserved(stem: string)
    requires IsPort(stem)
    ensures stem in WINDOWS_RESERVED
  {
    var c := stem[3];
    assert stem == stem[..3] + [c];
    if c == '1' { assert stem == "com1" || stem == "lpt1"; }
    if c == '2' { assert stem == "com2" || stem == "lpt2"; }
    if c == '3' { assert stem == "com3" || stem == "lpt3"; }
    if c == '4' { assert stem == "com4" || stem == "lpt4"; }
    if c == '5' { assert stem == "com5" || stem == "lpt5"; }
    if c == '6' { assert stem == "com6" || stem == "lpt6"; }
    if c == '7' { assert stem == "com7" || stem == "lpt7"; }
    if c == '8' { assert stem == "com8" || stem == "lpt8"; }
    if c == '9' { assert stem == "com9" || stem == "lpt9"; }
  }

  /**
   An accepted relative path stays below the directory it starts in: walking along it leads to its own names,
   one level each, at least one and no more than the limit, and every name is plain.
   */
  lemma AcceptedPathsStayBelow(u: Unicode, l: Limits, path: string)
    requires ValidRelative(u, l, path) && !IsAbsolute(path)
    ensures Resolve(SplitOn(path, '/'), []) == Some(SplitOn(path, '/'))
    ensures 1 <= |SplitOn(path, '/')| <= l.maxDepth && |u.encode(path)| <= l.maxPathBytes
    ensures forall name <- SplitOn(path, '/') :: IsPlainName(u, name)
  {
    hide PortableName;
    RootedPath(path);
    var names := SplitOn(path, '/');
    assert path[0..] == path && Parts(path) == names;
    PartsAreOf(path, '/');
    forall name <- names ensures IsPlainName(u, name) && name !in {"", ".", ".."} {
      PortableIsPlain(u, name);
      PortableIsProper(u, name);
    }
    ProperNamesResolve(names, []);
    assert [] + names == names;
  }

  lemma ReservedIsPlainWord(stem: string)
    requires stem in WINDOWS_RESERVED
    ensures stem in {"con", "prn", "aux", "nul"} || IsPort(stem)
  {
    if stem !in {"con", "prn", "aux", "nul"} {
      assert |stem| == 4;
      assert stem[..3] == "com" || stem[..3] == "lpt";
    }
  }

  lemma PlainIsPortable(u: Unicode, name: string)
    requires IsPlainName(u, name)
    ensures PortableName(u, name) && forall c <- name :: PortableCharacter(c)
  {
    var stem := u.fold(SplitOn(name, '.')[0]);
    hide IsPort;
    if stem in WINDOWS_RESERVED { ReservedIsPlainWord(stem); }
  }

  /** Every character of a whole is the mark or in a part of the split. */
  lemma {:induction false} PartsCover<T>(s: seq<T>, mark: T)
    ensures forall c <- s :: c == mark || exists part <- SplitOn(s, mark) :: c in part
    decreases |s|
  {
    if mark in s {
      var i := First(s, mark);
      PartsCover(s[i + 1..], mark);
      assert s == s[..i] + [mark] + s[i + 1..];
      var first, rest := s[..i], SplitOn(s[i + 1..], mark);
      assert SplitOn(s, mark) == [first] + rest;
      forall c <- s ensures c == mark || exists part <- SplitOn(s, mark) :: c in part {
        if c in first {
          assert first in SplitOn(s, mark);
        } else if c != mark {
          var part :| part in rest && c in part;
          assert part in SplitOn(s, mark);
        }
      }
    } else {
      assert s in SplitOn(s, mark);
    }
  }

  /** Exactly which relative paths are accepted: in normal form, short and shallow enough, of plain names. */
  lemma RelativePathIsAccepted(u: Unicode, l: Limits, path: string)
    requires !IsAbsolute(path)
    ensures ValidRelative(u, l, path)
            <==> path != "" && u.nfc(path) == path && |u.encode(path)| <= l.maxPathBytes && |SplitOn(path, '/')| <= l.maxDepth
                 && forall name <- SplitOn(path, '/') :: IsPlainName(u, name)
  {
    hide PortableName, PortableCharacter, IsPlainName;
    if ValidRelative(u, l, path) { AcceptedPathsStayBelow(u, l, path); }
    if path != "" && forall name <- SplitOn(path, '/') :: IsPlainName(u, name) { PlainPathIsPortable(u, path); }
    hide ValidRelative;
    AcceptedPaths(u, l, path);
    RootedPath(path);
    assert path[0..] == path;
  }

  lemma PlainPathIsPortable(u: Unicode, path: string)
    requires path != "" && forall name <- SplitOn(path, '/') :: IsPlainName(u, name)
    ensures PortableBody(u, path)
  {
    hide PortableName, IsPlainName;
    PartsCover(path, '/');
    assert PortableCharacter('/');
    hide PortableCharacter;
    forall name | name in SplitOn(path, '/') ensures PortableName(u, name) && forall c <- name :: PortableCharacter(c) {
      PlainIsPortable(u, name);
    }
  }

  lemma PortableIsProper(u: Unicode, name: string)
    requires PortableName(u, name)
    ensures name !in {"", ".", ".."}
  {
  }

  // ----- The walk to the top -----------------------------------------------------------------------

  function LastSlash(path: string): (i: int)
    ensures -1 <= i < |path| && (i >= 0 ==> path[i] == '/')
    ensures forall j :: i < j < |path| ==> path[j] != '/'
  {
    if path == "" then -1
    else if path[|path| - 1] == '/' then |path| - 1
    else LastSlash(path[..|path| - 1])
  }

  /** `PurePosixPath(path).parent` of a normal path; a root is its own parent. */
  function Parent(path: string): (p: string)
    ensures IsAbsolute(path) ==> IsAbsolute(p)
    ensures !IsAbsolute(path) ==> p == "." || (|p| < |path| && !IsAbsolute(p))
  {
    if LastSlash(path) < 0 then "."
    else if LastSlash(path) < |Root(path)| then Root(path)
    else path[..LastSlash(path)]
  }

  /** The n-th parent. */
  function Climb(path: string, n: nat): string {
    if n == 0 then path else Parent(Climb(path, n - 1))
  }

  /** The walk that starts at the parent and stops at "." comes to an end. */
  ghost predicate WalkEnds(path: string) { exists n: nat :: n > 0 && Climb(path, n) == "." }

  lemma {:induction false} AbsoluteStays(path: string, n: nat)
    requires IsAbsolute(path)
    ensures IsAbsolute(Climb(path, n))
  {
    if n > 0 { AbsoluteStays(path, n - 1); }
  }

  lemma {:induction false} ClimbShifts(path: string, n: nat)
    ensures Climb(path, n + 1) == Climb(Parent(path), n)
  {
    if n > 0 { ClimbShifts(path, n - 1); }
  }

  lemma {:induction false} RelativeWalkEnds(path: string) returns (n: nat)
    requires !IsAbsolute(path)
    ensures n > 0 && Climb(path, n) == "."
    decreases |path|
  {
    n := 1;
    assert Climb(path, 1) == Parent(Climb(path, 0)) == Parent(path);
    if Parent(path) != "." {
      var m := RelativeWalkEnds(Parent(path));
      ClimbShifts(path, m);
      n := m + 1;
    }
  }

  /** The walk ends exactly for relative paths. */
  lemma WalkEndsIffRelative(path: string)
    ensures WalkEnds(path) <==> !IsAbsolute(path)
  {
    if IsAbsolute(path) {
      forall n: nat ensures Climb(path, n) != "." { AbsoluteStays(path, n); }
    } else {
      var n := RelativeWalkEnds(path);
    }
  }

  // ----- What the walk visits ------------------------------------------------------------------------

  /** The folded directories above a path that end at position n or later. */
  ghost function AncestorsFrom(u: Unicode, path: string, n: nat): set<string> {
    set i: nat | n <= i < |path| && path[i] == '/' :: u.fold(path[..i])
  }

  /** The folded directories above a path. */
  ghost function Ancestors(u: Unicode, path: string): set<string> { AncestorsFrom(u, path, 0) }

  lemma NextAncestor(u: Unicode, path: string, lo: nat, hi: nat)
    requires lo <= hi < |path| && path[hi] == '/' && forall j :: lo <= j < hi ==> path[j] != '/'
    ensures AncestorsFrom(u, path, lo) == AncestorsFrom(u, path, hi + 1) + {u.fold(path[..hi])}
  {
  }

  /** No directory above the path is called ".". */
  ghost predicate NoDot(path: string) {
    path != "." && forall i: nat :: i < |path| && path[i] == '/' ==> path[..i] != "."
  }

  lemma NormalHasNoDot(path: string)
    requires path != "" && IsNormal(path) && !IsAbsolute(path)
    ensures NoDot(path)
  {
    RootedPath(path);
    assert Names(path) == SplitOn(path, '/') by { assert path[0..] == path; }
    if '/' !in path {
      assert Names(path) == [path] && path in Names(path);
    } else {
      var first := First(path, '/');
      assert Names(path)[0] == path[..first] && path[..first] in Names(path);
      assert path[..first] != ".";
      forall i: nat | i < |path| && path[i] == '/' ensures path[..i] != "." {
        assert first <= i;
        if i == 1 { assert first == 0 || first == 1; }
      }
    }
  }

  /**
   The walk, cut off after as many turns as the path has characters: it then has ended if it ever ends,
   and has visited exactly the directories above the path.
   */
  method AddAncestors(u: Unicode, path: string, directories: set<string>) returns (all: set<string>, ended: bool)
    requires !IsAbsolute(path) ==> NoDot(path)
    ensures ended <==> WalkEnds(path)
    ensures ended ==> all == directories + Ancestors(u, path)
  {
    WalkEndsIffRelative(path);
    all := directories;
    var parent, turns := Parent(path), 0;
    ghost var n := LastSlash(path) + 1;
    assert AncestorsFrom(u, path, n) == {};
    hide AncestorsFrom;
    while parent != "." && turns < |path|
      invariant IsAbsolute(path) ==> IsAbsolute(parent)
      invariant 0 <= n <= |path| && turns <= |path|
      invariant !IsAbsolute(path) && parent == "." ==> n == 0
      invariant !IsAbsolute(path) && parent != "." ==>
          n == |parent| + 1 && parent == path[..n - 1] && path[n - 1] == '/' && turns + n <= |path|
      invariant !IsAbsolute(path) ==> all == directories + AncestorsFrom(u, path, n)
      decreases |path| - turns
    {
      all := all + {u.fold(parent)};
      if !IsAbsolute(path) {
        NextAncestor(u, path, LastSlash(parent) + 1, n - 1);
        n := LastSlash(parent) + 1;
      }
      parent, turns := Parent(parent), turns + 1;
    }
    ended := parent == ".";
  }
}
