/** Unpacking the archive of a frozen directory against the files its Git tree announced. */
module ArchiveExtraction {
  import opened Wrappers
  import opened Bytes
  import opened PythonBytes
  import opened RelativePaths
  import opened ScanLimits
  import opened TreeListing

  datatype Kind = Directory | Regular | Special

  /** A member as the tar reader presents it; no data when the reader cannot open it. */
  datatype Member = Member(name: string, kind: Kind, linkName: string, size: nat, data: Option<Octets>)

  /** A broken archive makes the tar reader fail after the members it could read. */
  datatype Archive = Archive(members: seq<Member>, broken: bool)

  /** Given: the hexadecimal SHA-1 digest, and which paths the file system lets be created. */
  datatype Host = Host(sha1: Octets -> Octets, writable: string -> bool)

  datatype Output = Output(path: string, content: Octets)

  function StripSlashes(name: string): string {
    if name != "" && name[|name| - 1] == '/' then StripSlashes(name[..|name| - 1]) else name
  }

  /** "blob ", the length, a zero byte and the content. */
  function GitBlob(content: Octets): Octets { BLOB + [SPACE] + Decimal(|content|) + [0] + content }

  /** The path of a member, or nothing for a directory. */
  function PathOf(u: Unicode, l: Limits, skill: string, m: Member): Result<Option<string>, Error> {
    var name := StripSlashes(m.name);
    if m.kind == Directory && (name == skill || name + "/" <= skill) then Ok(None)
    else if !(skill + "/" <= name) then Err(PathRejected)
    else
      var relative := name[|skill| + 1..];
      if !ValidRelative(u, l, relative) then Err(PathRejected)
      else if m.kind == Directory then Ok(None)
      else if m.kind != Regular || m.linkName != "" then Err(PathRejected)
      else Ok(Some(relative))
  }

  /** The content of a member that is the announced file. */
  function ContentOf(h: Host, l: Limits, entry: Entry, m: Member): Result<Octets, Error> {
    if m.size != entry.size || m.data.None? then Err(ArchiveMismatch)
    else
      var data := m.data.value;
      var content := if |data| <= l.maxFileBytes + 1 then data else data[..l.maxFileBytes + 1];
      if |content| != m.size || h.sha1(GitBlob(content)) != entry.oid then Err(ArchiveMismatch) else Ok(content)
  }

  function Unpack(u: Unicode, h: Host, l: Limits, skill: string, expected: map<string, Entry>,
                  members: seq<Member>, written: map<string, Octets>): Result<map<string, Octets>, Error>
    decreases |members|
  {
    if members == [] then Ok(written)
    else
      match PathOf(u, l, skill, members[0])
      case Err(error) => Err(error)
      case Ok(None) => Unpack(u, h, l, skill, expected, members[1..], written)
      case Ok(Some(path)) =>
        if path !in expected || path in written then Err(ArchiveMismatch)
        else
          match ContentOf(h, l, expected[path], members[0])
          case Err(error) => Err(error)
          case Ok(content) =>
            if !h.writable(path) then Err(FreezeFailed)
            else Unpack(u, h, l, skill, expected, members[1..], written[path := content])
  }

  function FilesOf(u: Unicode, h: Host, l: Limits, skill: string, expected: map<string, Entry>, archive: Archive)
    : Result<map<string, Octets>, Error>
  {
    match Unpack(u, h, l, skill, expected, archive.members, map[])
    case Err(error) => Err(error)
    case Ok(written) =>
      if archive.broken || written.Keys != expected.Keys then Err(ArchiveMismatch) else Ok(written)
  }

  method ExtractVerifiedArchive(u: Unicode, h: Host, l: Limits, skill: string, expected: map<string, Entry>, archive: Archive)
    returns (r: Result<map<string, Octets>, Error>)
    ensures r == FilesOf(u, h, l, skill, expected, archive)
  {
    hide PathOf, ContentOf;
    var seen: set<string> := {};
    var written: map<string, Octets> := map[];
    var members := archive.members;
    for i := 0 to |members|
      invariant seen == written.Keys
      invariant Unpack(u, h, l, skill, expected, members[i..], written) == Unpack(u, h, l, skill, expected, members, map[])
    {
      assert members[i..][0] == members[i] && members[i..][1..] == members[i + 1..];
      var path := PathOf(u, l, skill, members[i]);
      if path.Err? { return Err(path.error); }
      if path.value.None? { continue; }
      var relative := path.value.value;
      if relative !in expected || relative in seen { return Err(ArchiveMismatch); }
      var content := ContentOf(h, l, expected[relative], members[i]);
      if content.Err? { return Err(content.error); }
      if !h.writable(relative) { return Err(FreezeFailed); }
      written := written[relative := content.value];
      seen := seen + {relative};
    }
    if archive.broken || seen != expected.Keys { return Err(ArchiveMismatch); }
    return Ok(written);
  }

  // ----- The archive as a whole --------------------------------------------------------------------------

  /** What each member contributes, in order, when all of them are in order. */
  function Outputs(u: Unicode, h: Host, l: Limits, skill: string, expected: map<string, Entry>, members: seq<Member>)
    : Option<seq<Output>>
  {
    if members == [] then Some([])
    else
      var path, rest := PathOf(u, l, skill, members[0]), Outputs(u, h, l, skill, expected, members[1..]);
      if path.Err? || rest.None? then None
      else if path.value.None? then rest
      else
        var p := path.value.value;
        if p !in expected || !h.writable(p) || ContentOf(h, l, expected[p], members[0]).Err? then None
        else Some([Output(p, ContentOf(h, l, expected[p], members[0]).value)] + rest.value)
  }

  ghost predicate PathsApart(outputs: seq<Output>) {
    forall i, j :: 0 <= i < j < |outputs| ==> outputs[i].path != outputs[j].path
  }

  ghost predicate NoneWritten(written: map<string, Octets>, outputs: seq<Output>) {
    forall o <- outputs :: o.path !in written
  }

  function WriteAll(written: map<string, Octets>, outputs: seq<Output>): map<string, Octets>
    decreases |outputs|
  {
    if outputs == [] then written else WriteAll(written[outputs[0].path := outputs[0].content], outputs[1..])
  }

  lemma {:induction false} UnpackWritesAll(u: Unicode, h: Host, l: Limits, skill: string, expected: map<string, Entry>,
                                           members: seq<Member>, written: map<string, Octets>)
    ensures var r, outputs := Unpack(u, h, l, skill, expected, members, written), Outputs(u, h, l, skill, expected, members);
            && (r.Ok? <==> outputs.Some? && PathsApart(outputs.value) && NoneWritten(written, outputs.value))
            && (r.Ok? ==> r.value == WriteAll(written, outputs.value))
    decreases |members|
  {
    hide PathOf, ContentOf;
    if members != [] {
      var path := PathOf(u, l, skill, members[0]);
      if path.Ok? {
        if path.value.None? {
          UnpackWritesAll(u, h, l, skill, expected, members[1..], written);
        } else {
          var p := path.value.value;
          if p in expected && ContentOf(h, l, expected[p], members[0]).Ok? && h.writable(p) {
            var content := ContentOf(h, l, expected[p], members[0]).value;
            UnpackWritesAll(u, h, l, skill, expected, members[1..], written[p := content]);
            var rest := Outputs(u, h, l, skill, expected, members[1..]);
            if rest.Some? { OneMoreOutput(written, Output(p, content), rest.value); }
          }
        }
      }
    }
  }

  lemma ApartFromHead(output: Output, rest: seq<Output>)
    ensures PathsApart([output] + rest) <==> PathsApart(rest) && forall o <- rest :: o.path != output.path
  {
    var all := [output] + rest;
    assert forall i | 0 <= i < |rest| :: all[i + 1] == rest[i];
    if PathsApart(all) {
      forall o | o in rest ensures o.path != output.path {
        var i :| 0 <= i < |rest| && rest[i] == o;
        assert all[0].path != all[i + 1].path;
      }
    }
  }

  lemma OneMoreOutput(written: map<string, Octets>, output: Output, rest: seq<Output>)
    ensures PathsApart([output] + rest) && NoneWritten(written, [output] + rest)
            <==> output.path !in written && PathsApart(rest) && NoneWritten(written[output.path := output.content], rest)
    ensures WriteAll(written, [output] + rest) == WriteAll(written[output.path := output.content], rest)
  {
    var all := [output] + rest;
    assert all[1..] == rest && all[0] == output;
    assert forall i | 0 <= i < |rest| :: all[i + 1] == rest[i];
    assert forall o <- rest :: o in all;
    assert output in all;
    ApartFromHead(output, rest);
    hide PathsApart;
  }

  lemma {:induction false} WriteAllHolds(written: map<string, Octets>, outputs: seq<Output>)
    requires PathsApart(outputs) && NoneWritten(written, outputs)
    ensures var all := WriteAll(written, outputs);
            && (forall p <- written :: p in all && all[p] == written[p])
            && (forall o <- outputs :: o.path in all && all[o.path] == o.content)
            && (forall p <- all :: p in written || Output(p, all[p]) in outputs)
            && |all| == |written| + |outputs|
    decreases |outputs|
  {
    if outputs != [] {
      var next := written[outputs[0].path := outputs[0].content];
      assert outputs == [outputs[0]] + outputs[1..];
      OneMoreOutput(written, outputs[0], outputs[1..]);
      assert outputs[0].path !in written && |next| == |written| + 1;
      WriteAllHolds(next, outputs[1..]);
      assert forall o <- outputs :: o == outputs[0] || o in outputs[1..];
    }
  }

  /** A content of the announced length and Git identity. */
  ghost predicate Matches(h: Host, entry: Entry, content: Octets) {
    |content| == entry.size && h.sha1(GitBlob(content)) == entry.oid
  }

  lemma {:induction false} OutputsMatch(u: Unicode, h: Host, l: Limits, skill: string, expected: map<string, Entry>, members: seq<Member>)
    requires Outputs(u, h, l, skill, expected, members).Some?
    ensures forall o <- Outputs(u, h, l, skill, expected, members).value :: o.path in expected && Matches(h, expected[o.path], o.content)
  {
    hide PathOf, Matches;
    if members != [] {
      OutputsMatch(u, h, l, skill, expected, members[1..]);
      var path := PathOf(u, l, skill, members[0]);
      if path.value.Some? {
        var p := path.value.value;
        ContentMatches(h, l, expected[p], members[0]);
      }
    }
  }

  lemma ContentMatches(h: Host, l: Limits, entry: Entry, m: Member)
    requires ContentOf(h, l, entry, m).Ok?
    ensures Matches(h, entry, ContentOf(h, l, entry, m).value)
  {
  }

  /** The directory on disk is the announced tree: the same paths, each with a matching content. */
  ghost predicate IsTree(h: Host, expected: map<string, Entry>, written: map<string, Octets>) {
    written.Keys == expected.Keys && forall p <- written :: Matches(h, expected[p], written[p])
  }

  /**
   Extraction succeeds exactly when the archive is whole, every member is in order, and the files among
   them are the announced ones, each once.
   */
  lemma AcceptedArchives(u: Unicode, h: Host, l: Limits, skill: string, expected: map<string, Entry>, archive: Archive)
    ensures var r, outputs := FilesOf(u, h, l, skill, expected, archive), Outputs(u, h, l, skill, expected, archive.members);
            && (r.Ok? <==> !archive.broken && outputs.Some? && PathsApart(outputs.value)
                           && (set o <- outputs.value :: o.path) == expected.Keys)
            && (r.Ok? ==> r.value == WriteAll(map[], outputs.value) && |outputs.value| == |expected| && IsTree(h, expected, r.value))
  {
    hide Unpack, Outputs, WriteAll, Matches;
    UnpackWritesAll(u, h, l, skill, expected, archive.members, map[]);
    var outputs := Outputs(u, h, l, skill, expected, archive.members);
    if outputs.Some? && PathsApart(outputs.value) {
      WriteAllHolds(map[], outputs.value);
      OutputsMatch(u, h, l, skill, expected, archive.members);
      var written := WriteAll(map[], outputs.value);
      assert written.Keys == set o <- outputs.value :: o.path;
      assert |written| == |written.Keys| && |expected| == |expected.Keys|;
    }
  }

  /**
   Freezing: an accepted listing and an accepted archive leave on disk exactly the files of a safe tree,
   each with the length and the Git identity that the listing announced.
   */
  lemma FreezeIsFaithful(u: Unicode, h: Host, l: Limits, skill: string, raw: Octets, archive: Archive)
    requires TreeOf(u, l, skill, raw).Ok?
    ensures var tree := TreeOf(u, l, skill, raw).value;
            var files := FilesOf(u, h, l, skill, tree, archive);
            IsSafeTree(u, l, tree) && (files.Ok? ==> IsTree(h, tree, files.value))
  {
    AcceptedTreeIsSafe(u, l, skill, raw);
    hide IsSafeTree, TreeOf, IsTree;
    AcceptedArchives(u, h, l, skill, TreeOf(u, l, skill, raw).value, archive);
  }

  /** Every file that freezing leaves lies below the directory it was unpacked in, under plain names and not too deep. */
  lemma FrozenFilesStayBelow(u: Unicode, h: Host, l: Limits, skill: string, raw: Octets, archive: Archive, path: string)
    requires TreeOf(u, l, skill, raw).Ok? && FilesOf(u, h, l, skill, TreeOf(u, l, skill, raw).value, archive).Ok?
    requires path in FilesOf(u, h, l, skill, TreeOf(u, l, skill, raw).value, archive).value
    ensures Resolve(SplitOn(path, '/'), []) == Some(SplitOn(path, '/')) && 1 <= |SplitOn(path, '/')| <= l.maxDepth
    ensures forall name <- SplitOn(path, '/') :: IsPlainName(u, name)
  {
    hide TreeOf, ValidRelative, IsPlainName, Resolve, Matches;
    AcceptedTreeIsSafe(u, l, skill, raw);
    AcceptedArchives(u, h, l, skill, TreeOf(u, l, skill, raw).value, archive);
    hide FilesOf;
    AcceptedPathsStayBelow(u, l, path);
  }

  // ----- Members -------------------------------------------------------------------------------------------

  /** The name, up to slashes at its end, is that of the path below the skill. */
  predicate IsNameOf(name: string, skill: string, path: string) {
    skill + "/" + path <= name && forall i :: |skill| + 1 + |path| <= i < |name| ==> name[i] == '/'
  }

  /** A regular file, no link, with the given path and content. */
  predicate IsFile(m: Member, skill: string, path: string, content: Octets) {
    m.kind == Regular && m.linkName == "" && IsNameOf(m.name, skill, path) && m.size == |content| && m.data == Some(content)
  }

  lemma {:induction false} SlashesStripped(name: string)
    ensures StripSlashes(name) <= name && forall i :: |StripSlashes(name)| <= i < |name| ==> name[i] == '/'
  {
    if name != "" && name[|name| - 1] == '/' { SlashesStripped(name[..|name| - 1]); }
  }

  /** A member that contributes a file is that file. */
  lemma MemberIsFile(u: Unicode, h: Host, l: Limits, skill: string, entry: Entry, m: Member)
    requires PathOf(u, l, skill, m).Ok? && PathOf(u, l, skill, m).value.Some?
    requires entry.size <= l.maxFileBytes && ContentOf(h, l, entry, m).Ok?
    ensures IsFile(m, skill, PathOf(u, l, skill, m).value.value, ContentOf(h, l, entry, m).value)
  {
    hide ValidRelative, StripSlashes, GitBlob;
    SlashesStripped(m.name);
    var name, path := StripSlashes(m.name), PathOf(u, l, skill, m).value.value;
    assert name == skill + "/" + path;
  }

  /** The skill itself, a directory above it, or one below it with a valid path. */
  predicate IsDirectoryOf(u: Unicode, l: Limits, skill: string, name: string) {
    || name == skill
    || (|name| < |skill| && skill[..|name|] == name && skill[|name|] == '/')
    || (|name| > |skill| && name[..|skill|] == skill && name[|skill|] == '/' && ValidRelative(u, l, name[|skill| + 1..]))
  }

  lemma {:induction false} StrippedName(name: string, body: string)
    requires body <= name && (forall i :: |body| <= i < |name| ==> name[i] == '/') && (body == "" || body[|body| - 1] != '/')
    ensures StripSlashes(name) == body
    decreases |name|
  {
    if |name| > |body| {
      StrippedName(name[..|name| - 1], body);
    } else {
      assert name == body;
    }
  }

  /**
   Which members are in order: directories at, above or below the skill, and regular files, no links, below
   it under a valid path; slashes behind the name do not matter.
   */
  lemma MemberIsInOrder(u: Unicode, l: Limits, skill: string, m: Member, body: string)
    requires body <= m.name && (forall i :: |body| <= i < |m.name| ==> m.name[i] == '/') && (body == "" || body[|body| - 1] != '/')
    ensures PathOf(u, l, skill, m) == Ok(None) <==> m.kind == Directory && IsDirectoryOf(u, l, skill, body)
    ensures forall path :: PathOf(u, l, skill, m) == Ok(Some(path))
              <==> m.kind == Regular && m.linkName == "" && body == skill + "/" + path && ValidRelative(u, l, path)
  {
    hide ValidRelative;
    StrippedName(m.name, body);
    hide StripSlashes;
    assert (body + "/" <= skill) == (|body| < |skill| && skill[..|body|] == body && skill[|body|] == '/') by {
      if body + "/" <= skill { assert (body + "/")[|body|] == skill[|body|]; }
    }
    assert (skill + "/" <= body) == (|body| > |skill| && body[..|skill|] == skill && body[|skill|] == '/') by {
      if skill + "/" <= body { assert (skill + "/")[|skill|] == body[|skill|]; }
    }
    forall path | body == skill + "/" + path ensures skill + "/" <= body && body[|skill| + 1..] == path { }
    assert skill + "/" <= body ==> body == skill + "/" + body[|skill| + 1..];
  }

  /** The bytes that Git hashes for a short file. */
  lemma GitBlobOfShort(content: Octets)
    requires |content| < 10
    ensures GitBlob(content) == [98, 108, 111, 98, 32, (48 + |content|) as Byte, 0] + content
  {
    assert Decimal(|content|) == [(48 + |content|) as Byte];
  }

  /** Members are directories or files that come out, and what comes out are such files. */
  ghost predicate MembersGive(skill: string, members: seq<Member>, outputs: seq<Output>) {
    && (forall m <- members :: m.kind == Directory || exists o <- outputs :: IsFile(m, skill, o.path, o.content))
    && (forall o <- outputs :: exists m <- members :: IsFile(m, skill, o.path, o.content))
  }

  lemma {:induction false} OutputsAreMembers(u: Unicode, h: Host, l: Limits, skill: string, expected: map<string, Entry>, members: seq<Member>)
    requires Outputs(u, h, l, skill, expected, members).Some? && forall p <- expected :: expected[p].size <= l.maxFileBytes
    ensures MembersGive(skill, members, Outputs(u, h, l, skill, expected, members).value)
    decreases |members|
  {
    hide PathOf, ContentOf, MembersGive, IsFile;
    if members == [] {
      NoMembers(skill);
    } else {
      OutputsAreMembers(u, h, l, skill, expected, members[1..]);
      var path, rest := PathOf(u, l, skill, members[0]), Outputs(u, h, l, skill, expected, members[1..]);
      assert members == [members[0]] + members[1..];
      if path.value.None? {
        NoPathIsDirectory(u, l, skill, members[0]);
        DirectoryGivesNothing(skill, members[0], members[1..], rest.value);
      } else {
        var entry := expected[path.value.value];
        MemberIsFile(u, h, l, skill, entry, members[0]);
        FileGivesItself(skill, members[0], members[1..], Output(path.value.value, ContentOf(h, l, entry, members[0]).value), rest.value);
      }
    }
  }

  lemma NoMembers(skill: string)
    ensures MembersGive(skill, [], [])
  {
  }

  lemma NoPathIsDirectory(u: Unicode, l: Limits, skill: string, m: Member)
    requires PathOf(u, l, skill, m) == Ok(None)
    ensures m.kind == Directory
  {
    hide ValidRelative;
  }

  lemma DirectoryGivesNothing(skill: string, m: Member, rest: seq<Member>, outputs: seq<Output>)
    requires MembersGive(skill, rest, outputs) && m.kind == Directory
    ensures MembersGive(skill, [m] + rest, outputs)
  {
    hide IsFile;
    forall o | o in outputs ensures exists x <- [m] + rest :: IsFile(x, skill, o.path, o.content) {
      var x :| x in rest && IsFile(x, skill, o.path, o.content);
      assert x in [m] + rest;
    }
  }

  lemma FileGivesItself(skill: string, m: Member, rest: seq<Member>, o: Output, outputs: seq<Output>)
    requires MembersGive(skill, rest, outputs) && IsFile(m, skill, o.path, o.content)
    ensures MembersGive(skill, [m] + rest, [o] + outputs)
  {
    hide IsFile;
    forall x | x in [m] + rest && x.kind != Directory ensures exists y <- [o] + outputs :: IsFile(x, skill, y.path, y.content) {
      if x == m {
        assert o in [o] + outputs;
      } else {
        var y :| y in outputs && IsFile(x, skill, y.path, y.content);
        assert y in [o] + outputs;
      }
    }
    forall y | y in [o] + outputs ensures exists x <- [m] + rest :: IsFile(x, skill, y.path, y.content) {
      if y == o {
        assert m in [m] + rest;
      } else {
        var x :| x in rest && IsFile(x, skill, y.path, y.content);
        assert x in [m] + rest;
      }
    }
  }

  /**
   What an accepted archive of a safe tree consists of: directories, and regular files, no links, that are
   exactly the files left on disk, each under its own path with all of its content.
   */
  lemma AcceptedMembers(u: Unicode, h: Host, l: Limits, skill: string, expected: map<string, Entry>, archive: Archive)
    requires IsSafeTree(u, l, expected) && FilesOf(u, h, l, skill, expected, archive).Ok?
    ensures var files := FilesOf(u, h, l, skill, expected, archive).value;
            && (forall m <- archive.members :: m.kind == Directory || exists p <- files :: IsFile(m, skill, p, files[p]))
            && (forall p <- files :: exists m <- archive.members :: IsFile(m, skill, p, files[p]))
  {
    hide IsFile, FilesOf, Outputs, WriteAll, PathsApart;
    AcceptedArchives(u, h, l, skill, expected, archive);
    OutputsAreMembers(u, h, l, skill, expected, archive.members);
    var outputs, files := Outputs(u, h, l, skill, expected, archive.members).value, FilesOf(u, h, l, skill, expected, archive).value;
    WriteAllHolds(map[], outputs);
    hide IsSafeTree;
    forall m | m in archive.members && m.kind != Directory ensures exists p <- files :: IsFile(m, skill, p, files[p]) {
      var o :| o in outputs && IsFile(m, skill, o.path, o.content);
      assert o.path in files;
    }
    forall p | p in files ensures exists m <- archive.members :: IsFile(m, skill, p, files[p]) {
      assert Output(p, files[p]) in outputs;
    }
  }
}
