/**
 The comparison of a captured directory with the answer of `git cat-file --batch`: one header line,
 the blob and a newline for each requested file. A cursor walks over the answer; slices and searches
 follow Python's rules for negative positions, since a size may carry a sign.
 */
module GitResponses {
  import opened Wrappers
  import opened Bytes
  import opened PythonBytes

  datatype Error = ProvenanceFailed | ScopeMismatch | BlobMismatch

  const NEWLINE: Byte := 10

  // ----- The check -----------------------------------------------------------------------------------

  function SizeIn(header: Octets): Result<int, Error> {
    var fields := Split(header);
    if |fields| != 3 || fields[1] != BLOB then Err(ScopeMismatch)
    else
      match ParseInt(fields[2])
      case None => Err(ProvenanceFailed)
      case Some(size) => Ok(size)
  }

  /** The header line at the cursor. */
  function HeaderSize(raw: Octets, cursor: int): Result<int, Error> {
    var end := Find(raw, NEWLINE, cursor);
    if end < 0 then Err(ProvenanceFailed) else SizeIn(Slice(raw, cursor, end))
  }

  /** Compares one file; the result is the cursor behind it. */
  function CheckOne(raw: Octets, content: Octets, cursor: int): Result<int, Error> {
    match HeaderSize(raw, cursor)
    case Err(error) => Err(error)
    case Ok(size) =>
      var start := Find(raw, NEWLINE, cursor) + 1;
      var end := start + size;
      if end >= |raw| || Slice(raw, end, end + 1) != [NEWLINE] then Err(ProvenanceFailed)
      else if Slice(raw, start, end) != content then Err(BlobMismatch)
      else Ok(end + 1)
  }

  function CheckAll(raw: Octets, files: seq<Octets>, cursor: int): Result<(), Error>
    decreases |files|
  {
    if files == [] then
      if cursor != |raw| then Err(ProvenanceFailed) else Ok(())
    else
      match CheckOne(raw, files[0], cursor)
      case Err(error) => Err(error)
      case Ok(next) => CheckAll(raw, files[1..], next)
  }

  method VerifyCommitBlobs(raw: Octets, files: seq<Octets>) returns (r: Result<(), Error>)
    ensures r == CheckAll(raw, files, 0)
  {
    var cursor: int := 0;
    for i := 0 to |files|
      invariant CheckAll(raw, files[i..], cursor) == CheckAll(raw, files, 0)
    {
      assert files[i..][0] == files[i] && files[i..][1..] == files[i + 1..];
      var headerEnd := Find(raw, NEWLINE, cursor);
      if headerEnd < 0 { return Err(ProvenanceFailed); }
      var size := SizeIn(Slice(raw, cursor, headerEnd));
      if size.Err? { return Err(size.error); }
      var contentStart := headerEnd + 1;
      var contentEnd := contentStart + size.value;
      if contentEnd >= |raw| || Slice(raw, contentEnd, contentEnd + 1) != [NEWLINE] { return Err(ProvenanceFailed); }
      if Slice(raw, contentStart, contentEnd) != files[i] { return Err(BlobMismatch); }
      cursor := contentEnd + 1;
    }
    if cursor != |raw| { return Err(ProvenanceFailed); }
    return Ok(());
  }

  /** Some header that the check reads announces a negative size. */
  predicate ReadsNegativeSize(raw: Octets, files: seq<Octets>, cursor: int)
    decreases |files|
  {
    if files == [] then false
    else
      var size := HeaderSize(raw, cursor);
      size.Ok? &&
      (size.value < 0 ||
       (var next := CheckOne(raw, files[0], cursor);
        next.Ok? && ReadsNegativeSize(raw, files[1..], next.value)))
  }

  // ----- What an answer should be ----------------------------------------------------------------------

  /** A header line announces a blob of the file's length. */
  predicate Announces(header: Octets, content: Octets) {
    NEWLINE !in header && SizeIn(header) == Ok(|content|)
  }

  /** A header line of three words: any object name, "blob", and the length. */
  lemma AnnouncedMeans(header: Octets, content: Octets)
    ensures Announces(header, content)
            <==> 10 !in header && |Split(header)| == 3 && Split(header)[1] == Ascii("blob") && ParseInt(Split(header)[2]) == Some(|content|)
  {
    hide Split, ParseInt;
    assert BLOB == Ascii("blob");
  }

  ghost predicate AllAnnounced(headers: seq<Octets>, files: seq<Octets>) {
    |headers| == |files| && forall i :: 0 <= i < |files| ==> Announces(headers[i], files[i])
  }

  function Part(header: Octets, content: Octets): Octets { header + [NEWLINE] + (content + [NEWLINE]) }

  /** Header line, content and newline for every file, in order, and nothing else. */
  function Assemble(headers: seq<Octets>, files: seq<Octets>): Octets
    requires |headers| == |files|
  {
    if files == [] then [] else Part(headers[0], files[0]) + Assemble(headers[1..], files[1..])
  }

  ghost predicate IsAnswer(raw: Octets, files: seq<Octets>) {
    exists headers: seq<Octets> :: AllAnnounced(headers, files) && raw == Assemble(headers, files)
  }

  lemma {:induction false} FindsFirst(s: Octets, mark: Byte, i: nat)
    requires i <= |s|
    ensures var k := FindFrom(s, mark, i);
            (k == -1 && mark !in s[i..]) || (i <= k < |s| && s[k] == mark && mark !in s[i..k])
    decreases |s| - i
  {
    if i < |s| && s[i] != mark {
      FindsFirst(s, mark, i + 1);
      var k := FindFrom(s, mark, i + 1);
      assert s[i..] == [s[i]] + s[i + 1..];
      if k >= 0 { assert s[i..k] == [s[i]] + s[i + 1..k]; }
    }
  }

  /** Without a negative size, the check of one file passes exactly on its part of the answer. */
  lemma PassedPart(raw: Octets, content: Octets, cursor: nat)
    requires cursor <= |raw| && CheckOne(raw, content, cursor).Ok? && HeaderSize(raw, cursor).value >= 0
    ensures var header := Slice(raw, cursor, Find(raw, NEWLINE, cursor));
            var next := CheckOne(raw, content, cursor).value;
            && cursor < next <= |raw|
            && Announces(header, content)
            && raw[cursor..] == Part(header, content) + raw[next..]
  {
    hide SizeIn;
    FindsFirst(raw, NEWLINE, cursor);
    var end := Find(raw, NEWLINE, cursor);
    var next := CheckOne(raw, content, cursor).value;
    assert raw[end + 1..next - 1] == content;
    assert raw[cursor..] == raw[cursor..end] + [NEWLINE] + (raw[end + 1..next - 1] + [NEWLINE]) + raw[next..];
  }

  /** Where the pieces of a part lie in the answer. */
  lemma PartLies(raw: Octets, header: Octets, content: Octets, rest: Octets, cursor: nat)
    requires cursor <= |raw| && raw[cursor..] == Part(header, content) + rest
    ensures var start := cursor + |header| + 1;
            var end := start + |content|;
            && end < |raw|
            && raw[cursor..start - 1] == header && raw[start - 1] == NEWLINE
            && raw[start..end] == content && raw[end] == NEWLINE && raw[end + 1..] == rest
  {
    var s := raw[cursor..];
    assert s == header + [NEWLINE] + content + [NEWLINE] + rest;
    var k := |header| + 1;
    assert s[..|header|] == header && s[|header|] == NEWLINE;
    assert s[k..k + |content|] == content && s[k + |content|] == NEWLINE && s[k + |content| + 1..] == rest;
  }

  lemma PartPasses(raw: Octets, header: Octets, content: Octets, rest: Octets, cursor: nat)
    requires cursor <= |raw| && Announces(header, content) && raw[cursor..] == Part(header, content) + rest
    ensures cursor + |header| + |content| + 2 <= |raw|
    ensures HeaderSize(raw, cursor) == Ok(|content|)
    ensures CheckOne(raw, content, cursor) == Ok(cursor + |header| + |content| + 2)
    ensures raw[cursor + |header| + |content| + 2..] == rest
  {
    hide SizeIn;
    PartLies(raw, header, content, rest, cursor);
    hide Part, FindFrom;
    FirstIs(raw, cursor, cursor + |header|);
  }

  lemma {:induction false} FirstIs(raw: Octets, cursor: nat, end: nat)
    requires cursor <= end < |raw| && NEWLINE !in raw[cursor..end] && raw[end] == NEWLINE
    ensures FindFrom(raw, NEWLINE, cursor) == end
    decreases end - cursor
  {
    if cursor < end {
      assert raw[cursor..end] == [raw[cursor]] + raw[cursor + 1..end];
      FirstIs(raw, cursor + 1, end);
    }
  }

  lemma EmptyIsAnswer(raw: Octets)
    ensures IsAnswer(raw, []) <==> raw == []
  {
    if raw == [] { assert AllAnnounced([], []) && raw == Assemble([], []); }
  }

  lemma {:induction false} PassedAnswer(raw: Octets, files: seq<Octets>, cursor: nat)
    requires cursor <= |raw| && CheckAll(raw, files, cursor).Ok? && !ReadsNegativeSize(raw, files, cursor)
    ensures IsAnswer(raw[cursor..], files)
    decreases |files|
  {
    if files == [] {
      EmptyIsAnswer(raw[cursor..]);
    } else {
      PassedPart(raw, files[0], cursor);
      hide CheckOne, HeaderSize, IsAnswer, Announces, Part, Find, Slice;
      var next := CheckOne(raw, files[0], cursor).value;
      PassedAnswer(raw, files[1..], next);
      PartFirst(raw[cursor..], Slice(raw, cursor, Find(raw, NEWLINE, cursor)), files, raw[next..]);
    }
  }

  lemma {:induction false} AnswerPasses(raw: Octets, files: seq<Octets>, cursor: nat)
    requires cursor <= |raw| && IsAnswer(raw[cursor..], files)
    ensures CheckAll(raw, files, cursor).Ok? && !ReadsNegativeSize(raw, files, cursor)
    decreases |files|
  {
    hide CheckOne, HeaderSize, IsAnswer, Announces, Part;
    if files == [] {
      EmptyIsAnswer(raw[cursor..]);
    } else {
      var header, rest := FirstPart(raw[cursor..], files);
      PartPasses(raw, header, files[0], rest, cursor);
      AnswerPasses(raw, files[1..], cursor + |header| + |files[0]| + 2);
    }
  }

  lemma PartFirst(raw: Octets, header: Octets, files: seq<Octets>, rest: Octets)
    requires files != [] && Announces(header, files[0]) && raw == Part(header, files[0]) + rest && IsAnswer(rest, files[1..])
    ensures IsAnswer(raw, files)
  {
    var headers: seq<Octets> :| AllAnnounced(headers, files[1..]) && rest == Assemble(headers, files[1..]);
    var all := [header] + headers;
    assert all[1..] == headers;
    hide Announces, Part;
    assert AllAnnounced(all, files) && raw == Assemble(all, files);
  }

  lemma FirstPart(raw: Octets, files: seq<Octets>) returns (header: Octets, rest: Octets)
    requires files != [] && IsAnswer(raw, files)
    ensures Announces(header, files[0]) && raw == Part(header, files[0]) + rest && IsAnswer(rest, files[1..])
  {
    var headers: seq<Octets> :| AllAnnounced(headers, files) && raw == Assemble(headers, files);
    hide Announces, Part;
    header, rest := headers[0], Assemble(headers[1..], files[1..]);
    assert AllAnnounced(headers[1..], files[1..]);
  }

  /**
   The captured files are accepted, with no negative size on the way, exactly when the answer is the
   concatenation of their parts.
   */
  lemma AcceptedAnswers(raw: Octets, files: seq<Octets>)
    ensures CheckAll(raw, files, 0).Ok? && !ReadsNegativeSize(raw, files, 0) <==> IsAnswer(raw, files)
  {
    assert raw[0..] == raw;
    if CheckAll(raw, files, 0).Ok? && !ReadsNegativeSize(raw, files, 0) { PassedAnswer(raw, files, 0); }
    if IsAnswer(raw, files) { AnswerPasses(raw, files, 0); }
  }

  /** An answer can be read in one way only: it determines the header lines and every file. */
  lemma {:induction false} AnswerIsUnambiguous(h1: seq<Octets>, f1: seq<Octets>, h2: seq<Octets>, f2: seq<Octets>)
    requires AllAnnounced(h1, f1) && AllAnnounced(h2, f2) && Assemble(h1, f1) == Assemble(h2, f2)
    ensures h1 == h2 && f1 == f2
    decreases |f1|
  {
    hide Announces, Part;
    if f1 == [] || f2 == [] {
      EmptyAnswer(h1, f1);
      EmptyAnswer(h2, f2);
    } else {
      var r1, r2 := Assemble(h1[1..], f1[1..]), Assemble(h2[1..], f2[1..]);
      PartsAgree(h1[0], f1[0], r1, h2[0], f2[0], r2);
      AnswerIsUnambiguous(h1[1..], f1[1..], h2[1..], f2[1..]);
      assert h1 == [h1[0]] + h1[1..] && h2 == [h2[0]] + h2[1..];
      assert f1 == [f1[0]] + f1[1..] && f2 == [f2[0]] + f2[1..];
    }
  }

  lemma EmptyAnswer(headers: seq<Octets>, files: seq<Octets>)
    requires |headers| == |files|
    ensures Assemble(headers, files) == [] <==> files == []
  {
  }

  lemma PartsAgree(h1: Octets, c1: Octets, r1: Octets, h2: Octets, c2: Octets, r2: Octets)
    requires Announces(h1, c1) && Announces(h2, c2) && Part(h1, c1) + r1 == Part(h2, c2) + r2
    ensures h1 == h2 && c1 == c2 && r1 == r2
  {
    hide SizeIn;
    assert Part(h1, c1) + r1 == h1 + [NEWLINE] + (c1 + ([NEWLINE] + r1));
    assert Part(h2, c2) + r2 == h2 + [NEWLINE] + (c2 + ([NEWLINE] + r2));
    FieldsAgree(h1, c1 + ([NEWLINE] + r1), h2, c2 + ([NEWLINE] + r2), NEWLINE);
    HeadsAgree(c1, [NEWLINE] + r1, c2, [NEWLINE] + r2);
    HeadsAgree([NEWLINE], r1, [NEWLINE], r2);
  }

  /** The header line Git writes: object name, "blob" and the length in decimal. */
  function GitHeader(oid: Octets, size: nat): Octets { oid + ([SPACE] + (BLOB + ([SPACE] + Decimal(size)))) }

  lemma GitHeaderIsOneLine(oid: Octets, size: nat)
    requires IsWord(oid)
    ensures NEWLINE !in GitHeader(oid, size)
  {
    assert NEWLINE !in Decimal(size) && NEWLINE !in BLOB;
    hide Decimal;
  }

  lemma GitHeaderFields(oid: Octets, size: nat)
    requires IsWord(oid)
    ensures Split(GitHeader(oid, size)) == [oid, BLOB, Decimal(size)]
  {
    assert forall b <- Decimal(size) :: !IsSpace(b);
    hide Decimal, Split;
    LastWord(Decimal(size));
    NextWord(BLOB, Decimal(size));
    NextWord(oid, BLOB + ([SPACE] + Decimal(size)));
  }

  lemma GitAnnounces(oid: Octets, content: Octets)
    requires IsWord(oid) && |Decimal(|content|)| <= MAX_DIGITS
    ensures Announces(GitHeader(oid, |content|), content)
  {
    hide Decimal, ParseInt, Split, GitHeader, IsWord;
    ParsesDecimals(|content|);
    GitHeaderIsOneLine(oid, |content|);
    GitHeaderFields(oid, |content|);
  }

  /** The headers Git writes for objects of these names. */
  function GitHeaders(oids: seq<Octets>, files: seq<Octets>): (headers: seq<Octets>)
    requires |oids| == |files|
    ensures |headers| == |files| && forall i :: 0 <= i < |files| ==> headers[i] == GitHeader(oids[i], |files[i]|)
  {
    if files == [] then [] else [GitHeader(oids[0], |files[0]|)] + GitHeaders(oids[1..], files[1..])
  }

  lemma GitHeadersAnnounce(oids: seq<Octets>, files: seq<Octets>)
    requires |oids| == |files| && (forall oid <- oids :: IsWord(oid))
    requires forall content <- files :: |Decimal(|content|)| <= MAX_DIGITS
    ensures AllAnnounced(GitHeaders(oids, files), files)
  {
    hide Decimal, GitHeader, Announces, IsWord;
    forall i | 0 <= i < |files| ensures Announces(GitHeaders(oids, files)[i], files[i]) {
      assert oids[i] in oids && files[i] in files;
      GitAnnounces(oids[i], files[i]);
    }
  }

  lemma AssembledIsAnswer(headers: seq<Octets>, files: seq<Octets>)
    requires AllAnnounced(headers, files)
    ensures IsAnswer(Assemble(headers, files), files)
  {
    hide AllAnnounced, Assemble;
  }

  /** The answer Git gives for the captured files, whatever their object names, is accepted. */
  lemma GitAnswersAreAccepted(oids: seq<Octets>, files: seq<Octets>)
    requires |oids| == |files| && (forall oid <- oids :: IsWord(oid))
    requires forall content <- files :: |Decimal(|content|)| <= MAX_DIGITS
    ensures CheckAll(Assemble(GitHeaders(oids, files), files), files, 0).Ok?
  {
    hide *;
    var headers := GitHeaders(oids, files);
    GitHeadersAnnounce(oids, files);
    AssembledIsAnswer(headers, files);
    AcceptedAnswers(Assemble(headers, files), files);
  }

  /** "x blob -1" in ASCII. */
  const SIGNED_HEADER: Octets := [120] + ([SPACE] + (BLOB + ([SPACE] + [45, 49])))

  const SIGNED_ANSWER: Octets := SIGNED_HEADER + [NEWLINE]

  /** A header of size -1 passes for one empty file, though no content line follows the header. */
  lemma NegativeSizePasses()
    ensures CheckAll(SIGNED_ANSWER, [[]], 0).Ok? && ReadsNegativeSize(SIGNED_ANSWER, [[]], 0)
    ensures !IsAnswer(SIGNED_ANSWER, [[]])
  {
    var files: seq<Octets> := [[]];
    SignedHeader();
    hide SizeIn, HeaderSize;
    FirstIs(SIGNED_ANSWER, 0, 9);
    assert CheckOne(SIGNED_ANSWER, files[0], 0) == Ok(10);
    assert files[1..] == [] && CheckAll(SIGNED_ANSWER, files[1..], 10) == Ok(());
    AcceptedAnswers(SIGNED_ANSWER, files);
  }

  lemma SignedHeader()
    ensures HeaderSize(SIGNED_ANSWER, 0) == Ok(-1)
  {
    FirstIs(SIGNED_ANSWER, 0, 9);
    assert Slice(SIGNED_ANSWER, 0, 9) == SIGNED_HEADER;
    SignedFields();
    SignedSize();
    hide Split, ParseInt;
    assert SizeIn(SIGNED_HEADER) == Ok(-1);
  }

  lemma SignedSize()
    ensures ParseInt([45, 49]) == Some(-1)
  {
    var digits: Octets := [49];
    assert [45, 49][1..] == digits && digits[..0] == [] && digits[1..] == [];
    assert NumeralValue(digits) == 1 && DigitCount(digits) == 1;
  }

  lemma SignedFields()
    ensures Split(SIGNED_HEADER) == [[120], BLOB, [45, 49]]
  {
    hide Split;
    LastWord([45, 49]);
    NextWord(BLOB, [45, 49]);
    NextWord([120], BLOB + ([SPACE] + [45, 49]));
  }
}
