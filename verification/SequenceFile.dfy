/**
 The file of last-seen feed sequences: what the loader accepts, what a record writes, and when a file
 that was written can be read again.
 */
module SequenceFile {
  import opened Wrappers
  import opened Bytes
  import opened MapSums
  import PythonBytes

  /** The highest sequence seen for a root and the digest of that feed, unknown in old files. */
  datatype Entry = Entry(sequence: int, digest: Option<string>)

  type Roots = map<string, Entry>

  /** What is stored, and the number of bytes it takes. */
  datatype File = File(roots: Roots, size: nat)

  datatype StoreError = InvalidState | SequenceRollback | SequenceEquivocation
    /** The interpreter cannot write a number of so many digits. */
    | Unwritable

  const MAX_ROOTS := 100
  const MAX_FILE_BYTES := 64_000

  /** The interpreter neither reads nor writes longer numbers. */
  const MAX_DIGITS := PythonBytes.MAX_DIGITS

  function Digits(n: int): nat { if n >= 0 then |Decimal(n)| else |Decimal(-n)| }

  predicate EntryOk(e: Entry) {
    e.sequence >= 1 && Digits(e.sequence) <= MAX_DIGITS && (e.digest.Some? ==> |e.digest.value| == 64)
  }

  predicate EntriesOk(roots: Roots) { forall key <- roots :: EntryOk(roots[key]) }

  /** `_load` accepts the file. */
  predicate Readable(f: File) {
    f.size <= MAX_FILE_BYTES && |f.roots| <= MAX_ROOTS && EntriesOk(f.roots)
  }

  // ----- The size of what is written -----------------------------------------------------------------

  /** A character in a JSON string written in ASCII. */
  function CharacterSize(c: char): nat {
    if c as int in {8, 9, 10, 12, 13, 34, 92} then 2
    else if ' ' <= c <= '~' then 1
    else if c as int < 0x1_0000 then 6
    else 12
  }

  function TextSize(s: string): nat { if s == "" then 0 else TextSize(s[..|s| - 1]) + CharacterSize(s[|s| - 1]) }

  /** "KEY":{"feed_sha256":"DIGEST","sequence":N}, or null in place of the digest. */
  function EntrySize(key: string, e: Entry): nat {
    TextSize(key) + (if e.digest.Some? then TextSize(e.digest.value) + 2 else 4) + Digits(e.sequence) + 31
  }

  /** {"roots":{...},"schema_version":2} and a newline, with commas between the entries. */
  ghost function DocumentSize(roots: Roots): nat {
    32 + Sum(roots, EntrySize) + (if |roots| == 0 then 0 else |roots| - 1)
  }

  // ----- Recording -----------------------------------------------------------------------------------

  predicate IsDigest(s: string) { |s| == 64 && forall c <- s :: '0' <= c <= '9' || 'a' <= c <= 'f' }

  function MinimumIn(f: File, key: string): Result<int, StoreError> {
    if !Readable(f) then Err(InvalidState)
    else Ok(if key in f.roots then f.roots[key].sequence else 0)
  }

  /** The entries after a record. */
  function RecordEntry(roots: Roots, key: string, sequence: int, digest: string): Result<Roots, StoreError> {
    if key in roots && sequence < roots[key].sequence then Err(SequenceRollback)
    else if key in roots && sequence == roots[key].sequence && roots[key].digest.Some? && roots[key].digest.value != digest
    then Err(SequenceEquivocation)
    else Ok(roots[key := Entry(sequence, Some(digest))])
  }

  /** The file after a record; an entry that is there already is not written again. */
  ghost function RecordIn(f: File, key: string, sequence: int, digest: string): Result<File, StoreError> {
    if sequence < 1 || !IsDigest(digest) || !Readable(f) then Err(InvalidState)
    else
      match RecordEntry(f.roots, key, sequence, digest)
      case Err(error) => Err(error)
      case Ok(roots) =>
        if roots == f.roots then Ok(f)
        else if Digits(sequence) > MAX_DIGITS then Err(Unwritable)
        else Ok(File(roots, DocumentSize(roots)))
  }

  /** Which files can be read. */
  lemma ReadableMeans(f: File)
    ensures Readable(f)
            <==> f.size <= 64_000 && |f.roots| <= 100
                 && forall key <- f.roots :: var e := f.roots[key];
                      && e.sequence > 0 && |Decimal(e.sequence)| <= 4300
                      && (e.digest.Some? ==> |e.digest.value| == 64)
  {
    hide Decimal;
  }

  /** The sequence is ahead of what is stored for the root, or says again what is stored. */
  predicate MayFollow(roots: Roots, key: string, sequence: int, digest: string) {
    key !in roots || roots[key].sequence < sequence
    || (roots[key].sequence == sequence && roots[key].digest in {None, Some(digest)})
  }

  /** Exactly which records are accepted. */
  lemma RecordIsAccepted(f: File, key: string, sequence: int, digest: string)
    ensures RecordIn(f, key, sequence, digest).Ok?
            <==> Readable(f) && sequence > 0 && IsDigest(digest) && MayFollow(f.roots, key, sequence, digest)
                 && |Decimal(sequence)| <= 4300
  {
    hide Decimal, DocumentSize;
    if sequence > 0 && Readable(f) && RecordEntry(f.roots, key, sequence, digest).Ok? {
      var after := f.roots[key := Entry(sequence, Some(digest))];
      assert after[key] == Entry(sequence, Some(digest));
      if after == f.roots { assert key in f.roots && EntryOk(f.roots[key]); }
    }
  }

  class LifecycleSequenceStore {
    var roots: Roots
    var size: nat

    function Stored(): File
      reads this
    {
      File(roots, size)
    }

    constructor (stored: File)
      ensures Stored() == stored
    {
      roots, size := stored.roots, stored.size;
    }

    method Minimum(key: string) returns (r: Result<int, StoreError>)
      ensures r == MinimumIn(Stored(), key)
      ensures r.Ok? && key in roots ==> r.value == roots[key].sequence
    {
      if !Readable(Stored()) { return Err(InvalidState); }
      if key in roots { return Ok(roots[key].sequence); }
      return Ok(0);
    }

    method Record(key: string, sequence: int, digest: string) returns (r: Result<(), StoreError>)
      modifies this
      ensures RecordIn(old(Stored()), key, sequence, digest) == if r.Ok? then Ok(Stored()) else Err(r.error)
      ensures r.Err? ==> Stored() == old(Stored())
      ensures roots - {key} == old(roots) - {key}
      ensures r.Ok? ==> key in roots && roots[key] == Entry(sequence, Some(digest))
                        && (key in old(roots) ==> old(roots)[key].sequence <= sequence)
    {
      if sequence < 1 || !IsDigest(digest) { return Err(InvalidState); }
      if !Readable(Stored()) { return Err(InvalidState); }
      if key in roots {
        var current := roots[key];
        if sequence < current.sequence { return Err(SequenceRollback); }
        if sequence == current.sequence {
          if current.digest.Some? && digest != current.digest.value { return Err(SequenceEquivocation); }
          if current.digest == Some(digest) {
            assert roots[key := Entry(sequence, Some(digest))] == roots;
            return Ok(());
          }
        }
      }
      assert roots[key := Entry(sequence, Some(digest))] != roots by {
        assert roots[key := Entry(sequence, Some(digest))][key] == Entry(sequence, Some(digest));
      }
      if Digits(sequence) > MAX_DIGITS { return Err(Unwritable); }
      roots := roots[key := Entry(sequence, Some(digest))];
      size := WrittenSize(roots);
      return Ok(());
    }
  }

  /** The length of the document, entry by entry. */
  method WrittenSize(roots: Roots) returns (size: nat)
    ensures size == DocumentSize(roots)
  {
    size := 32;
    var rest := roots;
    NothingSums(EntrySize);
    while rest != map[]
      invariant size + Sum(rest, EntrySize) == 32 + Sum(roots, EntrySize)
      decreases |rest|
    {
      var key :| key in rest;
      SumWithout(rest, EntrySize, key);
      OneEntryLess(rest, key);
      size := size + EntrySize(key, rest[key]);
      rest := rest - {key};
    }
    if |roots| > 0 { size := size + |roots| - 1; }
  }

  // ----- Staying readable ------------------------------------------------------------------------------

  /** What is left of an entry's size when it is replaced, and the comma of a new one. */
  lemma DocumentGrows(roots: Roots, key: string, e: Entry)
    ensures DocumentSize(roots[key := e]) + (if key in roots then EntrySize(key, roots[key]) else 0)
            == DocumentSize(roots) + EntrySize(key, e) + (if key !in roots && roots != map[] then 1 else 0)
  {
    SumUpdates(roots, EntrySize, key, e);
    assert roots[key := e].Keys == roots.Keys + {key};
    assert |roots[key := e]| == |roots[key := e].Keys| && |roots| == |roots.Keys|;
    hide EntrySize;
  }

  /** There is room for the entry: its root is stored or one of a hundred, and the document is not too long. */
  ghost predicate HasRoom(f: File, key: string, sequence: int, digest: string) {
    && (key in f.roots || |f.roots| < MAX_ROOTS)
    && DocumentSize(f.roots[key := Entry(sequence, Some(digest))]) <= MAX_FILE_BYTES
  }

  /** The entry is there already, so nothing is written. */
  predicate IsRecorded(f: File, key: string, sequence: int, digest: string) {
    key in f.roots && f.roots[key] == Entry(sequence, Some(digest))
  }

  /** An accepted record leaves the file readable exactly when nothing was written or there was room for it. */
  lemma RecordStaysReadable(f: File, key: string, sequence: int, digest: string)
    requires RecordIn(f, key, sequence, digest).Ok?
    ensures Readable(RecordIn(f, key, sequence, digest).value)
            <==> IsRecorded(f, key, sequence, digest) || HasRoom(f, key, sequence, digest)
    ensures Readable(f)
  {
    hide DocumentSize, EntryOk, EntriesOk;
    var e := Entry(sequence, Some(digest));
    RecordedEntryOk(f, key, sequence, digest);
    EntriesStayOk(f.roots, key, e);
    OneMoreRoot(f.roots, key, e);
  }

  lemma RecordedEntryOk(f: File, key: string, sequence: int, digest: string)
    requires RecordIn(f, key, sequence, digest).Ok?
    ensures EntryOk(Entry(sequence, Some(digest)))
    ensures f.roots[key := Entry(sequence, Some(digest))] == f.roots <==> IsRecorded(f, key, sequence, digest)
  {
    hide DocumentSize, Digits;
    var e := Entry(sequence, Some(digest));
    assert f.roots[key := e][key] == e;
    if IsRecorded(f, key, sequence, digest) { assert f.roots[key := e] == f.roots; }
  }

  lemma EntriesStayOk(roots: Roots, key: string, e: Entry)
    requires EntryOk(e) && EntriesOk(roots)
    ensures EntriesOk(roots[key := e])
  {
    hide EntryOk;
  }

  lemma OneMoreRoot(roots: Roots, key: string, e: Entry)
    ensures |roots[key := e]| == |roots| + if key in roots then 0 else 1
  {
    assert roots[key := e].Keys == roots.Keys + {key};
    assert |roots[key := e]| == |roots[key := e].Keys| && |roots| == |roots.Keys|;
  }

  /** A root whose name takes no more than a key thumbprint and whose sequence has no more than d digits. */
  predicate IsModest(key: string, e: Entry, d: nat) {
    TextSize(key) <= 43 && Digits(e.sequence) <= d && (e.digest.Some? ==> TextSize(e.digest.value) <= 64)
  }

  ghost predicate AllModest(roots: Roots, d: nat) {
    |roots| <= MAX_ROOTS && forall key <- roots :: IsModest(key, roots[key], d)
  }

  /** The most digits that a hundred sequences can all have. */
  const MODEST_DIGITS := 498

  /** A hundred roots with sequences of 498 digits always fit. */
  lemma ModestRootsFit(roots: Roots)
    requires AllModest(roots, MODEST_DIGITS)
    ensures DocumentSize(roots) <= MAX_FILE_BYTES
  {
    forall key <- roots ensures EntrySize(key, roots[key]) <= 638 { assert IsModest(key, roots[key], MODEST_DIGITS); }
    SumIsBounded(roots, EntrySize, 638);
    hide EntrySize;
    assert |roots| * 638 <= MAX_ROOTS * 638;
  }

  // ----- Files that cannot be read again ------------------------------------------------------------------

  function Power10(n: nat): nat { if n == 0 then 1 else 10 * Power10(n - 1) }

  lemma {:induction false} DigitsOfPower(n: nat)
    ensures Power10(n) >= 1 && |Decimal(Power10(n))| == n + 1
  {
    if n > 0 {
      DigitsOfPower(n - 1);
      assert Power10(n) / 10 == Power10(n - 1);
    }
  }

  function Repeat(c: char, n: nat): (s: string)
    ensures |s| == n && forall x <- s :: x == c
  {
    if n == 0 then "" else Repeat(c, n - 1) + [c]
  }

  function Numeral(d: nat): char
    requires d < 10
  {
    '0' + d as char
  }

  /** Distinct names of 43 characters. */
  function Name(i: nat): string
    requires i < 1000
  {
    [Numeral(i / 100), Numeral(i / 10 % 10), Numeral(i % 10)] + Repeat('A', 40)
  }

  const DIGEST: string := Repeat('0', 64)

  /** n roots of one sequence, recorded one after the other. */
  function Filled(n: nat, sequence: int): Roots
    requires n <= 1000
  {
    if n == 0 then map[] else Filled(n - 1, sequence)[Name(n - 1) := Entry(sequence, Some(DIGEST))]
  }

  lemma {:induction false} PlainText(s: string)
    requires forall c <- s :: '0' <= c <= '9' || 'A' <= c <= 'Z' || 'a' <= c <= 'z'
    ensures TextSize(s) == |s|
  {
    if s != "" {
      var n := |s| - 1;
      assert s[n] in s && forall c <- s[..n] :: c in s;
      PlainText(s[..n]);
      assert s[n] as int !in {8, 9, 10, 12, 13, 34, 92};
    }
  }

  lemma NameIsPlain(i: nat)
    requires i < 1000
    ensures |Name(i)| == 43 && TextSize(Name(i)) == 43 && forall j: nat :: j < 1000 && Name(j) == Name(i) ==> j == i
  {
    hide TextSize;
    var name := Name(i);
    forall c <- name ensures '0' <= c <= '9' || 'A' <= c <= 'Z' {
      var k :| 0 <= k < |name| && name[k] == c;
    }
    PlainText(name);
    forall j: nat | j < 1000 && Name(j) == name ensures j == i { SameName(i, j); }
  }

  lemma SameName(i: nat, j: nat)
    requires i < 1000 && j < 1000 && Name(i) == Name(j)
    ensures i == j
  {
    hide Name, Numeral;
    NameStarts(i);
    NameStarts(j);
    SameNumeral(i / 100, j / 100);
    SameNumeral(i / 10 % 10, j / 10 % 10);
    SameNumeral(i % 10, j % 10);
    ThreeDigits(i);
    ThreeDigits(j);
  }

  lemma ThreeDigits(i: nat)
    ensures i == 100 * (i / 100) + 10 * (i / 10 % 10) + i % 10
  {
    assert i / 10 / 10 == i / 100;
  }

  lemma NameStarts(i: nat)
    requires i < 1000
    ensures |Name(i)| == 43
    ensures Name(i)[0] == Numeral(i / 100) && Name(i)[1] == Numeral(i / 10 % 10) && Name(i)[2] == Numeral(i % 10)
  {
    hide Repeat, Numeral;
  }

  lemma SameNumeral(c: nat, d: nat)
    requires c < 10 && d < 10 && Numeral(c) == Numeral(d)
    ensures c == d
  {
  }

  lemma {:induction false} FilledRoots(n: nat, sequence: int)
    requires n < 1000
    ensures |Filled(n, sequence)| == n
    ensures forall key <- Filled(n, sequence) :: Filled(n, sequence)[key] == Entry(sequence, Some(DIGEST))
    ensures forall i: nat :: n <= i < 1000 ==> Name(i) !in Filled(n, sequence)
  {
    if n > 0 {
      FilledRoots(n - 1, sequence);
      NameIsPlain(n - 1);
      hide Name;
      var before := Filled(n - 1, sequence);
      assert Filled(n, sequence).Keys == before.Keys + {Name(n - 1)};
      assert |Filled(n, sequence)| == |Filled(n, sequence).Keys| && |before| == |before.Keys|;
    }
  }

  lemma {:induction false} FilledSize(n: nat, sequence: int)
    requires n < 1000
    ensures DocumentSize(Filled(n, sequence)) == 32 + n * (140 + Digits(sequence)) + (if n == 0 then 0 else n - 1)
  {
    if n == 0 {
      NothingSums(EntrySize);
    } else {
      FilledSize(n - 1, sequence);
      FilledRoots(n - 1, sequence);
      NewEntrySize(n - 1, sequence);
      DocumentGrows(Filled(n - 1, sequence), Name(n - 1), Entry(sequence, Some(DIGEST)));
      OneMoreTimes(n - 1, 140 + Digits(sequence));
      hide Name, EntrySize, DocumentSize, Digits;
    }
  }

  lemma NewEntrySize(i: nat, sequence: int)
    requires i < 1000
    ensures EntrySize(Name(i), Entry(sequence, Some(DIGEST))) == 140 + Digits(sequence)
  {
    DigestIsPlain();
    NameIsPlain(i);
  }

  /** The n roots, as the file that holds them. */
  ghost function FilledFile(n: nat, sequence: int): File
    requires n < 1000
  {
    File(Filled(n, sequence), DocumentSize(Filled(n, sequence)))
  }

  lemma FilledIsReadable(n: nat, sequence: int)
    requires n < 1000 && sequence >= 1 && Digits(sequence) <= MAX_DIGITS
    ensures Readable(FilledFile(n, sequence))
            <==> n <= MAX_ROOTS && 32 + n * (140 + Digits(sequence)) + (if n == 0 then 0 else n - 1) <= MAX_FILE_BYTES
  {
    FilledRoots(n, sequence);
    FilledSize(n, sequence);
    DigestIsPlain();
    hide Filled, DocumentSize, Digits;
  }

  /** Each of these files comes from the one before by recording a root it does not hold. */
  lemma FilledByRecording(n: nat, sequence: int)
    requires n < 999 && sequence >= 1 && Digits(sequence) <= MAX_DIGITS && Readable(FilledFile(n, sequence))
    ensures RecordIn(FilledFile(n, sequence), Name(n), sequence, DIGEST) == Ok(FilledFile(n + 1, sequence))
  {
    FilledRoots(n, sequence);
    DigestIsPlain();
    NextFilled(n, sequence);
    hide DocumentSize, Digits, Name, Readable, Filled, IsDigest, DIGEST;
    NewRootIsRecorded(FilledFile(n, sequence), Name(n), sequence, DIGEST);
  }

  lemma NextFilled(n: nat, sequence: int)
    requires n < 999
    ensures Filled(n + 1, sequence) == Filled(n, sequence)[Name(n) := Entry(sequence, Some(DIGEST))]
  {
    hide Name, DIGEST;
  }

  lemma NewRootIsRecorded(f: File, key: string, sequence: int, digest: string)
    requires key !in f.roots && Readable(f) && IsDigest(digest) && sequence >= 1 && Digits(sequence) <= MAX_DIGITS
    ensures var after := f.roots[key := Entry(sequence, Some(digest))];
            RecordIn(f, key, sequence, digest) == Ok(File(after, DocumentSize(after)))
  {
    hide DocumentSize, Digits, Readable, IsDigest;
    var after := f.roots[key := Entry(sequence, Some(digest))];
    assert key in after;
  }

  /** Once, the hundred-and-first root: a full file takes it and cannot be read again. */
  lemma OneRootTooMany()
    ensures Readable(FilledFile(100, 1)) && !Readable(FilledFile(101, 1))
    ensures RecordIn(FilledFile(100, 1), Name(100), 1, DIGEST) == Ok(FilledFile(101, 1))
  {
    assert Digits(1) == 1;
    hide FilledFile, Digits;
    FilledIsReadable(100, 1);
    FilledIsReadable(101, 1);
    FilledByRecording(100, 1);
  }

  /** And the fifteenth root, when the sequences are as long as the interpreter lets them be. */
  lemma FifteenLongSequences() returns (sequence: int)
    ensures sequence >= 1 && Digits(sequence) == MAX_DIGITS
    ensures Readable(FilledFile(14, sequence)) && !Readable(FilledFile(15, sequence))
    ensures RecordIn(FilledFile(14, sequence), Name(14), sequence, DIGEST) == Ok(FilledFile(15, sequence))
  {
    sequence := LongestSequence(MAX_DIGITS - 1);
    hide FilledFile, Digits;
    FilledIsReadable(14, sequence);
    FilledIsReadable(15, sequence);
    FilledByRecording(14, sequence);
  }

  /** The bound of 498 digits is sharp: a hundred roots with 499 do not fit. */
  lemma ModestBoundIsSharp() returns (sequence: int)
    ensures sequence >= 1 && Digits(sequence) == MODEST_DIGITS + 1 && !Readable(FilledFile(100, sequence))
  {
    sequence := LongestSequence(MODEST_DIGITS);
    hide FilledFile, Digits;
    FilledIsReadable(100, sequence);
  }

  lemma LongestSequence(n: nat) returns (sequence: int)
    ensures sequence >= 1 && Digits(sequence) == n + 1
  {
    DigitsOfPower(n);
    sequence := Power10(n);
  }

  lemma DigestIsPlain()
    ensures |DIGEST| == 64 && TextSize(DIGEST) == 64 && IsDigest(DIGEST)
  {
    PlainText(DIGEST);
  }
}
