/**
 The directory digest: the byte string that is hashed for a captured set of files. Files come in
 whatever order the directory walk found them and are sorted by the bytes of their paths.
 */
module SnapshotDigest {
  import opened Bytes

  datatype File = File(path: Octets, content: Octets)

  /** What every digest begins with. */
  function Magic(): Octets { Ascii("capabilityproof-directory-sha256-v1") + [0] }

  // ----- Sorting ----------------------------------------------------------------------------------

  /** The order of byte strings. */
  predicate Less(a: Octets, b: Octets) {
    b != [] && (a == [] || a[0] < b[0] || (a[0] == b[0] && Less(a[1..], b[1..])))
  }

  lemma {:induction false} LessIsTotal(a: Octets, b: Octets)
    ensures Less(a, b) || a == b || Less(b, a)
    ensures !(Less(a, b) && Less(b, a)) && (a == b ==> !Less(a, b))
  {
    if a != [] && b != [] && a[0] == b[0] {
      LessIsTotal(a[1..], b[1..]);
      assert a == [a[0]] + a[1..] && b == [b[0]] + b[1..];
    }
  }

  lemma {:induction false} LessIsTransitive(a: Octets, b: Octets, c: Octets)
    requires Less(a, b) && Less(b, c)
    ensures Less(a, c)
  {
    if a != [] && a[0] == b[0] == c[0] { LessIsTransitive(a[1..], b[1..], c[1..]); }
  }

  function Insert(f: File, sorted: seq<File>): seq<File> {
    if sorted == [] || Less(f.path, sorted[0].path) then [f] + sorted
    else [sorted[0]] + Insert(f, sorted[1..])
  }

  /** Sorted by path, files of equal paths in their original order. */
  function Sort(files: seq<File>): seq<File> {
    if files == [] then [] else Insert(files[|files| - 1], Sort(files[..|files| - 1]))
  }

  ghost predicate UniquePaths(files: seq<File>) {
    forall i, j :: 0 <= i < j < |files| ==> files[i].path != files[j].path
  }

  ghost predicate Ascending(files: seq<File>) {
    forall i, j :: 0 <= i < j < |files| ==> Less(files[i].path, files[j].path)
  }

  lemma {:induction false} InsertKeeps(f: File, sorted: seq<File>)
    requires Ascending(sorted) && forall g <- sorted :: g.path != f.path
    ensures Ascending(Insert(f, sorted)) && multiset(Insert(f, sorted)) == multiset(sorted) + multiset{f}
    ensures forall g <- Insert(f, sorted) :: g == f || g in sorted
  {
    if sorted != [] {
      assert sorted == [sorted[0]] + sorted[1..];
      LessIsTotal(f.path, sorted[0].path);
      if Less(f.path, sorted[0].path) {
        forall i | 0 < i < |sorted| ensures Less(f.path, sorted[i].path) {
          LessIsTransitive(f.path, sorted[0].path, sorted[i].path);
        }
      } else {
        InsertKeeps(f, sorted[1..]);
        assert forall g <- sorted[1..] :: g in sorted;
        var tail := Insert(f, sorted[1..]);
        forall i | 0 <= i < |tail| ensures Less(sorted[0].path, tail[i].path) {
          assert tail[i] == f || tail[i] in sorted[1..];
          if tail[i] != f { HeadBelow(sorted, tail[i]); }
        }
      }
    }
  }

  lemma HeadBelow(sorted: seq<File>, f: File)
    requires Ascending(sorted) && sorted != [] && f in sorted[1..]
    ensures Less(sorted[0].path, f.path)
  {
    var i :| 0 <= i < |sorted[1..]| && sorted[1..][i] == f;
    assert f == sorted[i + 1];
  }

  lemma {:induction false} SortSorts(files: seq<File>)
    requires UniquePaths(files)
    ensures Ascending(Sort(files)) && multiset(Sort(files)) == multiset(files)
  {
    if files != [] {
      var front, last := files[..|files| - 1], files[|files| - 1];
      SortSorts(front);
      assert files == front + [last];
      forall g <- Sort(front) ensures g.path != last.path {
        assert g in multiset(Sort(front)) && g in front;
      }
      InsertKeeps(last, Sort(front));
    }
  }

  /** An ascending list is determined by what it contains. */
  lemma {:induction false} AscendingIsUnique(a: seq<File>, b: seq<File>)
    requires Ascending(a) && Ascending(b) && forall f :: f in a <==> f in b
    ensures a == b
  {
    assert (forall i | 0 <= i < |a| :: a[i] in b) && (forall i | 0 <= i < |b| :: b[i] in a);
    if a != [] && b != [] {
      HeadIsLeast(a, b[0]);
      HeadIsLeast(b, a[0]);
      LessIsTotal(a[0].path, b[0].path);
      assert a[0] == b[0] && a == [a[0]] + a[1..] && b == [b[0]] + b[1..];
      TailsShare(a, b);
      AscendingIsUnique(a[1..], b[1..]);
    }
  }

  lemma HeadIsLeast(a: seq<File>, f: File)
    requires Ascending(a) && f in a
    ensures a[0] == f || Less(a[0].path, f.path)
  {
    var i :| 0 <= i < |a| && a[i] == f;
  }

  lemma TailsShare(a: seq<File>, b: seq<File>)
    requires a != [] && b != [] && a[0] == b[0] && Ascending(a) && Ascending(b) && forall f :: f in a <==> f in b
    ensures forall f :: f in a[1..] <==> f in b[1..]
  {
    forall f ensures f in a[1..] <==> f in a && f != a[0] { TailElement(a, f); }
    forall f ensures f in b[1..] <==> f in b && f != b[0] { TailElement(b, f); }
  }

  lemma TailElement(a: seq<File>, f: File)
    requires a != [] && Ascending(a)
    ensures f in a[1..] <==> f in a && f != a[0]
  {
    LessIsTotal(a[0].path, a[0].path);
    assert a == [a[0]] + a[1..];
    if f in a[1..] { HeadBelow(a, f); }
  }

  // ----- The preimage -----------------------------------------------------------------------------

  /** Length-prefixed path, then length-prefixed content. */
  function Entry(f: File): Octets {
    BigEndian(|f.path|, 8) + (f.path + (BigEndian(|f.content|, 8) + f.content))
  }

  function Entries(files: seq<File>): Octets {
    if files == [] then [] else Entry(files[0]) + Entries(files[1..])
  }

  function Preimage(files: seq<File>): Octets { Magic() + Entries(Sort(files)) }

  /** Both lengths fit in eight bytes. */
  ghost predicate Fits(files: seq<File>) {
    forall f <- files :: |f.path| < Power256(8) && |f.content| < Power256(8)
  }

  lemma ShortLength(n: nat)
    requires n < 256
    ensures BigEndian(n, 8) == [0, 0, 0, 0, 0, 0, 0, n as Byte]
  {
    assert BigEndian(0, 1) == [0] && BigEndian(0, 2) == [0, 0] && BigEndian(0, 3) == [0, 0, 0];
    assert BigEndian(0, 4) == [0, 0, 0, 0] && BigEndian(0, 5) == [0, 0, 0, 0, 0];
    assert BigEndian(0, 6) == [0, 0, 0, 0, 0, 0] && BigEndian(0, 7) == [0, 0, 0, 0, 0, 0, 0];
  }

  /** The bytes for one short file: the mark, then path and content, each behind its length in eight bytes. */
  lemma PreimageOfOne(path: Octets, content: Octets)
    requires |path| < 256 && |content| < 256
    ensures Preimage([File(path, content)])
            == Magic() + [0, 0, 0, 0, 0, 0, 0, |path| as Byte] + path + [0, 0, 0, 0, 0, 0, 0, |content| as Byte] + content
  {
    hide Magic, Entries, Entry, Sort;
    var f := File(path, content);
    OneEntry(f);
    ShortEntry(f);
    assert Magic() + (BigEndian(|path|, 8) + path + BigEndian(|content|, 8) + content)
        == Magic() + BigEndian(|path|, 8) + path + BigEndian(|content|, 8) + content by {
      hide BigEndian;
    }
    ShortLength(|path|);
    ShortLength(|content|);
  }

  lemma OneEntry(f: File)
    ensures Sort([f]) == [f] && Entries([f]) == Entry(f)
  {
    hide Entry;
    assert [f][..0] == [] && [f][1..] == [];
  }

  lemma ShortEntry(f: File)
    ensures Entry(f) == BigEndian(|f.path|, 8) + f.path + BigEndian(|f.content|, 8) + f.content
  {
    hide BigEndian;
  }

  method DigestPreimage(files: seq<File>) returns (data: Octets)
    ensures data == Preimage(files)
  {
    hide Magic;
    var sorted := Sort(files);
    data := Magic();
    for i := 0 to |sorted|
      invariant data + Entries(sorted[i..]) == Magic() + Entries(sorted)
    {
      var item := sorted[i];
      assert sorted[i..][0] == item && sorted[i..][1..] == sorted[i + 1..];
      EntryFirst(data, item, Entries(sorted[i + 1..]));
      data := data + BigEndian(|item.path|, 8);
      data := data + item.path;
      data := data + BigEndian(|item.content|, 8);
      data := data + item.content;
    }
    assert sorted[|sorted|..] == [];
  }

  lemma EntryFirst(data: Octets, f: File, rest: Octets)
    ensures data + (Entry(f) + rest)
            == data + BigEndian(|f.path|, 8) + f.path + BigEndian(|f.content|, 8) + f.content + rest
  {
    hide BigEndian;
    var x, y := BigEndian(|f.path|, 8), BigEndian(|f.content|, 8);
    assert x + (f.path + (y + f.content)) == x + f.path + y + f.content;
    assert data + (x + f.path + y + f.content + rest) == data + x + f.path + y + f.content + rest;
  }

  lemma EntryIsPrefixFree(f: File, x: Octets, g: File, y: Octets)
    requires Entry(f) + x == Entry(g) + y && Fits([f, g])
    ensures f == g && x == y
  {
    assert f in [f, g] && g in [f, g];
    hide BigEndian, Power256;
    LengthsAgree(f.path, BigEndian(|f.content|, 8) + f.content + x, g.path, BigEndian(|g.content|, 8) + g.content + y) by {
      Regroup(f, x);
      Regroup(g, y);
    }
    Shift(BigEndian(|f.content|, 8), f.content, x);
    Shift(BigEndian(|g.content|, 8), g.content, y);
    LengthsAgree(f.content, x, g.content, y);
  }

  lemma Shift(a: Octets, b: Octets, c: Octets)
    ensures a + b + c == a + (b + c)
  {
  }

  lemma Regroup(f: File, x: Octets)
    ensures Entry(f) + x == BigEndian(|f.path|, 8) + (f.path + (BigEndian(|f.content|, 8) + f.content + x))
  {
    hide BigEndian;
    var p, c := BigEndian(|f.path|, 8), BigEndian(|f.content|, 8);
    assert p + (f.path + (c + f.content)) + x == p + (f.path + (c + f.content + x));
  }

  lemma LengthsAgree(a: Octets, x: Octets, b: Octets, y: Octets)
    requires BigEndian(|a|, 8) + (a + x) == BigEndian(|b|, 8) + (b + y)
    requires |a| < Power256(8) && |b| < Power256(8)
    ensures a == b && x == y
  {
    hide Power256;
    HeadsAgree(BigEndian(|a|, 8), a + x, BigEndian(|b|, 8), b + y);
    BigEndianInjective(|a|, |b|, 8);
    HeadsAgree(a, x, b, y);
  }

  lemma {:induction false} EntriesInjective(a: seq<File>, b: seq<File>)
    requires Fits(a) && Fits(b) && Entries(a) == Entries(b)
    ensures a == b
  {
    hide Entry, Power256;
    if a == [] || b == [] {
      if a != [] { EntryNotEmpty(a[0]); }
      if b != [] { EntryNotEmpty(b[0]); }
    } else {
      assert a[0] in a && b[0] in b;
      EntryIsPrefixFree(a[0], Entries(a[1..]), b[0], Entries(b[1..]));
      EntriesInjective(a[1..], b[1..]);
      assert a == [a[0]] + a[1..] && b == [b[0]] + b[1..];
    }
  }

  lemma EntryNotEmpty(f: File)
    ensures Entry(f) != []
  {
    assert |Entry(f)| >= |BigEndian(|f.path|, 8)|;
  }

  /** The captured directory: each path with its bytes. */
  ghost function Contents(files: seq<File>): map<Octets, Octets>
    requires UniquePaths(files)
  {
    map f <- files :: f.path := f.content
  }

  lemma SameContents(a: seq<File>, b: seq<File>)
    requires UniquePaths(a) && UniquePaths(b)
    ensures Contents(a) == Contents(b) <==> forall f :: f in a <==> f in b
  {
    forall f ensures f in a <==> f.path in Contents(a) && Contents(a)[f.path] == f.content { InContents(a, f); }
    forall f ensures f in b <==> f.path in Contents(b) && Contents(b)[f.path] == f.content { InContents(b, f); }
    if forall f :: f in a <==> f in b {
      forall p: Octets
        ensures p in Contents(a) <==> p in Contents(b)
        ensures p in Contents(a) && p in Contents(b) ==> Contents(a)[p] == Contents(b)[p]
      {
        if p in Contents(a) { assert File(p, Contents(a)[p]) in a; }
        if p in Contents(b) { assert File(p, Contents(b)[p]) in b; }
      }
    }
  }

  lemma InContents(a: seq<File>, f: File)
    requires UniquePaths(a)
    ensures f in a <==> f.path in Contents(a) && Contents(a)[f.path] == f.content
  {
  }

  lemma SortHasSame(a: seq<File>, f: File)
    requires UniquePaths(a)
    ensures f in Sort(a) <==> f in a
  {
    SortSorts(a);
    assert f in multiset(Sort(a)) <==> f in multiset(a);
  }

  lemma FitsSorted(a: seq<File>)
    requires UniquePaths(a) && Fits(a)
    ensures Fits(Sort(a))
  {
    hide Power256;
    forall f | f in Sort(a) ensures f in a { SortHasSame(a, f); }
  }

  /**
   The preimage is canonical: two captures give the same bytes exactly when they are the same
   directory, in whatever order their files were found.
   */
  lemma PreimageIsCanonical(a: seq<File>, b: seq<File>)
    requires UniquePaths(a) && UniquePaths(b) && Fits(a) && Fits(b)
    ensures Preimage(a) == Preimage(b) <==> Contents(a) == Contents(b)
  {
    SortSorts(a);
    SortSorts(b);
    SameContents(a, b);
    hide Contents, Entries, Sort, Fits, Ascending, UniquePaths, Magic;
    forall f ensures (f in Sort(a) <==> f in a) && (f in Sort(b) <==> f in b) {
      SortHasSame(a, f);
      SortHasSame(b, f);
    }
    if Preimage(a) == Preimage(b) {
      HeadsAgree(Magic(), Entries(Sort(a)), Magic(), Entries(Sort(b)));
      FitsSorted(a);
      FitsSorted(b);
      EntriesInjective(Sort(a), Sort(b));
    } else if Contents(a) == Contents(b) {
      AscendingIsUnique(Sort(a), Sort(b));
    }
  }
}
