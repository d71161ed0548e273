/**
 Freezing a source directory: the listing of its Git tree is parsed into the expected files, and an
 archive of the same directory is unpacked against that expectation.
 */
module TreeListing {
  import opened Wrappers
  import opened Bytes
  import opened MapSums
  import opened PythonBytes
  import opened RelativePaths
  import opened ScanLimits

  datatype Error =
    | TreeInvalid | PathRejected | LimitExceeded | ScopeInvalid | ArchiveMismatch | FreezeFailed
    /** Not an answer: the walk over the ancestors of a path does not end. */
    | NeverReturns

  // ----- The listing of a tree -------------------------------------------------------------------------

  datatype Entry = Entry(size: nat, oid: Octets, mode: Octets)

  datatype Item = Item(path: string, entry: Entry)

  const TAB: Byte := 9
  /** "100644" and "100755" in ASCII. */
  const FILE_MODES: set<Octets> := {[49, 48, 48, 54, 52, 52], [49, 48, 48, 55, 53, 53]}

  predicate IsObjectId(oid: Octets) { |oid| == 40 && forall b <- oid :: 48 <= b <= 57 || 97 <= b <= 102 }

  /** One record, up to the limits of a single file. */
  function ReadRecord(u: Unicode, l: Limits, skill: string, record: Octets): Result<Item, Error> {
    var tab := if TAB in record then First(record, TAB) else |record|;
    var fields := Split(record[..tab]);
    if TAB !in record || |fields| != 4 then Err(TreeInvalid)
    else if fields[1] != BLOB || fields[0] !in FILE_MODES then Err(PathRejected)
    else
      var path, size := u.decode(record[tab + 1..]), ParseInt(fields[3]);
      if path.Undecodable? || size.None? then Err(TreeInvalid)
      else if !(skill + "/" <= path.characters) then Err(TreeInvalid)
      else
        var relative := path.characters[|skill| + 1..];
        if !ValidRelative(u, l, relative) then Err(PathRejected)
        else if !IsObjectId(fields[2]) then Err(TreeInvalid)
        else if size.value < 0 || size.value > l.maxFileBytes then Err(LimitExceeded)
        else if relative == SKILL_MD && size.value > l.maxSkillMdBytes then Err(LimitExceeded)
        else Ok(Item(relative, Entry(size.value, fields[2], fields[0])))
  }

  lemma RecordIsSound(u: Unicode, l: Limits, skill: string, record: Octets)
    requires ReadRecord(u, l, skill, record).Ok?
    ensures var Item(path, entry) := ReadRecord(u, l, skill, record).value;
            && ValidRelative(u, l, path) && path != "" && IsNormal(path)
            && IsObjectId(entry.oid) && entry.mode in FILE_MODES
            && entry.size <= l.maxFileBytes && (path == SKILL_MD ==> entry.size <= l.maxSkillMdBytes)
  {
    hide Split, ParseInt;
  }

  lemma RecordHasNoDot(u: Unicode, l: Limits, skill: string, record: Octets)
    requires ReadRecord(u, l, skill, record).Ok?
    ensures var path := ReadRecord(u, l, skill, record).value.path;
            !IsAbsolute(path) ==> NoDot(path)
  {
    RecordIsSound(u, l, skill, record);
    hide ReadRecord;
    var path := ReadRecord(u, l, skill, record).value.path;
    if !IsAbsolute(path) { NormalHasNoDot(path); }
  }

  /** What the loop has collected. */
  datatype Listing = Listing(expected: map<string, Entry>, folded: set<string>, total: nat, directories: set<string>)

  const NOTHING := Listing(map[], {}, 0, {})

  ghost function Add(u: Unicode, l: Limits, s: Listing, item: Item): Result<Listing, Error> {
    var Item(path, entry) := item;
    if |s.expected| >= l.maxFiles then Err(LimitExceeded)
    else if s.total + entry.size > l.maxTotalBytes then Err(LimitExceeded)
    else if u.fold(path) in s.folded then Err(PathRejected)
    else if !WalkEnds(path) then Err(NeverReturns)
    else
      var directories := s.directories + Ancestors(u, path);
      if |directories| > l.maxDirectories then Err(LimitExceeded)
      else Ok(Listing(s.expected[path := entry], s.folded + {u.fold(path)}, s.total + entry.size, directories))
  }

  ghost function ParseRecords(u: Unicode, l: Limits, skill: string, records: seq<Octets>, s: Listing): Result<Listing, Error>
    decreases |records|
  {
    if records == [] then Ok(s)
    else if records[0] == [] then ParseRecords(u, l, skill, records[1..], s)
    else
      match ReadRecord(u, l, skill, records[0])
      case Err(error) => Err(error)
      case Ok(item) =>
        match Add(u, l, s, item)
        case Err(error) => Err(error)
        case Ok(next) => ParseRecords(u, l, skill, records[1..], next)
  }

  ghost function TreeOf(u: Unicode, l: Limits, skill: string, raw: Octets): Result<map<string, Entry>, Error> {
    match ParseRecords(u, l, skill, SplitOn(raw, 0), NOTHING)
    case Err(error) => Err(error)
    case Ok(s) => if SKILL_MD !in s.expected then Err(ScopeInvalid) else Ok(s.expected)
  }

  lemma NextRecord(u: Unicode, l: Limits, skill: string, records: seq<Octets>, i: nat, s: Listing)
    requires i < |records|
    ensures ParseRecords(u, l, skill, records[i..], s)
            == if records[i] == [] then ParseRecords(u, l, skill, records[i + 1..], s)
               else
                 var item := ReadRecord(u, l, skill, records[i]);
                 if item.Err? then Err(item.error)
                 else
                   var next := Add(u, l, s, item.value);
                   if next.Err? then Err(next.error) else ParseRecords(u, l, skill, records[i + 1..], next.value)
  {
    assert records[i..][0] == records[i] && records[i..][1..] == records[i + 1..];
  }

  lemma NoMoreRecords(u: Unicode, l: Limits, skill: string, records: seq<Octets>, s: Listing)
    ensures ParseRecords(u, l, skill, records[|records|..], s) == Ok(s)
  {
  }

  method ParseTreeListing(u: Unicode, l: Limits, skill: string, raw: Octets) returns (r: Result<map<string, Entry>, Error>)
    ensures r == TreeOf(u, l, skill, raw)
  {
    hide ReadRecord, Ancestors, IsAbsolute, ParseRecords, WalkEnds, NoDot;
    var expected: map<string, Entry> := map[];
    var folded: set<string> := {};
    var total: nat := 0;
    var directories: set<string> := {};
    var records := SplitOn(raw, 0);
    for i := 0 to |records|
      invariant ParseRecords(u, l, skill, records[i..], Listing(expected, folded, total, directories))
                == ParseRecords(u, l, skill, records, NOTHING)
    {
      NextRecord(u, l, skill, records, i, Listing(expected, folded, total, directories));
      if records[i] == [] { continue; }
      var item := ReadRecord(u, l, skill, records[i]);
      if item.Err? { return Err(item.error); }
      var Item(path, entry) := item.value;
      if |expected| >= l.maxFiles { return Err(LimitExceeded); }
      total := total + entry.size;
      if total > l.maxTotalBytes { return Err(LimitExceeded); }
      var identity := u.fold(path);
      if identity in folded { return Err(PathRejected); }
      folded := folded + {identity};
      RecordHasNoDot(u, l, skill, records[i]);
      var ended;
      directories, ended := AddAncestors(u, path, directories);
      if !ended { return Err(NeverReturns); }
      if |directories| > l.maxDirectories { return Err(LimitExceeded); }
      expected := expected[path := entry];
    }
    NoMoreRecords(u, l, skill, records, Listing(expected, folded, total, directories));
    if SKILL_MD !in expected { return Err(ScopeInvalid); }
    return Ok(expected);
  }

  // ----- The listing as a whole --------------------------------------------------------------------------

  /** The items of all records, in order. */
  function ReadAll(u: Unicode, l: Limits, skill: string, records: seq<Octets>): Result<seq<Item>, Error> {
    if records == [] then Ok([])
    else if records[0] == [] then ReadAll(u, l, skill, records[1..])
    else
      match ReadRecord(u, l, skill, records[0])
      case Err(error) => Err(error)
      case Ok(item) =>
        match ReadAll(u, l, skill, records[1..])
        case Err(error) => Err(error)
        case Ok(items) => Ok([item] + items)
  }

  function TotalSize(items: seq<Item>): nat {
    if items == [] then 0 else TotalSize(items[..|items| - 1]) + items[|items| - 1].entry.size
  }

  ghost function Directories(u: Unicode, items: seq<Item>): set<string> {
    if items == [] then {} else Directories(u, items[..|items| - 1]) + Ancestors(u, items[|items| - 1].path)
  }

  ghost function FoldedPaths(u: Unicode, items: seq<Item>): set<string> {
    set item <- items :: u.fold(item.path)
  }

  ghost predicate FoldsApart(u: Unicode, items: seq<Item>) {
    forall i, j :: 0 <= i < j < |items| ==> u.fold(items[i].path) != u.fold(items[j].path)
  }

  function AsMap(items: seq<Item>): map<string, Entry> {
    if items == [] then map[] else AsMap(items[..|items| - 1])[items[|items| - 1].path := items[|items| - 1].entry]
  }

  ghost predicate AllRelative(items: seq<Item>) { forall item <- items :: !IsAbsolute(item.path) }

  /** The listing is within the limits and its paths differ by more than case. */
  ghost predicate WithinLimits(u: Unicode, l: Limits, items: seq<Item>) {
    && |items| <= l.maxFiles
    && TotalSize(items) <= l.maxTotalBytes
    && FoldsApart(u, items)
    && AllRelative(items)
    && |Directories(u, items)| <= l.maxDirectories
  }

  ghost function Collected(u: Unicode, items: seq<Item>): Listing {
    Listing(AsMap(items), FoldedPaths(u, items), TotalSize(items), Directories(u, items))
  }

  /** A map holds exactly the given items, each under its path. */
  ghost predicate Holds(m: map<string, Entry>, items: seq<Item>) {
    && |m| == |items|
    && (forall p <- m :: Item(p, m[p]) in items)
    && (forall item <- items :: item.path in m && m[item.path] == item.entry)
  }

  lemma {:induction false} MapHasItems(u: Unicode, items: seq<Item>)
    requires FoldsApart(u, items)
    ensures Holds(AsMap(items), items)
  {
    if items == [] {
      assert Holds(map[], []);
    } else {
      hide Holds;
      var n := |items| - 1;
      MapHasItems(u, items[..n]);
      assert items == items[..n] + [items[n]];
      LastIsNew(u, items);
      HoldsOneMore(AsMap(items[..n]), items[..n], items[n]);
    }
  }

  lemma LastIsNew(u: Unicode, items: seq<Item>)
    requires items != [] && FoldsApart(u, items)
    ensures forall other <- items[..|items| - 1] :: other.path != items[|items| - 1].path
  {
    var n := |items| - 1;
    forall item | item in items[..n] ensures item.path != items[n].path {
      var i :| 0 <= i < n && items[..n][i] == item;
      assert u.fold(items[i].path) != u.fold(items[n].path);
    }
  }

  lemma HoldsOneMore(m: map<string, Entry>, items: seq<Item>, item: Item)
    requires Holds(m, items) && forall other <- items :: other.path != item.path
    ensures item.path !in m && Holds(m[item.path := item.entry], items + [item])
  {
    assert forall p <- m :: Item(p, m[p]) in items;
    var next := m[item.path := item.entry];
    assert next.Keys == m.Keys + {item.path};
    forall p | p in next ensures Item(p, next[p]) in items + [item] {
      if p != item.path { assert Item(p, m[p]) in items; }
    }
    forall x | x in items + [item] ensures x.path in next && next[x.path] == x.entry {
      assert x in items || x == item;
    }
  }

  /** One step of the loop checks exactly what the longer listing needs. */
  lemma AddExtends(u: Unicode, l: Limits, items: seq<Item>, item: Item)
    requires WithinLimits(u, l, items)
    ensures Add(u, l, Collected(u, items), item).Ok? <==> WithinLimits(u, l, items + [item])
    ensures Add(u, l, Collected(u, items), item).Ok?
            ==> Add(u, l, Collected(u, items), item).value == Collected(u, items + [item])
  {
    hide Ancestors, AsMap, TotalSize, Directories, FoldedPaths, FoldsApart, IsAbsolute, WalkEnds, AllRelative, Holds;
    WalkEndsIffRelative(item.path);
    MapSize(u, items);
    FoldsExtend(u, items, item);
    OneMoreRelative(items, item);
    OneMoreCollected(u, items, item);
  }

  lemma MapSize(u: Unicode, items: seq<Item>)
    requires FoldsApart(u, items)
    ensures |AsMap(items)| == |items|
  {
    MapHasItems(u, items);
  }

  lemma OneMoreCollected(u: Unicode, items: seq<Item>, item: Item)
    ensures TotalSize(items + [item]) == TotalSize(items) + item.entry.size
    ensures Directories(u, items + [item]) == Directories(u, items) + Ancestors(u, item.path)
    ensures AsMap(items + [item]) == AsMap(items)[item.path := item.entry]
  {
    var all := items + [item];
    assert all[..|all| - 1] == items && all[|all| - 1] == item;
    hide Ancestors;
  }

  lemma OneMoreRelative(items: seq<Item>, item: Item)
    ensures AllRelative(items + [item]) <==> AllRelative(items) && !IsAbsolute(item.path)
  {
    assert item in items + [item] && forall x <- items :: x in items + [item];
  }

  lemma FoldsExtend(u: Unicode, items: seq<Item>, item: Item)
    ensures FoldsApart(u, items + [item]) <==> FoldsApart(u, items) && u.fold(item.path) !in FoldedPaths(u, items)
    ensures FoldedPaths(u, items + [item]) == FoldedPaths(u, items) + {u.fold(item.path)}
  {
    var all := items + [item];
    assert forall i | 0 <= i < |items| :: all[i] == items[i];
    assert all[|items|] == item;
    if FoldsApart(u, all) {
      assert forall x <- items :: exists i :: 0 <= i < |items| && all[i] == x;
    }
    assert forall x :: x in all <==> x in items || x == item;
  }

  /** The limits hold of every shorter listing. */
  lemma {:induction false} LimitsArePrefixClosed(u: Unicode, l: Limits, items: seq<Item>, more: seq<Item>)
    requires WithinLimits(u, l, items + more)
    ensures WithinLimits(u, l, items)
    decreases |more|
  {
    if more == [] {
      assert items + more == items;
    } else {
      var all := items + more;
      var shorter := all[..|all| - 1];
      assert shorter == items + more[..|more| - 1];
      FoldsExtend(u, shorter, all[|all| - 1]);
      assert all == shorter + [all[|all| - 1]];
      assert forall x <- shorter :: x in all;
      DirectoriesShrink(u, l, all);
      LimitsArePrefixClosed(u, l, items, more[..|more| - 1]);
    }
  }

  lemma DirectoriesShrink(u: Unicode, l: Limits, items: seq<Item>)
    requires items != []
    ensures |Directories(u, items[..|items| - 1])| <= |Directories(u, items)|
  {
    SubsetSize(Directories(u, items[..|items| - 1]), Directories(u, items));
  }

  lemma {:induction false} LoopReadsAll(u: Unicode, l: Limits, skill: string, records: seq<Octets>, done: seq<Item>)
    requires WithinLimits(u, l, done)
    ensures var parsed := ParseRecords(u, l, skill, records, Collected(u, done));
            var read := ReadAll(u, l, skill, records);
            && (parsed.Ok? <==> read.Ok? && WithinLimits(u, l, done + read.value))
            && (parsed.Ok? ==> parsed.value == Collected(u, done + read.value))
    decreases |records|
  {
    hide WithinLimits, Collected, Add, ReadRecord;
    if records == [] {
      assert done + [] == done;
    } else if records[0] == [] {
      LoopReadsAll(u, l, skill, records[1..], done);
    } else if ReadRecord(u, l, skill, records[0]).Ok? {
      var item := ReadRecord(u, l, skill, records[0]).value;
      AddExtends(u, l, done, item);
      var rest := ReadAll(u, l, skill, records[1..]);
      if rest.Ok? { assert done + ([item] + rest.value) == (done + [item]) + rest.value; }
      if WithinLimits(u, l, done + [item]) {
        LoopReadsAll(u, l, skill, records[1..], done + [item]);
      } else if rest.Ok? && WithinLimits(u, l, (done + [item]) + rest.value) {
        LimitsArePrefixClosed(u, l, done + [item], rest.value);
      }
    }
  }

  /**
   A listing is accepted exactly when each of its records is, the whole of it is within the limits
   and a SKILL.md is among its files; the result then holds exactly those files.
   */
  lemma AcceptedListings(u: Unicode, l: Limits, skill: string, raw: Octets)
    ensures var tree := TreeOf(u, l, skill, raw);
            var items := ReadAll(u, l, skill, SplitOn(raw, 0));
            && (tree.Ok? <==> items.Ok? && WithinLimits(u, l, items.value) && exists item <- items.value :: item.path == SKILL_MD)
            && (tree.Ok? ==> tree.value == AsMap(items.value))
  {
    assert Collected(u, []) == NOTHING;
    assert WithinLimits(u, l, []);
    LoopReadsAll(u, l, skill, SplitOn(raw, 0), []);
    var items := ReadAll(u, l, skill, SplitOn(raw, 0));
    if items.Ok? {
      assert [] + items.value == items.value;
      hide AsMap, Directories;
      if WithinLimits(u, l, items.value) {
        MapHasItems(u, items.value);
        assert (exists item <- items.value :: item.path == SKILL_MD) <==> SKILL_MD in AsMap(items.value);
      }
    }
  }

  function FileSize(path: string, entry: Entry): nat { entry.size }

  /** The sizes of a tree's files. */
  ghost function TreeSize(tree: map<string, Entry>): nat { Sum(tree, FileSize) }

  /** The directories of a tree. */
  ghost function TreeDirectories(u: Unicode, tree: map<string, Entry>): set<string> {
    set p <- tree.Keys, d <- Ancestors(u, p) :: d
  }

  /** "100644" or "100755": no link, no submodule. */
  predicate IsPlainFile(mode: Octets) {
    |mode| == 6 && mode[..3] == [49, 48, 48] && (mode[3..] == [54, 52, 52] || mode[3..] == [55, 53, 53])
  }

  /**
   A frozen tree: valid relative paths that differ by more than case, each file within its limit, and
   the files, bytes and directories of the whole within theirs.
   */
  ghost predicate IsSafeTree(u: Unicode, l: Limits, tree: map<string, Entry>) {
    && "SKILL.md" in tree && |tree| <= l.maxFiles
    && TreeSize(tree) <= l.maxTotalBytes && |TreeDirectories(u, tree)| <= l.maxDirectories
    && (forall p <- tree :: ValidRelative(u, l, p) && !IsAbsolute(p))
    && (forall p <- tree :: tree[p].size <= l.maxFileBytes && |tree[p].oid| == 40 && IsPlainFile(tree[p].mode))
    && tree["SKILL.md"].size <= l.maxSkillMdBytes
    && (forall p, q :: p in tree && q in tree && u.fold(p) == u.fold(q) ==> p == q)
  }

  lemma LastIsNotYetThere(u: Unicode, items: seq<Item>)
    requires items != [] && FoldsApart(u, items)
    ensures items[|items| - 1].path !in AsMap(items[..|items| - 1])
  {
    var before := AsMap(items[..|items| - 1]);
    MapHasItems(u, items[..|items| - 1]);
    LastIsNew(u, items);
    assert forall p <- before :: Item(p, before[p]) in items[..|items| - 1];
  }

  lemma {:induction false} TreeSizeOfItems(u: Unicode, items: seq<Item>)
    requires FoldsApart(u, items)
    ensures TreeSize(AsMap(items)) == TotalSize(items)
  {
    if items == [] {
      NothingSums(FileSize);
    } else {
      TreeSizeOfItems(u, items[..|items| - 1]);
      LastIsNotYetThere(u, items);
      var item := items[|items| - 1];
      SumUpdates(AsMap(items[..|items| - 1]), FileSize, item.path, item.entry);
    }
  }

  lemma {:induction false} DirectoriesOfItems(u: Unicode, items: seq<Item>)
    ensures TreeDirectories(u, AsMap(items)) == Directories(u, items)
  {
    hide Ancestors;
    if items != [] {
      var n := |items| - 1;
      DirectoriesOfItems(u, items[..n]);
      assert AsMap(items).Keys == AsMap(items[..n]).Keys + {items[n].path};
    }
  }

  ghost predicate IsSafeItem(u: Unicode, l: Limits, item: Item) {
    && ValidRelative(u, l, item.path)
    && item.entry.size <= l.maxFileBytes && |item.entry.oid| == 40 && IsPlainFile(item.entry.mode)
    && (item.path == SKILL_MD ==> item.entry.size <= l.maxSkillMdBytes)
  }

  lemma {:induction false} ItemsAreSafe(u: Unicode, l: Limits, skill: string, records: seq<Octets>)
    requires ReadAll(u, l, skill, records).Ok?
    ensures forall item <- ReadAll(u, l, skill, records).value :: IsSafeItem(u, l, item)
  {
    hide ReadRecord, IsSafeItem;
    if records != [] {
      ItemsAreSafe(u, l, skill, records[1..]);
      if records[0] != [] { RecordIsSafe(u, l, skill, records[0]); }
    }
  }

  lemma RecordIsSafe(u: Unicode, l: Limits, skill: string, record: Octets)
    requires ReadRecord(u, l, skill, record).Ok?
    ensures IsSafeItem(u, l, ReadRecord(u, l, skill, record).value)
  {
    RecordIsSound(u, l, skill, record);
    FileModes();
    hide ReadRecord, ValidRelative, FILE_MODES, IsPlainFile;
  }

  lemma FileModes()
    ensures forall mode: Octets :: mode in FILE_MODES <==> IsPlainFile(mode)
  {
    forall mode | IsPlainFile(mode) ensures mode in FILE_MODES {
      assert mode == mode[..3] + mode[3..];
      assert mode == [49, 48, 48, 54, 52, 52] || mode == [49, 48, 48, 55, 53, 53];
    }
  }

  /** What an accepted record says: four words before the first tab, the second "blob", and the path of the skill behind it. */
  lemma RecordSays(u: Unicode, l: Limits, skill: string, record: Octets)
    requires ReadRecord(u, l, skill, record).Ok?
    ensures TAB in record
    ensures var Item(path, entry) := ReadRecord(u, l, skill, record).value;
            var words := Split(record[..First(record, TAB)]);
            && |words| == 4 && words[0] == entry.mode && words[1] == Ascii("blob") && words[2] == entry.oid
            && ParseInt(words[3]) == Some(entry.size)
            && u.decode(record[First(record, TAB) + 1..]) == Text(skill + "/" + path)
  {
    hide Split, ParseInt, ValidRelative;
    assert BLOB == Ascii("blob");
    var path := u.decode(record[First(record, TAB) + 1..]).characters;
    assert path == skill + "/" + path[|skill| + 1..];
  }

  /** Every accepted listing is a safe tree. */
  lemma AcceptedTreeIsSafe(u: Unicode, l: Limits, skill: string, raw: Octets)
    requires TreeOf(u, l, skill, raw).Ok?
    ensures IsSafeTree(u, l, TreeOf(u, l, skill, raw).value)
  {
    hide TreeOf, ValidRelative, IsAbsolute, IsObjectId, ReadAll, AsMap, Directories, TreeSize, TreeDirectories, TotalSize;
    AcceptedListings(u, l, skill, raw);
    var items := ReadAll(u, l, skill, SplitOn(raw, 0)).value;
    var tree := TreeOf(u, l, skill, raw).value;
    ItemsAreSafe(u, l, skill, SplitOn(raw, 0));
    MapHasItems(u, items);
    TreeSizeOfItems(u, items);
    DirectoriesOfItems(u, items);
    forall p, q | p in tree && q in tree && u.fold(p) == u.fold(q) ensures p == q {
      SamePath(u, items, Item(p, tree[p]), Item(q, tree[q]));
    }
    assert forall p <- tree :: Item(p, tree[p]) in items;
  }

  lemma SamePath(u: Unicode, items: seq<Item>, a: Item, b: Item)
    requires FoldsApart(u, items) && a in items && b in items && u.fold(a.path) == u.fold(b.path)
    ensures a == b
  {
    var i :| 0 <= i < |items| && items[i] == a;
    var j :| 0 <= j < |items| && items[j] == b;
  }

  // ----- When the loop never returns -----------------------------------------------------------------------

  /** The loop, having read `done` before, gets stuck at record k: a sound record with an absolute path. */
  ghost predicate StuckAt(u: Unicode, l: Limits, skill: string, records: seq<Octets>, done: seq<Item>, k: nat) {
    && k < |records| && records[k] != []
    && var before, record := ReadAll(u, l, skill, records[..k]), ReadRecord(u, l, skill, records[k]);
    && before.Ok? && record.Ok? && IsStuck(u, l, done + before.value, record.value)
  }

  /** The item passes every check before the walk over its ancestors, and its path is absolute. */
  ghost predicate IsStuck(u: Unicode, l: Limits, items: seq<Item>, item: Item) {
    && WithinLimits(u, l, items) && IsAbsolute(item.path)
    && |items| < l.maxFiles && TotalSize(items) + item.entry.size <= l.maxTotalBytes
    && u.fold(item.path) !in FoldedPaths(u, items)
  }

  lemma AddIsStuck(u: Unicode, l: Limits, items: seq<Item>, item: Item)
    requires WithinLimits(u, l, items)
    ensures Add(u, l, Collected(u, items), item) == Err(NeverReturns) <==> IsStuck(u, l, items, item)
  {
    hide Ancestors, AsMap, TotalSize, Directories, FoldedPaths, FoldsApart, IsAbsolute, WalkEnds, AllRelative, Holds;
    WalkEndsIffRelative(item.path);
    MapSize(u, items);
  }

  lemma ReadsOrRejects(u: Unicode, l: Limits, skill: string, record: Octets)
    ensures ReadRecord(u, l, skill, record) != Err(NeverReturns)
  {
    hide Split, ParseInt, ValidRelative;
  }

  /** Being stuck further on, one record later. */
  lemma StuckLater(u: Unicode, l: Limits, skill: string, records: seq<Octets>, done: seq<Item>, more: seq<Item>, k: nat)
    requires records != [] && (records[0] != [] ==> ReadRecord(u, l, skill, records[0]).Ok?)
    requires more == if records[0] == [] then [] else [ReadRecord(u, l, skill, records[0]).value]
    ensures StuckAt(u, l, skill, records, done, k + 1) <==> StuckAt(u, l, skill, records[1..], done + more, k)
  {
    hide ReadRecord, IsStuck;
    if k + 1 < |records| {
      assert records[..k + 1][0] == records[0] && records[..k + 1][1..] == records[1..][..k];
      var rest := ReadAll(u, l, skill, records[1..][..k]);
      if rest.Ok? { assert done + (more + rest.value) == done + more + rest.value && [] + rest.value == rest.value; }
    }
  }

  ghost predicate GetsStuck(u: Unicode, l: Limits, skill: string, records: seq<Octets>, done: seq<Item>) {
    exists k: nat :: StuckAt(u, l, skill, records, done, k)
  }

  lemma GetsStuckLater(u: Unicode, l: Limits, skill: string, records: seq<Octets>, done: seq<Item>, more: seq<Item>)
    requires records != [] && (records[0] != [] ==> ReadRecord(u, l, skill, records[0]).Ok?)
    requires more == if records[0] == [] then [] else [ReadRecord(u, l, skill, records[0]).value]
    requires !StuckAt(u, l, skill, records, done, 0)
    ensures GetsStuck(u, l, skill, records, done) <==> GetsStuck(u, l, skill, records[1..], done + more)
  {
    hide StuckAt, ReadRecord;
    if GetsStuck(u, l, skill, records, done) {
      var k: nat :| StuckAt(u, l, skill, records, done, k);
      StuckLater(u, l, skill, records, done, more, k - 1);
    }
    if GetsStuck(u, l, skill, records[1..], done + more) {
      var k: nat :| StuckAt(u, l, skill, records[1..], done + more, k);
      StuckLater(u, l, skill, records, done, more, k);
    }
  }

  lemma StuckAtOnce(u: Unicode, l: Limits, skill: string, records: seq<Octets>, done: seq<Item>)
    requires records != [] && records[0] != [] && WithinLimits(u, l, done)
    ensures StuckAt(u, l, skill, records, done, 0)
            <==> ReadRecord(u, l, skill, records[0]).Ok?
                 && Add(u, l, Collected(u, done), ReadRecord(u, l, skill, records[0]).value) == Err(NeverReturns)
  {
    hide ReadRecord, IsStuck, WithinLimits, Add;
    assert records[..0] == [] && done + [] == done;
    if ReadRecord(u, l, skill, records[0]).Ok? { AddIsStuck(u, l, done, ReadRecord(u, l, skill, records[0]).value); }
  }

  /** Once a record is rejected or the limits are left, nothing behind it is reached. */
  lemma NotStuckLater(u: Unicode, l: Limits, skill: string, records: seq<Octets>, done: seq<Item>)
    requires records != [] && records[0] != []
    requires ReadRecord(u, l, skill, records[0]).Ok?
             ==> !WithinLimits(u, l, done + [ReadRecord(u, l, skill, records[0]).value])
    requires !StuckAt(u, l, skill, records, done, 0)
    ensures !GetsStuck(u, l, skill, records, done)
  {
    hide ReadRecord, WithinLimits, IsAbsolute, FoldedPaths, TotalSize;
    if GetsStuck(u, l, skill, records, done) {
      var k: nat :| StuckAt(u, l, skill, records, done, k);
      assert records[..k][0] == records[0];
      var item := ReadRecord(u, l, skill, records[0]).value;
      var rest := ReadAll(u, l, skill, records[..k][1..]).value;
      assert done + ([item] + rest) == (done + [item]) + rest;
      LimitsArePrefixClosed(u, l, done + [item], rest);
    }
  }

  lemma {:induction false} LoopGetsStuck(u: Unicode, l: Limits, skill: string, records: seq<Octets>, done: seq<Item>)
    requires WithinLimits(u, l, done)
    ensures ParseRecords(u, l, skill, records, Collected(u, done)) == Err(NeverReturns) <==> GetsStuck(u, l, skill, records, done)
    decreases |records|
  {
    hide WithinLimits, Collected, Add, ReadRecord, StuckAt, GetsStuck;
    if records == [] {
      NoRecordsNotStuck(u, l, skill, done);
    } else if records[0] == [] {
      EmptyIsNotStuck(u, l, skill, records, done);
      GetsStuckLater(u, l, skill, records, done, []);
      assert done + [] == done;
      LoopGetsStuck(u, l, skill, records[1..], done);
    } else {
      StuckAtOnce(u, l, skill, records, done);
      ReadsOrRejects(u, l, skill, records[0]);
      var read := ReadRecord(u, l, skill, records[0]);
      if read.Err? {
        NotStuckLater(u, l, skill, records, done);
      } else {
        AddExtends(u, l, done, read.value);
        if Add(u, l, Collected(u, done), read.value) == Err(NeverReturns) {
          StuckIsStuck(u, l, skill, records, done, 0);
        } else if WithinLimits(u, l, done + [read.value]) {
          GetsStuckLater(u, l, skill, records, done, [read.value]);
          LoopGetsStuck(u, l, skill, records[1..], done + [read.value]);
        } else {
          NotStuckLater(u, l, skill, records, done);
        }
      }
    }
  }

  lemma NoRecordsNotStuck(u: Unicode, l: Limits, skill: string, done: seq<Item>)
    ensures !GetsStuck(u, l, skill, [], done)
  {
  }

  lemma EmptyIsNotStuck(u: Unicode, l: Limits, skill: string, records: seq<Octets>, done: seq<Item>)
    requires records != [] && records[0] == []
    ensures !StuckAt(u, l, skill, records, done, 0)
  {
  }

  lemma StuckIsStuck(u: Unicode, l: Limits, skill: string, records: seq<Octets>, done: seq<Item>, k: nat)
    requires StuckAt(u, l, skill, records, done, k)
    ensures GetsStuck(u, l, skill, records, done)
  {
  }

  /**
   Parsing a listing returns unless some record, with every record before it read and within the limits,
   passes the checks of its own and of the count, the total and the case, and has an absolute path.
   */
  lemma ListingReturns(u: Unicode, l: Limits, skill: string, raw: Octets)
    ensures TreeOf(u, l, skill, raw) == Err(NeverReturns) <==> GetsStuck(u, l, skill, SplitOn(raw, 0), [])
  {
    NothingCollected(u, l);
    hide ParseRecords, GetsStuck, WithinLimits, Collected;
    LoopGetsStuck(u, l, skill, SplitOn(raw, 0), []);
  }

  lemma NothingCollected(u: Unicode, l: Limits)
    ensures Collected(u, []) == NOTHING && WithinLimits(u, l, [])
  {
  }

  // ----- The records Git writes ------------------------------------------------------------------------------

  /** Mode, type, object name, the size with its padding, a tab and the path. */
  function GitRecord(mode: Octets, oid: Octets, padding: nat, size: nat, path: Octets): Octets {
    GitFields(mode, oid, padding, size) + [TAB] + path
  }

  function GitFields(mode: Octets, oid: Octets, padding: nat, size: nat): Octets {
    mode + ([SPACE] + (BLOB + ([SPACE] + (oid + ([SPACE] + (Spaces(padding) + Decimal(size)))))))
  }

  lemma GitFieldsSplit(mode: Octets, oid: Octets, padding: nat, size: nat)
    requires mode in FILE_MODES && IsObjectId(oid)
    ensures Split(GitFields(mode, oid, padding, size)) == [mode, BLOB, oid, Decimal(size)]
  {
    assert IsWord(mode) && IsWord(oid) && IsWord(BLOB) && IsWord(Decimal(size));
    hide Decimal, Split, Spaces, IsWord;
    LastWord(Decimal(size));
    SpacesFirst(padding, Decimal(size));
    NextWord(oid, Spaces(padding) + Decimal(size));
    NextWord(BLOB, oid + ([SPACE] + (Spaces(padding) + Decimal(size))));
    NextWord(mode, BLOB + ([SPACE] + (oid + ([SPACE] + (Spaces(padding) + Decimal(size))))));
  }

  lemma {:induction false} SpacesAreSpaces(n: nat)
    ensures forall b <- Spaces(n) :: b == SPACE
  {
    if n > 0 { SpacesAreSpaces(n - 1); }
  }

  lemma GitFieldsArePlain(mode: Octets, oid: Octets, padding: nat, size: nat)
    requires mode in FILE_MODES && IsObjectId(oid)
    ensures TAB !in GitFields(mode, oid, padding, size) && 0 !in GitFields(mode, oid, padding, size)
  {
    SpacesAreSpaces(padding);
    assert forall b <- mode :: 48 <= b <= 57;
    assert forall b <- BLOB :: 98 <= b <= 111;
    hide Decimal, Spaces, FILE_MODES;
    assert forall b <- GitFields(mode, oid, padding, size) ::
        b in mode || b == SPACE || b in BLOB || b in oid || b in Spaces(padding) || b in Decimal(size);
  }

  /** A record that Git writes for a file within the limits reads back as that file. */
  lemma GitRecordReads(u: Unicode, l: Limits, skill: string, mode: Octets, oid: Octets, padding: nat, size: nat,
                       path: Octets, relative: string)
    requires mode in FILE_MODES && IsObjectId(oid) && |Decimal(size)| <= MAX_DIGITS
    requires u.decode(path) == Text(skill + "/" + relative) && ValidRelative(u, l, relative)
    requires size <= l.maxFileBytes && (relative == SKILL_MD ==> size <= l.maxSkillMdBytes)
    ensures ReadRecord(u, l, skill, GitRecord(mode, oid, padding, size, path)) == Ok(Item(relative, Entry(size, oid, mode)))
  {
    hide Decimal, Split, ParseInt, ValidRelative, FILE_MODES, IsObjectId, Spaces, First;
    GitFieldsArePlain(mode, oid, padding, size);
    GitFieldsSplit(mode, oid, padding, size);
    ParsesDecimals(size);
    var fields := GitFields(mode, oid, padding, size);
    hide GitFields;
    FirstBehind(fields, TAB, path);
    var record := fields + [TAB] + path;
    assert record[..|fields|] == fields && record[|fields| + 1..] == path;
    var full := skill + "/" + relative;
    assert skill + "/" <= full && full[|skill| + 1..] == relative;
  }

  lemma FirstRecord(record: Octets, rest: Octets)
    requires 0 !in record
    ensures SplitOn(record + [0] + rest, 0) == [record] + SplitOn(rest, 0)
  {
    var raw := record + [0] + rest;
    FirstBehind(record, 0, rest);
    assert raw[..|record|] == record && raw[|record| + 1..] == rest;
  }

  /** Every listing that begins with a record for a valid absolute path, whatever follows, is never parsed to the end. */
  lemma AbsoluteRecordNeverReturns(u: Unicode, l: Limits, skill: string, mode: Octets, oid: Octets, padding: nat, size: nat,
                                   path: Octets, relative: string, rest: Octets)
    requires mode in FILE_MODES && IsObjectId(oid) && |Decimal(size)| <= MAX_DIGITS && 0 !in path
    requires u.decode(path) == Text(skill + "/" + relative) && ValidRelative(u, l, relative) && IsAbsolute(relative)
    requires size <= l.maxFileBytes && size <= l.maxTotalBytes && l.maxFiles >= 1 && relative != SKILL_MD
    ensures TreeOf(u, l, skill, GitRecord(mode, oid, padding, size, path) + [0] + rest) == Err(NeverReturns)
  {
    var record := GitRecord(mode, oid, padding, size, path);
    GitRecordReads(u, l, skill, mode, oid, padding, size, path, relative);
    GitFieldsArePlain(mode, oid, padding, size);
    hide Decimal, ReadRecord, FILE_MODES, IsObjectId, ValidRelative, GitFields;
    assert 0 !in record && record != [];
    FirstRecord(record, rest);
    WalkEndsIffRelative(relative);
    hide WalkEnds;
  }

  /** "s//a" in ASCII. */
  const ROOTED: Octets := [115, 47, 47, 97]

  /** The listing of one empty file "s//a" of the skill "s", with Python's treatment of ASCII. */
  lemma ListingThatNeverReturns(u: Unicode, l: Limits, oid: Octets)
    requires IsObjectId(oid) && u.decode(ROOTED) == Text("s//a") && u.nfc("/a") == "/a" && u.encode("/a") == [47, 97]
    requires u.encode("/") == [47] && u.encode("a") == [97] && u.fold("/") == "/" && u.fold("a") == "a"
    requires l.maxFiles >= 1 && l.maxDepth >= 2 && l.maxPathBytes >= 2
    ensures TreeOf(u, l, "s", GitRecord([49, 48, 48, 54, 52, 52], oid, 6, 0, ROOTED) + [0]) == Err(NeverReturns)
  {
    AbsolutePathIsValid(u, l);
    var mode: Octets := [49, 48, 48, 54, 52, 52];
    assert mode in FILE_MODES;
    assert "s" + "/" + "/a" == "s//a" && "/a" != SKILL_MD;
    assert |Decimal(0)| == 1;
    AbsoluteRecordNeverReturns(u, l, "s", mode, oid, 6, 0, ROOTED, "/a", []);
    assert GitRecord(mode, oid, 6, 0, ROOTED) + [0] + [] == GitRecord(mode, oid, 6, 0, ROOTED) + [0];
  }

  lemma AbsolutePathIsValid(u: Unicode, l: Limits)
    requires u.nfc("/a") == "/a" && u.encode("/a") == [47, 97] && u.encode("/") == [47] && u.encode("a") == [97]
    requires u.fold("/") == "/" && u.fold("a") == "a" && l.maxDepth >= 2 && l.maxPathBytes >= 2
    ensures ValidRelative(u, l, "/a") && IsAbsolute("/a")
  {
    assert Root("/a") == "/" && Body("/a") == "a" && Names("/a") == ["a"];
    ShortNamesArePortable(u);
    hide PortableName;
    AcceptedPaths(u, l, "/a");
  }

  lemma ShortNamesArePortable(u: Unicode)
    requires u.encode("/") == [47] && u.encode("a") == [97] && u.fold("/") == "/" && u.fold("a") == "a"
    ensures PortableName(u, "/") && PortableName(u, "a")
  {
    assert SplitOn("/", '.') == ["/"] && SplitOn("a", '.') == ["a"];
  }
}
