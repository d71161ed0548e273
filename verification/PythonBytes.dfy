/** Python's operations on byte strings, with its rules for positions, white space and numerals. */
module PythonBytes {
  import opened Wrappers
  import opened Bytes

  function Position(i: int, n: nat): nat {
    if i < 0 then (if n + i < 0 then 0 else n + i) else if i > n then n else i
  }

  /** `s[i:j]` */
  function Slice(s: Octets, i: int, j: int): Octets {
    var a, b := Position(i, |s|), Position(j, |s|);
    if a <= b then s[a..b] else []
  }

  function FindFrom(s: Octets, mark: Byte, i: nat): int
    decreases |s| - i
  {
    if i >= |s| then -1 else if s[i] == mark then i else FindFrom(s, mark, i + 1)
  }

  /** `s.find(mark, start)` */
  function Find(s: Octets, mark: Byte, start: int): int { FindFrom(s, mark, Position(start, |s|)) }

  predicate IsSpace(b: Byte) { b == 32 || 9 <= b <= 13 }

  function WordLength(s: Octets): (n: nat)
    ensures n <= |s| && (s != [] && !IsSpace(s[0]) ==> n > 0)
  {
    if s == [] || IsSpace(s[0]) then 0 else 1 + WordLength(s[1..])
  }

  /** `s.split()` */
  function Split(s: Octets): seq<Octets>
    decreases |s|
  {
    if s == [] then []
    else if IsSpace(s[0]) then Split(s[1..])
    else [s[..WordLength(s)]] + Split(s[WordLength(s)..])
  }

  predicate IsDigit(b: Byte) { 48 <= b <= 57 }

  const UNDERSCORE: Byte := 95

  /** Digits, with single underscores between them. */
  predicate IsNumeral(s: Octets) {
    && s != [] && IsDigit(s[0]) && IsDigit(s[|s| - 1])
    && (forall i :: 0 <= i < |s| ==> IsDigit(s[i]) || s[i] == UNDERSCORE)
    && (forall i :: 0 < i < |s| ==> IsDigit(s[i - 1]) || IsDigit(s[i]))
  }

  function NumeralValue(s: Octets): nat {
    if s == [] then 0
    else
      var last := s[|s| - 1];
      if IsDigit(last) then 10 * NumeralValue(s[..|s| - 1]) + (last - 48) else NumeralValue(s[..|s| - 1])
  }

  function DigitCount(s: Octets): nat {
    if s == [] then 0 else (if IsDigit(s[0]) then 1 else 0) + DigitCount(s[1..])
  }

  /** The interpreter refuses longer decimal strings. */
  const MAX_DIGITS := 4300

  /** `int(s)` for a word without white space. */
  function ParseInt(s: Octets): Option<int> {
    var signed := s != [] && (s[0] == 43 || s[0] == 45);
    var digits := if signed then s[1..] else s;
    var value: int := NumeralValue(digits);
    if !IsNumeral(digits) || DigitCount(digits) > MAX_DIGITS then None
    else Some(if signed && s[0] == 45 then -value else value)
  }

  // ----- Splitting at a mark -----------------------------------------------------------------------

  /** The first position of a mark. */
  function First<T(==)>(s: seq<T>, mark: T): (i: nat)
    requires mark in s
    ensures i < |s| && s[i] == mark && mark !in s[..i]
  {
    if s[0] == mark then 0 else 1 + First(s[1..], mark)
  }

  lemma {:induction false} FirstBehind<T>(front: seq<T>, mark: T, rest: seq<T>)
    requires mark !in front
    ensures mark in front + [mark] + rest && First(front + [mark] + rest, mark) == |front|
  {
    var s := front + [mark] + rest;
    assert s[|front|] == mark;
    if front != [] {
      assert s[1..] == front[1..] + [mark] + rest;
      FirstBehind(front[1..], mark, rest);
    }
  }

  /** `s.split(mark)` */
  function SplitOn<T(==)>(s: seq<T>, mark: T): (parts: seq<seq<T>>)
    ensures parts != [] && forall p <- parts :: mark !in p
    decreases |s|
  {
    if mark in s then
      var i := First(s, mark);
      [s[..i]] + SplitOn(s[i + 1..], mark)
    else [s]
  }

  /** The parts with the mark between them. */
  function Join<T>(parts: seq<seq<T>>, mark: T): seq<T> {
    if parts == [] then []
    else if |parts| == 1 then parts[0]
    else parts[0] + [mark] + Join(parts[1..], mark)
  }

  lemma JoinFirst<T>(part: seq<T>, rest: seq<seq<T>>, mark: T)
    requires rest != []
    ensures Join([part] + rest, mark) == part + [mark] + Join(rest, mark)
  {
    assert ([part] + rest)[1..] == rest;
  }

  /** Splitting loses nothing. */
  lemma {:induction false} SplitJoins<T>(s: seq<T>, mark: T)
    ensures Join(SplitOn(s, mark), mark) == s
    decreases |s|
  {
    if mark in s {
      var i := First(s, mark);
      SplitJoins(s[i + 1..], mark);
      JoinFirst(s[..i], SplitOn(s[i + 1..], mark), mark);
      assert s == s[..i] + [mark] + s[i + 1..];
    }
  }

  // ----- Numerals --------------------------------------------------------------------------------------

  lemma {:induction false} CountsAllDigits(s: Octets)
    requires forall b <- s :: IsDigit(b)
    ensures DigitCount(s) == |s|
  {
    if s != [] { CountsAllDigits(s[1..]); }
  }

  lemma {:induction false} ValueOfDecimal(n: nat)
    ensures NumeralValue(Decimal(n)) == n
  {
    var s := Decimal(n);
    if n < 10 {
      assert s[..0] == [] && NumeralValue([]) == 0;
    } else {
      ValueOfDecimal(n / 10);
      assert s[..|s| - 1] == Decimal(n / 10);
    }
  }

  /** A plain decimal number reads back as itself, as long as it is not too long. */
  lemma ParsesDecimals(n: nat)
    requires |Decimal(n)| <= MAX_DIGITS
    ensures ParseInt(Decimal(n)) == Some(n)
  {
    ValueOfDecimal(n);
    CountsAllDigits(Decimal(n));
    hide Decimal, NumeralValue, DigitCount;
    var s := Decimal(n);
    assert s[0] in s && s[|s| - 1] in s;
    assert forall i | 0 <= i < |s| :: s[i] in s;
  }

  // ----- Words -----------------------------------------------------------------------------------------

  predicate IsWord(s: Octets) { s != [] && forall b <- s :: !IsSpace(b) }

  lemma LastWord(word: Octets)
    requires IsWord(word)
    ensures Split(word) == [word]
  {
    WordFirst(word, []);
    assert word + [] == word && Split([]) == [];
  }

  lemma NextWord(word: Octets, rest: Octets)
    requires IsWord(word)
    ensures Split(word + ([SPACE] + rest)) == [word] + Split(rest)
  {
    WordFirst(word, [SPACE] + rest);
    SpaceFirst(rest);
  }

  lemma SpaceFirst(s: Octets)
    ensures Split([SPACE] + s) == Split(s)
  {
    assert ([SPACE] + s)[1..] == s;
  }

  lemma WordFirst(word: Octets, rest: Octets)
    requires IsWord(word) && (rest == [] || IsSpace(rest[0]))
    ensures Split(word + rest) == [word] + Split(rest)
  {
    WordEnds(word, rest);
    assert (word + rest)[..|word|] == word && (word + rest)[|word|..] == rest;
  }

  lemma {:induction false} WordEnds(word: Octets, rest: Octets)
    requires (forall b <- word :: !IsSpace(b)) && (rest == [] || IsSpace(rest[0]))
    ensures WordLength(word + rest) == |word|
  {
    if word != [] {
      assert (word + rest)[1..] == word[1..] + rest;
      WordEnds(word[1..], rest);
    } else {
      assert word + rest == rest;
    }
  }

  function Spaces(n: nat): Octets { if n == 0 then [] else [SPACE] + Spaces(n - 1) }

  lemma {:induction false} SpacesFirst(n: nat, s: Octets)
    ensures Split(Spaces(n) + s) == Split(s)
  {
    if n == 0 {
      assert Spaces(0) + s == s;
    } else {
      assert Spaces(n) + s == [SPACE] + (Spaces(n - 1) + s);
      SpaceFirst(Spaces(n - 1) + s);
      SpacesFirst(n - 1, s);
    }
  }
}
