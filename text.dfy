/**
 * Character classes and the few string operations of Python's `str` that the
 * row normaliser and the formatters rely on: `strip`, `join`, `lower`,
 * `upper`, `capitalize`, `startswith` and the substring test `in`.
 * Case mapping is ASCII-only; the whitespace class is Python's exact one.
 */
module Text {

  /**
   * The characters for which Python's `str.isspace()` holds, space first;
   * `\s` and `strip()` use the same set on `str`.
   */
  const SpaceChars: string :=
    " \t\n\U{0B}\U{0C}\r\U{1C}\U{1D}\U{1E}\U{1F}\U{85}\U{A0}\U{1680}"
    + "\U{2000}\U{2001}\U{2002}\U{2003}\U{2004}\U{2005}\U{2006}\U{2007}\U{2008}\U{2009}\U{200A}"
    + "\U{2028}\U{2029}\U{202F}\U{205F}\U{3000}"

  /** `c` is one of `cs`. */
  predicate OneOf(c: char, cs: string) {
    cs != [] && (cs[0] == c || OneOf(c, cs[1..]))
  }

  /**
   * Python's whitespace. Every such character lies outside printable ASCII,
   * which the first conjunct says outright (SpaceCharsOutsidePrintable shows it
   * excludes nothing).
   */
  predicate IsSpace(c: char) {
    (c <= ' ' || c >= '\U{85}') && OneOf(c, SpaceChars)
  }

  predicate IsDigit(c: char) { '0' <= c <= '9' }

  predicate IsAsciiUpper(c: char) { 'A' <= c <= 'Z' }

  predicate IsAsciiLower(c: char) { 'a' <= c <= 'z' }

  predicate IsHexDigit(c: char) { IsDigit(c) || ('a' <= c <= 'f') || ('A' <= c <= 'F') }

  /** The class `[\d\.,]` of the amount group. */
  predicate IsAmountChar(c: char) { IsDigit(c) || c == '.' || c == ',' }

  /** The class `[A-Z0-9\-\/]` of the symbol group, read case-insensitively. */
  predicate IsSymbolChar(c: char) { IsAsciiUpper(c) || IsAsciiLower(c) || IsDigit(c) || c == '-' || c == '/' }

  /** The class `[KMB]` of the magnitude suffix, read case-insensitively. */
  predicate IsScaleChar(c: char) { c == 'K' || c == 'M' || c == 'B' || c == 'k' || c == 'm' || c == 'b' }

  /** The character classes that the amount pattern repeats with `*` or `+`. */
  datatype CharClass = Whitespace | AmountChars | SymbolChars

  predicate InClass(c: char, cls: CharClass) {
    match cls
    case Whitespace => IsSpace(c)
    case AmountChars => IsAmountChar(c)
    case SymbolChars => IsSymbolChar(c)
  }

  /** The end of the longest run of `cls` characters of `t` that starts at `j`. */
  function RunEnd(t: string, j: nat, cls: CharClass): (e: nat)
    requires j <= |t|
    ensures j <= e <= |t|
    ensures forall k :: j <= k < e ==> InClass(t[k], cls)
    ensures e == |t| || !InClass(t[e], cls)
    decreases |t| - j
  {
    if j == |t| || !InClass(t[j], cls) then j else RunEnd(t, j + 1, cls)
  }

  /** A run is maximal at exactly one place, so any maximal run found otherwise is RunEnd's. */
  lemma RunEndUnique(t: string, j: nat, e: nat, cls: CharClass)
    requires j <= e <= |t|
    requires forall k :: j <= k < e ==> InClass(t[k], cls)
    requires e == |t| || !InClass(t[e], cls)
    ensures RunEnd(t, j, cls) == e
  {
  }

  /** A run of `cls` characters from `j` to `e` lies inside the longest one. */
  lemma RunEndCovers(t: string, j: nat, e: nat, cls: CharClass)
    requires j <= e <= |t|
    requires forall k :: j <= k < e ==> InClass(t[k], cls)
    ensures RunEnd(t, j, cls) >= e
  {
  }

  function LowerChar(c: char): char {
    if IsAsciiUpper(c) then (c as int + 32) as char else c
  }

  function UpperChar(c: char): char {
    if IsAsciiLower(c) then (c as int - 32) as char else c
  }

  /** `str.lower()` */
  function Lower(s: string): (r: string)
    ensures |r| == |s|
    ensures forall k :: 0 <= k < |s| ==> r[k] == LowerChar(s[k])
  {
    if s == [] then [] else [LowerChar(s[0])] + Lower(s[1..])
  }

  /** `str.upper()` */
  function Upper(s: string): (r: string)
    ensures |r| == |s|
    ensures forall k :: 0 <= k < |s| ==> r[k] == UpperChar(s[k])
  {
    if s == [] then [] else [UpperChar(s[0])] + Upper(s[1..])
  }

  /** `str.capitalize()`: the first character upper-cased, the rest lower-cased. */
  function Capitalize(s: string): (r: string)
    ensures |r| == |s|
    ensures s != [] ==> r[0] == UpperChar(s[0])
    ensures forall k :: 1 <= k < |s| ==> r[k] == LowerChar(s[k])
  {
    if s == [] then [] else [UpperChar(s[0])] + Lower(s[1..])
  }

  /** Removes the leading whitespace, and only that. */
  function TrimStart(s: string): (r: string)
    ensures |r| <= |s| && r == s[|s| - |r|..]
    ensures forall k :: 0 <= k < |s| - |r| ==> IsSpace(s[k])
    ensures r == [] || !IsSpace(r[0])
  {
    if s != [] && IsSpace(s[0]) then TrimStart(s[1..]) else s
  }

  /** Removes the trailing whitespace, and only that. */
  function TrimEnd(s: string): (r: string)
    ensures |r| <= |s| && r == s[..|r|]
    ensures forall k :: |r| <= k < |s| ==> IsSpace(s[k])
    ensures r == [] || !IsSpace(r[|r| - 1])
  {
    if s != [] && IsSpace(s[|s| - 1]) then TrimEnd(s[..|s| - 1]) else s
  }

  /** `str.strip()` */
  function Strip(s: string): (r: string)
    ensures r == [] || (!IsSpace(r[0]) && !IsSpace(r[|r| - 1]))
    ensures r == [] <==> forall k :: 0 <= k < |s| ==> IsSpace(s[k])
  {
    TrimEnd(TrimStart(s))
  }

  /** The strip is a slice of the cell, and only whitespace lies outside it. */
  lemma StripSlice(s: string)
    ensures exists i, j :: StrippedAt(s, Strip(s), i, j)
  {
    var t := TrimStart(s);
    assert StrippedAt(s, Strip(s), |s| - |t|, |s| - |t| + |Strip(s)|);
  }

  /** `r` is `s[i..j]`, and everything of `s` outside `i..j` is whitespace. */
  predicate StrippedAt(s: string, r: string, i: int, j: int) {
    && 0 <= i <= j <= |s| && r == s[i..j]
    && (forall k :: 0 <= k < i ==> IsSpace(s[k]))
    && (forall k :: j <= k < |s| ==> IsSpace(s[k]))
  }

  /** `OneOf` is membership. */
  lemma {:induction false} OneOfIsMembership(c: char, cs: string)
    ensures OneOf(c, cs) <==> c in cs
  {
    if cs != [] {
      OneOfIsMembership(c, cs[1..]);
      assert cs == [cs[0]] + cs[1..];
    }
  }

  /** The guard in IsSpace rules out none of Python's whitespace characters. */
  lemma SpaceCharsOutsidePrintable(c: char)
    requires OneOf(c, SpaceChars)
    ensures IsSpace(c)
  {
    OneOfIsMembership(c, SpaceChars);
  }

  /** Stripping twice strips nothing more. */
  lemma StripIdempotent(s: string)
    ensures Strip(Strip(s)) == Strip(s)
  {
    var r := Strip(s);
    assert TrimStart(r) == r;
    assert TrimEnd(r) == r;
  }

  /** A string with no whitespace at either end is its own strip. */
  lemma StripUnchanged(s: string)
    requires s == [] || (!IsSpace(s[0]) && !IsSpace(s[|s| - 1]))
    ensures Strip(s) == s
  {
  }

  /** `sep.join(parts)` */
  function Join(parts: seq<string>, sep: string): string
    decreases |parts|
  {
    if |parts| == 0 then ""
    else if |parts| == 1 then parts[0]
    else parts[0] + sep + Join(parts[1..], sep)
  }

  /** Joining one more part adds the separator and that part. */
  lemma {:induction false} JoinSnoc(parts: seq<string>, p: string, sep: string)
    requires parts != []
    ensures Join(parts + [p], sep) == Join(parts, sep) + sep + p
    decreases |parts|
  {
    var ps := parts + [p];
    if |parts| == 1 {
      assert ps[1..] == [p];
    } else {
      assert ps[1..] == parts[1..] + [p];
      JoinSnoc(parts[1..], p, sep);
    }
  }

  /** The total length of `parts`. */
  function SumLengths(parts: seq<string>): nat
    decreases |parts|
  {
    if parts == [] then 0 else |parts[0]| + SumLengths(parts[1..])
  }

  /** The joined text is the parts and one separator between each two of them. */
  lemma {:induction false} JoinLength(parts: seq<string>, sep: string)
    ensures |Join(parts, sep)| == SumLengths(parts) + (if parts == [] then 0 else (|parts| - 1) * |sep|)
    decreases |parts|
  {
    if |parts| == 1 {
      assert SumLengths(parts[1..]) == 0;
    } else if |parts| > 1 {
      JoinLength(parts[1..], sep);
    }
  }

  /** The joined text starts with the first part followed by the separator, when there is more than one part. */
  lemma JoinStarts(parts: seq<string>, sep: string)
    requires parts != []
    ensures StartsWith(Join(parts, sep), parts[0])
    ensures |parts| > 1 ==> StartsWith(Join(parts, sep), parts[0] + sep)
  {
    if |parts| > 1 {
      var j := Join(parts, sep);
      assert j == (parts[0] + sep) + Join(parts[1..], sep);
      assert j[..|parts[0] + sep|] == parts[0] + sep;
      assert j[..|parts[0]|] == (parts[0] + sep)[..|parts[0]|];
    }
  }

  /** `[c.strip() for c in cells if c.strip()]` */
  function StrippedNonEmpty(cells: seq<string>): (r: seq<string>)
    ensures |r| <= |cells|
    ensures forall k :: 0 <= k < |r| ==> r[k] != [] && Strip(r[k]) == r[k]
  {
    if cells == [] then []
    else
      var c := Strip(cells[0]);
      StripIdempotent(cells[0]);
      if c != [] then [c] + StrippedNonEmpty(cells[1..]) else StrippedNonEmpty(cells[1..])
  }

  /** One cell is kept, stripped, exactly when its strip is non-empty. */
  lemma StrippedNonEmptyOne(c: string)
    ensures StrippedNonEmpty([c]) == if Strip(c) == [] then [] else [Strip(c)]
  {
    assert [c][1..] == [];
  }

  /** The filter works cell by cell: the cells of `a + b` keep what `a` and `b` keep, in order. */
  lemma {:induction false} StrippedNonEmptyConcat(a: seq<string>, b: seq<string>)
    ensures StrippedNonEmpty(a + b) == StrippedNonEmpty(a) + StrippedNonEmpty(b)
    decreases |a|
  {
    if a != [] {
      var ab := a + b;
      var head := if Strip(a[0]) != [] then [Strip(a[0])] else [];
      assert ab[0] == a[0];
      assert ab[1..] == a[1..] + b;
      assert StrippedNonEmpty(ab) == head + StrippedNonEmpty(a[1..] + b);
      assert StrippedNonEmpty(a) == head + StrippedNonEmpty(a[1..]);
      StrippedNonEmptyConcat(a[1..], b);
    } else {
      assert a + b == b;
    }
  }

  /** Cells that are already stripped and non-empty pass through unchanged. */
  lemma {:induction false} StrippedNonEmptyUnchanged(cells: seq<string>)
    requires forall k :: 0 <= k < |cells| ==> cells[k] != [] && Strip(cells[k]) == cells[k]
    ensures StrippedNonEmpty(cells) == cells
  {
    if cells != [] {
      StrippedNonEmptyUnchanged(cells[1..]);
      assert cells == [cells[0]] + cells[1..];
    }
  }

  /** `s.startswith(p)` */
  predicate StartsWith(s: string, p: string) {
    |p| <= |s| && s[..|p|] == p
  }

  /** `sub in s`, scanning from the left. */
  predicate HasSubstring(s: string, sub: string)
    decreases |s|
  {
    StartsWith(s, sub) || (s != [] && HasSubstring(s[1..], sub))
  }

  /** `sub` occurs in `s` at offset `i`. */
  predicate OccursAt(s: string, sub: string, i: int) {
    0 <= i <= |s| - |sub| && s[i..i + |sub|] == sub
  }

  /** `sub` occurs in `s` at some offset. */
  ghost predicate Mentions(s: string, sub: string) {
    exists i :: OccursAt(s, sub, i)
  }

  /** A slice of the tail is the slice of `s` one place further on. */
  lemma TailSlice(s: string, i: nat, n: nat)
    requires 0 < i && i + n <= |s|
    ensures s[1..][i - 1..i - 1 + n] == s[i..i + n]
  {
    var t := s[1..];
    var a, b := t[i - 1..i - 1 + n], s[i..i + n];
    forall k | 0 <= k < n ensures a[k] == b[k] {
      assert a[k] == t[i - 1 + k];
    }
  }

  /** The scan finds `sub` exactly when it occurs at some offset of `s`. */
  lemma {:induction false} HasSubstringIff(s: string, sub: string)
    ensures HasSubstring(s, sub) <==> Mentions(s, sub)
    decreases |s|
  {
    if StartsWith(s, sub) {
      assert OccursAt(s, sub, 0);
    } else if s == [] {
    } else {
      HasSubstringIff(s[1..], sub);
      if HasSubstring(s[1..], sub) {
        var i :| OccursAt(s[1..], sub, i);
        TailSlice(s, i + 1, |sub|);
        assert OccursAt(s, sub, i + 1);
      } else {
        forall i ensures !OccursAt(s, sub, i) {
          if 0 < i <= |s| - |sub| {
            assert !OccursAt(s[1..], sub, i - 1);
            TailSlice(s, i, |sub|);
          }
        }
      }
    }
  }
}
