/**
 * The two regular-expression searches of the row normaliser (main.py:131 and
 * main.py:135), written as explicit scanners and proved against the patterns'
 * meaning.
 *
 *  - the address pattern `(0x[a-fA-F0-9]{40})`;
 *  - the amount pattern `\$([\d\.,]+)\s*([KMB])?\s+(Long|Short)\s+([A-Z0-9\-\/]+)`,
 *    searched case-insensitively.
 *
 * `re.search` returns the match at the leftmost start position, and at that
 * position the first match found by backtracking. For the amount pattern the
 * backtracking has one successful path: the quantity group must be the whole run
 * of `[\d\.,]` (anything shorter leaves such a character where `\s` or `[KMB]`
 * is needed), the suffix group is present exactly when the character after the
 * whitespace run is one of K, M, B, and the greedy symbol group takes the whole
 * run. MatchAt follows that path; MatchAtComplete proves it finds every match.
 */
module Patterns {
  import opened Wrappers
  import opened Text

  // ----------------------------------------------------------------- search

  /**
   * The leftmost offset in [from, n) at which `matches` holds: `re.search`
   * tries the start offsets one by one, from the left.
   */
  function Leftmost(n: nat, from: nat, matches: nat -> bool): (r: Option<nat>)
    requires from <= n
    ensures r.Some? ==> from <= r.value < n && matches(r.value)
    ensures r.Some? ==> forall j :: from <= j < r.value ==> !matches(j)
    ensures r.None? ==> forall j :: from <= j < n ==> !matches(j)
    decreases n - from
  {
    if from == n then None
    else if matches(from) then Some(from)
    else Leftmost(n, from + 1, matches)
  }

  // ---------------------------------------------------------------- address

  /** Length of a matched address: `0x` and 40 hex digits. */
  const AddressLength: nat := 42

  /** The address pattern matches `t` at offset `i`. */
  predicate AddressAt(t: string, i: int) {
    && 0 <= i && i + AddressLength <= |t|
    && t[i] == '0' && t[i + 1] == 'x'
    && forall k :: i + 2 <= k < i + AddressLength ==> IsHexDigit(t[k])
  }

  /** `re.search(r"(0x[a-fA-F0-9]{40})", t)`: the offset of the match, if any. */
  function SearchAddress(t: string): (r: Option<nat>)
    ensures r.Some? ==> AddressAt(t, r.value)
  {
    Leftmost(|t|, 0, (j: nat) => AddressAt(t, j))
  }

  /** The search finds the leftmost address; group 1 is `0x` and 40 hex digits. */
  lemma SearchAddressLeftmost(t: string)
    ensures SearchAddress(t).None? <==> forall j :: !AddressAt(t, j)
    ensures SearchAddress(t).Some? ==>
      var i := SearchAddress(t).value;
      var address := t[i..i + AddressLength];
      && AddressAt(t, i)
      && (forall j :: AddressAt(t, j) ==> i <= j)
      && |address| == AddressLength
      && address[..2] == "0x"
      && forall k :: 2 <= k < AddressLength ==> IsHexDigit(address[k])
  {
    var r := SearchAddress(t);
    var f := (j: nat) => AddressAt(t, j);
    assert r == Leftmost(|t|, 0, f);
    forall j | AddressAt(t, j) ensures r.Some? && r.value <= j {
      assert f(j);
    }
    if r.Some? {
      var i := r.value;
      var address := t[i..i + AddressLength];
      assert address[0] == '0' && address[1] == 'x';
      assert address[..2] == [address[0], address[1]];
      forall k | 2 <= k < AddressLength ensures IsHexDigit(address[k]) {
        assert address[k] == t[i + k];
      }
    }
  }

  // ----------------------------------------------------------------- amount

  /**
   * Where each part of one amount match lies in the text: `$` at `start`, the
   * quantity in [start+1, qtyEnd), the `\s*` in [qtyEnd, spaceEnd), the
   * optional suffix in [spaceEnd, scaleEnd), the first `\s+` in
   * [scaleEnd, sideAt), the side word in [sideAt, sideEnd), the second `\s+`
   * in [sideEnd, symbolAt) and the symbol in [symbolAt, symbolEnd).
   */
  datatype AmountSpan = AmountSpan(
    start: nat, qtyEnd: nat, spaceEnd: nat, scaleEnd: nat,
    sideAt: nat, sideEnd: nat, symbolAt: nat, symbolEnd: nat)

  /** `(Long|Short)` under IGNORECASE, letter by letter. */
  predicate IsSideWord(w: string) {
    || (|w| == 4 && LowerChar(w[0]) == 'l' && LowerChar(w[1]) == 'o' && LowerChar(w[2]) == 'n'
        && LowerChar(w[3]) == 'g')
    || (|w| == 5 && LowerChar(w[0]) == 's' && LowerChar(w[1]) == 'h' && LowerChar(w[2]) == 'o'
        && LowerChar(w[3]) == 'r' && LowerChar(w[4]) == 't')
  }

  /** The side word is "long" or "short" once lower-cased. */
  lemma SideWordLower(w: string)
    requires IsSideWord(w)
    ensures Lower(w) == "long" || Lower(w) == "short"
  {
  }

  /** The amount pattern, read as a regular language: `m` splits a match of it in `t`. */
  predicate Fits(t: string, m: AmountSpan) {
    && m.start < |t| && t[m.start] == '$'
    && m.start + 1 < m.qtyEnd <= m.spaceEnd <= m.scaleEnd <= m.spaceEnd + 1
    && m.scaleEnd < m.sideAt < m.sideEnd < m.symbolAt < m.symbolEnd <= |t|
    && (forall k :: m.start + 1 <= k < m.qtyEnd ==> IsAmountChar(t[k]))
    && (forall k :: m.qtyEnd <= k < m.spaceEnd ==> IsSpace(t[k]))
    && (m.scaleEnd == m.spaceEnd + 1 ==> IsScaleChar(t[m.spaceEnd]))
    && (forall k :: m.scaleEnd <= k < m.sideAt ==> IsSpace(t[k]))
    && IsSideWord(t[m.sideAt..m.sideEnd])
    && (forall k :: m.sideEnd <= k < m.symbolAt ==> IsSpace(t[k]))
    && (forall k :: m.symbolAt <= k < m.symbolEnd ==> IsSymbolChar(t[k]))
  }

  /** The four groups of an amount match; a suffix group that did not take part is None. */
  datatype AmountGroups = AmountGroups(quantity: string, scale: Option<char>, side: string, symbol: string)

  function Groups(t: string, m: AmountSpan): (g: AmountGroups)
    requires Fits(t, m)
    ensures g.quantity != [] && forall k :: 0 <= k < |g.quantity| ==> IsAmountChar(g.quantity[k])
    ensures g.scale.Some? ==> IsScaleChar(g.scale.value)
    ensures IsSideWord(g.side)
    ensures g.symbol != [] && forall k :: 0 <= k < |g.symbol| ==> IsSymbolChar(g.symbol[k])
  {
    AmountGroups(
      t[m.start + 1..m.qtyEnd],
      if m.scaleEnd == m.spaceEnd + 1 then Some(t[m.spaceEnd]) else None,
      t[m.sideAt..m.sideEnd],
      t[m.symbolAt..m.symbolEnd])
  }

  /** The end of the side word at `a`, or `a` itself when neither word is there. */
  function SideWordEnd(t: string, a: nat): (e: nat)
    requires a <= |t|
    ensures e == a || (a < e <= |t| && IsSideWord(t[a..e]))
  {
    if a + 4 <= |t| && IsSideWord(t[a..a + 4]) then a + 4
    else if a + 5 <= |t| && IsSideWord(t[a..a + 5]) then a + 5
    else a
  }

  /**
   * The one split that backtracking can succeed with when `$` is at `i`: the
   * whole `[\d\.,]` run, then the whole whitespace run; a K, M or B after it is
   * the suffix, followed by the next whitespace run; otherwise `\s*` leaves the
   * last whitespace character to `\s+`. Then the side word, the whitespace after
   * it and the whole symbol run.
   */
  function Candidate(t: string, i: nat): (m: AmountSpan)
    requires i < |t|
    ensures m.start == i
  {
    var q := RunEnd(t, i + 1, AmountChars);
    var w := RunEnd(t, q, Whitespace);
    var scaled := w < |t| && IsScaleChar(t[w]);
    var a := if scaled then RunEnd(t, w + 1, Whitespace) else w;
    var sp := if scaled then w else w - 1;
    var e := SideWordEnd(t, a);
    var y := RunEnd(t, e, Whitespace);
    AmountSpan(i, q, sp, if scaled then w + 1 else sp, a, e, y, RunEnd(t, y, SymbolChars))
  }

  /** The match that backtracking finds with `$` at offset `i`, if any. */
  function MatchAt(t: string, i: nat): (r: Option<AmountSpan>)
    ensures r.Some? ==> i < |t| && r.value == Candidate(t, i) && Fits(t, r.value)
  {
    if i < |t| && Fits(t, Candidate(t, i)) then Some(Candidate(t, i)) else None
  }

  /** A side word starts with l or s, so it is neither whitespace nor a suffix letter. */
  lemma SideWordStart(w: string)
    requires IsSideWord(w)
    ensures |w| > 0 && !IsSpace(w[0]) && !IsScaleChar(w[0]) && !IsAmountChar(w[0])
  {
  }

  /** In any match the quantity run ends where the pattern puts its end. */
  lemma QuantityRunEnds(t: string, m: AmountSpan)
    requires Fits(t, m)
    ensures RunEnd(t, m.start + 1, AmountChars) == m.qtyEnd
  {
    SideWordStart(t[m.sideAt..m.sideEnd]);
    assert t[m.sideAt..m.sideEnd][0] == t[m.sideAt];
    assert !IsAmountChar(t[m.qtyEnd]) by {
      if m.qtyEnd < m.spaceEnd {
        assert IsSpace(t[m.qtyEnd]);
      } else if m.scaleEnd == m.spaceEnd + 1 {
        assert IsScaleChar(t[m.qtyEnd]);
      } else if m.qtyEnd < m.sideAt {
        assert IsSpace(t[m.qtyEnd]);
      }
    }
    RunEndUnique(t, m.start + 1, m.qtyEnd, AmountChars);
  }

  /** In any match the whitespace runs around the suffix end where the pattern puts their ends. */
  lemma SpaceRunsEnd(t: string, m: AmountSpan)
    requires Fits(t, m)
    ensures m.scaleEnd == m.spaceEnd + 1 ==>
      RunEnd(t, m.qtyEnd, Whitespace) == m.spaceEnd && RunEnd(t, m.scaleEnd, Whitespace) == m.sideAt
    ensures m.scaleEnd == m.spaceEnd ==> RunEnd(t, m.qtyEnd, Whitespace) == m.sideAt
    ensures !IsScaleChar(t[m.sideAt])
  {
    SideWordStart(t[m.sideAt..m.sideEnd]);
    assert t[m.sideAt..m.sideEnd][0] == t[m.sideAt];
    if m.scaleEnd == m.spaceEnd + 1 {
      RunEndUnique(t, m.qtyEnd, m.spaceEnd, Whitespace);
      RunEndUnique(t, m.scaleEnd, m.sideAt, Whitespace);
    } else {
      forall k | m.qtyEnd <= k < m.sideAt ensures IsSpace(t[k]) {
        if k >= m.spaceEnd {
          assert m.scaleEnd <= k;
        }
      }
      RunEndUnique(t, m.qtyEnd, m.sideAt, Whitespace);
    }
  }

  /** In any match the side word and the whitespace after it end where the pattern puts their ends. */
  lemma SideRunsEnd(t: string, m: AmountSpan)
    requires Fits(t, m)
    ensures SideWordEnd(t, m.sideAt) == m.sideEnd
    ensures RunEnd(t, m.sideEnd, Whitespace) == m.symbolAt
  {
    var a := m.sideAt;
    assert t[a..m.sideEnd][0] == t[a];
    if a + 4 <= |t| {
      assert t[a..a + 4][0] == t[a];
    }
    assert !IsSpace(t[m.symbolAt]);
    RunEndUnique(t, m.sideEnd, m.symbolAt, Whitespace);
  }

  /** Up to the side word, the candidate at `m.start` is `m`, except for where `\s*` stops without a suffix. */
  lemma CandidateFollows(t: string, m: AmountSpan)
    requires Fits(t, m)
    ensures
      var g := Candidate(t, m.start);
      && g.qtyEnd == m.qtyEnd && g.sideAt == m.sideAt && g.sideEnd == m.sideEnd && g.symbolAt == m.symbolAt
      && (g.scaleEnd == g.spaceEnd + 1 <==> m.scaleEnd == m.spaceEnd + 1)
      && (m.scaleEnd == m.spaceEnd + 1 ==> g.spaceEnd == m.spaceEnd)
      && (m.scaleEnd == m.spaceEnd ==> g.spaceEnd == g.scaleEnd == m.sideAt - 1)
  {
    QuantityRunEnds(t, m);
    SpaceRunsEnd(t, m);
    SideRunsEnd(t, m);
  }

  /**
   * Every way of matching the pattern with `$` at `m.start` yields the same
   * quantity, suffix and side groups as MatchAt, and a symbol group that is a
   * prefix of MatchAt's, which is the longest.
   */
  lemma MatchAtComplete(t: string, m: AmountSpan)
    requires Fits(t, m)
    ensures MatchAt(t, m.start).Some?
    ensures
      var g := MatchAt(t, m.start).value;
      && Groups(t, g).quantity == Groups(t, m).quantity
      && Groups(t, g).scale == Groups(t, m).scale
      && Groups(t, g).side == Groups(t, m).side
      && g.symbolAt == m.symbolAt && m.symbolEnd <= g.symbolEnd
      && (g.symbolEnd == |t| || !IsSymbolChar(t[g.symbolEnd]))
  {
    CandidateFits(t, m);
  }

  /** The candidate at the start of any match is itself a match, with the longest symbol run. */
  lemma CandidateFits(t: string, m: AmountSpan)
    requires Fits(t, m)
    ensures var g := Candidate(t, m.start);
      && Fits(t, g)
      && g.qtyEnd == m.qtyEnd && g.sideAt == m.sideAt && g.sideEnd == m.sideEnd
      && (g.scaleEnd == g.spaceEnd + 1 <==> m.scaleEnd == m.spaceEnd + 1)
      && (m.scaleEnd == m.spaceEnd + 1 ==> g.spaceEnd == m.spaceEnd)
      && g.symbolAt == m.symbolAt && m.symbolEnd <= g.symbolEnd
      && (g.symbolEnd == |t| || !IsSymbolChar(t[g.symbolEnd]))
  {
    CandidateFollows(t, m);
    RunEndCovers(t, m.symbolAt, m.symbolEnd, SymbolChars);
  }

  /** `re.search(<amount pattern>, t, re.I)` */
  function SearchAmount(t: string): (r: Option<AmountSpan>)
    ensures r.Some? ==> Fits(t, r.value)
  {
    match Leftmost(|t|, 0, (j: nat) => MatchAt(t, j).Some?)
    case None => None
    case Some(i) => MatchAt(t, i)
  }

  /**
   * The search finds a match exactly when the pattern occurs, at the leftmost
   * offset where it occurs, with the longest symbol.
   */
  lemma SearchAmountLeftmost(t: string)
    ensures SearchAmount(t).None? <==> forall m :: !Fits(t, m)
    ensures SearchAmount(t).Some? ==>
      var g := SearchAmount(t).value;
      && Fits(t, g)
      && (g.symbolEnd == |t| || !IsSymbolChar(t[g.symbolEnd]))
      && forall m :: Fits(t, m) ==> g.start <= m.start
  {
    var f := (j: nat) => MatchAt(t, j).Some?;
    var p := Leftmost(|t|, 0, f);
    assert SearchAmount(t) == if p.None? then None else MatchAt(t, p.value);
    forall m | Fits(t, m) ensures p.Some? && p.value <= m.start {
      MatchAtComplete(t, m);
      assert f(m.start);
    }
    if p.Some? {
      var g := Candidate(t, p.value);
      assert g.symbolEnd == RunEnd(t, g.symbolAt, SymbolChars);
    }
  }

  /**
   * A match at the start of the text whose symbol run is complete is the one
   * the search returns, group for group.
   */
  lemma SearchAmountAtStart(t: string, m: AmountSpan)
    requires Fits(t, m) && m.start == 0
    requires m.symbolEnd == |t| || !IsSymbolChar(t[m.symbolEnd])
    ensures SearchAmount(t).Some? && Groups(t, SearchAmount(t).value) == Groups(t, m)
  {
    SearchAmountLeftmost(t);
    MatchAtComplete(t, m);
    var f := (j: nat) => MatchAt(t, j).Some?;
    var p := Leftmost(|t|, 0, f);
    var g := SearchAmount(t).value;
    assert g == MatchAt(t, p.value).value;
    assert g.start == 0;
    assert g.symbolEnd == m.symbolEnd;
  }
}
