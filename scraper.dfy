/**
 * The row normaliser of `fetch_hyperdash_top` (main.py:121-155): each table row
 * of the leaderboard page, given as its cell texts, becomes at most one
 * `{address, symbol, side, notional}` record, in table order, until TOP_LIMIT
 * records are collected. The page itself (browser, navigation, sorting clicks)
 * is not part of this model; the rows are the input.
 */
module TopTraders {
  import opened Wrappers
  import opened Text
  import opened Patterns
  import opened Amount
  import opened Seqs

  /** One leaderboard entry as the scraper stores it. */
  datatype TopRecord = TopRecord(address: string, symbol: string, side: string, notional: real)

  /** The ValueError that `float` raises on the quantity text (after comma removal). */
  datatype FetchError = NotANumber(quantity: string)

  /** What one table row contributes: nothing, a record, or the ValueError that ends the scrape. */
  datatype RowOutcome = Skipped | Accepted(record: TopRecord) | Invalid(error: FetchError)

  /** Rows with fewer cells than this are skipped. */
  const MinCells: nat := 4

  /** `" | ".join([c.strip() for c in cells if c.strip()])` */
  function RowText(cells: seq<string>): string {
    Join(StrippedNonEmpty(cells), " | ")
  }

  /**
   * One more cell: a cell that strips to nothing leaves the text as it was;
   * otherwise its strip is appended, after `" | "` when the text already holds a cell.
   */
  lemma RowTextSnoc(cells: seq<string>, c: string)
    ensures RowText(cells + [c]) ==
      if Strip(c) == [] then RowText(cells)
      else if StrippedNonEmpty(cells) == [] then Strip(c)
      else RowText(cells) + " | " + Strip(c)
  {
    StrippedNonEmptyConcat(cells, [c]);
    StrippedNonEmptyOne(c);
    var kept := StrippedNonEmpty(cells);
    if Strip(c) != [] {
      if kept == [] {
        assert kept + [Strip(c)] == [Strip(c)];
      } else {
        JoinSnoc(kept, Strip(c), " | ");
      }
    } else {
      assert kept + [] == kept;
    }
  }

  /** The quantity group as `float` receives it. */
  function QuantityText(g: AmountGroups): (q: string)
    requires forall k :: 0 <= k < |g.quantity| ==> IsAmountChar(g.quantity[k])
    ensures AllDigitsOrDots(q)
  {
    RemoveCommas(g.quantity)
  }

  /** main.py:138-151: the record built from the address and the amount groups, or the ValueError. */
  function RecordFrom(address: string, g: AmountGroups): RowOutcome
    requires forall k :: 0 <= k < |g.quantity| ==> IsAmountChar(g.quantity[k])
  {
    var qty := QuantityText(g);
    match ParseFloat(qty)
    case None => Invalid(NotANumber(qty))
    case Some(v) => Accepted(TopRecord(address, Upper(g.symbol), Capitalize(g.side), v * ScaleFactor(g.scale)))
  }

  /** Group 1 of the address search: the matched `0x` and 40 hex digits. */
  function FoundAddress(text: string): (r: Option<string>)
    ensures r.Some? ==> |r.value| == AddressLength
  {
    match SearchAddress(text)
    case None => None
    case Some(i) => Some(text[i..i + AddressLength])
  }

  /** main.py:131-151 on the joined text of a row. */
  function ReadText(text: string): RowOutcome {
    var address := FoundAddress(text);
    var amount := SearchAmount(text);
    if address.None? || amount.None? then Skipped
    else RecordFrom(address.value, Groups(text, amount.value))
  }

  /** The body of the row loop, main.py:124-151, for one row. */
  function ReadRow(cells: seq<string>): RowOutcome {
    if |cells| < MinCells then Skipped else ReadText(RowText(cells))
  }

  // --------------------------------------------------------------- one row

  /** `capitalize()` turns any spelling of the side word into exactly "Long" or "Short". */
  lemma CapitalizedSide(w: string)
    requires IsSideWord(w)
    ensures Capitalize(w) == "Long" || Capitalize(w) == "Short"
    ensures Capitalize(w) == "Long" <==> |w| == 4
  {
    var c := Capitalize(w);
    assert c[0] == UpperChar(w[0]) && c[1..] == Lower(w[1..]);
    if |w| == 4 {
      assert c == [c[0], c[1], c[2], c[3]];
    } else {
      assert c == [c[0], c[1], c[2], c[3], c[4]];
    }
  }

  /** The address search gives nothing exactly when no address occurs, and otherwise the leftmost one. */
  lemma FoundAddressLeftmost(text: string)
    ensures FoundAddress(text).None? <==> forall j :: !AddressAt(text, j)
    ensures FoundAddress(text).Some? ==>
      exists i :: && AddressAt(text, i) && FoundAddress(text).value == text[i..i + AddressLength]
                  && forall j :: AddressAt(text, j) ==> i <= j
  {
    SearchAddressLeftmost(text);
    if FoundAddress(text).Some? {
      var i := SearchAddress(text).value;
      assert AddressAt(text, i);
    }
  }

  /** The amount search gives nothing exactly when the pattern does not occur. */
  lemma FoundAmount(text: string)
    ensures SearchAmount(text).None? <==> forall m :: !Fits(text, m)
  {
    SearchAmountLeftmost(text);
  }

  /** A row text is skipped when either search fails, and otherwise read from the two matches. */
  lemma ReadTextCases(text: string)
    ensures ReadText(text).Skipped? <==> FoundAddress(text).None? || SearchAmount(text).None?
    ensures !ReadText(text).Skipped? ==>
      ReadText(text) == RecordFrom(FoundAddress(text).value, Groups(text, SearchAmount(text).value))
  {
  }

  /**
   * The record made from a match: the ValueError exactly when the quantity has
   * two dots or no digit; otherwise the address as found, the side exactly
   * "Long" or "Short" as the side word says, the symbol upper-cased, and the
   * quantity times the suffix factor.
   */
  lemma RecordFromSpec(address: string, g: AmountGroups)
    requires forall k :: 0 <= k < |g.quantity| ==> IsAmountChar(g.quantity[k])
    requires IsSideWord(g.side)
    ensures RecordFrom(address, g).Invalid? <==> DotCount(QuantityText(g)) >= 2 || !HasDigit(QuantityText(g))
    ensures RecordFrom(address, g).Invalid? ==> RecordFrom(address, g).error == NotANumber(QuantityText(g))
    ensures RecordFrom(address, g).Accepted? ==>
      var r := RecordFrom(address, g).record;
      && r.address == address
      && (r.side == "Long" || r.side == "Short")
      && (r.side == "Long" <==> Lower(g.side) == "long")
      && r.symbol == Upper(g.symbol)
      && (forall k :: 0 <= k < |r.symbol| ==> !IsAsciiLower(r.symbol[k]))
      && ParseFloat(QuantityText(g)).Some?
      && r.notional == ParseFloat(QuantityText(g)).value * ScaleFactor(g.scale)
  {
    ParseFloatFails(QuantityText(g));
    CapitalizedSide(g.side);
    SideWordLower(g.side);
  }

  /** A row is skipped exactly when it is short or either pattern does not occur in its text. */
  lemma ReadRowSkips(cells: seq<string>)
    ensures ReadRow(cells).Skipped? <==>
      || |cells| < MinCells
      || (forall j :: !AddressAt(RowText(cells), j))
      || (forall m :: !Fits(RowText(cells), m))
  {
    var text := RowText(cells);
    FoundAddressLeftmost(text);
    FoundAmount(text);
    ReadTextCases(text);
  }

  /** A row raises exactly when both patterns occur and the quantity has two dots or no digit. */
  lemma ReadRowInvalid(cells: seq<string>)
    ensures ReadRow(cells).Invalid? <==>
      && |cells| >= MinCells
      && (exists j :: AddressAt(RowText(cells), j))
      && SearchAmount(RowText(cells)).Some?
      && var q := QuantityText(Groups(RowText(cells), SearchAmount(RowText(cells)).value));
         DotCount(q) >= 2 || !HasDigit(q)
  {
    var text := RowText(cells);
    FoundAddressLeftmost(text);
    ReadTextCases(text);
    if FoundAddress(text).Some? && SearchAmount(text).Some? {
      RecordFromSpec(FoundAddress(text).value, Groups(text, SearchAmount(text).value));
    }
  }

  /**
   * The shape of every record the scraper produces: a `0x` address with 40 hex
   * digits, the side exactly "Long" or "Short", a non-empty symbol with no
   * lower-case letter.
   */
  predicate WellFormed(r: TopRecord) {
    && |r.address| == AddressLength && r.address[..2] == "0x"
    && (forall k :: 2 <= k < AddressLength ==> IsHexDigit(r.address[k]))
    && (r.side == "Long" || r.side == "Short")
    && r.symbol != []
    && forall k :: 0 <= k < |r.symbol| ==> !IsAsciiLower(r.symbol[k])
  }

  /** The address found is `0x` and 40 hex digits. */
  lemma FoundAddressShape(text: string)
    requires FoundAddress(text).Some?
    ensures var a := FoundAddress(text).value;
      a[..2] == "0x" && forall k :: 2 <= k < AddressLength ==> IsHexDigit(a[k])
  {
    SearchAddressLeftmost(text);
  }

  /** A row text that is read gives a well-formed record. */
  lemma ReadTextAccepted(text: string)
    requires ReadText(text).Accepted?
    ensures WellFormed(ReadText(text).record)
  {
    ReadTextCases(text);
    FoundAddressShape(text);
    RecordFromSpec(FoundAddress(text).value, Groups(text, SearchAmount(text).value));
  }

  /** An accepted row gives a well-formed record. */
  lemma ReadRowAccepted(cells: seq<string>)
    requires ReadRow(cells).Accepted?
    ensures WellFormed(ReadRow(cells).record)
  {
    ReadTextAccepted(RowText(cells));
  }

  // ------------------------------------------------------------- the table

  /** The records the loop can hold: it breaks once `len(rows_data) >= TOP_LIMIT`, which is after one record when TOP_LIMIT < 1. */
  function Room(limit: int): (n: nat)
    ensures n >= 1 && (limit >= 1 ==> n == limit)
  {
    if limit < 1 then 1 else limit
  }

  /** `acc` followed by the records of `x`, or the error of `x`. */
  function Prepend(acc: seq<TopRecord>, x: Result<seq<TopRecord>, FetchError>): Result<seq<TopRecord>, FetchError> {
    match x
    case Ok(rs) => Ok(acc + rs)
    case Err(e) => Err(e)
  }

  /** The loop over the row outcomes with `room` records still to take: a ValueError ends it. */
  function Collect(outs: seq<RowOutcome>, room: nat): Result<seq<TopRecord>, FetchError>
    requires room >= 1
    decreases |outs|
  {
    if outs == [] then Ok([])
    else
      match outs[0]
      case Skipped => Collect(outs[1..], room)
      case Invalid(e) => Err(e)
      case Accepted(r) => if room == 1 then Ok([r]) else Prepend([r], Collect(outs[1..], room - 1))
  }

  /** What each row of the table gives, in table order. */
  function Outcomes(rows: seq<seq<string>>): seq<RowOutcome> {
    Map(rows, ReadRow)
  }

  /** `rows_data` (or the ValueError) for the table `rows` and TOP_LIMIT `limit`. */
  function Scrape(rows: seq<seq<string>>, limit: int): Result<seq<TopRecord>, FetchError> {
    Collect(Outcomes(rows), Room(limit))
  }

  /** The record an outcome holds, as a sequence of at most one. */
  function RecordOf(o: RowOutcome): seq<TopRecord> {
    if o.Accepted? then [o.record] else []
  }

  /** Every record the outcomes hold, in order. */
  function Records(outs: seq<RowOutcome>): seq<TopRecord>
    decreases |outs|
  {
    if outs == [] then [] else RecordOf(outs[0]) + Records(outs[1..])
  }

  lemma WholeSlice<T>(s: seq<T>)
    ensures s[0..] == s
  {
  }

  lemma PrependNothing(x: Result<seq<TopRecord>, FetchError>)
    ensures Prepend([], x) == x
  {
    if x.Ok? {
      assert [] + x.value == x.value;
    }
  }

  lemma PrependConcat(a: seq<TopRecord>, b: seq<TopRecord>, x: Result<seq<TopRecord>, FetchError>)
    ensures Prepend(a, Prepend(b, x)) == Prepend(a + b, x)
  {
    if x.Ok? {
      assert a + (b + x.value) == (a + b) + x.value;
    }
  }

  /** One turn of the loop, on the outcome of row `i` with `room` records still to take. */
  lemma CollectStep(outs: seq<RowOutcome>, i: nat, room: nat)
    requires i < |outs| && room >= 1
    ensures outs[i].Skipped? ==> Collect(outs[i..], room) == Collect(outs[i + 1..], room)
    ensures outs[i].Invalid? ==> Collect(outs[i..], room) == Err(outs[i].error)
    ensures outs[i].Accepted? && room == 1 ==> Collect(outs[i..], room) == Ok([outs[i].record])
    ensures outs[i].Accepted? && room > 1 ==>
      Collect(outs[i..], room) == Prepend([outs[i].record], Collect(outs[i + 1..], room - 1))
  {
    assert outs[i..][0] == outs[i];
    assert outs[i..][1..] == outs[i + 1..];
  }

  /**
   * The loop of main.py:121-155 with the row reader `read` as a parameter:
   * rows are read in order, a skipped row adds nothing, an accepted row
   * appends its record and ends the loop once TOP_LIMIT records are held, and
   * a ValueError ends the scrape.
   */
  method CollectRows(rows: seq<seq<string>>, limit: int, read: seq<string> -> RowOutcome)
    returns (result: Result<seq<TopRecord>, FetchError>)
    ensures result == Collect(Map(rows, read), Room(limit))
  {
    ghost var outs := Map(rows, read);
    ghost var room := Room(limit);
    var data: seq<TopRecord> := [];
    var i := 0;
    WholeSlice(outs);
    PrependNothing(Collect(outs, room));
    while i < |rows|
      invariant 0 <= i <= |rows|
      invariant |data| < room
      invariant Collect(outs, room) == Prepend(data, Collect(outs[i..], room - |data|))
    {
      var outcome := read(rows[i]);
      CollectStep(outs, i, room - |data|);
      if outcome.Invalid? {
        return Err(outcome.error);
      }
      if outcome.Accepted? {
        var r := outcome.record;
        if room - |data| > 1 {
          PrependConcat(data, [r], Collect(outs[i + 1..], room - |data| - 1));
        }
        data := data + [r];
        if |data| >= limit {
          return Ok(data);
        }
      }
      i := i + 1;
    }
    assert outs[i..] == [];
    assert data + [] == data;
    return Ok(data);
  }

  /** `rows_data` as main.py:121-155 builds it from the rows of the table. */
  method NormaliseRows(rows: seq<seq<string>>, limit: int) returns (result: Result<seq<TopRecord>, FetchError>)
    ensures result == Scrape(rows, limit)
  {
    result := CollectRows(rows, limit, ReadRow);
  }

  /** Records(outs[..k]) for k > 0 starts with the record of outs[0]. */
  lemma RecordsPrefix(outs: seq<RowOutcome>, k: nat)
    requires 0 < k <= |outs|
    ensures Records(outs[..k]) == RecordOf(outs[0]) + Records(outs[1..][..k - 1])
  {
    assert outs[..k][0] == outs[0];
    assert outs[..k][1..] == outs[1..][..k - 1];
  }

  /**
   * When the scrape succeeds, its records are the first ones the rows give,
   * as many as fit: all of them or `room`, whichever is fewer.
   */
  lemma {:induction false} CollectOk(outs: seq<RowOutcome>, room: nat)
    requires room >= 1 && Collect(outs, room).Ok?
    ensures var rs := Collect(outs, room).value;
      && |rs| == (if |Records(outs)| < room then |Records(outs)| else room)
      && rs == Records(outs)[..|rs|]
    decreases |outs|
  {
    if outs != [] {
      match outs[0]
      case Skipped =>
        CollectOk(outs[1..], room);
      case Accepted(r) =>
        if room > 1 {
          CollectOk(outs[1..], room - 1);
        }
    }
  }

  /**
   * The scrape fails exactly when some row raises before `room` records were
   * collected, and then with the error of the first row that raises.
   */
  lemma {:induction false} CollectErr(outs: seq<RowOutcome>, room: nat)
    requires room >= 1
    ensures Collect(outs, room).Err? <==>
      exists k :: 0 <= k < |outs| && outs[k].Invalid? && |Records(outs[..k])| < room
    ensures Collect(outs, room).Err? ==>
      exists k :: && 0 <= k < |outs| && outs[k] == Invalid(Collect(outs, room).error)
                  && |Records(outs[..k])| < room
                  && forall j :: 0 <= j < k ==> !outs[j].Invalid?
    decreases |outs|
  {
    if outs != [] {
      var room' := if outs[0].Accepted? then room - 1 else room;
      assert Records(outs[..0]) == [];
      if outs[0].Invalid? {
        assert outs[0] == Invalid(Collect(outs, room).error);
      } else if room' >= 1 {
        CollectErr(outs[1..], room');
        forall k | 0 < k <= |outs| ensures |Records(outs[..k])| < room <==> |Records(outs[1..][..k - 1])| < room' {
          RecordsPrefix(outs, k);
        }
        if Collect(outs, room).Err? {
          var k :| && 0 <= k < |outs| - 1 && outs[1..][k] == Invalid(Collect(outs, room).error)
                   && |Records(outs[1..][..k])| < room'
                   && forall j :: 0 <= j < k ==> !outs[1..][j].Invalid?;
          assert outs[k + 1].Invalid? && |Records(outs[..k + 1])| < room;
          forall j | 0 <= j < k + 1 ensures !outs[j].Invalid? {
            if j > 0 {
              assert outs[j] == outs[1..][j - 1];
            }
          }
        } else {
          forall k | 0 <= k < |outs| && outs[k].Invalid? ensures |Records(outs[..k])| >= room {
            assert outs[k] == outs[1..][k - 1];
          }
        }
      } else {
        forall k | 0 <= k < |outs| && outs[k].Invalid? ensures |Records(outs[..k])| >= room {
          RecordsPrefix(outs, k);
        }
      }
    }
  }

  lemma {:induction false} RecordsBound(outs: seq<RowOutcome>)
    ensures |Records(outs)| <= |outs|
    decreases |outs|
  {
    if outs != [] {
      RecordsBound(outs[1..]);
    }
  }

  /** Each record the outcomes hold is the record of one of them. */
  lemma {:induction false} RecordsFrom(outs: seq<RowOutcome>, r: TopRecord)
    requires r in Records(outs)
    ensures exists k :: 0 <= k < |outs| && outs[k] == Accepted(r)
    decreases |outs|
  {
    if r in RecordOf(outs[0]) {
      assert outs[0] == Accepted(r);
    } else {
      RecordsFrom(outs[1..], r);
      var k :| 0 <= k < |outs| - 1 && outs[1..][k] == Accepted(r);
      assert outs[k + 1] == Accepted(r);
    }
  }

  /**
   * A successful scrape holds no more records than TOP_LIMIT allows and than
   * the table has rows; each is the record of one accepted row and is well formed.
   */
  lemma ScrapeOk(rows: seq<seq<string>>, limit: int)
    requires Scrape(rows, limit).Ok?
    ensures var rs := Scrape(rows, limit).value;
      && |rs| <= Room(limit) && |rs| <= |rows|
      && forall i :: 0 <= i < |rs| ==>
           WellFormed(rs[i]) && exists k :: 0 <= k < |rows| && ReadRow(rows[k]) == Accepted(rs[i])
  {
    var outs := Outcomes(rows);
    var rs := Scrape(rows, limit).value;
    CollectOk(outs, Room(limit));
    RecordsBound(outs);
    forall i | 0 <= i < |rs|
      ensures WellFormed(rs[i]) && exists k :: 0 <= k < |rows| && ReadRow(rows[k]) == Accepted(rs[i])
    {
      assert rs[i] in Records(outs);
      RecordsFrom(outs, rs[i]);
      var k :| 0 <= k < |outs| && outs[k] == Accepted(rs[i]);
      ReadRowAccepted(rows[k]);
    }
  }

  // ---------------------------------------------------------------- example

  /** The main position of the example row below. */
  const ExampleAddress: string := "0x" + ExampleHex

  /** The 40 hex digits of the example address. */
  const ExampleHex: string := seq(40, k => if k % 2 == 0 then 'a' else '0')

  /** A leaderboard row: the largest position first, then the trader's address. */
  const ExampleCells: seq<string> := ["$220.0M Short BTC", ExampleAddress, "-", "-"]

  /** The joined text of the example row. */
  const ExampleJoined: string := "$220.0M Short BTC | " + ExampleAddress + " | - | -"

  lemma ExampleAmountCell()
    ensures Strip(ExampleCells[0]) == ExampleCells[0]
  {
    StripUnchanged(ExampleCells[0]);
  }

  lemma ExampleAddressCell()
    ensures Strip(ExampleCells[1]) == ExampleCells[1]
  {
    StripUnchanged(ExampleCells[1]);
  }

  lemma ExampleDashCell()
    ensures Strip("-") == "-"
  {
    StripUnchanged("-");
  }

  lemma ExampleStripped()
    ensures StrippedNonEmpty(ExampleCells) == ExampleCells
  {
    forall k | 0 <= k < |ExampleCells|
      ensures ExampleCells[k] != [] && Strip(ExampleCells[k]) == ExampleCells[k]
    {
      if k == 0 {
        ExampleAmountCell();
      } else if k == 1 {
        ExampleAddressCell();
      } else {
        assert ExampleCells[k] == "-";
        ExampleDashCell();
      }
    }
    StrippedNonEmptyUnchanged(ExampleCells);
  }

  lemma ExampleJoin()
    ensures Join(ExampleCells, " | ") == ExampleJoined
  {
    var cells := ExampleCells;
    assert cells[1..] == [ExampleAddress, "-", "-"];
    assert cells[1..][1..] == ["-", "-"];
    assert cells[1..][1..][1..] == ["-"];
    assert Join(cells[1..][1..], " | ") == "- | -";
    assert Join(cells[1..], " | ") == ExampleAddress + " | - | -";
    assert Join(cells, " | ") == "$220.0M Short BTC" + " | " + (ExampleAddress + " | - | -");
  }

  lemma ExampleRowText()
    ensures RowText(ExampleCells) == ExampleJoined
  {
    ExampleStripped();
    ExampleJoin();
  }

  lemma ExampleAddressHex()
    ensures ExampleAddress[0] == '0' && ExampleAddress[1] == 'x'
    ensures forall k :: 2 <= k < AddressLength ==> IsHexDigit(ExampleAddress[k])
  {
    assert forall k :: 2 <= k < AddressLength ==> ExampleAddress[k] == ExampleHex[k - 2];
  }

  lemma ExampleRowAddress()
    ensures FoundAddress(ExampleJoined) == Some(ExampleAddress)
  {
    var text := ExampleJoined;
    assert text[20..62] == ExampleAddress;
    ExampleAddressHex();
    assert AddressAt(text, 20) by {
      forall k | 22 <= k < 62 ensures IsHexDigit(text[k]) {
        assert text[k] == text[20..62][k - 20];
      }
    }
    forall j | AddressAt(text, j) ensures 20 <= j {
    }
    SearchAddressLeftmost(text);
  }

  /** Where the amount pattern matches the example text: `$`, "220.0", "M", "Short", "BTC". */
  const ExampleSpan: AmountSpan := AmountSpan(0, 6, 6, 7, 8, 13, 14, 17)

  lemma ExampleSpanFits()
    ensures Fits(ExampleJoined, ExampleSpan)
    ensures ExampleJoined[ExampleSpan.symbolEnd] == ' '
  {
    var text := ExampleJoined;
    assert text[..18] == "$220.0M Short BTC ";
    assert text[8..13] == "Short";
  }

  lemma ExampleSpanGroups()
    requires Fits(ExampleJoined, ExampleSpan)
    ensures Groups(ExampleJoined, ExampleSpan) == AmountGroups("220.0", Some('M'), "Short", "BTC")
  {
    var text := ExampleJoined;
    var pre := text[..18];
    assert pre == "$220.0M Short BTC ";
    assert text[1..6] == pre[1..6] == "220.0";
    assert text[8..13] == pre[8..13] == "Short";
    assert text[14..17] == pre[14..17] == "BTC";
  }

  lemma ExampleRowAmount()
    ensures SearchAmount(ExampleJoined).Some?
    ensures Groups(ExampleJoined, SearchAmount(ExampleJoined).value) == AmountGroups("220.0", Some('M'), "Short", "BTC")
  {
    ExampleSpanFits();
    ExampleSpanGroups();
    SearchAmountAtStart(ExampleJoined, ExampleSpan);
  }

  lemma ExampleQuantity()
    ensures QuantityText(AmountGroups("220.0", Some('M'), "Short", "BTC")) == "220.0"
  {
    assert RemoveCommas("220.0") == "220.0";
  }

  lemma ExampleWords()
    ensures Upper("BTC") == "BTC" && Capitalize("Short") == "Short"
  {
    assert Upper("BTC") == [UpperChar('B'), UpperChar('T'), UpperChar('C')];
    assert Lower("hort") == [LowerChar('h'), LowerChar('o'), LowerChar('r'), LowerChar('t')];
  }

  lemma ExampleRowRecord()
    ensures RecordFrom(ExampleAddress, AmountGroups("220.0", Some('M'), "Short", "BTC"))
         == Accepted(TopRecord(ExampleAddress, "BTC", "Short", 220000000.0))
  {
    ExampleQuantity();
    ScaledExample();
    ExampleWords();
  }

  /** "$220.0M Short BTC" beside an address gives 220,000,000, "Short" and "BTC". */
  lemma ExampleRow()
    ensures |ExampleAddress| == AddressLength
    ensures ReadRow(ExampleCells) == Accepted(TopRecord(ExampleAddress, "BTC", "Short", 220000000.0))
  {
    ExampleRowText();
    ExampleRowAddress();
    ExampleRowAmount();
    ExampleRowRecord();
    ReadTextCases(ExampleJoined);
  }
}
