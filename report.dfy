/**
 * `build_top_report` (main.py:223-248): the ranked report of the top traders,
 * one wallet card per trader, from the cached or freshly scraped list and the
 * Hyperliquid lookups of each address. The requests themselves are a
 * parameter; their outcome for each address is a Lookup, and what
 * `asyncio.gather` leaves in `results` for it is a Gathered value.
 */
module Report {
  import opened Wrappers
  import opened Seqs
  import opened TopTraders
  import opened Format
  import opened TopCache

  /** What the three Hyperliquid requests for one address gave: the detail, or an exception. */
  datatype Lookup = Found(detail: WalletDetail) | Failed

  /**
   * The Python value one entry of `results` holds: a list `[ch, oo, ff]`, a
   * tuple `(ch, oo, ff)`, or the exception kept by `return_exceptions=True`.
   */
  datatype Gathered = AsList(items: WalletDetail) | AsTuple(elems: WalletDetail) | Raised

  /** The inner `asyncio.gather` of the three requests: its result is a list, or it raises. */
  function Gather(l: Lookup): Gathered {
    if l.Found? then AsList(l.detail) else Raised
  }

  /** `results`: one gathered value per trader, in ranking order. */
  function GatherAll(top: seq<TopRecord>, lookup: string -> Lookup): (rs: seq<Gathered>)
    ensures |rs| == |top| && forall k :: 0 <= k < |top| ==> rs[k] == Gather(lookup(top[k].address))
  {
    Map(top, (p: TopRecord) => Gather(lookup(p.address)))
  }

  /** main.py:241-244 as written: `ch, oo, ff` are unpacked from `res` only when it is a tuple. */
  function Unpack(res: Gathered): WalletDetail {
    if res.AsTuple? then res.elems else NoDetail
  }

  /** The unpacking evidently meant: any gathered list or tuple, and `{}`, `[]`, `[]` for an exception. */
  function UnpackIntended(res: Gathered): WalletDetail {
    match res
    case AsList(d) => d
    case AsTuple(d) => d
    case Raised => NoDetail
  }

  /** The detail a lookup should show: what it found, or `{}`, `[]`, `[]` when it failed. */
  function DetailOf(l: Lookup): (d: WalletDetail)
    ensures l.Found? ==> d == l.detail
    ensures l.Failed? ==> d == NoDetail
  {
    UnpackIntended(Gather(l))
  }

  /** Since `gather` never gives a tuple, the tuple test discards every lookup, found or failed. */
  lemma GatherNeverTuple(l: Lookup)
    ensures !Gather(l).AsTuple?
    ensures Unpack(Gather(l)) == NoDetail
  {
  }

  /** The intended unpacking keeps exactly what the lookup found. */
  lemma UnpackIntendedKeeps(l: Lookup)
    ensures UnpackIntended(Gather(l)) == DetailOf(l)
    ensures l.Found? ==> UnpackIntended(Gather(l)) == l.detail
  {
  }

  /** One entry of `out`, before the entries are joined with newlines. */
  datatype ReportLine =
    | Title(count: nat)
    | CardBlock(card: seq<CardLine>)
    | Blank
    | Footer

  /** The fixed "no data" message, or the ranked report. */
  datatype Report = NoData | Ranked(lines: seq<ReportLine>)

  /** The card of each trader, ranked from 1, with the detail `details` gives for it. */
  function Cards(top: seq<TopRecord>, details: seq<WalletDetail>): (cs: seq<seq<CardLine>>)
    requires |details| == |top|
    ensures |cs| == |top| && forall k :: 0 <= k < |top| ==> cs[k] == Card(k + 1, top[k], details[k])
  {
    seq(|top|, k requires 0 <= k < |top| => Card(k + 1, top[k], details[k]))
  }

  /** The two entries for each card, in order: the card, then a blank entry. */
  function Blocks(cards: seq<seq<CardLine>>): (r: seq<ReportLine>)
    ensures |r| == 2 * |cards|
    decreases |cards|
  {
    if cards == [] then []
    else
      var n := |cards| - 1;
      Blocks(cards[..n]) + [CardBlock(cards[n]), Blank]
  }

  /** The report for the list `top`, each trader's card showing the detail at its index. */
  function Layout(top: seq<TopRecord>, details: seq<WalletDetail>): Report
    requires |details| == |top|
  {
    if top == [] then NoData else Ranked([Title(|top|)] + Blocks(Cards(top, details)) + [Footer])
  }

  /** The report main.py builds from `results`. */
  function AsWrittenReport(top: seq<TopRecord>, results: seq<Gathered>): Report
    requires |results| == |top|
  {
    Layout(top, Map(results, Unpack))
  }

  /** The report main.py evidently means to build from `results`. */
  function IntendedReport(top: seq<TopRecord>, results: seq<Gathered>): Report
    requires |results| == |top|
  {
    Layout(top, Map(results, UnpackIntended))
  }

  /** The entry at 2k is card k, the one at 2k+1 is blank. */
  lemma {:induction false} BlocksSpec(cards: seq<seq<CardLine>>)
    ensures forall k :: 0 <= k < |cards| ==>
      Blocks(cards)[2 * k] == CardBlock(cards[k]) && Blocks(cards)[2 * k + 1] == Blank
    decreases |cards|
  {
    if cards != [] {
      var n := |cards| - 1;
      BlocksSpec(cards[..n]);
      forall k | 0 <= k < n
        ensures cards[..n][k] == cards[k]
      {
      }
    }
  }

  /**
   * An empty list gives the "no data" message. Otherwise: the title with the
   * number of traders; then, for the trader ranked k+1, its card followed by an
   * empty entry, the card opening with that rank and the trader's address,
   * symbol, side emoji and notional; and last the footer.
   */
  lemma ReportLayout(top: seq<TopRecord>, details: seq<WalletDetail>)
    requires |details| == |top|
    ensures Layout(top, details) == NoData <==> top == []
    ensures top != [] ==> var lines := Layout(top, details).lines;
      && |lines| == 2 * |top| + 2
      && lines[0] == Title(|top|)
      && lines[2 * |top| + 1] == Footer
      && (forall k :: 0 <= k < |top| ==>
            && lines[2 * k + 1] == CardBlock(Card(k + 1, top[k], details[k]))
            && lines[2 * k + 1].card[0] == Head(k + 1, SideEmoji(top[k].side), top[k].address, top[k].symbol, Usd(top[k].notional))
            && lines[2 * k + 2] == Blank)
  {
    if top != [] {
      var cards := Cards(top, details);
      BlocksSpec(cards);
      var lines := Layout(top, details).lines;
      var b := Blocks(cards);
      forall k | 0 <= k < |top|
        ensures lines[2 * k + 1] == b[2 * k] && lines[2 * k + 2] == b[2 * k + 1]
      {
      }
    }
  }

  /**
   * As written, every trader's card is its head line alone, whatever the
   * lookups found: the gathered lists never pass the tuple test.
   */
  lemma AsWrittenCards(top: seq<TopRecord>, lookup: string -> Lookup)
    requires top != []
    ensures var r := AsWrittenReport(top, GatherAll(top, lookup));
      && r.Ranked? && |r.lines| == 2 * |top| + 2
      && forall k :: 0 <= k < |top| ==> r.lines[2 * k + 1] == CardBlock([HeadLine(k + 1, top[k])])
  {
    var results := GatherAll(top, lookup);
    var details := Map(results, Unpack);
    ReportLayout(top, details);
    forall k | 0 <= k < |top| ensures Card(k + 1, top[k], details[k]) == [HeadLine(k + 1, top[k])] {
      GatherNeverTuple(lookup(top[k].address));
      CardWithoutDetail(k + 1, top[k]);
    }
  }

  /**
   * With the intended unpacking, the card of the trader ranked k+1 shows what
   * the lookup of its address found, and the head line alone when it failed.
   */
  lemma IntendedCards(top: seq<TopRecord>, lookup: string -> Lookup)
    requires top != []
    ensures var r := IntendedReport(top, GatherAll(top, lookup));
      && r.Ranked? && |r.lines| == 2 * |top| + 2
      && forall k :: 0 <= k < |top| ==>
           && r.lines[2 * k + 1] == CardBlock(Card(k + 1, top[k], DetailOf(lookup(top[k].address))))
           && (lookup(top[k].address).Failed? ==> r.lines[2 * k + 1] == CardBlock([HeadLine(k + 1, top[k])]))
  {
    var results := GatherAll(top, lookup);
    var details := Map(results, UnpackIntended);
    ReportLayout(top, details);
    forall k | 0 <= k < |top|
      ensures details[k] == DetailOf(lookup(top[k].address))
      ensures lookup(top[k].address).Failed? ==> Card(k + 1, top[k], details[k]) == [HeadLine(k + 1, top[k])]
    {
      UnpackIntendedKeeps(lookup(top[k].address));
      CardWithoutDetail(k + 1, top[k]);
    }
  }

  /** A position and a wallet that holds it, for the example below. */
  const ExamplePosition: Position := Position("BTC", "-3", 220000000.0, "64000", "71000", "0.1")
  const ExampleDetail: WalletDetail := WalletDetail([Some(ExamplePosition)], [], [])
  const ExampleTrader: TopRecord := TopRecord(ExampleAddress, "BTC", "Short", 220000000.0)

  /**
   * One trader whose requests all succeed with one open position: as written
   * its card is the head line alone; as intended it also shows the position
   * under its title.
   */
  lemma FindingDetailDropped()
    ensures var lookup := (a: string) => Found(ExampleDetail);
      var results := GatherAll([ExampleTrader], lookup);
      && AsWrittenReport([ExampleTrader], results).lines[1] == CardBlock([HeadLine(1, ExampleTrader)])
      && IntendedReport([ExampleTrader], results).lines[1]
         == CardBlock([HeadLine(1, ExampleTrader), PositionsTitle, FmtPosition(ExamplePosition)])
  {
    var lookup := (a: string) => Found(ExampleDetail);
    AsWrittenCards([ExampleTrader], lookup);
    IntendedCards([ExampleTrader], lookup);
    assert Present(ExampleDetail.assetPositions) == [ExamplePosition] by {
      assert ExampleDetail.assetPositions[..0] == [];
    }
  }

  /** Blocks grows by one card and one blank entry per card. */
  lemma BlocksSnoc(cards: seq<seq<CardLine>>, i: nat)
    requires i < |cards|
    ensures Blocks(cards[..i + 1]) == Blocks(cards[..i]) + [CardBlock(cards[i]), Blank]
  {
    assert cards[..i + 1][..i] == cards[..i];
  }

  /** `out.append(fmt_wallet_card(rank, p, ch or {}, oo or [], ff or []))` and `out.append("")`. */
  method AddCard(out: seq<ReportLine>, rank: nat, p: TopRecord, d: WalletDetail) returns (out': seq<ReportLine>)
    ensures out' == out + [CardBlock(Card(rank, p, d)), Blank]
  {
    var card := FmtWalletCard(rank, p, d);
    out' := out + [CardBlock(card), Blank];
  }

  /** The loop of `build_top_report` over the ranked list and `results` (main.py:240-247). */
  method AssembleReport(top: seq<TopRecord>, results: seq<Gathered>) returns (report: Report)
    requires |results| == |top|
    ensures report == AsWrittenReport(top, results)
  {
    if top == [] {
      return NoData;
    }
    ghost var details := Map(results, Unpack);
    ghost var cards := Cards(top, details);
    var out := [Title(|top|)];
    var i := 0;
    while i < |top|
      invariant 0 <= i <= |top|
      invariant out == [Title(|top|)] + Blocks(cards[..i])
    {
      var d := NoDetail;
      var res := results[i];
      if res.AsTuple? {
        d := res.elems;
      }
      BlocksSnoc(cards, i);
      out := AddCard(out, i + 1, top[i], d);
      i := i + 1;
    }
    assert cards[..i] == cards;
    report := Ranked(out + [Footer]);
  }

  /**
   * `build_top_report`: fetch the list through the cache, look up every
   * address and assemble the report. A ValueError of the scrape propagates and
   * no lookup is made.
   */
  method BuildTopReport(cache: Cache, now: int, table: seq<seq<string>>, finished: int, lookup: string -> Lookup)
    returns (result: Result<Report, FetchError>)
    requires cache.Valid()
    modifies cache
    ensures cache.Valid()
    ensures var f := Step(old(cache.State()), now, table, finished, cache.ttlSec, cache.topLimit);
      && cache.State() == f.slot
      && (f.result.Err? ==> result == Err(f.result.error))
      && (f.result.Ok? ==> result == Ok(AsWrittenReport(f.result.value, GatherAll(f.result.value, lookup))))
  {
    var top := cache.FetchTop(now, table, finished);
    if top.Err? {
      return Err(top.error);
    }
    var results := GatherAll(top.value, lookup);
    var report := AssembleReport(top.value, results);
    return Ok(report);
  }
}
