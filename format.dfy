/**
 * The display helpers of main.py: the magnitude tiers of `usd` (56-62), the
 * emoji of `side_emoji` (64-68), the bullets of `fmt_order` (173) and
 * `fmt_fill` (177-186), and the sections of `fmt_wallet_card` (188-221).
 * Lines are kept as typed values; the digits `.2f` prints, the `str()` of the
 * JSON fields and the date text are not part of this model.
 */
module Format {
  import opened Wrappers
  import opened Text
  import opened TopTraders
  import opened Seqs

  // -------------------------------------------------------------------- usd

  /** The magnitude tier `usd` picks, shown as the suffix B, M, K or nothing. */
  datatype Suffix = Billions | Millions | Thousands | Units

  /** What `usd` prints: `$`, `scaled` with two decimals, then the suffix. */
  datatype Money = Money(scaled: real, suffix: Suffix)

  /** The amount one unit of each tier stands for. */
  function Divisor(u: Suffix): real {
    match u
    case Billions => 1000000000.0
    case Millions => 1000000.0
    case Thousands => 1000.0
    case Units => 1.0
  }

  /** The letter printed after the number. */
  function SuffixText(u: Suffix): string {
    match u
    case Billions => "B"
    case Millions => "M"
    case Thousands => "K"
    case Units => ""
  }

  function Abs(x: real): real {
    if x < 0.0 then -x else x
  }

  /**
   * `usd(n)`: the tier is chosen on the absolute value, and the value itself
   * (sign included) is divided by the tier's unit.
   */
  function Usd(x: real): (m: Money)
    ensures m.suffix == Billions <==> Abs(x) >= 1000000000.0
    ensures m.suffix == Millions <==> 1000000.0 <= Abs(x) < 1000000000.0
    ensures m.suffix == Thousands <==> 1000.0 <= Abs(x) < 1000000.0
    ensures m.suffix == Units <==> Abs(x) < 1000.0
    ensures m.scaled * Divisor(m.suffix) == x
  {
    var a := Abs(x);
    if a >= 1000000000.0 then Money(x / 1000000000.0, Billions)
    else if a >= 1000000.0 then Money(x / 1000000.0, Millions)
    else if a >= 1000.0 then Money(x / 1000.0, Thousands)
    else Money(x, Units)
  }

  /**
   * The printed number keeps the sign of the amount; below the B tier it stays
   * under 1000 in size, and with a suffix it is at least 1 in size.
   */
  lemma UsdScaled(x: real)
    ensures var m := Usd(x);
      && (m.scaled < 0.0 <==> x < 0.0)
      && (m.suffix != Billions ==> Abs(m.scaled) < 1000.0)
      && (m.suffix != Units ==> Abs(m.scaled) >= 1.0)
  {
    var m := Usd(x);
    assert Abs(m.scaled) * Divisor(m.suffix) == Abs(x);
  }

  /** 139,860,000 is shown as 139.86 with the suffix M. */
  lemma UsdExample()
    ensures Usd(139860000.0) == Money(139.86, Millions) && SuffixText(Millions) == "M"
    ensures Usd(-2500.0) == Money(-2.5, Thousands)
  {
  }

  // ---------------------------------------------------------------- bullets

  /** The three marks the formatters print: 🟢, 🔴 and •. */
  datatype Bullet = Green | Red | Dot

  function BulletText(b: Bullet): string {
    match b
    case Green => "\U{1F7E2}"
    case Red => "\U{1F534}"
    case Dot => "\U{2022}"
  }

  /** Each mark is one character and no two marks print alike, so keeping lines typed loses nothing. */
  lemma BulletTextDistinct(a: Bullet, b: Bullet)
    ensures |BulletText(a)| == 1
    ensures BulletText(a) == BulletText(b) <==> a == b
  {
  }

  /** `side_emoji(s)`: "long" anywhere in the lower-cased side is checked before "short". */
  function SideEmoji(s: string): Bullet {
    var l := Lower(s);
    if HasSubstring(l, "long") then Green
    else if HasSubstring(l, "short") then Red
    else Dot
  }

  /**
   * The emoji is green exactly when "long" occurs in the lower-cased side, red
   * exactly when "short" occurs and "long" does not, and • when neither occurs.
   */
  lemma SideEmojiOccurs(s: string)
    ensures SideEmoji(s) == Green <==> Mentions(Lower(s), "long")
    ensures SideEmoji(s) == Red <==> !Mentions(Lower(s), "long") && Mentions(Lower(s), "short")
    ensures SideEmoji(s) == Dot <==> !Mentions(Lower(s), "long") && !Mentions(Lower(s), "short")
  {
    HasSubstringIff(Lower(s), "long");
    HasSubstringIff(Lower(s), "short");
  }

  /** The sides the scraper stores get green for Long and red for Short. */
  lemma SideEmojiOfRecord(r: TopRecord)
    requires WellFormed(r)
    ensures SideEmoji(r.side) == (if r.side == "Long" then Green else Red)
  {
    if r.side == "Long" {
      assert Lower("Long") == "long";
      assert StartsWith("long", "long");
    } else {
      assert Lower("Short") == "short";
      assert StartsWith("short", "short");
    }
  }

  /** The bullet of `fmt_order`: by the first letter of the side, b (buy) or s (sell). */
  function OrderBullet(side: string): Bullet {
    var l := Lower(side);
    if StartsWith(l, "b") then Green
    else if StartsWith(l, "s") then Red
    else Dot
  }

  /** Green exactly for a side starting with b or B, red for s or S, • otherwise (the empty side included). */
  lemma OrderBulletFirst(side: string)
    ensures OrderBullet(side) == Green <==> side != [] && (side[0] == 'b' || side[0] == 'B')
    ensures OrderBullet(side) == Red <==> side != [] && (side[0] == 's' || side[0] == 'S')
    ensures OrderBullet(side) == Dot <==> side == [] || side[0] !in "bBsS"
  {
    var l := Lower(side);
    if side != [] {
      assert l[..1] == [LowerChar(side[0])];
    }
  }

  /** `(f.get("dir") or f.get("side") or "")`: the first of the two that is present and non-empty. */
  function FillDirection(dir: Option<string>, side: Option<string>): string {
    if dir.Some? && dir.value != "" then dir.value
    else if side.Some? && side.value != "" then side.value
    else ""
  }

  /** The bullet of `fmt_fill`: "long" or a b-prefix gives green before "short" or an s-prefix gives red. */
  function FillBullet(dir: Option<string>, side: Option<string>): Bullet {
    var d := Lower(FillDirection(dir, side));
    if HasSubstring(d, "long") || StartsWith(d, "b") then Green
    else if HasSubstring(d, "short") || StartsWith(d, "s") then Red
    else Dot
  }

  /**
   * A present, non-empty `dir` decides the bullet on its own; otherwise `side`
   * decides it as if it were the direction.
   */
  lemma FillDirectionFallback(dir: Option<string>, side: Option<string>)
    ensures dir.Some? && dir.value != "" ==> FillBullet(dir, side) == FillBullet(dir, None)
    ensures !(dir.Some? && dir.value != "") ==> FillBullet(dir, side) == FillBullet(side, None)
    ensures FillBullet(None, None) == Dot && FillBullet(Some(""), Some("")) == Dot
  {
    assert Lower("") == "";
  }

  /**
   * The bullet of a fill with a non-empty direction: green exactly when
   * "long" occurs in it or it starts with b; red exactly when, failing that,
   * "short" occurs in it or it starts with s; • otherwise.
   */
  lemma FillBulletWords(dir: string)
    requires dir != ""
    ensures var d := Lower(dir);
      && (FillBullet(Some(dir), None) == Green <==> Mentions(d, "long") || StartsWith(d, "b"))
      && (FillBullet(Some(dir), None) == Red <==>
            !(Mentions(d, "long") || StartsWith(d, "b")) && (Mentions(d, "short") || StartsWith(d, "s")))
      && (FillBullet(Some(dir), None) == Dot <==>
            !(Mentions(d, "long") || StartsWith(d, "b")) && !(Mentions(d, "short") || StartsWith(d, "s")))
  {
    HasSubstringIff(Lower(dir), "long");
    HasSubstringIff(Lower(dir), "short");
  }

  // ------------------------------------------------------------------- card

  /** A position of `clearinghouseState`, its fields as the card prints them. */
  datatype Position = Position(coin: string, szi: string, value: real, entry: string, liquidation: string, roe: string)

  /** An open order: `sz` falls back to `origSz`, `timestamp` is shown only when it is a number. */
  datatype Order = Order(side: string, coin: string, size: Option<string>, origSize: Option<string>,
                         price: string, timestamp: Option<int>)

  /** A fill: the direction is `dir`, falling back to `side`. */
  datatype Fill = Fill(dir: Option<string>, side: Option<string>, coin: string, size: Option<string>, price: string,
                       time: Option<int>)

  /**
   * What Hyperliquid gave for one wallet: the `assetPositions` entries (None
   * for an entry whose `position` is missing or empty), the open orders and the fills.
   */
  datatype WalletDetail = WalletDetail(assetPositions: seq<Option<Position>>, openOrders: seq<Order>, fills: seq<Fill>)

  /** `{}`, `[]`, `[]`: the detail used when a lookup failed. */
  const NoDetail: WalletDetail := WalletDetail([], [], [])

  /** One line of a wallet card. Order and fill lines are printed after a "• ". */
  datatype CardLine =
    | Head(rank: int, emoji: Bullet, address: string, symbol: string, notional: Money)
    | PositionsTitle
    | PositionLine(coin: string, szi: string, value: Money, entry: string, liquidation: string, roe: string)
    | OrdersTitle
    | OrderLine(bullet: Bullet, coin: string, size: Option<string>, price: string, stamp: Option<int>)
    | FillsTitle
    | FillLine(bullet: Bullet, coin: string, size: Option<string>, price: string, stamp: Option<int>)

  /** At most this many positions, orders and fills are shown. */
  const PositionCap: nat := 6
  const OrderCap: nat := 5
  const FillCap: nat := 5

  function FmtPosition(p: Position): CardLine {
    PositionLine(p.coin, p.szi, Usd(p.value), p.entry, p.liquidation, p.roe)
  }

  /** `fmt_order(o)` */
  function FmtOrder(o: Order): CardLine {
    var size := if o.size.Some? && o.size.value != "" then o.size else o.origSize;
    OrderLine(OrderBullet(o.side), o.coin, size, o.price, o.timestamp)
  }

  /**
   * `sz or origSz`: the line shows a size exactly when the order has a
   * non-empty `sz` or a non-empty `origSz`; it shows `sz` when that is
   * non-empty, and `origSz`, whatever it holds, when it is not.
   */
  lemma FmtOrderSize(o: Order)
    ensures var l := FmtOrder(o);
      && (l.size.Some? && l.size.value != "" <==>
            (o.size.Some? && o.size.value != "") || (o.origSize.Some? && o.origSize.value != ""))
      && (o.size.Some? && o.size.value != "" ==> l.size == o.size)
      && (!(o.size.Some? && o.size.value != "") ==> l.size == o.origSize)
      && l.bullet == OrderBullet(o.side) && l.coin == o.coin && l.price == o.price && l.stamp == o.timestamp
  {
  }

  /** `fmt_fill(f)` */
  function FmtFill(f: Fill): CardLine {
    FillLine(FillBullet(f.dir, f.side), f.coin, f.size, f.price, f.time)
  }

  /** The positions that are present, in order. */
  function Present(a: seq<Option<Position>>): (ps: seq<Position>)
    ensures |ps| <= |a|
    decreases |a|
  {
    if a == [] then []
    else Present(a[..|a| - 1]) + (if a[|a| - 1].Some? then [a[|a| - 1].value] else [])
  }

  /** A titled section, left out altogether when it has no lines. */
  function Section(title: CardLine, items: seq<CardLine>): seq<CardLine> {
    if items == [] then [] else [title] + items
  }

  /** The first line: rank, side emoji, address, symbol and notional. */
  function HeadLine(rank: int, p: TopRecord): CardLine {
    Head(rank, SideEmoji(p.side), p.address, p.symbol, Usd(p.notional))
  }

  /** "Posiciones activas": the first 6 present positions. */
  function PositionSection(d: WalletDetail): seq<CardLine> {
    Section(PositionsTitle, Take(Map(Present(d.assetPositions), FmtPosition), PositionCap))
  }

  /** "Órdenes abiertas (top 5)" */
  function OrderSection(d: WalletDetail): seq<CardLine> {
    Section(OrdersTitle, Map(Take(d.openOrders, OrderCap), FmtOrder))
  }

  /** "Fills 24h (top 5)" */
  function FillSection(d: WalletDetail): seq<CardLine> {
    Section(FillsTitle, Map(Take(d.fills, FillCap), FmtFill))
  }

  /** The lines of `fmt_wallet_card(rank, p, ch, open_orders, fills)`. */
  function Card(rank: int, p: TopRecord, d: WalletDetail): seq<CardLine> {
    [HeadLine(rank, p)] + PositionSection(d) + OrderSection(d) + FillSection(d)
  }

  /** The number of lines a section of `n` items shows under a cap. */
  function SectionSize(n: nat, cap: nat): nat {
    if n == 0 then 0 else 1 + (if n <= cap then n else cap)
  }

  /** The positions of `a + b` are those of `a`, then those of `b`. */
  lemma {:induction false} PresentConcat(a: seq<Option<Position>>, b: seq<Option<Position>>)
    ensures Present(a + b) == Present(a) + Present(b)
    decreases |b|
  {
    if b == [] {
      assert a + b == a;
    } else {
      var ab := a + b;
      var init := b[..|b| - 1];
      assert ab[..|ab| - 1] == a + init;
      assert ab[|ab| - 1] == b[|b| - 1];
      PresentConcat(a, init);
    }
  }

  /** One entry contributes its position when it has one, and nothing otherwise. */
  lemma PresentOne(e: Option<Position>)
    ensures Present([e]) == if e.Some? then [e.value] else []
  {
    assert [e][..0] == [];
  }

  /** A position is shown for every entry that has one, and for no other. */
  lemma {:induction false} PresentSpec(a: seq<Option<Position>>)
    ensures Present(a) == [] <==> forall k :: 0 <= k < |a| ==> a[k].None?
    ensures forall p :: p in Present(a) <==> Some(p) in a
    decreases |a|
  {
    if a != [] {
      var init := a[..|a| - 1];
      PresentSpec(init);
      assert a == init + [a[|a| - 1]];
      forall p ensures p in Present(a) <==> Some(p) in a {
        assert Some(p) in a <==> Some(p) in init || a[|a| - 1] == Some(p);
      }
      if forall k :: 0 <= k < |init| ==> init[k].None? {
        assert forall k :: 0 <= k < |init| ==> a[k] == init[k];
      } else {
        var k :| 0 <= k < |init| && init[k].Some?;
        assert a[k] == init[k];
      }
    }
  }

  /**
   * The card: the head line; then each section only when it has something to
   * show, made of its title and, in order, the first 6 present positions, the
   * first 5 open orders and the first 5 fills.
   */
  lemma CardLayout(rank: int, p: TopRecord, d: WalletDetail)
    ensures var c := Card(rank, p, d);
      var ps := Present(d.assetPositions);
      var np := SectionSize(|ps|, PositionCap);
      var no := SectionSize(|d.openOrders|, OrderCap);
      var nf := SectionSize(|d.fills|, FillCap);
      && |c| == 1 + np + no + nf
      && c[0] == HeadLine(rank, p)
      && (np > 0 <==> exists k :: 0 <= k < |d.assetPositions| && d.assetPositions[k].Some?)
      && (np > 0 ==> c[1] == PositionsTitle && c[2..1 + np] == Map(ps[..np - 1], FmtPosition))
      && (no > 0 <==> d.openOrders != [])
      && (no > 0 ==> c[1 + np] == OrdersTitle && c[2 + np..1 + np + no] == Map(d.openOrders[..no - 1], FmtOrder))
      && (nf > 0 <==> d.fills != [])
      && (nf > 0 ==> c[1 + np + no] == FillsTitle && c[2 + np + no..] == Map(d.fills[..nf - 1], FmtFill))
  {
    CardParts(HeadLine(rank, p), PositionSection(d), OrderSection(d), FillSection(d));
    PositionPart(d);
    CappedPart(OrdersTitle, d.openOrders, FmtOrder, OrderCap);
    CappedPart(FillsTitle, d.fills, FmtFill, FillCap);
  }

  /** The positions section: its size, and its title over the first 6 present positions. */
  lemma PositionPart(d: WalletDetail)
    ensures var s := PositionSection(d);
      var ps := Present(d.assetPositions);
      var n := SectionSize(|ps|, PositionCap);
      && |s| == n
      && (n > 0 <==> exists k :: 0 <= k < |d.assetPositions| && d.assetPositions[k].Some?)
      && (n > 0 ==> s[0] == PositionsTitle && s[1..] == Map(ps[..n - 1], FmtPosition))
  {
    var ps := Present(d.assetPositions);
    PresentSpec(d.assetPositions);
    SectionParts(PositionsTitle, Map(ps, FmtPosition), PositionCap);
  }

  /** The orders or fills section: its size, and its title over the first `cap` items. */
  lemma CappedPart<A>(title: CardLine, items: seq<A>, fmt: A -> CardLine, cap: nat)
    requires cap > 0
    ensures var s := Section(title, Map(Take(items, cap), fmt));
      var n := SectionSize(|items|, cap);
      && |s| == n
      && (n > 0 <==> items != [])
      && (n > 0 ==> s[0] == title && s[1..] == Map(items[..n - 1], fmt))
  {
    MapTake(items, fmt, cap);
    SectionParts(title, Map(items, fmt), cap);
  }

  /** Where the head line and the three sections lie in a card. */
  lemma CardParts(h: CardLine, sp: seq<CardLine>, so: seq<CardLine>, sf: seq<CardLine>)
    ensures var c := [h] + sp + so + sf;
      && |c| == 1 + |sp| + |so| + |sf|
      && c[0] == h
      && c[1..1 + |sp|] == sp
      && c[1 + |sp|..1 + |sp| + |so|] == so
      && c[1 + |sp| + |so|..] == sf
  {
  }

  /** A section of capped items: its size, its title and its items. */
  lemma SectionParts(title: CardLine, items: seq<CardLine>, cap: nat)
    requires cap > 0
    ensures var s := Section(title, Take(items, cap));
      var n := SectionSize(|items|, cap);
      && |s| == n
      && (n > 0 <==> items != [])
      && (n > 0 ==> s[0] == title && s[1..] == items[..n - 1])
  {
  }

  /** A failed lookup gives a card with the head line only. */
  lemma CardWithoutDetail(rank: int, p: TopRecord)
    ensures Card(rank, p, NoDetail) == [HeadLine(rank, p)]
  {
  }

  /** The positions part of `fmt_wallet_card`: collect the present positions, then add at most 6 under their title. */
  method AddPositions(lines: seq<CardLine>, d: WalletDetail) returns (out: seq<CardLine>)
    ensures out == lines + PositionSection(d)
  {
    var posLines: seq<CardLine> := [];
    var i := 0;
    while i < |d.assetPositions|
      invariant 0 <= i <= |d.assetPositions|
      invariant posLines == Map(Present(d.assetPositions[..i]), FmtPosition)
    {
      assert d.assetPositions[..i + 1][..i] == d.assetPositions[..i];
      var entry := d.assetPositions[i];
      if entry.Some? {
        posLines := posLines + [FmtPosition(entry.value)];
      }
      i := i + 1;
    }
    assert d.assetPositions[..i] == d.assetPositions;
    out := lines;
    if posLines != [] {
      out := out + [PositionsTitle] + Take(posLines, PositionCap);
    }
  }

  /**
   * The open-orders and fills parts: when there is something to show, the
   * title and then one line per shown item, in order.
   */
  method AddSection<A>(lines: seq<CardLine>, title: CardLine, shown: seq<A>, fmt: A -> CardLine)
    returns (out: seq<CardLine>)
    ensures out == lines + Section(title, Map(shown, fmt))
  {
    out := lines;
    if shown != [] {
      out := out + [title];
      var j := 0;
      while j < |shown|
        invariant 0 <= j <= |shown|
        invariant out == lines + [title] + Map(shown[..j], fmt)
      {
        MapSnoc(shown, fmt, j);
        out := out + [fmt(shown[j])];
        j := j + 1;
      }
      assert shown[..j] == shown;
    }
  }

  /** `fmt_wallet_card`, building `lines` as main.py does, section by section. */
  method FmtWalletCard(rank: int, p: TopRecord, d: WalletDetail) returns (lines: seq<CardLine>)
    ensures lines == Card(rank, p, d)
  {
    lines := [HeadLine(rank, p)];
    lines := AddPositions(lines, d);
    lines := AddSection(lines, OrdersTitle, Take(d.openOrders, OrderCap), FmtOrder);
    lines := AddSection(lines, FillsTitle, Take(d.fills, FillCap), FmtFill);
  }
}
