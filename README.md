# HyperDash top-traders bot: the ranking core, modelled in Dafny

`main.py` is a Telegram bot. It reports the largest positions on the HyperDash
"top traders" leaderboard, with a Hyperliquid detail card for each trader's
wallet. This project models the parts of `main.py` that hold logic, and proves
what they guarantee.

- **The row normaliser of `fetch_hyperdash_top`.** Each leaderboard row, given
  as its cell texts, is read in table order:
  - a row with fewer than four cells is skipped;
  - the stripped, non-empty cells are joined with `" | "`;
  - the leftmost address is searched: a lower-case `0x` and 40 hex digits of
    either case, since this search is case-sensitive;
  - the leftmost amount pattern `$<qty>[K|M|B] Long|Short <SYMBOL>` is
    searched case-insensitively;
  - the quantity goes through `float` after its commas are removed, and a
    ValueError ends the whole scrape;
  - the record keeps the address, the upper-cased symbol, the capitalised
    side and the scaled notional;
  - the loop stops once TOP_LIMIT records are held.

  The two regular expressions are explicit scanners. Each is proved to find
  exactly the leftmost match of the pattern, read as a regular language. On the
  ASCII digits and dots the quantity holds once its commas are removed, the
  model decides exactly which strings `float` accepts. The value it gives is
  the exact decimal, not the nearest double.
  - modules `Text`, `Patterns`, `Amount`, `TopTraders`
- **The TTL cache slot** `CACHE`. A call answers from the slot when the slot is
  younger than the TTL and non-empty. Otherwise it scrapes, and it stores only a
  non-empty list.
  - module `TopCache` (a class `Cache` holding the two fields)
- **The display helpers.**
  - `usd`'s magnitude tiers;
  - `side_emoji`, which checks "long" before "short";
  - the bullets of `fmt_order` and `fmt_fill`;
  - `fmt_wallet_card`: the head line, then at most 6 positions, 5 open orders
    and 5 fills, each section with its title only when non-empty.
  - module `Format`
- **`build_top_report`.** It produces the "no data" message for an empty list.
  Otherwise it produces a title, then a card and a blank entry per trader
  ranked from 1, then the footer.
  - As written, every card is the head line alone, because the gathered
    results never pass the tuple test at main.py:243 (see "## Findings").
  - The intended unpacking is modelled beside it and proved to show each
    wallet's detail.
  - module `Report`
- **The subscriber list** and the `/subscribe` and `/unsubscribe` commands.
  - module `Subscribers` (a class `SubscriberList`)
- `Wrappers` holds `Option` and `Result`; `Seqs` holds the list comprehension
  and the slice `s[:n]`.

Inputs that the program obtains from the outside world are parameters here:
- the rows of the table, without the browser;
- the time of the call and the time the scrape finished, in place of `now_ms()`;
- the Hyperliquid lookup of an address, as a function from address to outcome;
- the chat id.

Card and report lines are typed values (`CardLine`, `ReportLine`), not
rendered text. An amount shown by `usd` is a `Money` value: the scaled number
and its suffix.

What main.py does, and therefore what the model does:
- It reads only the rows of the leaderboard table. There is no other source
  of records.
- It does not sort, rank or deduplicate records. They keep table order, which
  comes from the page's own "Main Position" sort, and a card's rank is its
  index plus one.
- An address is `0x` and exactly 40 hex digits.
- The side comes only from the amount pattern, so it is always "Long" or
  "Short".
- A zero notional is kept like any other.
- A quantity that `float` refuses raises out of the fetch and ends the whole
  scrape. It is modelled as `Err(NotANumber(..))`.
- `usd` prints two decimals in every tier, including below 1000.

## Model

| member | source | states |
|---|---|---|
| Text.Strip | main.py:127 | the stripped cell has no whitespace at either end, and is empty exactly when every character of the cell is whitespace; StripSlice states what is removed |
| Text.StripSlice | main.py:127 | the stripped cell is a slice `s[i:j]` of the cell, and every character before `i` and from `j` on is whitespace |
| Text.StripIdempotent | main.py:127 | stripping a stripped cell changes nothing |
| Text.StrippedNonEmpty | main.py:127 | the kept cells are no more than the given ones, each non-empty and already stripped; StrippedNonEmptyOne and StrippedNonEmptyConcat state which are kept |
| Text.StrippedNonEmptyOne | main.py:127 | one cell is kept, as its strip, exactly when its strip is non-empty |
| Text.StrippedNonEmptyConcat | main.py:127 | the filter goes cell by cell: the kept cells of `a + b` are those of `a` followed by those of `b` |
| Text.StrippedNonEmptyUnchanged | main.py:127 | cells that are all non-empty and stripped are kept, all of them, in order |
| Text.Join | main.py:127 | the join of the kept cells: the parts with the separator between each two; JoinSnoc states it, with JoinLength and JoinStarts |
| Text.JoinSnoc | main.py:127 | joining one more part to a non-empty list appends the separator and that part |
| Text.JoinLength | main.py:127 | the length of the joined text is the parts' total length plus `n-1` separators |
| Text.JoinStarts | main.py:127 | the joined text starts with the first part, followed by the separator when there are more parts |
| Text.Capitalize | main.py:145 | `capitalize()` keeps the length, upper-cases the first character and lower-cases the rest |
| Text.Lower | main.py:65 | `lower()`, on ASCII letters: it keeps the length and lowers each character |
| Text.Upper | main.py:146 | `upper()`, on ASCII letters: it keeps the length and upper-cases each character |
| Text.HasSubstringIff | main.py:66-67 | the test `sub in s` holds exactly when `sub` occurs in `s` at some offset |
| Text.RunEnd | main.py:135 | a greedy run of one character class ends where the class first fails, or at the end of the text |
| Patterns.SearchAmount | main.py:135 | the `re.search` of the amount pattern; SearchAmountLeftmost and SearchAmountAtStart state it |
| Patterns.SearchAddress | main.py:131 | an offset the address search returns has `0x` and 40 hex digits after it |
| Patterns.SearchAddressLeftmost | main.py:131-132 | the search finds nothing exactly when no address occurs; otherwise it finds the leftmost address, and group 1 is `0x` followed by 40 hex digits |
| Patterns.Groups | main.py:135 | the quantity group is a non-empty run of digits, dots and commas; the suffix group, when present, is one of K, M, B in either case; the side group is "long" or "short" in any case; the symbol group is a non-empty run of symbol characters |
| Patterns.SideWordLower | main.py:135 | a side group lower-cases to "long" or "short" |
| Patterns.CandidateFits | main.py:135 | at the `$` of any match, the backtracking path is itself a match, with the same quantity, suffix and side, and the longest symbol |
| Patterns.MatchAtComplete | main.py:135 | every match at a `$` yields the groups of that path, and its symbol group is a prefix of the path's |
| Patterns.SearchAmountLeftmost | main.py:135-136 | the amount search finds nothing exactly when the pattern matches nowhere; otherwise its match starts at the leftmost match position and takes the whole symbol run |
| Patterns.SearchAmountAtStart | main.py:135 | a match at offset 0 whose symbol cannot be extended is the search's result, group for group |
| Amount.RemoveCommas | main.py:138 | `replace(",", "")` leaves no comma, leaves a comma-free string unchanged, and turns a quantity group into digits and dots; RemoveCommasOne and RemoveCommasConcat state what it keeps |
| Amount.RemoveCommasOne | main.py:138 | a comma is removed and any other character is kept |
| Amount.RemoveCommasConcat | main.py:138 | the replacement goes character by character: that of `a + b` is that of `a` followed by that of `b` |
| Amount.ParseFloat | main.py:138 | `float` on digits and dots; ParseFloatFails, ParseInteger and ParseWithDot state it |
| Amount.ParseFloatFails | main.py:138 | `float` raises on a string of digits and dots exactly when it has two dots or no digit |
| Amount.ParseInteger | main.py:138 | `float` of a string of digits is the number those digits denote |
| Amount.ParseWithDot | main.py:138 | `float` of `a.b`, with `a` and `b` not both empty, is the exact decimal of the digits of `a` and `b` with `len(b)` places |
| Amount.DecimalValueSplit | main.py:138 | that decimal is the whole part `a` plus the fraction `b / 10^len(b)` |
| Amount.ParseFloatRejects | main.py:138 | `float` raises on "1.2.3", on the empty string (a quantity of commas alone) and on "." |
| Amount.ScaleFactor | main.py:139-143 | the factor is 1000, 10^6 or 10^9 exactly when the upper-cased suffix is K, M or B, and 1 when there is no suffix |
| Amount.ScaledExample | main.py:138-144 | "220.0" with the suffix M is 220,000,000 |
| TopTraders.CapitalizedSide | main.py:145 | `capitalize()` turns any spelling of the side word into exactly "Long" (for the four-letter word) or "Short" |
| TopTraders.FoundAddress | main.py:131-132 | the address taken from a row is 42 characters long |
| TopTraders.FoundAddressLeftmost | main.py:131-132 | the address is missing exactly when none occurs, and is otherwise the leftmost one in the row text |
| TopTraders.FoundAddressShape | main.py:131-132 | a found address is `0x` and 40 hex digits |
| TopTraders.FoundAmount | main.py:135 | the amount match is missing exactly when the pattern matches nowhere in the row text |
| TopTraders.RowText | main.py:127 | `text_row`; RowTextSnoc states it |
| TopTraders.RowTextSnoc | main.py:127 | one more cell leaves the row text as it was when it strips to nothing; otherwise it appends the stripped cell, after the separator when the text already holds a cell |
| TopTraders.RecordFrom | main.py:138-153 | the record of a row whose patterns matched; RecordFromSpec states it |
| TopTraders.ReadText | main.py:131-153 | the reading of one joined row text; FoundAddressLeftmost, FoundAmount and ReadTextAccepted state it |
| TopTraders.ReadRow | main.py:124-153 | the reading of one row; ReadRowSkips, ReadRowInvalid, ReadRowAccepted and ExampleRow state it |
| TopTraders.RecordFromSpec | main.py:138-153 | the row raises exactly when the comma-free quantity has two dots or no digit, with that text as the error; otherwise the record has the found address, the side "Long" or "Short" as the side word says, the upper-cased symbol with no lower-case letter, and the parsed quantity times the suffix factor |
| TopTraders.ReadRowSkips | main.py:125-137 | a row is skipped exactly when it has fewer than 4 cells, or no address occurs in its joined text, or the amount pattern matches nowhere in it |
| TopTraders.ReadRowInvalid | main.py:125-138 | a row raises exactly when it has at least 4 cells, both patterns match, and the quantity has two dots or no digit |
| TopTraders.ReadTextAccepted | main.py:131-153 | a record read from a row text is well formed |
| TopTraders.ReadRowAccepted | main.py:124-153 | an accepted row gives a well-formed record: a `0x` and 40-hex-digit address, the side "Long" or "Short", and a non-empty symbol with no lower-case letter |
| TopTraders.Room | main.py:154-155 | the loop holds TOP_LIMIT records, and it holds one when TOP_LIMIT is below 1, because the check comes after the append |
| TopTraders.CollectRows | main.py:121-155 | the loop over the rows, for any row reader, returns what Collect gives for that reader's outcomes and the room TOP_LIMIT leaves |
| TopTraders.NormaliseRows | main.py:121-155 | `rows_data`, or the ValueError, is the scrape of the table |
| TopTraders.Collect | main.py:123-155 | the loop over the rows' outcomes as a function; CollectOk and CollectErr state it |
| TopTraders.Scrape | main.py:121-155 | the scrape of the table; ScrapeOk states it |
| TopTraders.CollectOk | main.py:148-155 | a successful scrape returns the first records the rows give, in order: all of them, or TOP_LIMIT when there are more |
| TopTraders.CollectErr | main.py:123-155 | the scrape fails exactly when some row raises before TOP_LIMIT records are held, and then with the error of the first row that raises |
| TopTraders.RecordsBound | main.py:123-153 | the rows hold no more records than there are rows |
| TopTraders.RecordsFrom | main.py:123-153 | every collected record is the record of one accepted row |
| TopTraders.ScrapeOk | main.py:121-155 | a successful scrape holds at most TOP_LIMIT records (1 if TOP_LIMIT is below 1) and at most one per row; each is well formed and is the record of some accepted row |
| TopTraders.ExampleRow | main.py:124-153 | the row "$220.0M Short BTC", address, "-", "-" gives the record with that address, "BTC", "Short" and 220,000,000 |
| TopCache.Hit | main.py:102 | the slot answers; HitAnswersFromSlot, ExpiredScrapes and EmptySlotScrapes state when |
| TopCache.Step | main.py:101-161 | one call on the slot; HitAnswersFromSlot, MissScrapes, MissStores, RepeatWithinTtl and StepKeepsValid state it |
| TopCache.HitAnswersFromSlot | main.py:102-103 | a call within the TTL on a non-empty slot returns the stored rows, leaves the slot as it was and does not depend on the table or the time |
| TopCache.MissScrapes | main.py:102-161 | a call that misses the slot returns the scrape of the table |
| TopCache.MissStores | main.py:158-160 | after a miss, the slot is replaced by the rows and the finishing time exactly when the scrape gave rows; an empty scrape or a ValueError leaves the slot as it was |
| TopCache.RepeatWithinTtl | main.py:102-103 | after a scrape that stored rows, a call within the TTL of its finishing time returns the same rows without scraping |
| TopCache.ExpiredScrapes | main.py:102 | once the TTL has run out, the next call scrapes even though the slot holds rows |
| TopCache.EmptySlotScrapes | main.py:102 | an empty slot never answers a call |
| TopCache.StepKeepsValid | main.py:154-160 | every call keeps the slot at most TOP_LIMIT well-formed records, and returns such a list when it succeeds |
| TopCache.Cache.constructor | main.py:53 | the slot starts with time 0 and no rows |
| TopCache.Cache.FetchTop | main.py:101-161 | one call of `fetch_hyperdash_top`: the result, and the new slot, are the cache step on the old slot |
| Format.Usd | main.py:56-62 | the tier is B, M, K or none exactly as the absolute value reaches 10^9, 10^6 or 10^3; the printed number times the tier's unit is the amount |
| Format.UsdScaled | main.py:56-62 | the printed number has the amount's sign; below the B tier its size is under 1000; with a suffix its size is at least 1 |
| Format.UsdExample | main.py:59-61 | 139,860,000 is 139.86 with M; -2500 is -2.5 with K |
| Format.SideEmojiOccurs | main.py:64-68 | green exactly when "long" occurs in the lower-cased side; red exactly when "short" occurs and "long" does not; • exactly when neither occurs |
| Format.SideEmojiOfRecord | main.py:64-68 | a scraped record's side gets green for "Long" and red for "Short" |
| Format.OrderBulletFirst | main.py:173 | green exactly when the side starts with b or B; red exactly when it starts with s or S; • otherwise, the empty side included |
| Format.FillDirectionFallback | main.py:178 | a present, non-empty `dir` decides the bullet alone; otherwise `side` decides it; neither gives • |
| Format.FillBulletWords | main.py:185 | for a present, non-empty direction: green exactly when its lower-case form mentions "long" or starts with b; red exactly when, failing that, it mentions "short" or starts with s; • exactly when neither |
| Format.BulletTextDistinct | main.py:66-68 | the three bullets are one character each and pairwise different |
| Format.SideEmoji | main.py:64-68 | `side_emoji`; SideEmojiOccurs states which bullet each side gets |
| Format.OrderBullet | main.py:173 | the bullet of `fmt_order`; OrderBulletFirst states it |
| Format.FmtOrder | main.py:164-174 | the order line; FmtOrderSize states its fields |
| Format.FmtOrderSize | main.py:165-174 | the line shows a size exactly when `sz` or `origSz` is non-empty; it shows `sz` when that is non-empty and `origSz` otherwise; the bullet is the side's, and coin, price and timestamp are the order's |
| Format.FillDirection | main.py:178 | `dir or side or ""`; FillDirectionFallback states it |
| Format.FillBullet | main.py:178-185 | the bullet of `fmt_fill`; FillDirectionFallback and FillBulletWords state it |
| Format.FmtFill | main.py:176-186 | the fill line, with the bullet of its `dir` or `side` |
| Format.HeadLine | main.py:190 | the head line of a card: rank, side emoji, address, symbol and `usd` of the notional; ReportLayout states the fields of each card's head |
| Format.Card | main.py:188-220 | `fmt_wallet_card` as a sequence of lines; CardLayout and CardWithoutDetail state it |
| Format.Present | main.py:195-198 | no more positions are shown than there are entries; PresentOne and PresentConcat state which, in order |
| Format.PresentOne | main.py:195-198 | one entry gives its position when it has one, and nothing otherwise |
| Format.PresentConcat | main.py:194-198 | the loop goes entry by entry: the positions of `a + b` are those of `a` followed by those of `b` |
| Format.FmtPosition | main.py:199-205 | the position line: coin, `szi`, `usd` of the position value, entry, liquidation price and ROE; CardLayout states where the lines go |
| Format.PresentSpec | main.py:195-198 | no position is kept exactly when every entry's position is missing or empty; a position is kept exactly when some entry has it |
| Format.CardLayout | main.py:190-218 | the card is the head line, then each section only when it has something to show: its title and, in order, the first 6 present positions, the first 5 open orders and the first 5 fills; its length is 1 plus the three section sizes |
| Format.CardWithoutDetail | main.py:190-218 | with `{}`, `[]`, `[]` the card is the head line alone |
| Format.AddPositions | main.py:194-208 | the loop over `assetPositions` appends the positions section |
| Format.AddSection | main.py:210-218 | the orders or fills loop appends that section |
| Format.FmtWalletCard | main.py:188-220 | the lines built one by one are the card |
| Report.Gather | main.py:233-238 | the inner `asyncio.gather` of one trader's three requests gives their results as a list, or the exception of a failed request; GatherNeverTuple states what that means for line 243 |
| Report.Unpack | main.py:241-244 | as written, `ch, oo, ff` are taken from the result only when it is a tuple, and are otherwise `{}`, `[]`, `[]`; GatherNeverTuple states the consequence |
| Report.GatherNeverTuple | main.py:233-244 | no gathered value is a tuple, so the unpacking leaves `ch, oo, ff` at `{}`, `[]`, `[]` for every trader, whatever the lookup found |
| Report.UnpackIntended | main.py:241-244 | the corrected unpacking takes the three values from a list or a tuple, and gives `{}`, `[]`, `[]` for an exception; DetailOf states what it passes on |
| Report.DetailOf | main.py:241-244 | the detail the intended unpacking passes on: what a successful lookup found, and `{}`, `[]`, `[]` for a failed one |
| Report.Blocks | main.py:245-246 | each card contributes two report entries |
| Report.BlocksSpec | main.py:245-246 | entry 2k is card k, and entry 2k+1 is blank |
| Report.Layout | main.py:225-247 | the report for given details: the "no data" message, or the title, two entries per card and the footer; ReportLayout states it |
| Report.ReportLayout | main.py:225-247 | for whatever detail is passed per trader at line 245: the report is the "no data" message exactly when the list is empty; otherwise it has 2n+2 entries: the title with the count, the card of the trader at index k with rank k+1 and that detail, opening with its rank, side emoji, address, symbol and notional, then a blank entry, and last the footer |
| Report.AsWrittenReport | main.py:240-247 | the report `build_top_report` builds from the gathered results, with the tuple test of line 243; AsWrittenCards states what it shows |
| Report.AsWrittenCards | main.py:233-247 | as written, every card of a non-empty report is the trader's head line alone, whatever the lookups found |
| Report.IntendedReport | main.py:240-247 | the report with the corrected unpacking; IntendedCards states what it shows |
| Report.IntendedCards | main.py:233-247 | with the corrected unpacking, the card of the trader at index k is its card with the detail the lookup of its address found, and its head line alone when that lookup failed |
| Report.FindingDetailDropped | main.py:243-245 | one trader whose lookup finds one position: as written its card is the head line alone; as intended it is the head line, the positions title and that position |
| Report.BlocksSnoc | main.py:245-246 | one more card adds that card and a blank entry at the end |
| Report.AddCard | main.py:245-246 | one turn appends `fmt_wallet_card` of the rank, the trader and the detail, then a blank entry |
| Report.AssembleReport | main.py:240-247 | the loop over the ranked list, with the tuple test of line 243, builds the as-written report of the results |
| Report.BuildTopReport | main.py:223-248 | the cache state after the call is the cache step's; a ValueError of the scrape is the result; otherwise the report is the as-written report of the returned list and the gathered lookups of its addresses |
| Subscribers.Subscribed | main.py:284-285 | the list after `/subscribe`; SubscribeSpec states it |
| Subscribers.RemoveFirst | main.py:292 | `list.remove`; RemoveFirstSpec states it |
| Subscribers.Unsubscribed | main.py:291-292 | the list after `/unsubscribe`; UnsubscribeCount and UnsubscribeRemoves state it |
| Subscribers.SubscribeSpec | main.py:284-285 | after `/subscribe` the chat is in the list, the old list is kept in order as its prefix, the list grows exactly when the chat was absent, and no other id is added |
| Subscribers.SubscribeIdempotent | main.py:284-285 | subscribing twice is subscribing once |
| Subscribers.SubscribeKeepsNoDup | main.py:284-285 | subscribing never makes a duplicate |
| Subscribers.FirstIndex | main.py:292 | the index found holds the id |
| Subscribers.RemoveFirstSpec | main.py:292 | `list.remove` drops the first occurrence and keeps everything else, in order |
| Subscribers.UnsubscribeCount | main.py:291-292 | after `/unsubscribe` the list holds one copy fewer of the id, and it shrinks exactly when the id was there |
| Subscribers.UnsubscribeRemoves | main.py:291-292 | on a list without duplicates, the chat is gone, every other chat stays and no duplicate appears |
| Subscribers.SubscribeThenUnsubscribe | main.py:282-294 | unsubscribing a chat that just subscribed restores the list |
| Subscribers.SubscriberList.constructor | main.py:52 | the list starts as loaded |
| Subscribers.SubscriberList.Subscribe | main.py:282-287 | the list becomes the subscribed list; the state is saved exactly when the chat was absent, which is exactly when the list changed; a list without duplicates stays so |
| Subscribers.SubscriberList.Unsubscribe | main.py:289-294 | the list becomes the unsubscribed list; the state is saved exactly when the chat was present, which is exactly when the list changed; on a list without duplicates the chat is gone and no duplicate appears |

## Left out

- The browser is not modelled: Playwright, navigation, the two header clicks,
  the 1.6 s wait and `browser.close()`. The model starts from the cell texts of
  the rows, and so assumes that every browser step succeeds. An exception in
  one of those steps would end the call before the slot is touched.
- The network is not modelled: the Hyperliquid requests, `aiohttp` and
  `asyncio.gather`. The three requests for one address are one `Lookup`
  outcome, a detail or a failure. The inner `gather` turns that outcome into
  a list of the three values or an exception (`Gathered`); the report
  methods follow the code as written on that value. Concurrency, the order of
  the requests and the other exceptions of `gather` are left out.
- The Telegram side is not modelled: the replies, `/start`, `/top`, the
  webhook server and `periodic_job`. `cmd_wallet` only wires a lookup of one
  address to `fmt_wallet_card`, which is modelled.
- Persistence is not modelled: `load_state` and `save_state`. The subscriber
  methods return whether the state would be saved.
- `now_ms()` and the clock are parameters.
- Rendering to text is not modelled:
  - the `.2f` digits of `usd`, so amounts are exact reals and there is no
    float rounding or binary floating point;
  - the `str()` of JSON fields;
  - dates from timestamps;
  - the Markdown decorations;
  - the final `"\n".join`.

  Float timestamps (`isinstance(tms, float)`) are taken as absent.
- Text.Lower, Text.Upper and Text.Capitalize map case for ASCII letters only;
  Python's `lower()` also maps non-ASCII letters, some into two characters.
  No main.py test sees the difference: no non-ASCII character lowers into a
  letter of "long", "short", "b" or "s", and the side and symbol groups hold
  only ASCII.
- Regular expressions are modelled with ASCII `\d` and ASCII case folding.
  The Unicode digits that Python's `\d` also accepts, and the non-ASCII
  letters that IGNORECASE maps to ASCII ones (dotless ı, long ſ, Kelvin K),
  are left out. They would make `float` reject or accept more.
- `float` is modelled only on strings of ASCII digits and
  dots, because those are all the quantity group can hold once its commas are
  removed. Exponents, signs, `inf` and underscores cannot occur there and are
  not modelled.
- `usd(None)`, and a `positionValue` that is not a number raise
  TypeError or ValueError in `fmt_wallet_card`. The model takes the position
  value as a number.
- The JSON fields are typed values here. Python's falsiness
  of `0` in `sz or origSz` and in `ch or {}` is not modelled beyond the empty
  string and the empty collection.
- The lookups are made only when the list is non-empty. The model passes the
  lookup of each address as a function, so the timing of the requests is not
  captured.

## Findings

| source | as written | input that shows it | evidently intended | confidence | as-written member | corrected member |
|---|---|---|---|---|---|---|
| main.py:243-244 | `isinstance(res, tuple)` is tested on a value of the inner `asyncio.gather`, which is a list, so `ch, oo, ff` stay `{}`, `[]`, `[]` and every card is its head line alone | one trader whose three requests succeed and whose state holds one position | unpack the gathered list (or tuple) into `ch, oo, ff`, so the card shows the wallet's positions, orders and fills | not executed | Report.AsWrittenCards, Report.FindingDetailDropped | Report.IntendedCards |
