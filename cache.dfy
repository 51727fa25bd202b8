/**
 * The module-level cache slot `CACHE = {"ts": 0, "rows": []}` (main.py:53) and
 * the way `fetch_hyperdash_top` reads it before scraping (main.py:102-103) and
 * writes it afterwards (main.py:158-160). The wall clock is not modelled: the
 * time of the call and the time the scrape finished are parameters.
 */
module TopCache {
  import opened Wrappers
  import opened TopTraders

  /** The contents of the slot: when it was written (milliseconds) and the rows it holds. */
  datatype Slot = Slot(ts: int, rows: seq<TopRecord>)

  /** What one call of `fetch_hyperdash_top` gives back, and the slot after it. */
  datatype Fetched = Fetched(result: Result<seq<TopRecord>, FetchError>, slot: Slot)

  /** The slot answers a call at `now`: it is younger than the TTL and holds rows. */
  predicate Hit(s: Slot, now: int, ttlSec: int) {
    now - s.ts < ttlSec * 1000 && s.rows != []
  }

  /**
   * One call at `now` on the table `table`, whose scrape (if one happens)
   * finishes at `finished`: a hit answers from the slot; otherwise the table is
   * scraped, and only a non-empty list of rows is stored, stamped `finished`.
   * A ValueError leaves the slot as it was.
   */
  function Step(s: Slot, now: int, table: seq<seq<string>>, finished: int, ttlSec: int, limit: int): Fetched {
    if Hit(s, now, ttlSec) then Fetched(Ok(s.rows), s)
    else
      var r := Scrape(table, limit);
      if r.Ok? && r.value != [] then Fetched(r, Slot(finished, r.value)) else Fetched(r, s)
  }

  /** What the slot can hold: a finished scrape's rows, at most TOP_LIMIT of them (at least one), all well formed. */
  predicate SlotValid(s: Slot, limit: int) {
    && |s.rows| <= Room(limit)
    && forall k :: 0 <= k < |s.rows| ==> WellFormed(s.rows[k])
  }

  /** A hit returns the stored rows, leaves the slot alone and does not look at the table. */
  lemma HitAnswersFromSlot(s: Slot, now: int, table: seq<seq<string>>, other: seq<seq<string>>,
                           finished: int, later: int, ttlSec: int, limit: int)
    requires Hit(s, now, ttlSec)
    ensures Step(s, now, table, finished, ttlSec, limit) == Fetched(Ok(s.rows), s)
    ensures Step(s, now, table, finished, ttlSec, limit) == Step(s, now, other, later, ttlSec, limit)
  {
  }

  /** A miss returns the scrape of the table, whatever the slot held. */
  lemma MissScrapes(s: Slot, now: int, table: seq<seq<string>>, finished: int, ttlSec: int, limit: int)
    requires !Hit(s, now, ttlSec)
    ensures Step(s, now, table, finished, ttlSec, limit).result == Scrape(table, limit)
  {
  }

  /**
   * After a miss, the slot is replaced exactly when the scrape gave rows, and
   * then by those rows stamped with the time the scrape finished; an empty
   * scrape or a ValueError leaves both fields as they were.
   */
  lemma MissStores(s: Slot, now: int, table: seq<seq<string>>, finished: int, ttlSec: int, limit: int)
    requires !Hit(s, now, ttlSec)
    ensures var f := Step(s, now, table, finished, ttlSec, limit);
      && (f.result.Ok? && f.result.value != [] ==> f.slot == Slot(finished, f.result.value))
      && (f.result.Err? || f.result.value == [] ==> f.slot == s)
  {
  }

  /**
   * A call that scraped rows is followed, within the TTL of the time the scrape
   * finished, by calls that return the same rows without scraping.
   */
  lemma RepeatWithinTtl(s: Slot, now: int, table: seq<seq<string>>, finished: int,
                        now2: int, table2: seq<seq<string>>, finished2: int, ttlSec: int, limit: int)
    requires !Hit(s, now, ttlSec)
    requires Scrape(table, limit).Ok? && Scrape(table, limit).value != []
    requires now2 - finished < ttlSec * 1000
    ensures var f := Step(s, now, table, finished, ttlSec, limit);
      && Hit(f.slot, now2, ttlSec)
      && Step(f.slot, now2, table2, finished2, ttlSec, limit) == Fetched(f.result, f.slot)
  {
  }

  /** Once the TTL has run out, the next call scrapes again, even with rows in the slot. */
  lemma ExpiredScrapes(s: Slot, now: int, table: seq<seq<string>>, finished: int, ttlSec: int, limit: int)
    requires now - s.ts >= ttlSec * 1000
    ensures Step(s, now, table, finished, ttlSec, limit).result == Scrape(table, limit)
  {
  }

  /** An empty slot never answers: every call scrapes until some scrape gives rows. */
  lemma EmptySlotScrapes(s: Slot, now: int, table: seq<seq<string>>, finished: int, ttlSec: int, limit: int)
    requires s.rows == []
    ensures !Hit(s, now, ttlSec)
    ensures Step(s, now, table, finished, ttlSec, limit).result == Scrape(table, limit)
  {
  }

  /** Every call keeps the slot valid and returns valid rows when it succeeds. */
  lemma StepKeepsValid(s: Slot, now: int, table: seq<seq<string>>, finished: int, ttlSec: int, limit: int)
    requires SlotValid(s, limit)
    ensures var f := Step(s, now, table, finished, ttlSec, limit);
      && SlotValid(f.slot, limit)
      && (f.result.Ok? ==> SlotValid(Slot(f.slot.ts, f.result.value), limit))
  {
    if !Hit(s, now, ttlSec) && Scrape(table, limit).Ok? {
      ScrapeOk(table, limit);
    }
  }

  /** The slot as main.py keeps it, with the TTL and TOP_LIMIT read once at start-up. */
  class Cache {
    var ts: int
    var rows: seq<TopRecord>
    const ttlSec: int
    const topLimit: int

    ghost predicate Valid()
      reads this
    {
      SlotValid(Slot(ts, rows), topLimit)
    }

    /** The slot as a value. */
    function State(): Slot
      reads this
    {
      Slot(ts, rows)
    }

    /** `{"ts": 0, "rows": []}` */
    constructor (ttlSec: int, topLimit: int)
      ensures Valid()
      ensures State() == Slot(0, []) && this.ttlSec == ttlSec && this.topLimit == topLimit
    {
      this.ttlSec := ttlSec;
      this.topLimit := topLimit;
      ts := 0;
      rows := [];
    }

    /**
     * `fetch_hyperdash_top` around the row normaliser: answer from the slot on
     * a hit, otherwise read the table and store a non-empty result.
     */
    method FetchTop(now: int, table: seq<seq<string>>, finished: int) returns (result: Result<seq<TopRecord>, FetchError>)
      requires Valid()
      modifies this
      ensures Valid()
      ensures Fetched(result, State()) == Step(old(State()), now, table, finished, ttlSec, topLimit)
    {
      if now - ts < ttlSec * 1000 && rows != [] {
        return Ok(rows);
      }
      result := NormaliseRows(table, topLimit);
      if result.Ok? && result.value != [] {
        ScrapeOk(table, topLimit);
        ts := finished;
        rows := result.value;
      }
    }
  }
}
