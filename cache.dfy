/**
 * The module-level price cache of `fetch_alpha_price`: a dict from the
 * upper-cased ticker to the time of the fetch and the price. A stored price
 * is served without asking upstream while it is younger than 60 seconds; only
 * a price that was actually extracted is stored, stamped with the time read
 * before the upstream call.
 */
module PriceCache {
  import opened Wrappers
  import opened Text
  import opened Quote

  /** Seconds for which a stored price is served without asking upstream. */
  const Ttl: real := 60.0

  datatype Entry = Entry(stamp: real, price: real)

  type Cache = map<string, Entry>

  /** The entry under `key` may be served at time `now`. */
  predicate Fresh(c: Cache, key: string, now: real) {
    key in c && now - c[key].stamp < Ttl
  }

  /** One call of `fetch_alpha_price`: what it returns, the cache after it,
      and the symbol it asks upstream for (`None` when it does not ask). */
  datatype Step = Step(result: Outcome, cache: Cache, query: Option<string>)

  /** The cache entry a call writes: the extracted price stamped `now`, or
      nothing. */
  function Written(result: Outcome, now: real): Option<Entry> {
    if result.Returned? && result.price.Some? then Some(Entry(now, result.price.value)) else None
  }

  /** `fetch_alpha_price(ticker)` at time `now`, where `reply` is what the
      upstream answers if it is asked. */
  function FetchStep(c: Cache, ticker: string, now: real, reply: Upstream, parse: string -> Option<real>): (st: Step)
    ensures st.query == None <==> Fresh(c, Upper(ticker), now)
    ensures st.query != None ==> st.query == Some(Upper(ticker)) && st.result == Respond(reply, parse)
    ensures st.cache == c || (st.result.Returned? && st.result.price.Some? &&
                              st.cache == c[Upper(ticker) := Entry(now, st.result.price.value)])
  {
    var key := Upper(ticker);
    if Fresh(c, key, now) then
      Step(Returned(Some(c[key].price)), c, None)
    else
      var result := Respond(reply, parse);
      var written := Written(result, now);
      Step(result, if written.Some? then c[key := written.value] else c, Some(key))
  }

  /** A call is answered from the cache, without asking upstream and without
      changing the cache, exactly when the upper-cased ticker has an entry
      less than 60 seconds old; otherwise upstream is asked for the
      upper-cased ticker. */
  lemma HitExactlyWhenFresh(c: Cache, ticker: string, now: real, reply: Upstream, parse: string -> Option<real>)
    ensures var st := FetchStep(c, ticker, now, reply, parse);
      && (st.query == None <==> Upper(ticker) in c && now - c[Upper(ticker)].stamp < 60.0)
      && (st.query == None ==> st.result == Returned(Some(c[Upper(ticker)].price)) && st.cache == c)
      && (st.query != None ==> st.query == Some(Upper(ticker)) && st.result == Respond(reply, parse))
  {
  }

  /** An entry exactly 60 seconds old, or older, is not served. */
  lemma ExpiredEntryRefetched(c: Cache, ticker: string, now: real, reply: Upstream, parse: string -> Option<real>)
    requires Upper(ticker) in c && now >= c[Upper(ticker)].stamp + 60.0
    ensures FetchStep(c, ticker, now, reply, parse).query == Some(Upper(ticker))
  {
  }

  /** The cache is keyed case-insensitively: a ticker and its upper-cased
      form make the same call, so "aapl" and "AAPL" share one entry. */
  lemma CaseInsensitive(c: Cache, ticker: string, now: real, reply: Upstream, parse: string -> Option<real>)
    ensures FetchStep(c, ticker, now, reply, parse) == FetchStep(c, Upper(ticker), now, reply, parse)
  {
    UpperIdempotent(ticker);
  }

  /** Only the upper-cased ticker's entry can change, and it changes only to
      the price the call returns, stamped with the call's `now`; a call that
      raises or returns `None` leaves the cache as it was. */
  lemma OnlyOwnEntryWritten(c: Cache, ticker: string, now: real, reply: Upstream, parse: string -> Option<real>)
    ensures var st := FetchStep(c, ticker, now, reply, parse);
      && (forall k :: k != Upper(ticker) ==> (k in st.cache <==> k in c))
      && (forall k :: k != Upper(ticker) && k in c ==> st.cache[k] == c[k])
      && (st.result == Raised || st.result == Returned(None) ==> st.cache == c)
      && (st.cache != c ==> st.query.Some? && st.result.Returned? && st.result.price.Some? &&
                            st.cache == c[Upper(ticker) := Entry(now, st.result.price.value)])
      && (st.query.Some? && st.result.Returned? && st.result.price.Some? ==>
            Upper(ticker) in st.cache && st.cache[Upper(ticker)] == Entry(now, st.result.price.value))
  {
  }

  /** Whatever price a call returns is in the cache afterwards under the
      upper-cased ticker, so calling again at the same time with any spelling
      of the ticker is a hit that returns the same price and asks nothing. */
  lemma RepeatIsHit(c: Cache, ticker: string, again: string, now: real,
                    reply: Upstream, reply': Upstream, parse: string -> Option<real>)
    requires Upper(again) == Upper(ticker)
    requires FetchStep(c, ticker, now, reply, parse).result.Returned?
    requires FetchStep(c, ticker, now, reply, parse).result.price.Some?
    ensures var st := FetchStep(c, ticker, now, reply, parse);
      FetchStep(st.cache, again, now, reply', parse) == Step(st.result, st.cache, None)
  {
  }

  /** After a call that asked upstream and got a price at time `now`, a later
      call for the same upper-cased ticker at `later` is served from the cache
      exactly when `later - now < 60`: at t = 0 a fetch, at t = 5 the same
      price with no upstream call, at t = 60 or later a new fetch. */
  lemma FreshWindow(c: Cache, ticker: string, again: string, now: real, later: real,
                    reply: Upstream, reply': Upstream, parse: string -> Option<real>)
    requires Upper(again) == Upper(ticker)
    requires FetchStep(c, ticker, now, reply, parse).query.Some?
    requires FetchStep(c, ticker, now, reply, parse).result.Returned?
    requires FetchStep(c, ticker, now, reply, parse).result.price.Some?
    ensures var st := FetchStep(c, ticker, now, reply, parse);
      var st' := FetchStep(st.cache, again, later, reply', parse);
      && (st'.query == None <==> later - now < 60.0)
      && (later - now < 60.0 ==> st' == Step(st.result, st.cache, None))
  {
  }

  /** The process-wide cache. */
  class QuoteCache {
    var entries: Cache

    constructor ()
      ensures entries == map[]
    {
      entries := map[];
    }

    /** `fetch_alpha_price(ticker)`, with the clock read `now` and the upstream
        answer `reply` given; `query` is the symbol sent upstream, or `None`
        when the cache answered. */
    method Fetch(ticker: string, now: real, reply: Upstream, parse: string -> Option<real>)
      returns (result: Outcome, query: Option<string>)
      modifies this
      ensures Step(result, entries, query) == FetchStep(old(entries), ticker, now, reply, parse)
    {
      var key := Upper(ticker);
      if key in entries && now - entries[key].stamp < Ttl {
        return Returned(Some(entries[key].price)), None;
      }
      query := Some(key);
      result := Respond(reply, parse);
      if result.Returned? && result.price.Some? {
        entries := entries[key := Entry(now, result.price.value)];
      }
    }
  }

}
