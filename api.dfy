/**
 * The two price endpoints: `/stock/{ticker}`, which turns one fetch into a
 * reply, and `/batch`, which fetches every symbol of a comma-separated list
 * in turn and collects a map from upper-cased symbol to price or `None`, one
 * symbol's exception becoming `None` without stopping the loop.
 */
module Api {
  import opened Wrappers
  import opened Text
  import opened Quote
  import opened PriceCache

  /** What the single-symbol endpoint answers: the quote, the HTTP error it
      raises on purpose, or an exception it lets escape (a server error). */
  datatype StockReply =
    | Quoted(ticker: string, price: real)
    | HttpError(status: int, detail: string)
    | Unhandled

  /** `stock`'s answer for a fetch that ended with `result`: a price becomes
      `{ticker upper-cased, price}`, `None` becomes 503 "Price unavailable",
      an exception propagates. */
  function StockAnswer(ticker: string, result: Outcome): (r: StockReply)
    ensures r.Quoted? <==> result.Returned? && result.price.Some?
    ensures r.Quoted? ==> r.ticker == Upper(ticker) && NoLower(r.ticker) && r.price == result.price.value
    ensures r == HttpError(503, "Price unavailable") <==> result == Returned(None)
    ensures r == Unhandled <==> result == Raised
  {
    match result
    case Raised => Unhandled
    case Returned(None) => HttpError(503, "Price unavailable")
    case Returned(Some(p)) => Quoted(Upper(ticker), p)
  }

  /** The `/stock/{ticker}` handler. */
  method Stock(cache: QuoteCache, ticker: string, now: real, reply: Upstream, parse: string -> Option<real>)
    returns (r: StockReply)
    modifies cache
    ensures var st := FetchStep(old(cache.entries), ticker, now, reply, parse);
      r == StockAnswer(ticker, st.result) && cache.entries == st.cache
  {
    var result, _ := cache.Fetch(ticker, now, reply, parse);
    r := StockAnswer(ticker, result);
  }

  /** A fresh cached price is answered as a quote under the upper-cased
      ticker without asking upstream; an upstream answer without a usable
      price is answered 503 and caches nothing. */
  lemma StockOutcomes(c: Cache, ticker: string, now: real, reply: Upstream, parse: string -> Option<real>)
    ensures var st := FetchStep(c, ticker, now, reply, parse);
      && (Fresh(c, Upper(ticker), now) ==>
            StockAnswer(ticker, st.result) == Quoted(Upper(ticker), c[Upper(ticker)].price) && st.query == None)
      && (StockAnswer(ticker, st.result).HttpError? ==> st.cache == c && StockAnswer(ticker, st.result).status == 503)
  {
  }

  /** The value `batch` records for a symbol: the price or `None` it got, and
      `None` when the fetch raised. */
  function Recorded(result: Outcome): (p: Option<real>)
    ensures result == Raised ==> p == None
    ensures result.Returned? ==> p == result.price
  {
    match result
    case Raised => None
    case Returned(price) => price
  }

  /** The result map and the cache after `batch` has handled `toks` in order,
      starting from cache `c0`; the i-th fetch reads the clock `clock(i)` and
      sees the upstream answer `replies(i)`. */
  datatype Progress = Progress(out: map<string, Option<real>>, cache: Cache)

  function BatchSpec(c0: Cache, toks: seq<string>, clock: nat -> real, replies: nat -> Upstream,
                     parse: string -> Option<real>): (p: Progress)
    ensures |p.out| <= |toks|
    ensures toks != [] ==> Upper(toks[|toks| - 1]) in p.out
  {
    if toks == [] then Progress(map[], c0)
    else
      var i := |toks| - 1;
      var before := BatchSpec(c0, toks[..i], clock, replies, parse);
      var st := FetchStep(before.cache, toks[i], clock(i), replies(i), parse);
      Progress(before.out[Upper(toks[i]) := Recorded(st.result)], st.cache)
  }

  /** The fetch `batch` makes for the j-th token. */
  function StepAt(c0: Cache, toks: seq<string>, j: nat, clock: nat -> real, replies: nat -> Upstream,
                  parse: string -> Option<real>): Step
    requires j < |toks|
  {
    FetchStep(BatchSpec(c0, toks[..j], clock, replies, parse).cache, toks[j], clock(j), replies(j), parse)
  }

  /** The `/batch` handler. */
  method Batch(cache: QuoteCache, symbols: string, clock: nat -> real, replies: nat -> Upstream,
               parse: string -> Option<real>)
    returns (out: map<string, Option<real>>)
    modifies cache
    ensures Progress(out, cache.entries) == BatchSpec(old(cache.entries), Tokens(symbols), clock, replies, parse)
  {
    out := map[];
    var toks := Tokens(symbols);
    ghost var c0 := cache.entries;
    for i := 0 to |toks|
      invariant Progress(out, cache.entries) == BatchSpec(c0, toks[..i], clock, replies, parse)
    {
      var t := toks[i];
      BatchSpecStep(c0, toks, i, clock, replies, parse);
      var result, _ := cache.Fetch(t, clock(i), replies(i), parse);
      match result
      case Raised =>
        out := out[Upper(t) := None];
      case Returned(p) =>
        out := out[Upper(t) := p];
    }
    assert toks[..|toks|] == toks;
  }

  /** One more token: its fetch runs on the cache left by the earlier ones,
      and its result is stored under its upper-cased key. */
  lemma BatchSpecStep(c0: Cache, toks: seq<string>, i: nat, clock: nat -> real, replies: nat -> Upstream,
                      parse: string -> Option<real>)
    requires i < |toks|
    ensures var before := BatchSpec(c0, toks[..i], clock, replies, parse);
      var st := FetchStep(before.cache, toks[i], clock(i), replies(i), parse);
      BatchSpec(c0, toks[..i + 1], clock, replies, parse) ==
        Progress(before.out[Upper(toks[i]) := Recorded(st.result)], st.cache)
  {
    assert toks[..i + 1][..i] == toks[..i];
  }

  /** The keys after one more token are the earlier keys and that token's. */
  lemma BatchKeysStep(c0: Cache, toks: seq<string>, clock: nat -> real, replies: nat -> Upstream,
                      parse: string -> Option<real>)
    requires toks != []
    ensures BatchSpec(c0, toks, clock, replies, parse).out.Keys ==
            BatchSpec(c0, toks[..|toks| - 1], clock, replies, parse).out.Keys + {Upper(toks[|toks| - 1])}
  {
  }

  /** The result map has exactly one key per distinct upper-cased token: no
      requested symbol is ever missing, whatever failed. */
  lemma {:induction false} BatchComplete(c0: Cache, toks: seq<string>, clock: nat -> real,
                                         replies: nat -> Upstream, parse: string -> Option<real>)
    ensures forall k :: k in BatchSpec(c0, toks, clock, replies, parse).out <==>
                        exists j :: 0 <= j < |toks| && Upper(toks[j]) == k
  {
    if toks != [] {
      var pre := toks[..|toks| - 1];
      BatchComplete(c0, pre, clock, replies, parse);
      BatchKeysStep(c0, toks, clock, replies, parse);
      KeysExtend(toks, pre, BatchSpec(c0, pre, clock, replies, parse).out.Keys,
                 BatchSpec(c0, toks, clock, replies, parse).out.Keys);
    }
  }

  lemma KeysExtend(toks: seq<string>, pre: seq<string>, preKeys: set<string>, keys: set<string>)
    requires toks != [] && pre == toks[..|toks| - 1]
    requires keys == preKeys + {Upper(toks[|toks| - 1])}
    requires forall k :: k in preKeys <==> exists j :: 0 <= j < |pre| && Upper(pre[j]) == k
    ensures forall k :: k in keys <==> exists j :: 0 <= j < |toks| && Upper(toks[j]) == k
  {
    forall k ensures k in keys <==> exists j :: 0 <= j < |toks| && Upper(toks[j]) == k {
      if exists j :: 0 <= j < |toks| && Upper(toks[j]) == k {
        var j :| 0 <= j < |toks| && Upper(toks[j]) == k;
        if j < |pre| { assert pre[j] == toks[j]; }
      }
      if k in preKeys {
        var j :| 0 <= j < |pre| && Upper(pre[j]) == k;
        assert toks[j] == pre[j];
      }
    }
  }

  /** A symbol's value in the result map comes from its last occurrence in the
      list: it is what that fetch returned, or `None` if it raised. */
  lemma {:induction false} LastOccurrenceWins(c0: Cache, toks: seq<string>, j: nat, clock: nat -> real,
                                              replies: nat -> Upstream, parse: string -> Option<real>)
    requires j < |toks|
    requires forall m :: j < m < |toks| ==> Upper(toks[m]) != Upper(toks[j])
    ensures Upper(toks[j]) in BatchSpec(c0, toks, clock, replies, parse).out
    ensures BatchSpec(c0, toks, clock, replies, parse).out[Upper(toks[j])] ==
            Recorded(StepAt(c0, toks, j, clock, replies, parse).result)
  {
    var i := |toks| - 1;
    var pre := toks[..i];
    if j < i {
      assert pre[..j] == toks[..j];
      assert pre[j] == toks[j];
      forall m | j < m < |pre| ensures Upper(pre[m]) != Upper(pre[j]) {
        assert pre[m] == toks[m];
      }
      LastOccurrenceWins(c0, pre, j, clock, replies, parse);
    }
  }

  /** A symbol whose fetch raises is recorded as `None`, the cache is as it
      was before that fetch, and the remaining symbols are still handled. */
  lemma FailureIsolated(c0: Cache, toks: seq<string>, j: nat, clock: nat -> real,
                        replies: nat -> Upstream, parse: string -> Option<real>)
    requires j < |toks|
    requires StepAt(c0, toks, j, clock, replies, parse).result == Raised
    ensures StepAt(c0, toks, j, clock, replies, parse).cache == BatchSpec(c0, toks[..j], clock, replies, parse).cache
    ensures (forall m :: j < m < |toks| ==> Upper(toks[m]) != Upper(toks[j])) ==>
              Upper(toks[j]) in BatchSpec(c0, toks, clock, replies, parse).out &&
              BatchSpec(c0, toks, clock, replies, parse).out[Upper(toks[j])] == None
    ensures forall m :: j < m < |toks| ==> Upper(toks[m]) in BatchSpec(c0, toks, clock, replies, parse).out
  {
    BatchComplete(c0, toks, clock, replies, parse);
    if forall m :: j < m < |toks| ==> Upper(toks[m]) != Upper(toks[j]) {
      LastOccurrenceWins(c0, toks, j, clock, replies, parse);
    }
  }

  /** A list of nothing but commas and whitespace, the empty string included,
      gives an empty map and leaves the cache alone. */
  lemma BlankBatch(c0: Cache, symbols: string, clock: nat -> real, replies: nat -> Upstream,
                   parse: string -> Option<real>)
    requires OnlySeparators(symbols)
    ensures BatchSpec(c0, Tokens(symbols), clock, replies, parse) == Progress(map[], c0)
  {
    TokensEmpty(symbols);
  }

}
