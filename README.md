# Stock price service: cache, quote extraction and batch endpoint

The service (`main.py`) answers price requests for ticker symbols by asking
Alpha Vantage's GLOBAL_QUOTE endpoint. It keeps a small in-memory cache in
front of that upstream. A price fetched less than 60 seconds ago is served
again without a request. The `/batch` endpoint resolves a comma-separated list
of symbols one after the other into a map from upper-cased symbol to price or
null.

This project models that core in Dafny:

- `text.dfy` (module `Text`): ASCII `str.upper()`, `str.strip()` and
  `str.split(",")`, and the batch token list built from them.
- `quote.dfy` (module `Quote`): the decoded JSON body, Python truthiness, and
  the `or`-chain that picks the quote object and the price field.
- `cache.dfy` (module `PriceCache`): `fetch_alpha_price` as a pure step
  function `FetchStep` and as the method `QuoteCache.Fetch`, which updates
  the cache map in place. The method is proved equal to the step function.
  The lemmas state the cache properties against the step function.
- `api.dfy` (module `Api`): the `/stock/{ticker}` answer and the `/batch`
  loop. The loop is a method proved against `BatchSpec`, a fold of
  `FetchStep` over the tokens.
- `wrappers.dfy` (module `Wrappers`): `Option`, standing for Python's `None`.

The environment is turned into inputs:

- the clock read is a parameter `now` (for the batch, `clock(i)` for the i-th fetch);
- the upstream's answer is a parameter `reply` (for the batch, `replies(i)`), either `Failed` or a decoded JSON body;
- Python's `float()` on a string is a parameter `parse: string -> Option<real>`.

Each call also returns `query`: the symbol the call would send upstream, or
`None` when the cache answered. This makes "no upstream call" visible.

What the code does not do, and so the model does not either:

- The code has one provider and no rate gate, no retry or backoff, no
  fallback chain, no stale-cache reads and no in-flight deduplication.
- The code does not reject zero or negative prices; any parsed value is
  returned and cached.
- The single-symbol answer holds only `ticker` and `price`, with no `cached`
  or `source` field.
- An exception escaping `fetch_alpha_price` in `/stock` is an unhandled
  server error, not a 503.

## Model

| member | source | states |
|---|---|---|
| Text.Upper | main.py:25 | `ticker.upper()` keeps the length and maps each character to its ASCII capital; the result has no lower-case letter |
| Text.UpperIdempotent | main.py:25 | upper-casing an upper-cased key changes nothing, so the stored key is its own key |
| Text.SkipLeading | main.py:65 | the scan for the start of `s.strip()` stops at the first non-space at or after its start, or at the end, having passed only whitespace |
| Text.SkipTrailing | main.py:65 | the scan for the end of `s.strip()` stops after the last non-space, having passed only whitespace, and never goes below the start |
| Text.Strip | main.py:65 | `s.strip()` occurs in `s` with only whitespace before and after it, neither starts nor ends with whitespace, and is empty exactly when `s` is all whitespace |
| Text.StripNoComma | main.py:65 | stripping adds no character, so a piece without a comma strips to a token without a comma |
| Text.Split | main.py:65 | `symbols.split(",")` is never empty, no piece holds a comma, and joining the pieces with commas gives the input back |
| Text.SplitJoin | main.py:65 | splitting undoes joining when no piece holds a comma |
| Text.SplitNoComma | main.py:65 | a string without a comma splits into itself alone |
| Text.SplitAtComma | main.py:65 | splitting `a + "," + b` gives the pieces of `a` followed by those of `b` |
| Text.Clean | main.py:65 | the filter `if s.strip()` keeps at most one token per piece, each non-empty and without surrounding whitespace |
| Text.CleanAppend | main.py:65 | stripping and filtering distributes over concatenation, keeping order |
| Text.CleanFromPieces | main.py:65 | tokens taken from comma-free pieces are comma-free |
| Text.Tokens | main.py:65 | every batch token is non-empty, has no comma and no leading or trailing whitespace |
| Text.TokensAtComma | main.py:65 | tokens keep input order: the tokens of `a + "," + b` are those of `a` followed by those of `b` |
| Text.TokenOfPiece | main.py:65 | a comma-free piece gives exactly its stripped text as one token, or nothing when it is all whitespace |
| Text.PlainSymbolToken | main.py:65 | a symbol without comma or surrounding whitespace is exactly one token, itself |
| Text.CleanEmpty | main.py:65 | the filter leaves nothing exactly when every piece is all whitespace |
| Text.SplitBlank | main.py:65 | every piece is all whitespace exactly when the input holds only whitespace and commas |
| Text.TokensEmpty | main.py:65 | there are no tokens exactly when the input is nothing but whitespace and commas, the empty string included |
| Quote.Truthy | main.py:39-42 | a JSON value is false in an `or` or an `if` exactly when it is `None`, `False`, zero, `""`, `[]` or `{}` |
| Quote.ToFloat | main.py:41-44 | `float(v)` under `except Exception` reads a string through `parse` and gives `None` exactly for an unparseable string, `None`, a list or a dict |
| Quote.QuoteObject | main.py:39 | the quote object is "Global Quote" unless missing or empty, then "GlobalQuote" unless missing or empty, else `{}` |
| Quote.PriceField | main.py:40 | the price field is "05. price" unless missing or empty, else whatever "price" holds |
| Quote.Extract | main.py:39-44 | extraction raises exactly when `.get` meets a non-dict (the body, or a non-empty non-dict quote object); a falsy price field gives `None`; a truthy one gives its conversion, a failed conversion `None` |
| Quote.Respond | main.py:34-44 | a failed round trip raises; a decoded body is extracted |
| Quote.ShapedNeverRaises | main.py:39-44 | on a dict of dicts of strings extraction never raises, and gives `None` unless a non-empty price string was found, then that string's parse |
| Quote.StandardQuote | main.py:39-44 | `{"Global Quote": {"05. price": text}}` with non-empty `text` gives the parse of `text`, whatever else either dict holds |
| Quote.NoQuoteIsNone | main.py:39-44 | a body with neither quote key (a throttling note, an error message, `{}`) gives `None` and does not raise |
| Quote.GlobalQuoteFirst | main.py:39 | a non-empty "Global Quote" decides the result; "GlobalQuote" is never looked at |
| Quote.AltQuoteSecond | main.py:39 | with "Global Quote" missing or empty, the result is what "GlobalQuote" alone gives |
| Quote.PriceKeyFirst | main.py:40 | a non-empty "05. price" decides the price field; "price" is never looked at |
| Quote.BadPriceIsNone | main.py:40-44 | a missing, empty or unparseable price string gives `None`, not an exception |
| PriceCache.FetchStep | main.py:22-48 | one call asks upstream (for the upper-cased ticker, returning what the reply gives) exactly when the entry is not fresh; the cache either stays as it was or gains the returned price stamped `now` under that key |
| PriceCache.HitExactlyWhenFresh | main.py:24-27 | no upstream call, the cached price returned and the cache unchanged exactly when the upper-cased ticker has an entry less than 60 s old; otherwise upstream is asked for the upper-cased ticker |
| PriceCache.ExpiredEntryRefetched | main.py:26 | an entry 60 s old or older is ignored and upstream is asked |
| PriceCache.CaseInsensitive | main.py:25-47 | a ticker and its upper-cased form make the same call, so "aapl" and "AAPL" share one entry |
| PriceCache.OnlyOwnEntryWritten | main.py:46-47 | no key but the upper-cased ticker changes; the cache changes only by storing the returned price stamped `now`; a call that raises or returns `None` leaves the cache as it was |
| PriceCache.RepeatIsHit | main.py:24-48 | the price a call returns is cached, so a repeat call at the same time with any spelling of the ticker is a hit returning the same price |
| PriceCache.FreshWindow | main.py:24-47 | after a fetch at `now`, a later call is served from the cache exactly when less than 60 s have passed, and then returns the same price |
| PriceCache.QuoteCache.constructor | main.py:20 | the cache starts empty |
| PriceCache.QuoteCache.Fetch | main.py:22-48 | the returned value, the upstream query and the new cache are those of `FetchStep` on the old cache |
| Api.StockAnswer | main.py:56-60 | a price becomes `{ticker upper-cased, price}`, `None` becomes 503 "Price unavailable", an exception stays unhandled; each case exactly when its fetch outcome occurs |
| Api.Stock | main.py:54-60 | the handler's answer is `StockAnswer` of the fetch, and the cache is the fetch's new cache |
| Api.StockOutcomes | main.py:54-60 | a fresh cached price is answered as a quote without an upstream call; a 503 leaves the cache unchanged |
| Api.Recorded | main.py:66-73 | a symbol whose fetch raised is recorded as `None`, otherwise as what the fetch returned |
| Api.BatchSpec | main.py:64-73 | the loop over the tokens leaves at most one key per token, and the last token's upper-cased key is always present |
| Api.Batch | main.py:62-74 | the result map and the new cache are `BatchSpec` of the tokens: each token fetched in order, its result stored under its upper-cased key |
| Api.BatchComplete | main.py:64-74 | the result map's keys are exactly the upper-cased tokens, whatever failed |
| Api.LastOccurrenceWins | main.py:64-73 | a key's value comes from its last token: what that fetch returned, or `None` if it raised |
| Api.FailureIsolated | main.py:66-73 | a raising fetch leaves the cache as it was, its symbol is recorded as `None`, and every later symbol is still in the map |
| Api.BlankBatch | main.py:64-65 | a list of only commas and whitespace gives an empty map and leaves the cache alone |

## Left out

- The web framework wiring, the CORS middleware and the root endpoint (main.py:9-17, main.py:50-52): no logic.
- The HTTP round trip (main.py:34-37): the request, `raise_for_status()` and `r.json()` are replaced by the `reply` input. `Failed` stands for every exception they raise. The query parameters other than the symbol (function name, API key) are not modelled.
- `time.time()` (main.py:24): the clock is the `now` input.
- `float()` (main.py:42): strings are converted by the `parse` input. Prices are reals, so NaN, infinities and binary rounding are not represented. `float()` of a JSON number is modelled as that number, and of `true` as 1.0. In the source, `float()` of a JSON integer beyond the float range raises `OverflowError` and so gives `None`; the model gives that number.
- The API key from the environment (main.py:6): configuration.
- `await httpx.AsyncClient().aclose()` and `time.sleep(0.5)` (main.py:70-71): pacing, assumed not to raise. `async`/`await` is modelled as sequential calls, so interleaving of concurrent requests on the shared cache is not captured.
- Api.Batch: both pacing lines sit inside the loop's `try` (main.py:66-73), after the result is stored. If either raised, for example when the HTTP client cannot be built, the source would overwrite that symbol's recorded value with `None`. A price just fetched would still stay cached. The model always records the fetch's own outcome.
- Text.Upper: ASCII only; Python's `str.upper()` on other characters (which can change a string's length, as for "ß") is not modelled.
- Text.Strip: ASCII whitespace only (codes 9-13 and 28-32); Python's other Unicode whitespace is not stripped by the model.
- JSON objects are maps, so a body with duplicate keys is represented by its decoded dict only.
- The `/batch` result map (main.py:64-74) is a Dafny map with no key order; Python's dict keeps first-insertion order, which shows in the JSON reply.
