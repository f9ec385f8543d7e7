/**
 * Pulling a price out of the Alpha Vantage GLOBAL_QUOTE response. The decoded
 * body is a JSON value; the chain of Python `or`s that chooses the quote object
 * and the price field follows Python truthiness, and a call of `.get` on
 * something that is not a dict raises.
 */
module Quote {
  import opened Wrappers

  /** A decoded JSON value, as `r.json()` returns it. */
  datatype Json =
    | Null
    | Bool(b: bool)
    | Num(n: real)
    | Str(s: string)
    | Arr(items: seq<Json>)
    | Obj(fields: map<string, Json>)

  /** Python truthiness: `None`, `False`, zero, and empty strings, lists and
      dicts are false. */
  predicate Truthy(v: Json): (b: bool)
    ensures !b <==> v in {Null, Bool(false), Num(0.0), Str([]), Arr([]), Obj(map[])}
  {
    match v
    case Null => false
    case Bool(b) => b
    case Num(n) => n != 0.0
    case Str(s) => s != []
    case Arr(a) => a != []
    case Obj(m) => m != map[]
  }

  /** `d.get(key)`: an absent key reads as `None`. */
  function Get(m: map<string, Json>, key: string): Json {
    if key in m then m[key] else Null
  }

  /** Python's `a or b`. */
  function Or(a: Json, b: Json): Json {
    if Truthy(a) then a else b
  }

  /** Python's `float(v)` under `except Exception: None`. How a string is read
      as a number is the `parse` parameter. */
  function ToFloat(v: Json, parse: string -> Option<real>): (p: Option<real>)
    ensures v.Str? ==> p == parse(v.s)
    ensures v.Num? ==> p == Some(v.n)
    ensures v.Bool? ==> p == Some(if v.b then 1.0 else 0.0)
    ensures p == None <==> (v.Str? && parse(v.s) == None) || v.Null? || v.Arr? || v.Obj?
  {
    match v
    case Str(s) => parse(s)
    case Num(n) => Some(n)
    case Bool(b) => Some(if b then 1.0 else 0.0)
    case _ => None
  }

  /** What `fetch_alpha_price` ends with: an exception, or a price or `None`. */
  datatype Outcome = Raised | Returned(price: Option<real>)

  /** What the upstream request gives back: a failure of the round trip
      (transport error, an HTTP error status, a body that is not JSON), or the
      decoded body. */
  datatype Upstream = Failed | Body(data: Json)

  const GlobalQuote: string := "Global Quote"
  const GlobalQuoteAlt: string := "GlobalQuote"
  const PriceKey: string := "05. price"
  const PriceKeyAlt: string := "price"

  /** The quote object: "Global Quote" unless it is missing or empty, then
      "GlobalQuote" unless it is missing or empty, else an empty dict. */
  function QuoteObject(data: map<string, Json>): (q: Json)
    ensures Truthy(Get(data, GlobalQuote)) ==> q == data[GlobalQuote]
    ensures !Truthy(Get(data, GlobalQuote)) && Truthy(Get(data, GlobalQuoteAlt)) ==> q == data[GlobalQuoteAlt]
    ensures !Truthy(Get(data, GlobalQuote)) && !Truthy(Get(data, GlobalQuoteAlt)) ==> q == Obj(map[])
    ensures Truthy(q) || q == Obj(map[])
  {
    Or(Or(Get(data, GlobalQuote), Get(data, GlobalQuoteAlt)), Obj(map[]))
  }

  /** The price field: "05. price" unless it is missing or empty, else
      whatever "price" holds. */
  function PriceField(q: map<string, Json>): (v: Json)
    ensures Truthy(Get(q, PriceKey)) ==> v == q[PriceKey]
    ensures !Truthy(Get(q, PriceKey)) ==> v == Get(q, PriceKeyAlt)
  {
    Or(Get(q, PriceKey), Get(q, PriceKeyAlt))
  }

  /** Extraction from a decoded body. It raises only where Python's `.get` is
      applied to something that is not a dict: the body itself, or a chosen
      quote object that is a non-empty value of another kind. A falsy price
      field gives `None`; otherwise the field is converted, and a failed
      conversion also gives `None`. */
  function Extract(data: Json, parse: string -> Option<real>): (r: Outcome)
    ensures r == Raised <==> !data.Obj? || !QuoteObject(data.fields).Obj?
    ensures r.Returned? && !Truthy(PriceField(QuoteObject(data.fields).fields)) ==> r.price == None
    ensures r.Returned? && Truthy(PriceField(QuoteObject(data.fields).fields)) ==>
              r.price == ToFloat(PriceField(QuoteObject(data.fields).fields), parse)
  {
    if !data.Obj? then Raised
    else
      var q := QuoteObject(data.fields);
      if !q.Obj? then Raised
      else
        var v := PriceField(q.fields);
        Returned(if Truthy(v) then ToFloat(v, parse) else None)
  }

  /** The whole of `fetch_alpha_price` after a cache miss, up to the cache
      write: a failed round trip raises, a body is extracted. */
  function Respond(reply: Upstream, parse: string -> Option<real>): (r: Outcome)
    ensures reply == Failed ==> r == Raised
    ensures reply.Body? ==> r == Extract(reply.data, parse)
  {
    match reply
    case Failed => Raised
    case Body(data) => Extract(data, parse)
  }

  /** The shape the upstream documents: a dict of dicts of strings. */
  predicate Shaped(m: map<string, Json>) {
    forall k :: k in m ==> m[k].Obj? && StringFields(m[k].fields)
  }

  predicate StringFields(q: map<string, Json>) {
    forall f :: f in q ==> q[f].Str?
  }

  /** On a body of the documented shape extraction never raises, and the price
      is `None` exactly when no non-empty price string was found or the one
      found does not parse. */
  lemma ShapedNeverRaises(m: map<string, Json>, parse: string -> Option<real>)
    requires Shaped(m)
    ensures Extract(Obj(m), parse).Returned?
    ensures var v := PriceField(QuoteObject(m).fields);
      Extract(Obj(m), parse).price ==
        (if v.Str? && v.s != [] then parse(v.s) else None)
  {
    var q := QuoteObject(m);
    assert q.Obj?;
    assert StringFields(q.fields);
    var v := PriceField(q.fields);
    assert v == Null || v.Str?;
  }

  /** The usual answer `{"Global Quote": {"05. price": "..."}}` yields the
      parse of that string, whatever else either dict holds. */
  lemma StandardQuote(m: map<string, Json>, q: map<string, Json>, text: string, parse: string -> Option<real>)
    requires GlobalQuote in m && m[GlobalQuote] == Obj(q)
    requires PriceKey in q && q[PriceKey] == Str(text) && text != []
    ensures Extract(Obj(m), parse) == Returned(parse(text))
  {
    assert Truthy(Obj(q));
  }

  /** A body without either quote key (the throttling "Note" or "Information"
      answer, an "Error Message", an empty dict) yields `None`; it does not
      raise. */
  lemma NoQuoteIsNone(m: map<string, Json>, parse: string -> Option<real>)
    requires GlobalQuote !in m && GlobalQuoteAlt !in m
    ensures Extract(Obj(m), parse) == Returned(None)
  {
  }

  /** A non-empty "Global Quote" decides the result: "GlobalQuote" is then
      never looked at. */
  lemma GlobalQuoteFirst(m: map<string, Json>, alt: Json, parse: string -> Option<real>)
    requires Truthy(Get(m, GlobalQuote))
    ensures Extract(Obj(m[GlobalQuoteAlt := alt]), parse) == Extract(Obj(m), parse)
  {
    assert GlobalQuote != GlobalQuoteAlt;
    assert Get(m[GlobalQuoteAlt := alt], GlobalQuote) == Get(m, GlobalQuote);
  }

  /** A missing or empty "Global Quote" falls through to "GlobalQuote": the
      result is what a body holding "GlobalQuote" alone would give. */
  lemma AltQuoteSecond(m: map<string, Json>, parse: string -> Option<real>)
    requires !Truthy(Get(m, GlobalQuote))
    ensures Extract(Obj(m), parse) == Extract(Obj(map[GlobalQuoteAlt := Get(m, GlobalQuoteAlt)]), parse)
  {
    var m' := map[GlobalQuoteAlt := Get(m, GlobalQuoteAlt)];
    assert GlobalQuote != GlobalQuoteAlt;
    assert Get(m', GlobalQuote) == Null;
  }

  /** A non-empty "05. price" decides the price: "price" is then never looked
      at. */
  lemma PriceKeyFirst(q: map<string, Json>, alt: Json, parse: string -> Option<real>)
    requires Truthy(Get(q, PriceKey))
    ensures PriceField(q[PriceKeyAlt := alt]) == PriceField(q)
  {
    assert PriceKey != PriceKeyAlt;
    assert Get(q[PriceKeyAlt := alt], PriceKey) == Get(q, PriceKey);
  }

  /** A price string that is missing, empty or rejected by the parser gives
      `None`, never an exception. */
  lemma BadPriceIsNone(m: map<string, Json>, q: map<string, Json>, parse: string -> Option<real>)
    requires QuoteObject(m) == Obj(q)
    requires PriceField(q) == Null || PriceField(q) == Str([]) ||
             (PriceField(q).Str? && parse(PriceField(q).s) == None)
    ensures Extract(Obj(m), parse) == Returned(None)
  {
  }

}
