/** The handler and the firm quotes it remembers. */
module RateHandler {
  import opened Wrappers
  import opened Rate

  datatype Quote = Quote(id: string, sellAsset: string, buyAsset: string, rate: Rate, expiresAt: int)

  datatype Response = Indicative(rate: Rate) | Firm(quote: Quote)

  /** One request together with what the world contributed: the oracle's price, the random id and
      the clock. */
  datatype Call = Call(request: Request, oracle: Option<real>, id: string, now: int)

  function Reply(c: Call): Result<Response, Error> {
    var rate :- RateFor(c.request, c.oracle);
    if c.request.kind == "indicative" then
      Ok(Indicative(rate))
    else
      Ok(Firm(Quote(c.id, c.request.sellAsset, c.request.buyAsset, rate, c.now + QUOTE_LIFE)))
  }

  predicate IsFirm(c: Call) { Reply(c).Ok? && Reply(c).value.Firm? }

  function AfterCall(quotes: map<string, Quote>, c: Call): map<string, Quote> {
    if IsFirm(c) then quotes[c.id := Reply(c).value.quote] else quotes
  }

  function QuotesAfter(calls: seq<Call>): map<string, Quote> {
    if calls == [] then map[] else AfterCall(QuotesAfter(calls[..|calls| - 1]), calls[|calls| - 1])
  }

  /** The last firm answer given under an id. */
  predicate LastFirm(calls: seq<Call>, id: string, i: int) {
    && 0 <= i < |calls| && IsFirm(calls[i]) && calls[i].id == id
    && forall j :: i < j < |calls| && IsFirm(calls[j]) ==> calls[j].id != id
  }

  /** A quote is on record exactly when a firm answer was given under its id, and it is the last one. */
  lemma {:induction false} OnRecordIff(calls: seq<Call>, id: string, q: Quote)
    ensures (id in QuotesAfter(calls) && QuotesAfter(calls)[id] == q) <==>
            exists i :: LastFirm(calls, id, i) && Reply(calls[i]) == Ok(Firm(q))
  {
    hide Reply;
    if calls != [] {
      var init, last := calls[..|calls| - 1], calls[|calls| - 1];
      OnRecordIff(init, id, q);
      if IsFirm(last) && last.id == id {
        assert LastFirm(calls, id, |calls| - 1);
      } else {
        forall i ensures LastFirm(init, id, i) <==> LastFirm(calls, id, i) {
        }
      }
    }
  }

  /** As long as no id is drawn twice, every firm answer stays on record word for word. */
  lemma FirmAnswersKept(calls: seq<Call>, i: nat)
    requires forall j, k :: 0 <= j < k < |calls| ==> calls[j].id != calls[k].id
    requires i < |calls|
    ensures IsFirm(calls[i]) ==>
              calls[i].id in QuotesAfter(calls) && QuotesAfter(calls)[calls[i].id] == Reply(calls[i]).value.quote
  {
    if IsFirm(calls[i]) {
      assert LastFirm(calls, calls[i].id, i);
      OnRecordIff(calls, calls[i].id, Reply(calls[i]).value.quote);
    }
  }

  /** Every quote on record carries two amounts and the price derived from them. */
  lemma RecordedPrice(calls: seq<Call>, id: string)
    requires id in QuotesAfter(calls)
    ensures var q := QuotesAfter(calls)[id];
            q.id == id && q.rate.price == PriceOf(q.rate.sellAmount, q.rate.buyAmount)
  {
    var q := QuotesAfter(calls)[id];
    OnRecordIff(calls, id, q);
    var i :| LastFirm(calls, id, i) && Reply(calls[i]) == Ok(Firm(q));
    hide QuotesAfter;
    Answer(calls[i].request, calls[i].oracle);
  }

  class Handler {
    var quotes: map<string, Quote>

    constructor ()
      ensures quotes == map[]
    {
      quotes := map[];
    }

    method Handle(c: Call) returns (r: Result<Response, Error>)
      modifies this
      ensures r == Reply(c)
      ensures quotes == AfterCall(old(quotes), c)
    {
      var rate :- RateFor(c.request, c.oracle);
      if c.request.kind == "indicative" {
        return Ok(Indicative(rate));
      }
      var expiresAt := c.now + 24 * 60 * 60 * 1000;
      var quote := Quote(c.id, c.request.sellAsset, c.request.buyAsset, rate, expiresAt);
      quotes := quotes[quote.id := quote];
      return Ok(Firm(quote));
    }

    function GetQuote(id: string): (q: Option<Quote>)
      reads this
      ensures q.Some? <==> id in quotes
      ensures q.Some? ==> quotes[id] == q.value
    {
      if id in quotes then Some(quotes[id]) else None
    }
  }

  /** What a quote on record says: the assets of its request, the rate answered to it, and an expiry 24
      hours after it. */
  lemma QuoteSays(calls: seq<Call>, id: string) returns (i: nat)
    requires id in QuotesAfter(calls)
    ensures var q := QuotesAfter(calls)[id];
            && LastFirm(calls, id, i) && calls[i].request.kind == "firm"
            && q.id == id && q.sellAsset == calls[i].request.sellAsset && q.buyAsset == calls[i].request.buyAsset
            && RateFor(calls[i].request, calls[i].oracle) == Ok(q.rate) && q.expiresAt == calls[i].now + 86_400_000
  {
    var q := QuotesAfter(calls)[id];
    OnRecordIff(calls, id, q);
    i :| LastFirm(calls, id, i) && Reply(calls[i]) == Ok(Firm(q));
    hide QuotesAfter;
    AnsweredIff(calls[i].request, calls[i].oracle);
    hide RateFor;
  }
}
