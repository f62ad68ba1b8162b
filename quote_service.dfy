/**
 * The quote-request store (src/services/api/quoteService.js): the submitted quote requests
 * in memory, with lookup by Id and create/update/delete. `create` stamps each new request
 * with the current time, which the caller supplies here as an ISO-8601 string.
 */
module QuoteService {
  import opened Wrappers
  import opened JsValue
  import opened EntityTable

  const NotFound := "Quote request not found"

  /** `{...quoteData, Id: id, timestamp: now}`: the two stamped properties override the data's. */
  function Stamped(quoteData: Record, id: int, now: string): (q: Record)
    ensures q.Keys == quoteData.Keys + {"Id", "timestamp"}
    ensures HasId(q, id) && q["timestamp"] == Str(now)
    ensures forall k :: k in quoteData && k != "Id" && k != "timestamp" ==> q[k] == quoteData[k]
  {
    quoteData["Id" := Num(id)]["timestamp" := Str(now)]
  }

  class QuoteService {
    var quotes: seq<Record>

    /** Every quote carries a numeric Id, which `create` takes the maximum of. */
    ghost predicate Valid()
      reads this
    {
      AllNumericIds(quotes)
    }

    /** The store seeded with the fixture (loading it is not modelled). */
    constructor (seed: seq<Record>)
      requires AllNumericIds(seed)
      ensures Valid() && quotes == seed
    {
      quotes := seed;
    }

    /** `getAll`: a copy of the whole table. */
    function GetAll(): (r: seq<Record>)
      reads this
      ensures r == quotes
    {
      quotes
    }

    /** `getById`: the first quote with that Id, or "Quote request not found". */
    function GetById(id: int): (r: Result<Record>)
      reads this
      ensures r.Failure? <==> forall i :: 0 <= i < |quotes| ==> !HasId(quotes[i], id)
      ensures r.Failure? ==> r.error == NotFound
      ensures r.Success? ==> exists i :: 0 <= i < |quotes| && quotes[i] == r.value && HasId(r.value, id)
                                         && forall j :: 0 <= j < i ==> !HasId(quotes[j], id)
    {
      var i := FindIndex(quotes, id);
      if i < 0 then Failure(NotFound) else Success(quotes[i])
    }

    /** `create`: the request with the next Id and the timestamp `now`, appended at the end. */
    method Create(quoteData: Record, now: string) returns (created: Record)
      requires Valid()
      modifies this
      ensures Valid()
      ensures created == Stamped(quoteData, NextId(old(quotes)), now)
      ensures quotes == old(quotes) + [created]
    {
      created := Stamped(quoteData, NextId(quotes), now);
      quotes := quotes + [created];
    }

    /** `update`: the patch merged over the first quote with that Id, its Id kept. */
    method Update(id: int, patch: Record) returns (r: Result<Record>)
      requires Valid()
      modifies this
      ensures Valid()
      ensures var i := FindIndex(old(quotes), id);
              if i < 0 then r == Failure(NotFound) && quotes == old(quotes)
              else r == Success(Merge(old(quotes)[i], patch)) && quotes == old(quotes)[i := r.value]
    {
      var i := FindIndex(quotes, id);
      if i < 0 {
        r := Failure(NotFound);
        return;
      }
      var updated := Merge(quotes[i], patch);
      quotes := quotes[i := updated];
      r := Success(updated);
    }

    /** `delete`: the first quote with that Id spliced out and returned. */
    method Delete(id: int) returns (r: Result<Record>)
      requires Valid()
      modifies this
      ensures Valid()
      ensures var i := FindIndex(old(quotes), id);
              if i < 0 then r == Failure(NotFound) && quotes == old(quotes)
              else r == Success(old(quotes)[i]) && quotes == RemoveAt(old(quotes), i)
    {
      var i := FindIndex(quotes, id);
      if i < 0 {
        r := Failure(NotFound);
        return;
      }
      r := Success(quotes[i]);
      DeleteKeepsNumericIds(quotes, i);
      quotes := RemoveAt(quotes, i);
    }

    /** `submitQuote`: exactly `create`. */
    method SubmitQuote(quoteData: Record, now: string) returns (created: Record)
      requires Valid()
      modifies this
      ensures Valid()
      ensures created == Stamped(quoteData, NextId(old(quotes)), now)
      ensures quotes == old(quotes) + [created]
    {
      created := Create(quoteData, now);
    }
  }
}
