/**
 * The product store (src/services/api/productService.js): the catalog records in memory,
 * with lookup by Id, exact category filtering, case-insensitive text search and
 * create/update/delete. The simulated latency is not modelled: every call is atomic.
 */
module ProductService {
  import opened Wrappers
  import opened JsValue
  import opened JsString
  import opened Sequences
  import opened EntityTable

  const NotFound := "Product not found"

  /** `p.category === category`. */
  predicate HasCategory(p: Record, category: string) {
    Get(p, "category") == Some(Str(category))
  }

  function CategoryIs(category: string): (keep: Record -> bool)
    ensures forall p :: keep(p) == HasCategory(p, category)
  {
    p => HasCategory(p, category)
  }

  /** `p[key].toLowerCase()`; `None` when the property is not a string, where the call throws. */
  function LowerField(p: Record, key: string): (r: Option<string>)
    ensures r.Some? <==> key in p && p[key].Str?
    ensures r.Some? ==> r.value == Lower(p[key].s)
  {
    match Get(p, key)
    case Some(Str(s)) => Some(Lower(s))
    case _ => None
  }

  /** The name, the description and the category are all strings. */
  predicate HasTextFields(p: Record) {
    LowerField(p, "name").Some? && LowerField(p, "description").Some? && LowerField(p, "category").Some?
  }

  /** The search predicate, name, then description, then category, with the short-circuit
      of `||`: `None` when evaluating it throws, which is when the first field it reaches
      that is not a string comes before any match. */
  function MatchesTerm(p: Record, term: string): (r: Option<bool>)
    ensures HasTextFields(p) ==> r == Some(Contains(LowerField(p, "name").value, term)
                                          || Contains(LowerField(p, "description").value, term)
                                          || Contains(LowerField(p, "category").value, term))
    ensures r.None? <==>
              || LowerField(p, "name").None?
              || (!Contains(LowerField(p, "name").value, term)
                  && (LowerField(p, "description").None?
                      || (!Contains(LowerField(p, "description").value, term) && LowerField(p, "category").None?)))
    ensures r.Some? ==>
              (r.value <==> exists key | key in ["name", "description", "category"] ::
                              LowerField(p, key).Some? && Contains(LowerField(p, key).value, term))
  {
    match LowerField(p, "name")
    case None => None
    case Some(n) =>
      if Contains(n, term) then Some(true)
      else match LowerField(p, "description")
        case None => None
        case Some(d) =>
          if Contains(d, term) then Some(true)
          else match LowerField(p, "category")
            case None => None
            case Some(c) =>
              assert "category" in ["name", "description", "category"];
              Some(Contains(c, term))
  }

  function TermMatches(term: string): (keep: Record -> bool)
    ensures forall p :: keep(p) == (MatchesTerm(p, term) == Some(true))
  {
    p => MatchesTerm(p, term) == Some(true)
  }

  /** `s.filter(p => ...includes(query.toLowerCase()))`: fails with a TypeError when the
      predicate throws on some record, otherwise selects the matching records in order. */
  function SearchRecords(s: seq<Record>, query: string): (r: Result<seq<Record>>)
    ensures r.Failure? <==> exists i :: 0 <= i < |s| && MatchesTerm(s[i], Lower(query)).None?
    ensures r.Success? ==> Selects(s, TermMatches(Lower(query)), r.value)
  {
    var term := Lower(query);
    if exists i | 0 <= i < |s| :: MatchesTerm(s[i], term).None? then Failure("TypeError")
    else
      FilterSelects(s, TermMatches(term));
      Success(Filter(s, TermMatches(term)))
  }

  /** The search ignores the case of the query: searching for its lowercased form gives the
      same outcome. */
  lemma SearchIgnoresQueryCase(s: seq<Record>, query: string)
    ensures SearchRecords(s, Lower(query)) == SearchRecords(s, query)
  {
    LowerIdempotent(query);
  }

  class ProductService {
    var products: seq<Record>

    /** Every product carries a numeric Id, which `create` takes the maximum of. */
    ghost predicate Valid()
      reads this
    {
      AllNumericIds(products)
    }

    /** The store seeded with the fixture (loading it is not modelled). */
    constructor (seed: seq<Record>)
      requires AllNumericIds(seed)
      ensures Valid() && products == seed
    {
      products := seed;
    }

    /** `getAll`: a copy of the whole table. */
    function GetAll(): (r: seq<Record>)
      reads this
      ensures r == products
    {
      products
    }

    /** `getById`: the first product with that Id, or "Product not found". */
    function GetById(id: int): (r: Result<Record>)
      reads this
      ensures r.Failure? <==> forall i :: 0 <= i < |products| ==> !HasId(products[i], id)
      ensures r.Failure? ==> r.error == NotFound
      ensures r.Success? ==> exists i :: 0 <= i < |products| && products[i] == r.value && HasId(r.value, id)
                                         && forall j :: 0 <= j < i ==> !HasId(products[j], id)
    {
      var i := FindIndex(products, id);
      if i < 0 then Failure(NotFound) else Success(products[i])
    }

    /** `getByCategory`: exactly the products of that category, in store order. */
    function GetByCategory(category: string): (r: seq<Record>)
      reads this
      ensures Selects(products, CategoryIs(category), r)
    {
      FilterSelects(products, CategoryIs(category));
      Filter(products, CategoryIs(category))
    }

    /** `search`: the products whose lowercased name, description or category contains the
        lowercased query, in store order. */
    function Search(query: string): (r: Result<seq<Record>>)
      reads this
      ensures r.Failure? <==> exists i :: 0 <= i < |products| && MatchesTerm(products[i], Lower(query)).None?
      ensures r.Success? ==> Selects(products, TermMatches(Lower(query)), r.value)
    {
      SearchRecords(products, query)
    }

    /** `create`: the product with the next Id, appended at the end. */
    method Create(product: Record) returns (created: Record)
      requires Valid()
      modifies this
      ensures Valid()
      ensures created == product["Id" := Num(NextId(old(products)))]
      ensures products == old(products) + [created]
    {
      created := product["Id" := Num(NextId(products))];
      products := products + [created];
    }

    /** `update`: the patch merged over the first product with that Id, its Id kept. */
    method Update(id: int, patch: Record) returns (r: Result<Record>)
      requires Valid()
      modifies this
      ensures Valid()
      ensures var i := FindIndex(old(products), id);
              if i < 0 then r == Failure(NotFound) && products == old(products)
              else r == Success(Merge(old(products)[i], patch)) && products == old(products)[i := r.value]
    {
      var i := FindIndex(products, id);
      if i < 0 {
        r := Failure(NotFound);
        return;
      }
      var updated := Merge(products[i], patch);
      products := products[i := updated];
      r := Success(updated);
    }

    /** `delete`: the first product with that Id spliced out and returned. */
    method Delete(id: int) returns (r: Result<Record>)
      requires Valid()
      modifies this
      ensures Valid()
      ensures var i := FindIndex(old(products), id);
              if i < 0 then r == Failure(NotFound) && products == old(products)
              else r == Success(old(products)[i]) && products == RemoveAt(old(products), i)
    {
      var i := FindIndex(products, id);
      if i < 0 {
        r := Failure(NotFound);
        return;
      }
      r := Success(products[i]);
      DeleteKeepsNumericIds(products, i);
      products := RemoveAt(products, i);
    }
  }
}
