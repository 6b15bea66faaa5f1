/**
 * The request-shaped filter factory of the auction API: an optional item
 * name becomes zero or one custom filter holding a substring match.
 *
 * The substring operator and the custom filter group are used by this
 * factory but not defined next to the equality-only operator; they are
 * declared here with the fields the factory uses.
 */
module AuctionFilters {
  import opened Wrappers
  import opened Values

  /** The listing query's optional filter parameters. */
  datatype FilterParams = FilterParams(
    name: Option<string>,
    minPrice: Option<I64>,
    maxPrice: Option<I64>,
    minBuyoutPrice: Option<I64>,
    maxBuyoutPrice: Option<I64>)

  /** The substring-match operator, carrying its pattern inline. */
  datatype PatternOperator = LikeContains(pattern: string)

  /**
   * One predicate of a custom filter: a field and a substring pattern. It
   * has the shape of `OrmFilter.Filter` (a field name and an operator), with
   * the substring operator in place of the equality-only one.
   */
  datatype PatternFilter = PatternFilter(fieldName: string, operator: PatternOperator)

  /** A group of predicates with the values bound to their placeholders. */
  datatype CustomFilter = CustomFilter(filters: seq<PatternFilter>, values: QueryValues)

  /** The filter over the item name parameter. */
  datatype ItemNameFilter = ItemNameFilter(params: FilterParams)

  /** The column the name filter searches. */
  const ITEM_NAME_COLUMN: string := "item_name"

  function NewItemNameFilter(params: FilterParams): (f: ItemNameFilter)
    ensures f.params == params
  {
    ItemNameFilter(params)
  }

  /** `%name%`: the name with a wildcard on each side. */
  function SearchPattern(name: string): (p: string)
    ensures |p| == |name| + 2
    ensures p[0] == '%' && p[|p| - 1] == '%'
    ensures p[1..|p| - 1] == name
  {
    "%" + name + "%"
  }

  /**
   * The substring a pattern searches for, when it has a wildcard at each
   * end.
   */
  function PatternSubstring(p: string): Option<string> {
    if |p| >= 2 && p[0] == '%' && p[|p| - 1] == '%' then Some(p[1..|p| - 1]) else None
  }

  /** Reading the search pattern back gives the name it was made from. */
  lemma SearchPatternRoundTrip(name: string)
    ensures PatternSubstring(SearchPattern(name)) == Some(name)
  {
  }

  /**
   * No name, no filter; a name gives one group holding one substring match
   * on the item name, with the pattern inlined and nothing bound.
   */
  function IntoCustomFilter(f: ItemNameFilter): (r: Option<CustomFilter>)
    ensures f.params.name.None? <==> r.None?
    ensures r.Some? ==> |r.value.filters| == 1
    ensures r.Some? ==> r.value.filters[0].fieldName == ITEM_NAME_COLUMN
    ensures r.Some? ==>
      PatternSubstring(r.value.filters[0].operator.pattern) == Some(f.params.name.value)
    ensures r.Some? ==> r.value.values == SimpleValues([])
  {
    match f.params.name
    case Some(name) =>
      SearchPatternRoundTrip(name);
      Some(CustomFilter([PatternFilter(ITEM_NAME_COLUMN, LikeContains(SearchPattern(name)))],
                        SimpleValues([])))
    case None => None
  }

  /** The price parameters play no part: only the name decides the filter. */
  lemma OnlyNameMatters(p: FilterParams, q: FilterParams)
    requires p.name == q.name
    ensures IntoCustomFilter(NewItemNameFilter(p)) == IntoCustomFilter(NewItemNameFilter(q))
  {
  }
}
