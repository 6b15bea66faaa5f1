/**
 * Normalisation of the listing's pagination parameters: a negative page or
 * page size becomes 1; anything else, zero included, is kept.
 */
module Pagination {
  import opened Values

  datatype PaginationParams = PaginationParams(page: I32, pageSize: I32)

  /** One field's rule: negative becomes 1, the rest passes through. */
  function Normalise(value: I32): I32 {
    if value < 0 then 1 else value
  }

  function New(page: I32, pageSize: I32): (p: PaginationParams)
    ensures page < 0 ==> p.page == 1
    ensures page >= 0 ==> p.page == page
    ensures pageSize < 0 ==> p.pageSize == 1
    ensures pageSize >= 0 ==> p.pageSize == pageSize
    ensures p.page >= 0 && p.pageSize >= 0
  {
    PaginationParams(Normalise(page), Normalise(pageSize))
  }

  /** The page never depends on the page size, nor the page size on the page. */
  lemma FieldsIndependent(page: I32, pageSize: I32, page': I32, pageSize': I32)
    ensures New(page, pageSize).page == New(page, pageSize').page
    ensures New(page, pageSize).pageSize == New(page', pageSize).pageSize
  {
  }

  /** Normalising normalised parameters changes nothing. */
  lemma NewIdempotent(page: I32, pageSize: I32)
    ensures New(New(page, pageSize).page, New(page, pageSize).pageSize) == New(page, pageSize)
  {
  }
}
