/**
 * URL search parameters as the components use them: `URLSearchParams` with
 * `get`, `set` and `delete`, and the target handed to `router.push`.
 * Each key holds one value; the components never append a duplicate key, and a
 * key repeated in an incoming URL is not modelled.
 */
module SearchParams {

  type Params = map<string, string>

  /** What `router.push` is given: a bare path, or a path with `?` and a query. */
  datatype Href = Bare(path: string) | WithQuery(path: string, query: Params)

  /** `params.get(key) || fallback`: an absent key and an empty value both read as
      the fallback. */
  function GetOr(params: Params, key: string, fallback: string): string
  {
    if key in params && params[key] != "" then params[key] else fallback
  }
}
