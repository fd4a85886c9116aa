/**
 * The filter bar above the leads table: the filter values it reads from the
 * URL, and the URL it pushes when a filter or the search text changes.
 */
module LeadsHeader {
  import opened Text
  import opened SearchParams

  /** The values the filter controls display. */
  datatype Filters = Filters(q: string, status: string, city: string,
                             propertyType: string, timeline: string, budget: string)

  /** The keys of the select filters, whose "no filter" value is `"all"`. */
  const SelectKeys: set<string> := {"status", "city", "propertyType", "timeline", "budget"}

  /** The filter value shown for one key. */
  function FilterValue(f: Filters, key: string): string
    requires key == "q" || key in SelectKeys
  {
    match key
    case "q" => f.q
    case "status" => f.status
    case "city" => f.city
    case "propertyType" => f.propertyType
    case "timeline" => f.timeline
    case _ => f.budget
  }

  /** The values read from the URL: a missing (or empty) search reads as `""`, a
      missing (or empty) select filter as `"all"`; a present value reads as itself. */
  function CurrentFilters(params: Params): (f: Filters)
    ensures "q" in params ==> f.q == params["q"]
    ensures "q" !in params ==> f.q == ""
    ensures forall key :: key in SelectKeys ==>
              FilterValue(f, key) == if key in params && params[key] != "" then params[key] else "all"
  {
    Filters(GetOr(params, "q", ""), GetOr(params, "status", "all"), GetOr(params, "city", "all"),
            GetOr(params, "propertyType", "all"), GetOr(params, "timeline", "all"),
            GetOr(params, "budget", "all"))
  }

  /** Whether `value` is kept as a filter: `value && value !== "all"`. */
  predicate Keeps(value: string) {
    value != "" && value != "all"
  }

  /** The parameters after `updateParam(name, value)`: `name` holds `value` when the
      value is kept and is removed otherwise, `page` is reset to `"1"`, and every
      other parameter is left as it was. */
  function Updated(params: Params, name: string, value: string): (r: Params)
    ensures "page" in r && r["page"] == "1"
    ensures name != "page" ==> (name in r <==> Keeps(value))
    ensures name != "page" && name in r ==> r[name] == value
    ensures forall k :: k != name && k != "page" ==> (k in r <==> k in params)
    ensures forall k :: k in params && k != name && k != "page" ==> r[k] == params[k]
  {
    var filtered := if Keeps(value) then params[name := value] else params - {name};
    filtered["page" := "1"]
  }

  /** Applying the same change twice gives what applying it once gives. */
  lemma UpdatedIdempotent(params: Params, name: string, value: string)
    ensures Updated(Updated(params, name, value), name, value) == Updated(params, name, value)
  {
    var once := Updated(params, name, value);
    var twice := Updated(once, name, value);
    assert twice.Keys == once.Keys;
  }

  /** Reading a select filter back after setting it gives the value chosen, with
      the empty value reading as `"all"`. */
  lemma SelectReadAfterUpdate(params: Params, name: string, value: string)
    requires name in SelectKeys
    ensures FilterValue(CurrentFilters(Updated(params, name, value)), name)
         == if value == "" then "all" else value
  {
  }

  /** `updateParam(name, value)`: copy the current parameters, set or delete
      `name`, reset `page`, and push the path with the query, or the bare path
      when the query is empty. The query always holds `page`, so the bare path
      is never pushed. */
  method UpdateParam(pathname: string, searchParams: Params, name: string, value: string)
    returns (target: Href)
    ensures target == WithQuery(pathname, Updated(searchParams, name, value))
  {
    var params := searchParams;
    if value != "" && value != "all" {
      params := params[name := value];
    } else {
      params := params - {name};
    }
    params := params["page" := "1"];
    if params != map[] {
      target := WithQuery(pathname, params);
    } else {
      target := Bare(pathname);
    }
  }

  /** `onSearchChange(value)` once the debounce delay has passed: the trimmed text
      is handed to `updateParam` under `q`. */
  method OnSearchChange(pathname: string, searchParams: Params, value: string)
    returns (target: Href)
    ensures target == WithQuery(pathname, Updated(searchParams, "q", Trim(value)))
  {
    target := UpdateParam(pathname, searchParams, "q", Trim(value));
  }

  // ---------------------------------------------------------------- the search text "all"

  /** As written, the "no filter" sentinel of the select filters also applies to
      the search text: searching for `all` removes `q`, and the search box then
      reads back empty. */
  lemma SearchForAllIsDropped(params: Params)
    ensures "q" !in Updated(params, "q", Trim(" all "))
    ensures CurrentFilters(Updated(params, "q", Trim(" all "))).q == ""
  {
    assert Trim(" all ") == "all" by {
      assert TrimStart(" all ") == "all ";
      assert TrimEnd("all ") == "all";
    }
  }

  /** The search update as evidently intended: only an empty text removes `q`. */
  function SearchUpdated(params: Params, text: string): (r: Params)
    ensures "page" in r && r["page"] == "1"
    ensures ("q" in r <==> text != "") && ("q" in r ==> r["q"] == text)
    ensures forall k :: k != "q" && k != "page" ==> (k in r <==> k in params)
    ensures forall k :: k in params && k != "q" && k != "page" ==> r[k] == params[k]
  {
    var filtered := if text != "" then params["q" := text] else params - {"q"};
    filtered["page" := "1"]
  }

  /** With the intended update, the search box reads back exactly the (trimmed)
      text searched for, whatever it is; it agrees with the written update on
      every text other than `all`. */
  lemma SearchReadAfterUpdate(params: Params, value: string)
    ensures CurrentFilters(SearchUpdated(params, Trim(value))).q == Trim(value)
    ensures Trim(value) != "all" ==> SearchUpdated(params, Trim(value)) == Updated(params, "q", Trim(value))
  {
    var t := Trim(value);
    if t != "all" {
      assert SearchUpdated(params, t).Keys == Updated(params, "q", t).Keys;
    }
  }

  /** The search handler with the intended update: the trimmed text becomes `q`,
      or removes it when empty. It pushes what `OnSearchChange` pushes for every
      text other than `all`. */
  method IntendedOnSearchChange(pathname: string, searchParams: Params, value: string)
    returns (target: Href)
    ensures target == WithQuery(pathname, SearchUpdated(searchParams, Trim(value)))
    ensures Trim(value) != "all" ==> target == WithQuery(pathname, Updated(searchParams, "q", Trim(value)))
  {
    var text := Trim(value);
    var params := if text != "" then searchParams["q" := text] else searchParams - {"q"};
    params := params["page" := "1"];
    target := WithQuery(pathname, params);
    SearchReadAfterUpdate(searchParams, value);
  }
}
