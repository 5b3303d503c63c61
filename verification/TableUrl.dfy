/** Table state in URL parameters, written and read back (frontend/src/lib/table-utils.ts). */
module TableUrl {
  import opened Prelude
  import opened Decimal

  datatype Order = Asc | Desc

  datatype Sort = Sort(id: string, desc: bool)

  /** A filter value: absent (undefined or null), one text, or a list joined with commas. */
  datatype Extra = Absent | One(text: string) | Many(texts: seq<string>)

  type Params = map<string, string>

  datatype Defaults = Defaults(page: Option<int>, pageSize: Option<int>, sortBy: Option<string>,
    sortOrder: Option<Order>, search: Option<string>)

  datatype TableParams = TableParams(page: int, pageSize: int, sortBy: Option<string>, sortOrder: Order,
    search: Option<string>)

  function Join(texts: seq<string>): string {
    if texts == [] then ""
    else if |texts| == 1 then texts[0]
    else Join(texts[..|texts| - 1]) + "," + texts[|texts| - 1]
  }

  /** What a filter writes, if anything. */
  function Written(v: Extra): Option<string> {
    match v
    case Absent => None
    case One(text) => Some(text)
    case Many(texts) => if texts == [] then None else Some(Join(texts))
  }

  function WithExtra(params: Params, extra: seq<(string, Extra)>): Params {
    if extra == [] then params
    else
      var before, (key, v) := WithExtra(params, extra[..|extra| - 1]), extra[|extra| - 1];
      if Written(v).Some? then before[key := Written(v).value] else before
  }

  /** The five parameters of the table itself; an empty search is not written. */
  function Core(pageIndex: int, pageSize: int, sorting: seq<Sort>, search: Option<string>): Params {
    var paged := map["page" := PrintInt(pageIndex + 1), "pageSize" := PrintInt(pageSize)];
    var sorted := if sorting == [] then paged
                  else paged["sortBy" := sorting[0].id]["sortOrder" := if sorting[0].desc then "desc" else "asc"];
    if search.Some? && search.value != "" then sorted["search" := search.value] else sorted
  }

  method UrlParamsFromState(pageIndex: int, pageSize: int, sorting: seq<Sort>, search: Option<string>,
      extra: seq<(string, Extra)>)
    returns (params: Params)
    ensures params == WithExtra(Core(pageIndex, pageSize, sorting, search), extra)
  {
    params := map["page" := PrintInt(pageIndex + 1), "pageSize" := PrintInt(pageSize)];
    if |sorting| > 0 {
      var first := sorting[0];
      params := params["sortBy" := first.id];
      params := params["sortOrder" := if first.desc then "desc" else "asc"];
    }
    if search.Some? && search.value != "" {
      params := params["search" := search.value];
    }
    for i := 0 to |extra|
      invariant params == WithExtra(Core(pageIndex, pageSize, sorting, search), extra[..i])
    {
      var (k, v) := extra[i];
      assert extra[..i + 1][..i] == extra[..i];
      match v {
        case Absent =>
        case Many(texts) =>
          if |texts| != 0 {
            params := params[k := Join(texts)];
          }
        case One(text) =>
          params := params[k := text];
      }
    }
    assert extra[..|extra|] == extra;
  }

  function Get(params: Params, key: string): Option<string> {
    if key in params then Some(params[key]) else None
  }

  function OrElse<T>(a: Option<T>, b: Option<T>): Option<T> {
    if a.Some? then a else b
  }

  /** A number parameter: parsed when present and not empty, else the default; not positive means the fallback. */
  function NumberParam(raw: Option<string>, default: Option<int>, fallback: int): int {
    var n := if raw.Some? && raw.value != "" then ParseInt(raw.value)
             else if default.Some? then default else Some(fallback);
    if n.Some? && n.value > 0 then n.value else fallback
  }

  function OrderParam(raw: Option<string>, default: Option<Order>): Order {
    if raw == Some("asc") then Asc
    else if raw == Some("desc") then Desc
    else if default.Some? then default.value
    else Desc
  }

  function Read(params: Params, defaults: Defaults): TableParams {
    TableParams(
      NumberParam(Get(params, "page"), defaults.page, 1),
      NumberParam(Get(params, "pageSize"), defaults.pageSize, 25),
      OrElse(Get(params, "sortBy"), defaults.sortBy),
      OrderParam(Get(params, "sortOrder"), defaults.sortOrder),
      OrElse(Get(params, "search"), defaults.search))
  }

  /**
   * Whatever the URL says, page and size are positive: the number written there if it parses to
   * one, the default if there is none and that is positive, else 1 and 25.
   */
  lemma EveryUrlReadsAsAPage(params: Params, defaults: Defaults)
    ensures var r := Read(params, defaults);
      && r.page >= 1 && r.pageSize >= 1
      && r.page == PositiveOr(Get(params, "page"), defaults.page, 1)
      && r.pageSize == PositiveOr(Get(params, "pageSize"), defaults.pageSize, 25)
  {
  }

  /** The number meant by a parameter: `n` positive, or `instead`. */
  function PositiveOr(raw: Option<string>, default: Option<int>, instead: int): int {
    var meant := if raw == None || raw == Some("") then default else ParseInt(raw.value);
    if meant.Some? && meant.value >= 1 then meant.value else instead
  }

  const RESERVED := {"page", "pageSize", "sortBy", "sortOrder", "search"}

  predicate AvoidsReserved(extra: seq<(string, Extra)>) {
    forall i :: 0 <= i < |extra| ==> extra[i].0 !in RESERVED
  }

  lemma {:induction false} ExtraLeavesReserved(params: Params, extra: seq<(string, Extra)>, key: string)
    requires AvoidsReserved(extra) && key in RESERVED
    ensures Get(WithExtra(params, extra), key) == Get(params, key)
    decreases |extra|
  {
    if extra != [] {
      ExtraLeavesReserved(params, extra[..|extra| - 1], key);
    }
  }

  lemma NumberRoundTrip(n: nat, default: Option<int>, fallback: int)
    requires n > 0
    ensures NumberParam(Some(PrintInt(n)), default, fallback) == n
  {
    ParsePadded(n, 0);
    assert Padded(n, 0) == Print(n);
  }

  /**
   * Reading back what was written gives the same page, size, sorting and search; what was
   * not written (no sorting, no or an empty search) reads as the defaults.
   */
  lemma ReadingBackGivesTheState(
    pageIndex: int, pageSize: int, sorting: seq<Sort>, search: Option<string>, extra: seq<(string, Extra)>,
      defaults: Defaults)
    requires pageIndex >= 0 && pageSize > 0 && AvoidsReserved(extra)
    ensures Read(WithExtra(Core(pageIndex, pageSize, sorting, search), extra), defaults)
      == TableParams(
           pageIndex + 1,
           pageSize,
           if sorting == [] then defaults.sortBy else Some(sorting[0].id),
           if sorting != [] then (if sorting[0].desc then Desc else Asc)
           else if defaults.sortOrder.Some? then defaults.sortOrder.value else Desc,
           if search.Some? && search.value != "" then search else defaults.search)
  {
    var core := Core(pageIndex, pageSize, sorting, search);
    ExtraLeavesReserved(core, extra, "page");
    ExtraLeavesReserved(core, extra, "pageSize");
    ExtraLeavesReserved(core, extra, "sortBy");
    ExtraLeavesReserved(core, extra, "sortOrder");
    ExtraLeavesReserved(core, extra, "search");
    NumberRoundTrip(pageIndex + 1, defaults.page, 1);
    NumberRoundTrip(pageSize, defaults.pageSize, 25);
    CoreLookups(pageIndex, pageSize, sorting, search);
  }

  lemma CoreLookups(pageIndex: int, pageSize: int, sorting: seq<Sort>, search: Option<string>)
    ensures var core := Core(pageIndex, pageSize, sorting, search);
      && Get(core, "page") == Some(PrintInt(pageIndex + 1))
      && Get(core, "pageSize") == Some(PrintInt(pageSize))
      && Get(core, "sortBy") == (if sorting == [] then None else Some(sorting[0].id))
      && Get(core, "sortOrder") == (if sorting == [] then None else Some(if sorting[0].desc then "desc" else "asc"))
      && Get(core, "search") == (if search.Some? && search.value != "" then search else None)
  {
  }
}
