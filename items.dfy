/** The canonical inventory record and the search options of the dashboard. */
module Items {
  import opened Wrappers

  /** One warehouse inventory record as the grid shows it. */
  datatype Item = Item(
    id: Option<int>,
    name: string,
    article: string,
    shk: string,
    quantity: int,          // number of nesting units
    nested_quantity: int,   // base units per nesting unit
    product_qnt: int,       // total base units
    wr_shk: string,         // storage cell code
    wr_name: string,        // storage cell name
    id_sklad: Option<int>,  // warehouse id
    prunit_name: string,    // unit of measure
    condition_state: string,
    reason: string,
    expiration_date: Option<string>,
    createDate: string,
    updateDate: string,
    executor: string
  )

  /**
   * The search scope. The eight named scopes are the values the type admits;
   * `Other` stands for any other value that reaches the filter at run time.
   */
  datatype FilterType =
    | All | Shk | Article | Cell | CellName | Name | Executor | Condition
    | Other(raw: string)

  /** The string a scope has at run time. */
  function FilterTypeName(t: FilterType): string {
    match t
    case All => "all"
    case Shk => "shk"
    case Article => "article"
    case Cell => "cell"
    case CellName => "cellName"
    case Name => "name"
    case Executor => "executor"
    case Condition => "condition"
    case Other(raw) => raw
  }

  /** The scope a run-time string selects: a named one, or `Other` for the rest. */
  function FilterTypeOf(s: string): (t: FilterType)
    ensures FilterTypeName(t) == s
  {
    if s == "all" then All
    else if s == "shk" then Shk
    else if s == "article" then Article
    else if s == "cell" then Cell
    else if s == "cellName" then CellName
    else if s == "name" then Name
    else if s == "executor" then Executor
    else if s == "condition" then Condition
    else Other(s)
  }

  /** `Other` only ever holds a string that is none of the named scopes. */
  predicate ValidFilterType(t: FilterType) {
    t.Other? ==> FilterTypeOf(t.raw) == t
  }

  /** Every scope that can occur at run time is the reading of its own name. */
  lemma FilterTypeRoundTrip(t: FilterType)
    requires ValidFilterType(t)
    ensures FilterTypeOf(FilterTypeName(t)) == t
  {
  }

  /** Reading a run-time string always gives a scope that can occur. */
  lemma FilterTypeOfValid(s: string)
    ensures ValidFilterType(FilterTypeOf(s))
  {
  }

  /**
   * The scopes that can occur: `Other("shk")` is no scope, since the run-time
   * string "shk" is the `Shk` scope.
   */
  type Scope = t: FilterType | ValidFilterType(t) witness All

  /** The search box state; `warehouse` selects what is fetched, not what is kept. */
  datatype FilterOptions = FilterOptions(search: string, filterType: Scope, warehouse: int)
}
