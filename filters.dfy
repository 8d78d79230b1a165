/** The client-side item filter and the labels of its search scopes. */
module Filters {
  import opened Wrappers
  import opened Text
  import opened Seqs
  import opened Items

  /** `field.toLowerCase().includes(term)`. */
  predicate FieldMatches(field: string, term: string) {
    Contains(LowerString(field), term)
  }

  /** The `switch` inside the filter callback; the default arm keeps the item. */
  predicate ItemMatches(item: Item, filterType: FilterType, term: string) {
    match filterType
    case All =>
      || FieldMatches(item.name, term)
      || FieldMatches(item.article, term)
      || FieldMatches(item.shk, term)
      || FieldMatches(item.wr_shk, term)
      || FieldMatches(item.wr_name, term)
      || FieldMatches(item.executor, term)
      || FieldMatches(item.condition_state, term)
      || FieldMatches(item.prunit_name, term)
    case Shk => FieldMatches(item.shk, term)
    case Article => FieldMatches(item.article, term)
    case Cell => FieldMatches(item.wr_shk, term) || FieldMatches(item.wr_name, term)
    case CellName => FieldMatches(item.wr_name, term)
    case Name => FieldMatches(item.name, term)
    case Executor => FieldMatches(item.executor, term)
    case Condition => FieldMatches(item.condition_state, term)
    case Other(_) => true
  }

  /** `items.filter(...)`: the matching items, in their order. */
  function Select(items: seq<Item>, filterType: FilterType, term: string): (r: seq<Item>)
    ensures |r| <= |items|
  {
    if items == [] then []
    else if ItemMatches(items[0], filterType, term) then [items[0]] + Select(items[1..], filterType, term)
    else Select(items[1..], filterType, term)
  }

  /** What is kept is a subsequence of the input, and every kept item matches. */
  lemma {:induction false} SelectSound(items: seq<Item>, filterType: FilterType, term: string)
    ensures IsSubsequence(Select(items, filterType, term), items)
    ensures forall x :: x in Select(items, filterType, term) ==> x in items && ItemMatches(x, filterType, term)
  {
    if items != [] {
      SelectSound(items[1..], filterType, term);
      var rest := Select(items[1..], filterType, term);
      if ItemMatches(items[0], filterType, term) {
        assert ([items[0]] + rest)[1..] == rest;
      }
    }
  }

  /** Every matching item is kept. */
  lemma {:induction false} SelectComplete(items: seq<Item>, filterType: FilterType, term: string, x: Item)
    requires x in items && ItemMatches(x, filterType, term)
    ensures x in Select(items, filterType, term)
  {
    if items[0] != x {
      SelectComplete(items[1..], filterType, term, x);
    }
  }

  /**
   * `filterItems`: a blank search keeps the list as it is; otherwise the
   * lower-cased, untrimmed search is matched against the scope's fields.
   */
  function FilterItems(items: seq<Item>, filters: FilterOptions): (r: seq<Item>)
    ensures |r| <= |items|
  {
    if IsBlank(filters.search) then items
    else Select(items, filters.filterType, LowerString(filters.search))
  }

  /** The result keeps its items in their input order: it is a subsequence of the input. */
  lemma FilterIsSubsequence(items: seq<Item>, filters: FilterOptions)
    ensures IsSubsequence(FilterItems(items, filters), items)
  {
    if IsBlank(filters.search) {
      SubsequenceReflexive(items);
    } else {
      SelectSound(items, filters.filterType, LowerString(filters.search));
    }
  }

  // ---------------------------------------------------------------------------
  // Properties of Select
  // ---------------------------------------------------------------------------

  /** When every item matches, nothing is dropped. */
  lemma {:induction false} SelectAllMatch(items: seq<Item>, filterType: FilterType, term: string)
    requires forall i :: 0 <= i < |items| ==> ItemMatches(items[i], filterType, term)
    ensures Select(items, filterType, term) == items
  {
    if items != [] {
      SelectAllMatch(items[1..], filterType, term);
    }
  }

  /** When some item does not match, the result is strictly shorter. */
  lemma {:induction false} SelectDropsMismatch(items: seq<Item>, filterType: FilterType, term: string, k: nat)
    requires k < |items| && !ItemMatches(items[k], filterType, term)
    ensures |Select(items, filterType, term)| < |items|
  {
    if k > 0 {
      SelectDropsMismatch(items[1..], filterType, term, k - 1);
    }
  }

  /** Filtering is compositional: the pieces of a list are filtered apart. */
  lemma {:induction false} SelectAppend(xs: seq<Item>, ys: seq<Item>, filterType: FilterType, term: string)
    ensures Select(xs + ys, filterType, term) == Select(xs, filterType, term) + Select(ys, filterType, term)
  {
    if xs == [] {
      assert xs + ys == ys;
    } else {
      assert (xs + ys)[0] == xs[0] && (xs + ys)[1..] == xs[1..] + ys;
      SelectAppend(xs[1..], ys, filterType, term);
      if ItemMatches(xs[0], filterType, term) {
        assert Select(xs, filterType, term) == [xs[0]] + Select(xs[1..], filterType, term);
      }
    }
  }

  // ---------------------------------------------------------------------------
  // Properties of filterItems
  // ---------------------------------------------------------------------------

  /** A search of whitespace only returns the list unchanged, whatever the scope. */
  lemma FilterWhitespaceSearch(items: seq<Item>, filters: FilterOptions)
    requires forall i :: 0 <= i < |filters.search| ==> IsWhitespace(filters.search[i])
    ensures FilterItems(items, filters) == items
  {
    BlankIffAllWhitespace(filters.search);
  }

  /**
   * Membership: with a non-blank search an item is kept exactly when it is in
   * the list and its scope matches the lower-cased search.
   */
  lemma FilterMembership(items: seq<Item>, filters: FilterOptions, x: Item)
    ensures x in FilterItems(items, filters) <==>
      x in items && (IsBlank(filters.search) || ItemMatches(x, filters.filterType, LowerString(filters.search)))
  {
    if !IsBlank(filters.search) {
      SelectSound(items, filters.filterType, LowerString(filters.search));
      if x in items && ItemMatches(x, filters.filterType, LowerString(filters.search)) {
        SelectComplete(items, filters.filterType, LowerString(filters.search), x);
      }
    }
  }

  /** An unrecognised scope keeps every item. */
  lemma FilterUnknownScope(items: seq<Item>, filters: FilterOptions)
    requires filters.filterType.Other?
    ensures FilterItems(items, filters) == items
  {
    if !IsBlank(filters.search) {
      SelectAllMatch(items, filters.filterType, LowerString(filters.search));
    }
  }

  /** Filtering the result again with the same options changes nothing. */
  lemma FilterIdempotent(items: seq<Item>, filters: FilterOptions)
    ensures FilterItems(FilterItems(items, filters), filters) == FilterItems(items, filters)
  {
    if !IsBlank(filters.search) {
      var term := LowerString(filters.search);
      var r := Select(items, filters.filterType, term);
      SelectSound(items, filters.filterType, term);
      assert forall i :: 0 <= i < |r| ==> r[i] in r;
      SelectAllMatch(r, filters.filterType, term);
    }
  }

  /** The fields each scope's `case` in the filter callback compares. */
  function SearchedFields(item: Item, filterType: FilterType): seq<string> {
    match filterType
    case All => [item.name, item.article, item.shk, item.wr_shk, item.wr_name,
                 item.executor, item.condition_state, item.prunit_name]
    case Shk => [item.shk]
    case Article => [item.article]
    case Cell => [item.wr_shk, item.wr_name]
    case CellName => [item.wr_name]
    case Name => [item.name]
    case Executor => [item.executor]
    case Condition => [item.condition_state]
    case Other(_) => []
  }

  /**
   * A named scope keeps an item exactly when one of its listed fields contains
   * the term; an unrecognised one keeps every item.
   */
  lemma MatchesIffSearchedField(item: Item, filterType: FilterType, term: string)
    ensures ItemMatches(item, filterType, term) <==>
      filterType.Other? || exists f :: f in SearchedFields(item, filterType) && FieldMatches(f, term)
  {
    var fs := SearchedFields(item, filterType);
    assert forall k :: 0 <= k < |fs| ==> fs[k] in fs;
  }

  /** Two items that agree on the eight searchable fields are matched alike. */
  predicate SameSearchableFields(a: Item, b: Item) {
    && a.name == b.name && a.article == b.article && a.shk == b.shk
    && a.wr_shk == b.wr_shk && a.wr_name == b.wr_name && a.executor == b.executor
    && a.condition_state == b.condition_state && a.prunit_name == b.prunit_name
  }

  /** `reason`, the quantities, ids and dates are never searched. */
  lemma UnsearchedFieldsIgnored(a: Item, b: Item, filterType: FilterType, term: string)
    requires SameSearchableFields(a, b)
    ensures ItemMatches(a, filterType, term) == ItemMatches(b, filterType, term)
  {
  }

  /** Every named scope is narrower than `all`, and `cellName` narrower than `cell`. */
  lemma ScopeInclusions(item: Item, filterType: FilterType, term: string)
    ensures !filterType.Other? && ItemMatches(item, filterType, term) ==> ItemMatches(item, All, term)
    ensures ItemMatches(item, CellName, term) ==> ItemMatches(item, Cell, term)
  {
  }

  /** Every item a `cellName` search keeps, the same `cell` search keeps too. */
  lemma CellNameHitsAreCellHits(items: seq<Item>, search: string, warehouse: int, x: Item)
    requires x in FilterItems(items, FilterOptions(search, CellName, warehouse))
    ensures x in FilterItems(items, FilterOptions(search, Cell, warehouse))
  {
    FilterMembership(items, FilterOptions(search, CellName, warehouse), x);
    FilterMembership(items, FilterOptions(search, Cell, warehouse), x);
  }

  // ---------------------------------------------------------------------------
  // Worked cases
  // ---------------------------------------------------------------------------

  /** An item with the given name, code and cell name and nothing else. */
  function SampleItem(name: string, shk: string, wr_name: string): Item {
    Item(None, name, "", shk, 0, 0, 0, "", wr_name, None, "", "", "", None, "", "", "")
  }

  /** With a non-blank search, a one-item list keeps its item exactly when it matches. */
  lemma FilterSingleton(item: Item, filters: FilterOptions)
    requires !IsBlank(filters.search)
    ensures FilterItems([item], filters) ==
      if ItemMatches(item, filters.filterType, LowerString(filters.search)) then [item] else []
  {
    assert [item][1..] == [];
  }

  /** With a non-blank search, each item of a two-item list is kept exactly when it matches. */
  lemma FilterPair(a: Item, b: Item, filters: FilterOptions)
    requires !IsBlank(filters.search)
    ensures FilterItems([a, b], filters) ==
      (if ItemMatches(a, filters.filterType, LowerString(filters.search)) then [a] else []) +
      (if ItemMatches(b, filters.filterType, LowerString(filters.search)) then [b] else [])
  {
    SelectPair(a, b, filters.filterType, LowerString(filters.search));
  }

  lemma SelectPair(a: Item, b: Item, filterType: FilterType, term: string)
    ensures Select([a, b], filterType, term) ==
      (if ItemMatches(a, filterType, term) then [a] else []) +
      (if ItemMatches(b, filterType, term) then [b] else [])
  {
    assert [a, b][1..] == [b] && [b][1..] == [];
  }

  /** A search that starts with a visible character is not blank. */
  lemma VisibleStartNotBlank(s: string)
    requires |s| > 0 && !IsWhitespace(s[0])
    ensures !IsBlank(s)
  {
    BlankIffAllWhitespace(s);
  }

  /** " ab" is not blank, and trimmed it would be "ab". */
  lemma SpacedSearchFacts(search: string)
    requires search == " ab"
    ensures !IsBlank(search) && Trim(search) == "ab" && LowerString(search) == search
  {
    assert TrimStart(search) == "ab";
  }

  /** A name that is shorter than the search cannot contain it. */
  lemma ShortFieldMisses(field: string, term: string)
    requires |field| < |term|
    ensures !FieldMatches(field, term)
  {
    if FieldMatches(field, term) {
      ContainsLength(LowerString(field), term);
    }
  }

  /**
   * The search is lower-cased but not trimmed: " ab" does not find the name
   * "ab", though it is not blank and trimmed it would be "ab" ...
   */
  lemma SpacedSearchMissesName(item: Item, search: string)
    requires item == SampleItem("ab", "", "") && search == " ab"
    ensures Trim(search) == item.name
    ensures FilterItems([item], FilterOptions(search, Name, 0)) == []
  {
    SpacedSearchFacts(search);
    ShortFieldMisses(item.name, search);
    FilterSingleton(item, FilterOptions(search, Name, 0));
  }

  /** ... while the trimmed search "ab" does find it. */
  lemma TrimmedSearchFindsName(item: Item, search: string)
    requires item == SampleItem("ab", "", "") && search == "ab"
    ensures FilterItems([item], FilterOptions(search, Name, 0)) == [item]
  {
    VisibleStartNotBlank(search);
    LowerStringFixed(search);
    LowerStringFixed(item.name);
    FilterSingleton(item, FilterOptions(search, Name, 0));
  }

  /** "bolt" on names keeps both "Bolt" and "BOLT-2": the match ignores case. */
  lemma NameSearchIgnoresCase(a: Item, b: Item, search: string)
    requires a == SampleItem("Bolt", "100", "") && b == SampleItem("BOLT-2", "200", "")
    requires search == "bolt"
    ensures FilterItems([a, b], FilterOptions(search, Name, 0)) == [a, b]
  {
    VisibleStartNotBlank(search);
    LowerStringFixed(search);
    assert LowerString(a.name) == search;
    assert search <= LowerString(b.name);
    FilterPair(a, b, FilterOptions(search, Name, 0));
  }

  /** "100" on codes keeps only the item whose code contains it. */
  lemma CodeSearchKeepsMatchOnly(a: Item, b: Item, search: string)
    requires a == SampleItem("Bolt", "100", "") && b == SampleItem("BOLT-2", "200", "")
    requires search == "100"
    ensures FilterItems([a, b], FilterOptions(search, Shk, 0)) == [a]
  {
    VisibleStartNotBlank(search);
    LowerStringFixed(search);
    LowerStringFixed(a.shk);
    LowerStringFixed(b.shk);
    assert !ItemMatches(b, Shk, search) by {
      assert !(search <= b.shk);
      ShortFieldMisses(b.shk[1..], search);
    }
    FilterPair(a, b, FilterOptions(search, Shk, 0));
  }

  // ---------------------------------------------------------------------------
  // getFilterTypeLabel
  // ---------------------------------------------------------------------------

  /** The menu label of a scope; anything unrecognised falls back to "Все поля". */
  function GetFilterTypeLabel(t: Scope): (caption: string)
    ensures caption != ""
    ensures caption == "Все поля" <==> t.All? || t.Other?
  {
    match t
    case All => "Все поля"
    case Shk => "ШК"
    case Article => "Артикул"
    case Cell => "Ячейка"
    case CellName => "Название ячейки"
    case Name => "Название"
    case Executor => "Исполнитель"
    case Condition => "Состояние"
    case Other(_) => "Все поля"
  }

  /** The eight named scopes have eight different labels. */
  lemma FilterTypeLabelsDistinct(s: Scope, t: Scope)
    requires !s.Other? && !t.Other? && s != t
    ensures GetFilterTypeLabel(s) != GetFilterTypeLabel(t)
  {
  }
}
