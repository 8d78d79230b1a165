/**
 * The statistics panel above the grid: how many records are shown out of how
 * many, their total quantity, how many are defective, and which warehouses
 * and executors occur among them.
 */
module TableStats {
  import opened Wrappers
  import opened Text
  import opened Seqs
  import opened Items
  import opened Filters

  // ---------------------------------------------------------------------------
  // totalQuantity
  // ---------------------------------------------------------------------------

  /** `reduce((sum, item) => sum + item.product_qnt, 0)`. */
  function TotalQuantity(items: seq<Item>): int {
    if items == [] then 0 else items[0].product_qnt + TotalQuantity(items[1..])
  }

  /** The total of two lists laid end to end is the sum of their totals. */
  lemma {:induction false} TotalQuantityAppend(xs: seq<Item>, ys: seq<Item>)
    ensures TotalQuantity(xs + ys) == TotalQuantity(xs) + TotalQuantity(ys)
  {
    if xs == [] {
      assert xs + ys == ys;
    } else {
      assert (xs + ys)[0] == xs[0] && (xs + ys)[1..] == xs[1..] + ys;
      TotalQuantityAppend(xs[1..], ys);
    }
  }

  predicate NonNegativeQuantities(items: seq<Item>) {
    forall i :: 0 <= i < |items| ==> items[i].product_qnt >= 0
  }

  lemma {:induction false} TotalQuantityNonNegative(items: seq<Item>)
    requires NonNegativeQuantities(items)
    ensures TotalQuantity(items) >= 0
    ensures items == [] ==> TotalQuantity(items) == 0
  {
    if items != [] {
      TotalQuantityNonNegative(items[1..]);
    }
  }

  /** Leaving items out cannot raise the total while no quantity is negative. */
  lemma {:induction false} TotalQuantitySubsequence(xs: seq<Item>, ys: seq<Item>)
    requires IsSubsequence(xs, ys) && NonNegativeQuantities(ys)
    ensures TotalQuantity(xs) <= TotalQuantity(ys)
    decreases |ys|
  {
    if xs == [] {
      TotalQuantityNonNegative(ys);
    } else if xs[0] == ys[0] && IsSubsequence(xs[1..], ys[1..]) {
      TotalQuantitySubsequence(xs[1..], ys[1..]);
    } else {
      TotalQuantitySubsequence(xs, ys[1..]);
    }
  }

  /** The quantity over the filtered records never exceeds the quantity over all of them. */
  lemma FilteredQuantityBound(items: seq<Item>, filters: FilterOptions)
    requires NonNegativeQuantities(items)
    ensures TotalQuantity(FilterItems(items, filters)) <= TotalQuantity(items)
  {
    FilterIsSubsequence(items, filters);
    TotalQuantitySubsequence(FilterItems(items, filters), items);
  }

  // ---------------------------------------------------------------------------
  // defectiveItems
  // ---------------------------------------------------------------------------

  /** The marker of a defective record's condition ("некондиция" and its forms). */
  const DefectiveMarker: string := "некондиц"

  predicate IsDefective(item: Item) {
    Contains(LowerString(item.condition_state), DefectiveMarker)
  }

  /** `filter(item => ...includes('некондиц')).length`. */
  function CountDefective(items: seq<Item>): (n: nat)
    ensures n <= |items|
    ensures n == 0 <==> forall i :: 0 <= i < |items| ==> !IsDefective(items[i])
  {
    if items == [] then 0
    else (if IsDefective(items[0]) then 1 else 0) + CountDefective(items[1..])
  }

  /** The marker is written in lower case ... */
  lemma DefectiveMarkerLower(marker: string)
    requires marker == DefectiveMarker
    ensures LowerString(marker) == marker
  {
    assert forall i :: 0 <= i < |marker| ==> '\U{0430}' <= marker[i] <= '\U{044F}';
    LowerStringFixed(marker);
  }

  /** ... and is not blank. */
  lemma DefectiveMarkerNotBlank(marker: string)
    requires marker == DefectiveMarker
    ensures !IsBlank(marker)
  {
    BlankIffAllWhitespace(marker);
    assert !IsWhitespace(marker[0]);
  }

  lemma {:induction false} CountDefectiveIsSelect(items: seq<Item>)
    ensures CountDefective(items) == |Select(items, Condition, DefectiveMarker)|
  {
    if items != [] {
      CountDefectiveIsSelect(items[1..]);
    }
  }

  /**
   * The defective count is the length of the list a `condition` search for
   * "некондиц" would give: the panel counts what that search would keep.
   */
  lemma DefectiveCountIsConditionSearch(items: seq<Item>, warehouse: int)
    ensures CountDefective(items) == |FilterItems(items, FilterOptions(DefectiveMarker, Condition, warehouse))|
  {
    DefectiveMarkerLower(DefectiveMarker);
    DefectiveMarkerNotBlank(DefectiveMarker);
    CountDefectiveIsSelect(items);
  }

  // ---------------------------------------------------------------------------
  // warehouses and executors
  // ---------------------------------------------------------------------------

  /** `map(item => item.id_sklad)`. */
  function WarehouseIds(items: seq<Item>): (r: seq<Option<int>>)
    ensures |r| == |items|
    ensures forall i :: 0 <= i < |items| ==> r[i] == items[i].id_sklad
  {
    if items == [] then [] else [items[0].id_sklad] + WarehouseIds(items[1..])
  }

  /** `[...new Set(ids)]`; a record without a warehouse contributes the absent id. */
  function Warehouses(items: seq<Item>): seq<Option<int>> {
    Distinct(WarehouseIds(items))
  }

  /**
   * Every warehouse id of the records is listed exactly once, nothing else is
   * listed, and the ids appear in the order in which they first occur.
   */
  lemma WarehousesSpec(items: seq<Item>)
    ensures NoDuplicates(Warehouses(items))
    ensures forall w :: w in Warehouses(items) <==> exists i :: 0 <= i < |items| && items[i].id_sklad == w
    ensures forall i, j :: 0 <= i < j < |Warehouses(items)| ==>
      FirstIndex(WarehouseIds(items), Warehouses(items)[i]) < FirstIndex(WarehouseIds(items), Warehouses(items)[j])
  {
    var ids := WarehouseIds(items);
    var r := Warehouses(items);
    DistinctFirstOccurrenceOrder(ids);
    forall w
      ensures w in r <==> exists i :: 0 <= i < |items| && items[i].id_sklad == w
    {
      if w in r {
        var k :| 0 <= k < |r| && r[k] == w;
        var i :| 0 <= i < |ids| && ids[i] == w;
        assert items[i].id_sklad == w;
      }
      if exists i :: 0 <= i < |items| && items[i].id_sklad == w {
        var i :| 0 <= i < |items| && items[i].id_sklad == w;
        assert ids[i] == w;
      }
    }
  }

  /** `map(item => item.executor).filter(Boolean)`: the executors that are not empty. */
  function NamedExecutors(items: seq<Item>): (r: seq<string>)
    ensures forall i :: 0 <= i < |r| ==> r[i] != ""
    ensures forall e :: e in r <==> e != "" && exists i :: 0 <= i < |items| && items[i].executor == e
  {
    if items == [] then []
    else
      var rest := NamedExecutors(items[1..]);
      assert forall i :: 1 <= i < |items| ==> items[i] == items[1..][i - 1];
      if items[0].executor == "" then rest else [items[0].executor] + rest
  }

  function Executors(items: seq<Item>): seq<string> {
    Distinct(NamedExecutors(items))
  }

  /**
   * The executors are listed once each, the empty name never, and a name is
   * listed exactly when some record carries it.
   */
  lemma ExecutorsSpec(items: seq<Item>)
    ensures NoDuplicates(Executors(items))
    ensures "" !in Executors(items)
    ensures forall e :: e in Executors(items) <==> e != "" && exists i :: 0 <= i < |items| && items[i].executor == e
  {
    var named := NamedExecutors(items);
    var r := Executors(items);
    forall e
      ensures e in r <==> e in named
    {
      if e in r {
        var k :| 0 <= k < |r| && r[k] == e;
      }
      if e in named {
        var i :| 0 <= i < |named| && named[i] == e;
      }
    }
  }

  // ---------------------------------------------------------------------------
  // The panel
  // ---------------------------------------------------------------------------

  /** The palette colours the cards use. */
  datatype CardColor = Primary | Success | Error | Info | Secondary

  /** The colour of the defect card: red when any record is defective. */
  function DefectiveColor(defectiveItems: nat): (c: CardColor)
    ensures c == Error <==> defectiveItems > 0
    ensures c == Success <==> defectiveItems == 0
  {
    if defectiveItems > 0 then Error else Success
  }

  /** The defective share of the shown records, in percent; 0 when nothing is shown. */
  function DefectivePercentage(defectiveItems: nat, visibleItems: nat): real {
    if visibleItems > 0 then (defectiveItems as real / visibleItems as real) * 100.0 else 0.0
  }

  /** The shown share of all records, in percent; 100 when there are none. */
  function FilterPercentage(visibleItems: nat, totalItems: nat): real {
    if totalItems > 0 then (visibleItems as real / totalItems as real) * 100.0 else 100.0
  }

  /** A part of a whole is a percentage between 0 and 100. */
  lemma ShareBounds(part: nat, whole: nat)
    requires 0 < whole && part <= whole
    ensures 0.0 <= (part as real / whole as real) * 100.0 <= 100.0
    ensures (part as real / whole as real) * 100.0 == 0.0 <==> part == 0
    ensures (part as real / whole as real) * 100.0 == 100.0 <==> part == whole
  {
    var q := part as real / whole as real;
    assert q * whole as real == part as real;
    assert 0.0 <= q <= 1.0;
    assert q * 100.0 == 100.0 <==> q == 1.0;
    assert q == 1.0 <==> part as real == whole as real;
  }

  /** The defective share is a percentage, and 0 exactly when no shown record is defective. */
  lemma DefectivePercentageBounds(defectiveItems: nat, visibleItems: nat)
    requires defectiveItems <= visibleItems
    ensures 0.0 <= DefectivePercentage(defectiveItems, visibleItems) <= 100.0
    ensures DefectivePercentage(defectiveItems, visibleItems) == 0.0 <==> defectiveItems == 0
  {
    if visibleItems > 0 {
      ShareBounds(defectiveItems, visibleItems);
    }
  }

  /** The shown share is a percentage, and 100 exactly when every record is shown. */
  lemma FilterPercentageBounds(visibleItems: nat, totalItems: nat)
    requires visibleItems <= totalItems
    ensures 0.0 <= FilterPercentage(visibleItems, totalItems) <= 100.0
    ensures FilterPercentage(visibleItems, totalItems) == 100.0 <==> visibleItems == totalItems
  {
    if totalItems > 0 {
      ShareBounds(visibleItems, totalItems);
    }
  }

  /** The figures the panel shows. */
  datatype Stats = Stats(
    totalItems: nat,
    visibleItems: nat,
    filterActive: bool,
    totalQuantity: int,
    defectiveItems: nat,
    warehouses: seq<Option<int>>,
    executors: seq<string>,
    defectivePercentage: real,
    filterPercentage: real,
    recordsProgress: Option<real>,   // the bar under "Записей", only while a filter is active
    defectiveColor: CardColor
  )

  function ComputeStats(items: seq<Item>, filteredItems: seq<Item>): (s: Stats)
    ensures s.filterActive <==> |items| != |filteredItems|
    ensures s.defectiveItems <= s.visibleItems == |filteredItems|
    ensures s.recordsProgress.Some? <==> s.filterActive
    ensures s.defectiveColor == Error <==> s.defectiveItems > 0
    ensures s.totalItems == |items|
    ensures s.totalQuantity == TotalQuantity(filteredItems)
    ensures s.defectiveItems == CountDefective(filteredItems)
    ensures s.warehouses == Warehouses(filteredItems)
    ensures s.executors == Executors(filteredItems)
    ensures s.defectivePercentage == DefectivePercentage(s.defectiveItems, s.visibleItems)
    ensures s.filterPercentage == FilterPercentage(s.visibleItems, s.totalItems)
    ensures s.recordsProgress.Some? ==> s.recordsProgress.value == s.filterPercentage
    ensures s.defectiveColor == DefectiveColor(s.defectiveItems)
  {
    var totalItems := |items|;
    var visibleItems := |filteredItems|;
    var filterActive := totalItems != visibleItems;
    var defectiveItems := CountDefective(filteredItems);
    var filterPercentage := FilterPercentage(visibleItems, totalItems);
    Stats(
      totalItems, visibleItems, filterActive,
      TotalQuantity(filteredItems),
      defectiveItems,
      Warehouses(filteredItems),
      Executors(filteredItems),
      DefectivePercentage(defectiveItems, visibleItems),
      filterPercentage,
      if filterActive then Some(filterPercentage) else None,
      DefectiveColor(defectiveItems))
  }

  /**
   * Fed with the result of the filter, the panel reports a filter as active
   * exactly when the search is not blank and some record fails to match it.
   */
  lemma FilterActiveIffSomeDropped(items: seq<Item>, filters: FilterOptions)
    ensures ComputeStats(items, FilterItems(items, filters)).filterActive <==>
      !IsBlank(filters.search) &&
      exists k :: 0 <= k < |items| && !ItemMatches(items[k], filters.filterType, LowerString(filters.search))
  {
    if !IsBlank(filters.search) {
      var term := LowerString(filters.search);
      if k :| 0 <= k < |items| && !ItemMatches(items[k], filters.filterType, term) {
        SelectDropsMismatch(items, filters.filterType, term, k);
      } else {
        SelectAllMatch(items, filters.filterType, term);
      }
    }
  }

  /** While no filter is active, the records bar reads 100 percent. */
  lemma InactiveFilterIsFull(items: seq<Item>, filteredItems: seq<Item>)
    requires |filteredItems| <= |items|
    ensures ComputeStats(items, filteredItems).filterPercentage == 100.0 <==>
      !ComputeStats(items, filteredItems).filterActive
  {
    FilterPercentageBounds(|filteredItems|, |items|);
  }
}
