/**
 * The item normalizer of the storage API client: how one loosely typed record
 * of the backend becomes an `Item`, and how a response becomes the item list.
 */
module Api {
  import opened Wrappers
  import opened Items

  /**
   * A backend record. Every field may be absent (`None`); the two counters
   * are already parsed integers.
   */
  datatype RawItem = RawItem(
    id: Option<int>,
    name: Option<string>,
    article: Option<string>,
    shk: Option<string>,
    placeQnt: Option<int>,
    productQnt: Option<int>,
    wrShk: Option<string>,
    name_wr_shk: Option<string>,
    idScklad: Option<int>,
    prunitName: Option<string>,
    conditionState: Option<string>,
    reason: Option<string>,
    expirationDate: Option<string>,
    createDate: Option<string>,
    updateDate: Option<string>,
    executor: Option<string>
  )

  /** `field || ''`: an absent field, like an empty one, gives the empty string. */
  function OrEmpty(field: Option<string>): string {
    match field
    case None => ""
    case Some(s) => s
  }

  /** `parseInt(field || '0')`: an absent counter reads as 0. */
  function ReadCounter(field: Option<int>): int {
    match field
    case None => 0
    case Some(n) => n
  }

  /** The three derived quantity fields. */
  datatype Quantities = Quantities(quantity: int, nested_quantity: int, product_qnt: int)

  /**
   * The quantity rule: with both raw counters positive, `quantity` is the
   * floor of `placeQnt / productQnt`; otherwise it is 0. The other two fields
   * always carry the raw counters, whatever their sign.
   */
  function DeriveQuantities(rawQuantity: int, rawProductQnt: int): (q: Quantities)
    ensures q.product_qnt == rawQuantity && q.nested_quantity == rawProductQnt
    ensures rawProductQnt > 0 && rawQuantity > 0 ==>
      0 <= q.quantity &&
      q.quantity * q.nested_quantity <= q.product_qnt < (q.quantity + 1) * q.nested_quantity
    ensures !(rawProductQnt > 0 && rawQuantity > 0) ==> q.quantity == 0
  {
    if rawProductQnt > 0 && rawQuantity > 0 then
      Quantities(rawQuantity / rawProductQnt, rawProductQnt, rawQuantity)
    else
      Quantities(0, rawProductQnt, rawQuantity)
  }

  /**
   * The quantity invariant of an item, stated without division: with both
   * counters positive, `quantity` whole nesting units fit into `product_qnt`
   * and one more would not; otherwise `quantity` is 0.
   */
  predicate QuantitiesConsistent(item: Item) {
    if item.nested_quantity > 0 && item.product_qnt > 0 then
      0 <= item.quantity &&
      item.quantity * item.nested_quantity <= item.product_qnt < (item.quantity + 1) * item.nested_quantity
    else
      item.quantity == 0
  }

  function TransformItem(raw: RawItem): (item: Item)
    ensures item.product_qnt == ReadCounter(raw.placeQnt)
    ensures item.nested_quantity == ReadCounter(raw.productQnt)
    ensures QuantitiesConsistent(item)
  {
    var q := DeriveQuantities(ReadCounter(raw.placeQnt), ReadCounter(raw.productQnt));
    Item(
      id := raw.id,
      name := OrEmpty(raw.name),
      article := OrEmpty(raw.article),
      shk := OrEmpty(raw.shk),
      quantity := q.quantity,
      nested_quantity := q.nested_quantity,
      product_qnt := q.product_qnt,
      wr_shk := OrEmpty(raw.wrShk),
      wr_name := OrEmpty(raw.name_wr_shk),
      id_sklad := raw.idScklad,
      prunit_name := OrEmpty(raw.prunitName),
      condition_state := OrEmpty(raw.conditionState),
      reason := OrEmpty(raw.reason),
      expiration_date := raw.expirationDate,
      createDate := OrEmpty(raw.createDate),
      updateDate := OrEmpty(raw.updateDate),
      executor := OrEmpty(raw.executor)
    )
  }

  /**
   * The backend record that describes `item` field for field, under the
   * backend's own names: the inverse of the renaming `TransformItem` does.
   */
  function ToRaw(item: Item): RawItem {
    RawItem(
      id := item.id,
      name := Some(item.name),
      article := Some(item.article),
      shk := Some(item.shk),
      placeQnt := Some(item.product_qnt),
      productQnt := Some(item.nested_quantity),
      wrShk := Some(item.wr_shk),
      name_wr_shk := Some(item.wr_name),
      idScklad := item.id_sklad,
      prunitName := Some(item.prunit_name),
      conditionState := Some(item.condition_state),
      reason := Some(item.reason),
      expirationDate := item.expiration_date,
      createDate := Some(item.createDate),
      updateDate := Some(item.updateDate),
      executor := Some(item.executor)
    )
  }

  /** The quantity invariant pins `quantity` down: it is the floor quotient. */
  lemma QuotientUnique(k: int, n: int, p: int)
    requires n > 0 && 0 <= k && k * n <= p < (k + 1) * n
    ensures k == p / n
  {
    var d := p / n;
    assert d * n <= p < (d + 1) * n;
    LessFromProduct(d, k + 1, n);
    LessFromProduct(k, d + 1, n);
  }

  lemma LessFromProduct(a: int, b: int, n: int)
    requires n > 0 && a * n < b * n
    ensures a < b
  {
    assert (b - a) * n == b * n - a * n;
  }

  /**
   * Normalizing the record that describes an item gives the item back exactly
   * when the item satisfies the quantity invariant: the renames and defaults
   * lose nothing, and the invariant is all that the derivation imposes.
   */
  lemma TransformToRawRoundTrip(item: Item)
    ensures TransformItem(ToRaw(item)) == item <==> QuantitiesConsistent(item)
  {
    if QuantitiesConsistent(item) && item.nested_quantity > 0 && item.product_qnt > 0 {
      QuotientUnique(item.quantity, item.nested_quantity, item.product_qnt);
    }
  }

  /**
   * The record with every absent string made `""` and every absent counter
   * `0`; identifiers and the expiration date are left as they are.
   */
  function Filled(raw: RawItem): RawItem {
    raw.(name := Some(OrEmpty(raw.name)), article := Some(OrEmpty(raw.article)),
         shk := Some(OrEmpty(raw.shk)), placeQnt := Some(ReadCounter(raw.placeQnt)),
         productQnt := Some(ReadCounter(raw.productQnt)), wrShk := Some(OrEmpty(raw.wrShk)),
         name_wr_shk := Some(OrEmpty(raw.name_wr_shk)), prunitName := Some(OrEmpty(raw.prunitName)),
         conditionState := Some(OrEmpty(raw.conditionState)), reason := Some(OrEmpty(raw.reason)),
         createDate := Some(OrEmpty(raw.createDate)), updateDate := Some(OrEmpty(raw.updateDate)),
         executor := Some(OrEmpty(raw.executor)))
  }

  /**
   * Any record, however many fields it lacks: an absent string field acts as
   * `""` and an absent counter as `0`, and describing the normalized item
   * again gives exactly that filled-in record. With the round trip above this
   * fixes the normalizer on every input.
   */
  lemma AbsentFieldsActAsDefaults(raw: RawItem)
    ensures TransformItem(raw) == TransformItem(Filled(raw))
    ensures ToRaw(TransformItem(raw)) == Filled(raw)
  {
  }

  /** A record with no fields at all. */
  const EmptyRaw := RawItem(None, None, None, None, None, None, None, None,
                            None, None, None, None, None, None, None, None)

  /**
   * The empty record normalizes without error: every string field is empty and
   * every counter 0, while `id`, `id_sklad` and `expiration_date` stay absent.
   */
  lemma TransformEmptyRecord()
    ensures var item := TransformItem(EmptyRaw);
      && item.id.None? && item.id_sklad.None? && item.expiration_date.None?
      && item.quantity == 0 && item.nested_quantity == 0 && item.product_qnt == 0
      && item.name == item.article == item.shk == item.wr_shk == item.wr_name == ""
      && item.prunit_name == item.condition_state == item.reason == ""
      && item.createDate == item.updateDate == item.executor == ""
  {
  }

  /** `items.map(transformItem)`: same length and order, element-wise normalized. */
  function TransformAll(raws: seq<RawItem>): (items: seq<Item>)
    ensures |items| == |raws|
    ensures forall i :: 0 <= i < |raws| ==> items[i] == TransformItem(raws[i])
  {
    if raws == [] then [] else [TransformItem(raws[0])] + TransformAll(raws[1..])
  }

  /**
   * The pure step of `getItems`: a response without `data.items` gives the
   * empty list, otherwise every record is normalized in order.
   */
  function GetItems(responseItems: Option<seq<RawItem>>): (items: seq<Item>)
    ensures responseItems.None? ==> items == []
    ensures responseItems.Some? ==> |items| == |responseItems.value|
    ensures forall i :: 0 <= i < |items| ==>
      responseItems.Some? && items[i] == TransformItem(responseItems.value[i])
  {
    match responseItems
    case None => []
    case Some(raws) => TransformAll(raws)
  }

  /** Every item the client hands to the dashboard satisfies the quantity invariant. */
  lemma GetItemsConsistent(responseItems: Option<seq<RawItem>>)
    ensures forall item :: item in GetItems(responseItems) ==> QuantitiesConsistent(item)
  {
  }

  /** Normalizing a batch piece by piece is normalizing it at once. */
  lemma {:induction false} TransformAllAppend(xs: seq<RawItem>, ys: seq<RawItem>)
    ensures TransformAll(xs + ys) == TransformAll(xs) + TransformAll(ys)
  {
    if xs != [] {
      assert (xs + ys)[1..] == xs[1..] + ys;
      TransformAllAppend(xs[1..], ys);
    }
  }
}
