/**
 * The item service of the storefront: the item, stock and promotion tables,
 * the read side that joins them into item models, and the store whose
 * methods insert items and update stock and sales.
 */
module ItemService {
  import opened Wrappers

  /** A price, a BigDecimal in the service and a double column in the item table. */
  type Price = real

  /** A promotion start instant; the controller formats it for display. */
  type DateTime = int

  /** A row of the item table. */
  datatype ItemRow = ItemRow(id: int, title: string, price: Price, sales: int,
                             description: string, imgUrl: string)

  /** A row of the stock table; the table is keyed by the item the row belongs to. */
  datatype StockRow = StockRow(itemId: int, stock: int)

  /** A promotion as the promotion service reports it for an item. */
  datatype Promo = Promo(id: int, status: int, startDate: DateTime, promoItemPrice: Price)

  /**
   * The item model handed to createItem, with the fields the item controller
   * sets; its id, sales count and promotion are still unset.
   */
  datatype ItemDraft = ItemDraft(title: string, description: string, price: Price,
                                 stock: int, imgUrl: string)

  /** The non-null columns that insertSelective writes for a new item (id and sales are null). */
  datatype ItemInsert = ItemInsert(title: string, price: Price, description: string, imgUrl: string)

  /** An item model as the read side builds it; `promo` is None unless a promotion is attached. */
  datatype ItemModel = ItemModel(id: int, title: string, price: Price, stock: int,
                                 description: string, sales: int, imgUrl: string,
                                 promo: Option<Promo>)

  datatype ValidationResult = ValidationResult(hasErrors: bool, errMsg: string)

  datatype BizError = ParameterValidationError(errMsg: string)

  /** The promotion status code that getItemById refuses to attach (an ended promotion). */
  const PromoEnded := 3

  /** The sales count a freshly inserted item row reads back with (the column default). */
  const SalesDefault := 0

  /**
   * What the decreaseStock statement does to the row it matches: given the
   * row's stock and the amount, the new stock when the row is updated, None
   * when it is not.
   */
  type StockUpdate = (int, int) -> Option<int>

  /** What the increaseSales statement does to the row it matches: the new sales count. */
  type SalesUpdate = (int, int) -> int

  // ---------------------------------------------------------------- tables

  /** Every item row sits under its own id and has a stock row; every stock row sits under its item id. */
  ghost predicate WellFormed(items: map<int, ItemRow>, stocks: map<int, StockRow>) {
    && (forall k :: k in items ==> items[k].id == k && k in stocks)
    && (forall k :: k in stocks ==> stocks[k].itemId == k)
  }

  /** The listing order names each item row exactly once, in ascending key order. */
  ghost predicate Listed(items: map<int, ItemRow>, order: seq<int>) {
    && (forall i, j :: 0 <= i < j < |order| ==> order[i] < order[j])
    && (forall i :: 0 <= i < |order| ==> order[i] in items)
    && (forall k :: k in items ==> k in order)
  }

  /** itemDOMapper.selectByPrimaryKey */
  function SelectByPrimaryKey(items: map<int, ItemRow>, id: int): Option<ItemRow> {
    if id in items then Some(items[id]) else None
  }

  /** itemStockDOMapper.selectByItemId */
  function SelectByItemId(stocks: map<int, StockRow>, itemId: int): Option<StockRow> {
    if itemId in stocks then Some(stocks[itemId]) else None
  }

  /** promoService.getPromoByItemId, read from the promotion table. */
  function GetPromoByItemId(promos: map<int, Promo>, itemId: int): Option<Promo> {
    if itemId in promos then Some(promos[itemId]) else None
  }

  /** itemDOMapper.listItem: the item rows in listing order. */
  function ListRows(items: map<int, ItemRow>, order: seq<int>): (rows: seq<ItemRow>)
    requires forall i :: 0 <= i < |order| ==> order[i] in items
    ensures |rows| == |order|
    ensures forall i :: 0 <= i < |order| ==> rows[i] == items[order[i]]
  {
    if order == [] then [] else [items[order[0]]] + ListRows(items, order[1..])
  }

  /** The item row the database holds after insertSelective stores `itemDO` under key `id`. */
  function InsertedRow(id: int, itemDO: ItemInsert): ItemRow {
    ItemRow(id, itemDO.title, itemDO.price, SalesDefault, itemDO.description, itemDO.imgUrl)
  }

  // ---------------------------------------------------------------- conversions

  /** convertItemDOFromItemModel: the columns copied from the model. */
  function ConvertItemDOFromItemModel(itemModel: ItemDraft): ItemInsert {
    ItemInsert(itemModel.title, itemModel.price, itemModel.description, itemModel.imgUrl)
  }

  /** convertItemStockDOFromItemModel, applied to the model once its id is set to `id`. */
  function ConvertItemStockDOFromItemModel(id: int, itemModel: ItemDraft): StockRow {
    StockRow(id, itemModel.stock)
  }

  /** convertModelFromDataObject: the item row's fields and the stock row's stock. */
  function ConvertModelFromDataObject(itemDO: ItemRow, itemStockDO: StockRow): ItemModel {
    ItemModel(itemDO.id, itemDO.title, itemDO.price, itemStockDO.stock,
              itemDO.description, itemDO.sales, itemDO.imgUrl, None)
  }

  /** An item inserted by createItem reads back with the draft's fields and the draft's stock. */
  lemma CreatedItemReadsBack(id: int, d: ItemDraft)
    ensures var m := ConvertModelFromDataObject(InsertedRow(id, ConvertItemDOFromItemModel(d)),
                                                ConvertItemStockDOFromItemModel(id, d));
            && m.id == id && m.title == d.title && m.description == d.description
            && m.price == d.price && m.imgUrl == d.imgUrl && m.stock == d.stock
            && m.sales == SalesDefault && m.promo == None
  {
  }

  // ---------------------------------------------------------------- reads

  /**
   * getItemById: the item row joined with its stock row, with the item's
   * promotion attached only when there is one and its status is not 3.
   * The stock row is dereferenced unchecked, hence the precondition.
   */
  function GetItemById(items: map<int, ItemRow>, stocks: map<int, StockRow>,
                       promos: map<int, Promo>, id: int): (r: Option<ItemModel>)
    requires id in items ==> items[id].id in stocks
    ensures r.None? <==> id !in items
    ensures r.Some? ==>
              var row := items[id];
              && r.value.(promo := None) == ConvertModelFromDataObject(row, stocks[row.id])
              && r.value.id == row.id && r.value.stock == stocks[row.id].stock
              && (r.value.promo.Some? <==> row.id in promos && promos[row.id].status != PromoEnded)
              && (r.value.promo.Some? ==> r.value.promo.value == promos[row.id])
  {
    match SelectByPrimaryKey(items, id)
    case None => None
    case Some(itemDO) =>
      var itemStockDO := SelectByItemId(stocks, itemDO.id);
      var itemModel := ConvertModelFromDataObject(itemDO, itemStockDO.value);
      var promoModel := GetPromoByItemId(promos, itemModel.id);
      if promoModel.Some? && promoModel.value.status != PromoEnded then
        Some(itemModel.(promo := promoModel))
      else
        Some(itemModel)
  }

  /**
   * listItem: one model per listed item row, in the same order, each joined
   * with the stock row of its item; the listing never attaches a promotion.
   */
  function ListItem(rows: seq<ItemRow>, stocks: map<int, StockRow>): (r: seq<ItemModel>)
    requires forall i :: 0 <= i < |rows| ==> rows[i].id in stocks
    ensures |r| == |rows|
    ensures forall i :: 0 <= i < |rows| ==>
              r[i] == ConvertModelFromDataObject(rows[i], stocks[rows[i].id])
    ensures forall i :: 0 <= i < |rows| ==>
              r[i].id == rows[i].id && r[i].stock == stocks[rows[i].id].stock && r[i].promo.None?
  {
    if rows == [] then []
    else
      var itemStockDO := SelectByItemId(stocks, rows[0].id);
      [ConvertModelFromDataObject(rows[0], itemStockDO.value)] + ListItem(rows[1..], stocks)
  }

  /**
   * The i-th model of the listing is the model getItemById builds for the
   * i-th listed id, without its promotion.
   */
  lemma ListingAgreesWithGetItemById(items: map<int, ItemRow>, stocks: map<int, StockRow>,
                                     promos: map<int, Promo>, order: seq<int>, i: nat)
    requires WellFormed(items, stocks) && Listed(items, order)
    requires i < |order|
    ensures var listing := ListItem(ListRows(items, order), stocks);
            var single := GetItemById(items, stocks, promos, order[i]);
            single.Some? && |listing| == |order| && listing[i] == single.value.(promo := None)
  {
  }

  // ---------------------------------------------------------------- writes on the tables

  /**
   * The decreaseStock statement against the stock table: the new table and
   * the affected-row count. At most the row of `itemId` changes, and only in
   * its stock.
   */
  function DecreaseStockRows(stocks: map<int, StockRow>, itemId: int, amount: int,
                             update: StockUpdate): (r: (map<int, StockRow>, nat))
    ensures r.1 <= 1
    ensures r.1 == 1 <==> itemId in stocks && update(stocks[itemId].stock, amount).Some?
    ensures r.0.Keys == stocks.Keys
    ensures forall k :: k in stocks && k != itemId ==> r.0[k] == stocks[k]
    ensures itemId in stocks ==>
              r.0[itemId].itemId == stocks[itemId].itemId
              && r.0[itemId].stock == (if r.1 == 1 then update(stocks[itemId].stock, amount).value
                                       else stocks[itemId].stock)
  {
    if itemId in stocks then
      match update(stocks[itemId].stock, amount)
      case Some(s) => (stocks[itemId := stocks[itemId].(stock := s)], 1)
      case None => (stocks, 0)
    else (stocks, 0)
  }

  /**
   * The increaseSales statement against the item table: at most the row of
   * `itemId` changes, and only in its sales count.
   */
  function IncreaseSalesRows(items: map<int, ItemRow>, itemId: int, amount: int,
                             update: SalesUpdate): (r: map<int, ItemRow>)
    ensures r.Keys == items.Keys
    ensures forall k :: k in items && k != itemId ==> r[k] == items[k]
    ensures itemId in items ==>
              r[itemId].(sales := items[itemId].sales) == items[itemId]
              && r[itemId].sales == update(items[itemId].sales, amount)
  {
    if itemId in items then items[itemId := items[itemId].(sales := update(items[itemId].sales, amount))]
    else items
  }

  // ---------------------------------------------------------------- a guarded store

  /** A decrement that applies only when the row holds at least `amount`. */
  function GuardedDecrement(stock: int, amount: int): Option<int> {
    if stock >= amount then Some(stock - amount) else None
  }

  /** `n` successive decreaseStock calls of amount 1 on one item: the final table and how many succeeded. */
  function UnitDecrements(stocks: map<int, StockRow>, itemId: int, n: nat,
                          update: StockUpdate): (map<int, StockRow>, nat)
  {
    if n == 0 then (stocks, 0)
    else
      var (after, affected) := DecreaseStockRows(stocks, itemId, 1, update);
      var (final, succeeded) := UnitDecrements(after, itemId, n - 1, update);
      (final, affected + succeeded)
  }

  function Min(a: int, b: int): int { if a <= b then a else b }

  /**
   * When the store's decrement is guarded, n unit purchases against a
   * non-negative stock S succeed exactly min(S, n) times and leave S minus
   * that many, never below zero.
   */
  lemma {:induction false} GuardedDecrementsNeverOversell(stocks: map<int, StockRow>, itemId: int, n: nat)
    requires itemId in stocks && stocks[itemId].stock >= 0
    ensures var (final, succeeded) := UnitDecrements(stocks, itemId, n, GuardedDecrement);
            && itemId in final
            && succeeded == Min(stocks[itemId].stock, n)
            && final[itemId].stock == stocks[itemId].stock - succeeded
            && final[itemId].stock >= 0
  {
    if n > 0 {
      var (after, _) := DecreaseStockRows(stocks, itemId, 1, GuardedDecrement);
      GuardedDecrementsNeverOversell(after, itemId, n - 1);
    }
  }

  // ---------------------------------------------------------------- the store

  /**
   * The database behind the item service. `order` is the order in which the
   * item listing returns rows, `nextId` the next generated item key.
   */
  class ItemStore {
    var items: map<int, ItemRow>
    var stocks: map<int, StockRow>
    var promos: map<int, Promo>
    var order: seq<int>
    var nextId: int
    const validate: ItemDraft -> ValidationResult
    const stockUpdate: StockUpdate
    const salesUpdate: SalesUpdate

    /** Every item has a stock row, and no row sits under a key not yet generated. */
    ghost predicate Valid()
      reads this
    {
      && WellFormed(items, stocks)
      && Listed(items, order)
      && (forall k :: k in stocks ==> k < nextId)
    }

    constructor (promos: map<int, Promo>, validate: ItemDraft -> ValidationResult,
                 stockUpdate: StockUpdate, salesUpdate: SalesUpdate)
      ensures Valid()
      ensures items == map[] && stocks == map[] && order == [] && this.promos == promos
      ensures this.validate == validate && this.stockUpdate == stockUpdate
      ensures this.salesUpdate == salesUpdate
    {
      items, stocks, order, nextId := map[], map[], [], 1;
      this.promos := promos;
      this.validate, this.stockUpdate, this.salesUpdate := validate, stockUpdate, salesUpdate;
    }

    /**
     * createItem: rejects an invalid model before writing anything; otherwise
     * inserts the item row under a new key, then its stock row, and returns
     * getItemById of the new key.
     */
    method CreateItem(itemModel: ItemDraft) returns (r: Result<Option<ItemModel>, BizError>)
      requires Valid()
      modifies this
      ensures Valid()
      ensures promos == old(promos)
      ensures validate(itemModel).hasErrors ==>
                && r == Err(ParameterValidationError(validate(itemModel).errMsg))
                && items == old(items) && stocks == old(stocks)
                && order == old(order) && nextId == old(nextId)
      ensures !validate(itemModel).hasErrors ==>
                var id := old(nextId);
                && id !in old(items) && id !in old(stocks)
                && items == old(items)[id := InsertedRow(id, ConvertItemDOFromItemModel(itemModel))]
                && stocks == old(stocks)[id := StockRow(id, itemModel.stock)]
                && |items| == |old(items)| + 1 && |stocks| == |old(stocks)| + 1
                && order == old(order) + [id] && nextId == id + 1
                && r == Ok(GetItemById(items, stocks, promos, id))
                && r.value.Some? && r.value.value.id == id && r.value.value.stock == itemModel.stock
    {
      var result := validate(itemModel);
      if result.hasErrors {
        return Err(ParameterValidationError(result.errMsg));
      }
      var itemDO := ConvertItemDOFromItemModel(itemModel);
      // insertSelective: the row is stored under the next generated key
      var id := nextId;
      items := items[id := InsertedRow(id, itemDO)];
      order := order + [id];
      nextId := nextId + 1;
      // the stock row, keyed by the generated id
      var itemStockDO := ConvertItemStockDOFromItemModel(id, itemModel);
      stocks := stocks[itemStockDO.itemId := itemStockDO];
      r := Ok(GetItemById(items, stocks, promos, id));
    }

    /** decreaseStock: success is "the statement affected a row"; only the stock table changes. */
    method DecreaseStock(itemId: int, amount: int) returns (ok: bool)
      requires Valid()
      modifies this`stocks
      ensures Valid()
      ensures var (rows, affectedRow) := DecreaseStockRows(old(stocks), itemId, amount, stockUpdate);
              stocks == rows && ok == (affectedRow > 0)
      ensures items == old(items) && promos == old(promos) && order == old(order)
    {
      var (rows, affectedRow) := DecreaseStockRows(stocks, itemId, amount, stockUpdate);
      stocks := rows;
      ok := affectedRow > 0;
    }

    /** increaseSales: only the item table changes; the stock table is left as it was. */
    method IncreaseSales(itemId: int, amount: int)
      requires Valid()
      modifies this`items
      ensures Valid()
      ensures items == IncreaseSalesRows(old(items), itemId, amount, salesUpdate)
      ensures stocks == old(stocks) && promos == old(promos) && order == old(order)
    {
      items := IncreaseSalesRows(items, itemId, amount, salesUpdate);
    }
  }
}
