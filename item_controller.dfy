/**
 * The item controller: assembles the item model from request parameters,
 * calls the item service and turns item models into view objects.
 */
module ItemController {
  import opened Wrappers
  import opened ItemService

  /** The view object returned to the page; the promotion fields stay null without a promotion. */
  datatype ItemVO = ItemVO(id: int, title: string, price: Price, stock: int,
                           description: string, sales: int, imgUrl: string,
                           promoStatus: int, promoId: Option<int>,
                           startDate: Option<DateTime>, promoPrice: Option<Price>)

  /** The promoStatus a view shows when no promotion is attached. */
  const NoPromotion := 0

  /** The view carries the model's item fields unchanged. */
  predicate CopiesItem(v: ItemVO, m: ItemModel) {
    && v.id == m.id && v.title == m.title && v.price == m.price && v.stock == m.stock
    && v.description == m.description && v.sales == m.sales && v.imgUrl == m.imgUrl
  }

  /**
   * convertVOFromModel: null for null; otherwise the item fields, and either
   * the attached promotion's status, id, start date and price, or status 0.
   */
  function ConvertVOFromModel(itemModel: Option<ItemModel>): (v: Option<ItemVO>)
    ensures v.None? <==> itemModel.None?
    ensures v.Some? ==> CopiesItem(v.value, itemModel.value)
    ensures v.Some? && itemModel.value.promo.None? ==>
              && v.value.promoStatus == NoPromotion && v.value.promoId.None?
              && v.value.startDate.None? && v.value.promoPrice.None?
    ensures v.Some? && itemModel.value.promo.Some? ==>
              var p := itemModel.value.promo.value;
              && v.value.promoStatus == p.status && v.value.promoId == Some(p.id)
              && v.value.startDate == Some(p.startDate) && v.value.promoPrice == Some(p.promoItemPrice)
  {
    match itemModel
    case None => None
    case Some(m) =>
      var itemVO := ItemVO(m.id, m.title, m.price, m.stock, m.description, m.sales, m.imgUrl,
                           NoPromotion, None, None, None);
      match m.promo
      case Some(p) =>
        Some(itemVO.(promoStatus := p.status, promoId := Some(p.id),
                     startDate := Some(p.startDate), promoPrice := Some(p.promoItemPrice)))
      case None => Some(itemVO.(promoStatus := NoPromotion))
  }

  /**
   * getItem: null data for an unknown id; otherwise the item's view, whose
   * promoStatus is never 3: it is 0 with no promotion, or the status of a
   * promotion the service let through.
   */
  function GetItem(items: map<int, ItemRow>, stocks: map<int, StockRow>,
                   promos: map<int, Promo>, id: int): (v: Option<ItemVO>)
    requires id in items ==> items[id].id in stocks
    ensures v.None? <==> id !in items
    ensures v.Some? ==> v.value.promoStatus != PromoEnded
    ensures v.Some? ==>
              var key := items[id].id;
              || (v.value.promoStatus == NoPromotion && v.value.promoId.None?)
              || (key in promos && v.value.promoId == Some(promos[key].id)
                  && v.value.promoStatus == promos[key].status != PromoEnded)
    ensures v.Some? ==>
              var key := items[id].id;
              v.value.promoId.Some? <==> key in promos && promos[key].status != PromoEnded
    ensures v.Some? && v.value.promoId.None? ==> v.value.promoStatus == NoPromotion
    ensures v.Some? ==> v.value.id == items[id].id && v.value.stock == stocks[items[id].id].stock
  {
    ConvertVOFromModel(GetItemById(items, stocks, promos, id))
  }

  /** The stream map of listItem: one view per model, in the same order. */
  function ConvertVOList(models: seq<ItemModel>): (vs: seq<ItemVO>)
    ensures |vs| == |models|
    ensures forall i :: 0 <= i < |models| ==> ConvertVOFromModel(Some(models[i])) == Some(vs[i])
  {
    if models == [] then []
    else [ConvertVOFromModel(Some(models[0])).value] + ConvertVOList(models[1..])
  }

  /**
   * listItem: the views of the service's listing, one per listed item row,
   * in listing order, each with its stock; no view shows a promotion.
   */
  function ListItem(items: map<int, ItemRow>, stocks: map<int, StockRow>,
                    order: seq<int>): (vs: seq<ItemVO>)
    requires forall i :: 0 <= i < |order| ==> order[i] in items && items[order[i]].id in stocks
    ensures |vs| == |order|
    ensures forall i :: 0 <= i < |order| ==>
              var row := items[order[i]];
              && CopiesItem(vs[i], ConvertModelFromDataObject(row, stocks[row.id]))
              && vs[i].id == row.id && vs[i].title == row.title && vs[i].price == row.price
              && vs[i].stock == stocks[row.id].stock
              && vs[i].promoStatus == NoPromotion && vs[i].promoId.None?
              && vs[i].startDate.None? && vs[i].promoPrice.None?
  {
    var rows := ListRows(items, order);
    ConvertVOList(ItemService.ListItem(rows, stocks))
  }

  /** The item model createItem assembles from its request parameters. */
  function AssembleItemModel(title: string, description: string, price: Price, stock: int,
                             imgUrl: string): ItemDraft {
    ItemDraft(title, description, price, stock, imgUrl)
  }

  /**
   * createItem: the parameters go into the model unchanged; a validation
   * error propagates, otherwise the view of the created item carries them.
   */
  method CreateItem(store: ItemStore, title: string, description: string, price: Price,
                    stock: int, imgUrl: string) returns (r: Result<Option<ItemVO>, BizError>)
    requires store.Valid()
    modifies store
    ensures store.Valid()
    ensures store.promos == old(store.promos)
    ensures var itemModel := AssembleItemModel(title, description, price, stock, imgUrl);
            var result := store.validate(itemModel);
            && (result.hasErrors ==>
                  && r == Err(ParameterValidationError(result.errMsg))
                  && store.items == old(store.items) && store.stocks == old(store.stocks)
                  && store.order == old(store.order) && store.nextId == old(store.nextId))
            && (!result.hasErrors ==>
                  var id := old(store.nextId);
                  && store.items == old(store.items)[id := InsertedRow(id, ConvertItemDOFromItemModel(itemModel))]
                  && store.stocks == old(store.stocks)[id := StockRow(id, stock)]
                  && store.order == old(store.order) + [id]
                  && store.nextId == id + 1
                  && r.Ok? && r.value.Some?
                  && r.value.value.id == id
                  && r.value.value.title == title && r.value.value.description == description
                  && r.value.value.price == price && r.value.value.stock == stock
                  && r.value.value.imgUrl == imgUrl && r.value.value.promoStatus != PromoEnded)
  {
    var itemModel := AssembleItemModel(title, description, price, stock, imgUrl);
    var created := store.CreateItem(itemModel);
    match created
    case Err(e) => r := Err(e);
    case Ok(itemModelForReturn) =>
      r := Ok(ConvertVOFromModel(itemModelForReturn));
  }
}
