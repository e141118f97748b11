# Item catalogue and stock bookkeeping of a flash-sale storefront

This project models the item part of a flash-sale ("seconds-kill") storefront. It has three parts:

- the item service's tables: items, stock rows keyed by item id, and promotions keyed by item id;
- the read side, which joins an item row with its stock row and, for the detail page, with its promotion;
- the write side: creating an item together with its stock row, decrementing stock and increasing sales.

It also models the item controller, which assembles the item model from request parameters and turns item models into view objects.

Layout:

- `wrappers.dfy` defines `Option` (a Java reference that may be null) and `Result` (a call that may throw).
- `item_service.dfy` is module `ItemService`, for `ItemServiceImpl`. It holds the row types and the read functions over the table maps. It also holds the class `ItemStore`, whose fields are the tables and whose methods `CreateItem`, `DecreaseStock` and `IncreaseSales` change them. `ItemStore.Valid()` is the invariant the read side relies on: every item row has a stock row.
- `item_controller.dfy` is module `ItemController`, for `ItemController`. It holds the view object `ItemVO` and the controller's four operations.

Some collaborators are outside this model. They enter it as follows:

- The validator is an injected function `ItemDraft -> ValidationResult`.
- The promotion service is read from the promotion table. The status is a given integer.
- The two update statements of the mappers are injected functions on one row (`StockUpdate`, `SalesUpdate`). For the stock statement, the affected-row count is 1 exactly when the item's stock row exists and the statement applies to it. The sales statement's count is not modelled, since increaseSales ignores it.

Behaviour worth knowing:

- An unknown id gives a null model (ItemServiceImpl.java:68-69), and the controller then returns null data.
- A view without a promotion has promoStatus 0 and null promotion fields.
- The item listing attaches no promotion, so every listed view has promoStatus 0.
- Whether the stock decrement is conditional depends on SQL that is not part of this model. So "never oversell" is proved only under an explicit assumption: the store's rule is `GuardedDecrement`.

## Model

| member | source | states |
|---|---|---|
| `ItemService.ListRows` | src/main/java/com/gan/service/impl/ItemServiceImpl.java:57 | the item listing returns one row per listed id, in listing order |
| `ItemService.CreatedItemReadsBack` | src/main/java/com/gan/service/impl/ItemServiceImpl.java:100-135 | an item stored by createItem's two conversions reads back with the new id, the draft's title, description, price and image, the draft's stock, the default sales count and no promotion |
| `ItemService.ConvertItemDOFromItemModel` | src/main/java/com/gan/service/impl/ItemServiceImpl.java:100-107 | copies the model's title, price, description and image into the insert; id and sales stay unset (null), so the database assigns the key and the column default; `CreatedItemReadsBack` states what this yields on read-back |
| `ItemService.ConvertItemStockDOFromItemModel` | src/main/java/com/gan/service/impl/ItemServiceImpl.java:114-121 | a stock row whose item id is the model's (newly set) id and whose stock is the model's stock; `CreatedItemReadsBack` states what this yields on read-back |
| `ItemService.ConvertModelFromDataObject` | src/main/java/com/gan/service/impl/ItemServiceImpl.java:129-135 | an item model with the item row's id, title, price, description, sales and image and the stock row's stock; no promotion is attached; `CreatedItemReadsBack`, `GetItemById` and `ListItem` state it about their results |
| `ItemService.GetItemById` | src/main/java/com/gan/service/impl/ItemServiceImpl.java:65-80 | null exactly when the item table has no row for the id; otherwise the item row joined with its item's stock row; a promotion is attached iff the promotion lookup is non-null and its status is not 3, and then it is that promotion |
| `ItemService.ListItem` | src/main/java/com/gan/service/impl/ItemServiceImpl.java:55-63 | one model per item row, same length and order; element i is row i joined with the stock row of row i's id, so it carries that stock, and it has no promotion |
| `ItemService.ListingAgreesWithGetItemById` | src/main/java/com/gan/service/impl/ItemServiceImpl.java:57-79 | on well-formed tables, element i of the listing is what getItemById returns for the i-th listed id, apart from its promotion |
| `ItemService.DecreaseStockRows` | src/main/java/com/gan/service/impl/ItemServiceImpl.java:85 | the decrement statement affects at most one row, and exactly one iff the item's stock row exists and the statement applies; it keeps every key and every other row, and changes only that row's stock |
| `ItemService.IncreaseSalesRows` | src/main/java/com/gan/service/impl/ItemServiceImpl.java:92 | the sales statement keeps every key and every other row, and changes only the sales count of the item's row |
| `ItemService.GuardedDecrementsNeverOversell` | src/main/java/com/gan/service/impl/ItemServiceImpl.java:84-87 | when the store's decrement is guarded, n unit decrements against stock S succeed exactly min(S, n) times and leave S minus that, never negative |
| `ItemService.ItemStore.constructor` | src/main/java/com/gan/service/impl/ItemServiceImpl.java:26-33 | a store with empty item and stock tables, the given promotions and the injected validator and statements satisfies the invariant |
| `ItemService.ItemStore.CreateItem` | src/main/java/com/gan/service/impl/ItemServiceImpl.java:35-53 | on a validation error it throws PARAMETER_VALIDATION_ERROR with the validator's message and writes no table; otherwise it adds exactly one item row under a new key and exactly one stock row under that key holding the input stock, and advances the next key by one; it keeps the invariant and returns getItemById of the new key, which is non-null and carries the input stock |
| `ItemService.ItemStore.DecreaseStock` | src/main/java/com/gan/service/impl/ItemServiceImpl.java:82-87 | returns true iff the statement affected more than zero rows; only the stock table changes; the invariant is kept |
| `ItemService.ItemStore.IncreaseSales` | src/main/java/com/gan/service/impl/ItemServiceImpl.java:89-93 | only the item table changes, and the stock table is left as it was; the invariant is kept |
| `ItemController.ConvertVOFromModel` | src/main/java/com/gan/controller/ItemController.java:91-107 | null for null; otherwise the item fields copied; with no promotion attached, promoStatus is 0 and the promotion fields are null; with one, promoStatus, promoId, start date and promoPrice are the promotion's status, id, start date and promo price |
| `ItemController.GetItem` | src/main/java/com/gan/controller/ItemController.java:63-69 | null data exactly for an unknown id; otherwise the view shows a promotion (promoId set) iff the item has one whose status is not 3; without one promoStatus is 0, with one it is that promotion's status and id; so promoStatus is never 3 |
| `ItemController.ConvertVOList` | src/main/java/com/gan/controller/ItemController.java:80-82 | one view per model, same length and order, each the conversion of that model |
| `ItemController.ListItem` | src/main/java/com/gan/controller/ItemController.java:75-84 | one view per listed item row, in listing order, carrying that row's fields and its stock row's stock; every listed view has promoStatus 0 and null promotion fields |
| `ItemController.AssembleItemModel` | src/main/java/com/gan/controller/ItemController.java:47-52 | the item model createItem hands to the service: the request's title, description, price, stock and image, with id, sales and promotion unset; `ItemController.CreateItem` states that they reach the returned view unchanged |
| `ItemController.CreateItem` | src/main/java/com/gan/controller/ItemController.java:38-56 | title, description, price, stock and image go into the model unchanged; a validation error propagates with no table written; otherwise the returned view carries the new id and exactly those parameters |

## Left out

- User registration, login and one-time passcodes. They are session plumbing, hashing and random numbers, and their service is not part of this model.
- The SQL of the two update statements is not part of this model. `StockUpdate` and `SalesUpdate` stand for them. The model assumes each statement touches at most the row of its item id and only the stock or sales column. It does not assume a "stock ≥ amount" guard except in `GuardedDecrementsNeverOversell`, where the guard is an explicit hypothesis.
- The SQL of the item listing is not part of this model. It is modelled as insertion order, which for generated keys is ascending key order.
- Key generation is modelled as `nextId`, incremented per insert.
- The sales column default of a new item row is assumed to be 0 (`SalesDefault`), because the schema is not part of this model.
- Concurrency, transactions and rollback. The model is single-threaded and sequential.
- The conversions between the BigDecimal price and the double column are floating point. Price is a `real` carried through unchanged.
- ItemService.CreatedItemReadsBack: states that the read-back price equals the draft's price. In the source it is the double round trip of the input, `new BigDecimal(price.doubleValue())`, which can differ from it (for 19.99, say).
- ItemController.CreateItem: states that the view's price equals the request's price. In the source it is that same double round trip of the input.
- The formatting of the promotion start date as a `yyyy-MM-dd HH:mm:ss` string. The view carries the start instant itself.
- How the promotion service computes a status from timestamps. The status is a given integer.
- The validator's rules. Validation is an injected function.
- `CommonReturnType` wrapping. The controller operations return the data they would wrap.
- Null request parameters and a model id or sales count supplied by a caller of createItem. `ItemDraft` holds exactly the fields the controller sets.
- The write of the generated id back into the caller's item model (`itemModel.setId`). `ItemDraft` is a value, so the caller's model object is not updated with the new id; no shown caller reads it afterwards.
- `ItemService.GetItemById`: an item row without a stock row makes the source throw a NullPointerException. The model instead requires that stock row, and `ItemStore.Valid()` guarantees it for every item.
- `ItemService.ListItem`: the same holds for every listed row.
