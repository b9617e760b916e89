# Point-of-sale frontend rules, modelled in Dafny

This project models the rules inside the point-of-sale web client of a bar
or restaurant: the cashier's cart and its submission as one order, the
menu filtered by category and search term, the kitchen display that keeps
two columns of orders current from pushed messages, and the small forms
that create tables, wristbands and products or edit a product's details
and stock.

Every backend call is an abstract outcome, `Http.Outcome`: `Success(value)`
or `Failure(HttpError(responseError, responseMessage, message))`, where the
three strings stand for the response body's `error`, the response body's
`message` and the error's own `message`, and "" stands for a missing or
falsy value. A handler that awaits a call is split in two methods: the part
up to the request, which returns the request it sends (or `None` when it
sends nothing), and a `...Settled` part that takes the outcome. The state
in between, such as `isSubmitting == true`, is therefore visible.

Modules, one per source file plus shared ones:

- `Wrappers`: `Option`.
- `Http`: the outcome type, and `OrElse`, which is JavaScript's `a || b` on strings.
- `Text`: `trim`, `includes`, ASCII `toLowerCase`, `parseInt(s, 10)`, integer formatting, and lexicographic order.
- `Domain`: the records the pages exchange with the backend.
- `OrderFlow`: the status steps that the kitchen, waiter and overview views offer.
- `Sorting`: the in-place `Array.prototype.sort` with a comparator, as insertion sort on an `array`.
- `Notices`: the "contains `Erro`" colouring rule.
- `PointOfSale` (`src/routes/index.lazy.tsx`): the cart, the grouping `reduce`, `productsByCategory` and the page's state cells as a class.
- `ProductModalView`, `MenuListView`, `OrderSummaryView`: the three components of that page.
- `Kitchen` (`src/routes/kitchen.lazy.tsx`): the two columns as a class with two `seq` fields, proved against the pure `ApplyMessage`.
- `ManageTables`, `Wristbands`, `AddProduct`, `EditProduct`: the four forms, each a class.

The source's `IOrder` type has no `status` field, but the kitchen reads
`order.status`, so the model's `Order` has one. `OrderSummary` declares
the props `wristbandCode` and `setWristbandCode`, but the page passes
`sessionId` and `setSessionId`. The model reads both as one code string,
the page's `sessionId`. What the mismatch does as written is under
"Findings".

## Model

| member | source | states |
|---|---|---|
| PointOfSale.PointOfSalePage.AddProductToOrder | src/routes/index.lazy.tsx:36-41 | the cart becomes the old cart followed by exactly `quantity` copies of the product, so the old cart stays a prefix; the message is cleared and the modal closed; nothing else changes |
| PointOfSale.Repeat | src/routes/index.lazy.tsx:38 | `Array(quantity).fill(product)` has `quantity` entries, all equal to the product |
| PointOfSale.GroupForSubmission | src/routes/index.lazy.tsx:75-83 | the loop that finds a line and bumps it or appends a new one computes `Grouped(cart)` |
| PointOfSale.GroupedDistinct | src/routes/index.lazy.tsx:75-83 | no two lines of the request name the same product |
| PointOfSale.GroupedCovers | src/routes/index.lazy.tsx:75-83 | a product has a line exactly when it is in the cart |
| PointOfSale.GroupedCounts | src/routes/index.lazy.tsx:75-83 | each line's quantity is the number of cart entries of its product, hence at least 1 |
| PointOfSale.GroupedFirstOccurrenceOrder | src/routes/index.lazy.tsx:75-83 | the lines are in the order in which their products first appear in the cart |
| PointOfSale.GroupedTotal | src/routes/index.lazy.tsx:75-83 | the quantities of the lines add up to the length of the cart |
| PointOfSale.Grouped | src/routes/index.lazy.tsx:75-83 | the reference definition of the reduce, one `AddUnit` per cart entry in cart order; it has at most as many lines as the cart has entries, and at least one for a non-empty cart |
| PointOfSale.AddUnit | src/routes/index.lazy.tsx:76-81 | one step of the reduce: the found line is bumped or a line of quantity 1 is appended, so the request grows by at most one line |
| PointOfSale.AddUnitLines | src/routes/index.lazy.tsx:76-81 | one step of the reduce keeps every line's product in place, bumps only the found line, and appends a line of quantity 1 only for a product without one |
| PointOfSale.FirstIndex | src/routes/index.lazy.tsx:76 | the first cart position of a product, or the cart length when it is absent |
| PointOfSale.FindItem | src/routes/index.lazy.tsx:76 | `acc.find` as an index: the first line of the product, or the number of lines when there is none |
| PointOfSale.FindLine | src/routes/index.lazy.tsx:76 | the front-to-back scan of `acc.find` returns the position `FindItem` names |
| PointOfSale.CountPositive | src/routes/index.lazy.tsx:75-83 | a product is counted at least once exactly when it is in the cart |
| PointOfSale.PointOfSalePage.FinalizeOrder | src/routes/index.lazy.tsx:68-88 | without a code or with an empty cart nothing is sent and nothing changes; otherwise the request carries the code and the grouped cart, and the page is submitting with the progress message |
| PointOfSale.PointOfSalePage.FinalizeOrderSettled | src/routes/index.lazy.tsx:90-98 | on success the cart and the code are cleared with the success message; on failure both are kept with the failure message; either way the page stops submitting; nothing else changes |
| PointOfSale.SubmitFailureMessage | src/routes/index.lazy.tsx:94-95 | "Erro: " followed by the backend's `error`, else the error's message, else the fixed fallback |
| PointOfSale.PointOfSalePage.CheckConsumption | src/routes/index.lazy.tsx:101-106 | without a code nothing is sent and nothing changes; otherwise the lookup for the code is sent, loading is shown and the message cleared |
| PointOfSale.PointOfSalePage.CheckConsumptionSettled | src/routes/index.lazy.tsx:107-115 | the history modal opens on either outcome; only a success replaces the session details, and loading ends |
| PointOfSale.PointOfSalePage.constructor | src/routes/index.lazy.tsx:23-34 | the initial value of every state cell |
| PointOfSale.PointOfSalePage.SetSessionId | src/routes/index.lazy.tsx:147 | typing the code changes the code and nothing else |
| PointOfSale.PointOfSalePage.SetSelectedProduct | src/routes/index.lazy.tsx:143 | picking or closing a product changes only the selected product |
| PointOfSale.PointOfSalePage.SetSearchTerm | src/routes/index.lazy.tsx:140 | the setter handed to the menu changes the search term and nothing else |
| PointOfSale.PointOfSalePage.SetSelectedCategoryId | src/routes/index.lazy.tsx:142 | the setter handed to the menu changes the category filter and nothing else |
| PointOfSale.SendsOrder | src/routes/index.lazy.tsx:69 | the guard of the submit handler: a code and a non-empty cart; `FinalizeOrder` sends a request exactly when it holds |
| PointOfSale.SendsLookup | src/routes/index.lazy.tsx:102 | the guard of the lookup handler: a code; `CheckConsumption` sends a request exactly when it holds |
| PointOfSale.PointOfSalePage.CloseOrderHistory | src/routes/index.lazy.tsx:167 | closing the history changes only the modal flag |
| PointOfSale.ByCategory | src/routes/index.lazy.tsx:51 | the filter keeps exactly the products of the category |
| PointOfSale.BySearch | src/routes/index.lazy.tsx:54-56 | the filter keeps exactly the products whose lower-cased name contains the lower-cased term |
| PointOfSale.VisibleMembers | src/routes/index.lazy.tsx:49-57 | a product survives the two filters exactly when it passes the category filter (if one is set) and the search filter (if a term is set) |
| PointOfSale.Visible | src/routes/index.lazy.tsx:49-57 | the products left after the category filter (when one is set) and then the search filter (when a term is set); never more than the products; `VisibleMembers` characterises its members |
| PointOfSale.SetEntry | src/routes/index.lazy.tsx:62 | a record assignment: an existing key keeps its place and takes the new value, a new key goes last, no other entry changes |
| PointOfSale.FindEntry | src/routes/index.lazy.tsx:62 | the position of a key in the record, or the record's size when it is absent |
| PointOfSale.ProductsByCategory | src/routes/index.lazy.tsx:47-66 | empty when products or categories are missing; the keys are distinct; each key holds a non-empty list equal to the visible products of a category of that name; each category with visible products has a key; when several categories share a name, the key holds the products of the last of them that has any, since the later assignment overwrites |
| PointOfSale.RecordCategory | src/routes/index.lazy.tsx:59-64 | one turn of the `forEach` keeps the record's three invariants |
| PointOfSale.RecordLastCategory | src/routes/index.lazy.tsx:59-64 | one turn of the `forEach` keeps every key on the last category of its name to have products |
| PointOfSale.LastNamed | src/routes/index.lazy.tsx:59-64 | the last category of a name with products among the visible ones, or none; a category it names has that name and products |
| PointOfSale.LastNamedIsLast | src/routes/index.lazy.tsx:59-64 | no category after the one `LastNamed` picks has that name and products |
| PointOfSale.ListedProductsPassFilters | src/routes/index.lazy.tsx:47-66 | every listed product is one of the products, passes both filters, and has the id of a category named by its key |
| ProductModalView.QuantityFromInput | src/components/page/ProductModal.tsx:43 | the quantity kept after an edit is at least 1; it is the parsed integer when that is at least 1, and 1 when the text does not parse or parses below 1 |
| ProductModalView.QuantityInputExamples | src/components/page/ProductModal.tsx:43 | a typed positive number is kept as typed, whatever non-digit text follows it; text without digits gives 1 |
| ProductModalView.ProductModal.constructor | src/components/page/ProductModal.tsx:21 | the quantity starts at 1 |
| ProductModalView.ProductModal.OnQuantityInput | src/components/page/ProductModal.tsx:43 | the field holds the clamped value, never less than 1 |
| ProductModalView.ProductModal.HandleAdd | src/components/page/ProductModal.tsx:23-27 | a positive quantity of the unchanged product is added to the page's cart; no stock or sold-out check is made |
| MenuListView.CategoryFilterValue | src/components/page/MenuList.tsx:74 | "all" becomes the empty filter, any other value is kept |
| MenuListView.CategoryChoiceFilters | src/components/page/MenuList.tsx:74 | choosing "all" leaves only the search filter; choosing a category keeps exactly its products that match the search |
| MenuListView.OnCategoryChange | src/components/page/MenuList.tsx:74 | the select sets the page's category filter to the mapped value and nothing else |
| MenuListView.OnSearchInput | src/components/page/MenuList.tsx:68 | the search field sets the page's search term and nothing else |
| MenuListView.OnProductClick | src/components/page/MenuList.tsx:122 | a click on a sold-out product changes nothing; a click on another product opens it in the modal |
| MenuListView.RowMarksMatchClick | src/components/page/MenuList.tsx:124-152 | a row is dimmed and badged exactly when its product is sold out; it shows a stock note exactly when the product has a stock |
| MenuListView.MarksFor | src/components/page/MenuList.tsx:124-142 | the badge and the dimming always go together |
| MenuListView.NameOrderIsTotalPreorder | src/components/page/MenuList.tsx:114 | the name comparison is total and transitive, so sorting by it is well defined |
| MenuListView.SortCategoryProducts | src/components/page/MenuList.tsx:112-114 | each category's products end sorted by name, as a permutation of the list they started as |
| MenuListView.SortEntry | src/components/page/MenuList.tsx:104-114 | each section shows its entry under the same category name, with the entry's products sorted by name and the same products as before |
| Sorting.SortInPlace | src/components/page/MenuList.tsx:112-114 | `Array.prototype.sort` with a total comparator: the array ends sorted by the comparator and holds the same elements as before |
| Sorting.InsertIntoPrefix | src/components/page/MenuList.tsx:112-114 | one pass of the sort moves the next element into the sorted prefix, so one more element is in comparator order, with the same elements |
| MenuListView.NoProductsMessageIff | src/components/page/MenuList.tsx:102-104 | the "no products" message shows exactly when no category has a product left after the filters; every listed product is one of the filtered products and carries the id of one of the categories |
| OrderSummaryView.RowsFollowCart | src/components/page/OrderSummary.tsx:64-73 | one row per cart entry, in cart order, and the placeholder exactly when there are no rows |
| OrderSummaryView.Render | src/components/page/OrderSummary.tsx:53-93 | the reference view of the panel: each field is the negation of the source's `disabled` expression or the value it shows; the lemmas that follow state its properties |
| OrderSummaryView.AddingAddsRows | src/components/page/OrderSummary.tsx:68-73 | adding k units of a product adds k rows with its name after the old rows |
| OrderSummaryView.FinalizeEnabledIff | src/components/page/OrderSummary.tsx:87-89 | the submit button is enabled exactly when the submit handler's guard `SendsOrder` holds and no submission is under way |
| OrderSummaryView.CheckEnabledIff | src/components/page/OrderSummary.tsx:55 | the "Ver" button is enabled exactly when the lookup handler's guard `SendsLookup` holds and no lookup is under way |
| OrderSummaryView.SubmittingDisablesSubmit | src/components/page/OrderSummary.tsx:53 | once a submission is under way the submit button and the code field are disabled |
| OrderSummaryView.SubmitFailureStyled | src/components/page/OrderSummary.tsx:85 | every failure message of the submit handler is shown as an error |
| OrderSummaryView.SubmitProgressStyled | src/components/page/OrderSummary.tsx:85 | the progress message is not shown as an error |
| OrderSummaryView.SubmitSuccessStyled | src/components/page/OrderSummary.tsx:85 | the success message is not shown as an error |
| OrderSummaryView.AsWrittenButtonsNeverEnabled | src/components/page/OrderSummary.tsx:13-23 | with the props as the page passes them, neither button is ever enabled |
| OrderSummaryView.RenderAsWritten | src/routes/index.lazy.tsx:146-147 | the panel as the page mounts it: the code the panel reads is undefined, so it renders as with an empty code |
| Notices.StyleOf | src/components/page/OrderSummary.tsx:85 | a message is red exactly when "Erro" occurs in it |
| Notices.ErrorPrefixStyled | src/routes/products.add.lazy.tsx:166 | a message that starts with "Erro" is red whatever follows |
| Notices.WithoutCapitalEStyled | src/routes/products.add.lazy.tsx:166 | a message without a capital E is green |
| Kitchen.KitchenDisplay.constructor | src/routes/kitchen.lazy.tsx:52-53 | both columns start empty |
| Kitchen.KitchenDisplay.Load | src/routes/kitchen.lazy.tsx:55-61 | the columns become the pending and the preparing orders of the fetch, and every card is in the column of its status |
| Kitchen.InitialBoardContents | src/routes/kitchen.lazy.tsx:57-59 | an order is in the pending column exactly when it is a pending order of the fetch, in the preparation column exactly when it is a preparing one; orders of other statuses are dropped |
| Kitchen.InitialBoard | src/routes/kitchen.lazy.tsx:57-59 | the columns after the fetch; every card is in the column of its status (fetch order and multiplicity are in `InitialBoardInFetchOrder`) |
| Kitchen.InitialBoardInFetchOrder | src/routes/kitchen.lazy.tsx:57-59 | the columns keep fetch order: the board of a fetch split in two is the first part's columns followed by the second's; each column holds every order of its status exactly as often as the fetch does |
| Kitchen.KitchenDisplay.OnMessage | src/routes/kitchen.lazy.tsx:66-86 | the handler's sequence of updates leaves the columns as `ApplyMessage` of the old columns |
| Kitchen.ApplyMessage | src/routes/kitchen.lazy.tsx:66-86 | the reference definition of the handler: a new order goes in front of the pending column, a status update is `ApplyStatusUpdate`, and any other message changes nothing |
| Kitchen.ApplyStatusUpdate | src/routes/kitchen.lazy.tsx:72-85 | the order leaves both columns and comes back at the front of the column of its status, if any, so the board grows by at most one card; `StatusUpdatePlacement` states the rest |
| Kitchen.NewOrderAddsCard | src/routes/kitchen.lazy.tsx:70-71 | a new order goes in front of the pending column, the rest is untouched, and its count of cards grows by one even if it already had one |
| Kitchen.StatusUpdatePlacement | src/routes/kitchen.lazy.tsx:72-85 | after a status update the order has exactly one card, at the front of the pending column when pending or cancelled, at the front of the preparation column when preparing, and no card otherwise; every other card keeps its place and relative order |
| Kitchen.StatusUpdateIdempotent | src/routes/kitchen.lazy.tsx:75-84 | applying the same status update twice gives the columns of applying it once |
| Kitchen.StatusUpdateTwice | src/routes/kitchen.lazy.tsx:75-84 | the status update itself, applied twice with the same order, gives the columns of applying it once, for every status |
| Kitchen.OtherMessagesIgnored | src/routes/kitchen.lazy.tsx:70-72 | a message of any other type changes nothing |
| Kitchen.MessagesKeepPlacement | src/routes/kitchen.lazy.tsx:70-85 | status updates keep every card in the column of its status; a new order does so exactly when it is pending or cancelled |
| Kitchen.StatusUpdateKeepsNoDuplicates | src/routes/kitchen.lazy.tsx:75-84 | a status update never gives an order a second card |
| Kitchen.CountIdWithout | src/routes/kitchen.lazy.tsx:75-76 | removing an id leaves no card of it and the same number of cards of every other id |
| Kitchen.WithoutIdTwice | src/routes/kitchen.lazy.tsx:75-76 | removing an id twice is removing it once |
| Kitchen.WithStatus | src/routes/kitchen.lazy.tsx:58-59 | the filter keeps exactly the orders of the status |
| Kitchen.WithStatusAppend | src/routes/kitchen.lazy.tsx:58-59 | the filter of a concatenation is the concatenation of the filters, so the filter keeps list order |
| Kitchen.WithStatusMultiplicity | src/routes/kitchen.lazy.tsx:58-59 | the filter keeps each order of the status as many times as the list holds it, and no other order |
| Kitchen.WithoutId | src/routes/kitchen.lazy.tsx:75-76 | the filter keeps exactly the orders of other ids |
| Kitchen.WithoutIdAppend | src/routes/kitchen.lazy.tsx:75-76 | removing an id from a concatenation removes it from each part, so the remaining cards keep their relative order |
| Kitchen.ClickRequest | src/routes/kitchen.lazy.tsx:36-45 | a card sends a request exactly when its order is pending or preparing |
| Kitchen.CardFor | src/routes/kitchen.lazy.tsx:12-46 | a card is struck through with no button exactly when its order is cancelled; otherwise its button is the kitchen's next step for the status |
| Kitchen.ClickRequestFollowsLifecycle | src/routes/kitchen.lazy.tsx:12-46 | a card's button asks, for its own order, only for the next lifecycle step, preparing or ready; a cancelled card is struck through with no button |
| OrderFlow.KitchenAction | src/routes/kitchen.lazy.tsx:36-45 | pending offers preparing, preparing offers ready, nothing else offers a step, and each offered step is a lifecycle step |
| OrderFlow.WaiterAction | src/routes/waiter-monitor.lazy.tsx:15-19 | only a ready order is offered, and only the step to delivered |
| OrderFlow.CancelAction | src/routes/overview.lazy.tsx:116 | cancelling is offered only for a pending order |
| OrderFlow.StaffStepAdvances | src/routes/overview.lazy.tsx:116 | every step a view offers moves the order further along the lifecycle and never to paid |
| OrderFlow.StaffPathsAdvance | src/routes/kitchen.lazy.tsx:36-45 | following the offered buttons, an order never comes back to an earlier status and passes through at most four statuses |
| ManageTables.ManageTablesPage.CreateTable | src/routes/manage-tables.lazy.tsx:19-30 | the message is cleared first; a text that does not parse to a positive integer is refused with the fixed message and no request; otherwise a request carrying the parsed number is returned; the field is kept |
| ManageTables.AcceptedNumber | src/routes/manage-tables.lazy.tsx:23-24 | a number is accepted exactly when `parseInt(text, 10)` gives a positive integer, and it is that integer |
| ManageTables.AcceptedNumberOfTypedNumber | src/routes/manage-tables.lazy.tsx:23-24 | a typed number is accepted as typed exactly when positive; text without digits is refused |
| ManageTables.ManageTablesPage.CreateTableSettled | src/routes/manage-tables.lazy.tsx:31-37 | a success names the table number the posted request carried, clears the field and asks for the list again; a failure shows the backend's message or the fallback and keeps the field |
| ManageTables.ManageTablesPage.constructor | src/routes/manage-tables.lazy.tsx:16-17 | the field and the message start empty |
| ManageTables.ManageTablesPage.OnTableNumberInput | src/routes/manage-tables.lazy.tsx:60 | typing changes the field and nothing else |
| ManageTables.CreatedMessage | src/routes/manage-tables.lazy.tsx:31 | the success message quotes the table number after `Mesa "`, and `parseInt` of the rest reads that number back |
| ManageTables.CreateFailureMessage | src/routes/manage-tables.lazy.tsx:35 | the backend's `message`, else the fixed fallback |
| ManageTables.CreatedMessageGreen | src/routes/manage-tables.lazy.tsx:73 | the creation message is shown in green |
| ManageTables.InvalidNumberMessageRed | src/routes/manage-tables.lazy.tsx:73 | the validation message is shown in red |
| ManageTables.FailureMessageColour | src/routes/manage-tables.lazy.tsx:73 | a failure is shown in green exactly when the backend's message is present and says "sucesso"; the fallback is red |
| ManageTables.TableUrl | src/routes/manage-tables.lazy.tsx:40-42 | the length of the address is the sum of its three parts |
| ManageTables.TableUrlRecoversId | src/routes/manage-tables.lazy.tsx:40-42 | the address is the origin and the fixed path followed by the id, so two ids never share an address |
| ManageTables.NumberOrderIsTotalPreorder | src/routes/manage-tables.lazy.tsx:82 | the number comparison is total and transitive |
| ManageTables.SortTables | src/routes/manage-tables.lazy.tsx:82 | the shared array of tables ends in ascending table number, as a permutation of itself |
| Wristbands.WristbandsPage.CreateWristband | src/routes/wristbands.lazy.tsx:15-25 | the message is cleared first; the form is refused with the fixed message exactly when one field is empty or white space only; otherwise both fields are sent untrimmed; the fields are kept |
| Wristbands.WristbandsPage.CreateWristbandSettled | src/routes/wristbands.lazy.tsx:26-32 | a success quotes the code the posted request carried and clears both fields; a failure shows the backend's message or the fallback and keeps them |
| Wristbands.WristbandsPage.constructor | src/routes/wristbands.lazy.tsx:11-13 | both fields and the message start empty |
| Wristbands.WristbandsPage.OnCodeInput | src/routes/wristbands.lazy.tsx:47 | typing the code changes that field and nothing else |
| Wristbands.WristbandsPage.OnQrCodeInput | src/routes/wristbands.lazy.tsx:60 | typing the QR code changes that field and nothing else |
| Wristbands.CreatedMessage | src/routes/wristbands.lazy.tsx:26 | the message quotes the code at a fixed place |
| Wristbands.CreateFailureMessage | src/routes/wristbands.lazy.tsx:30 | the backend's `message`, else the fixed fallback, never empty |
| Wristbands.PaddedCodeAccepted | src/routes/wristbands.lazy.tsx:19 | a code that is not blank stays not blank with padding, so it passes the check |
| Text.TrimEmptyIffBlank | src/routes/wristbands.lazy.tsx:19 | `trim()` gives "" exactly when the text is white space only |
| Text.Trim | src/routes/wristbands.lazy.tsx:19 | `trim()` is no longer than the text and neither starts nor ends with white space |
| AddProduct.AddProductPage.Submit | src/routes/products.add.lazy.tsx:48-64 | an empty name, price or category refuses the form with the error message and no request; otherwise the page is submitting and the request carries the four fields, the description possibly empty |
| AddProduct.AddProductPage.SubmitSettled | src/routes/products.add.lazy.tsx:66-76 | a success clears name, price, description and category and leaves the new-category field alone; a failure keeps them with the failure message; either way submitting ends |
| AddProduct.AddFailureMessage | src/routes/products.add.lazy.tsx:72-73 | "Erro: " followed by the backend's `message`, else the error's message, else the fallback |
| AddProduct.AddProductPage.AddNewCategory | src/routes/products.add.lazy.tsx:41-46 | a category is requested exactly when its name is not blank, with the untrimmed name and active |
| AddProduct.AddProductPage.AddCategorySettled | src/routes/products.add.lazy.tsx:31-39 | only a success clears the new-category field; a failure shows the error under it |
| AddProduct.AddProductPage.constructor | src/routes/products.add.lazy.tsx:22-29 | every field and message starts empty, nothing is under way, no category error |
| AddProduct.SubmitEnabled | src/routes/products.add.lazy.tsx:170 | the submit button is disabled while a submission is under way; `Submit` disables it when it sends and `SubmitSettled` enables it again |
| AddProduct.AddCategoryEnabled | src/routes/products.add.lazy.tsx:151 | the category button's enabling rule, the negation of its `disabled` expression; `AddCategoryEnabledIff` states it in terms of blankness |
| AddProduct.AddCategoryEnabledIff | src/routes/products.add.lazy.tsx:151 | the category button is enabled exactly when no creation is under way and the name is not blank |
| AddProduct.RefusalMessageStyled | src/routes/products.add.lazy.tsx:166 | the required-fields message is red |
| AddProduct.FailureMessageStyled | src/routes/products.add.lazy.tsx:166 | every failure message is red |
| AddProduct.AddingMessageStyled | src/routes/products.add.lazy.tsx:166 | the progress message is green |
| AddProduct.AddedMessageStyled | src/routes/products.add.lazy.tsx:166 | the success message is green |
| EditProduct.EditProductModal.constructor | src/components/page/EditProductModal.tsx:19-26 | name and price come from the product, the description is the product's or "" when it has none, the stock field and the message are empty |
| EditProduct.FreshState | src/components/page/EditProductModal.tsx:19-21 | the description is empty exactly when the product has none or an empty one |
| EditProduct.EditProductModal.ResetForProduct | src/components/page/EditProductModal.tsx:29-35 | another product resets the fields to its values and clears the stock field and the message |
| EditProduct.EditProductModal.EditFields | src/components/page/EditProductModal.tsx:87-107 | typing into the name, price, description and stock fields changes those four and nothing else |
| EditProduct.EditProductModal.DetailsSubmit | src/components/page/EditProductModal.tsx:64-67 | the three fields are sent for the product as they are, without any check |
| EditProduct.EditProductModal.DetailsSettled | src/components/page/EditProductModal.tsx:41-47 | a success notice, or an error notice "Erro ao atualizar: " with the backend's `error` or the error's message |
| EditProduct.EditProductModal.AddStockSubmit | src/components/page/EditProductModal.tsx:69-75 | a request is sent exactly when `parseInt(stockToAdd, 10)` is positive, with that quantity; otherwise nothing changes |
| EditProduct.EditProductModal.AddStockSettled | src/components/page/EditProductModal.tsx:54-61 | a success clears the stock field with a success notice; a failure keeps it with an error notice "Erro ao adicionar estoque: " and the detail |
| EditProduct.StockQuantity | src/components/page/EditProductModal.tsx:71-72 | a quantity is sent exactly when the text parses to a positive integer, and it is that integer |
| EditProduct.StockQuantityOfTypedNumber | src/components/page/EditProductModal.tsx:71-72 | a typed positive number is sent as typed; zero, a negative number or text without digits sends nothing |
| EditProduct.ErrorDetail | src/components/page/EditProductModal.tsx:46 | the backend's `error`, else the error's message |
| Http.OrElse | src/routes/manage-tables.lazy.tsx:35 | `a \|\| b` on strings is one of the two, and "" only when both are |
| Text.ParseIntFormatInt | src/routes/manage-tables.lazy.tsx:23 | `parseInt` reads back any integer written in decimal, whatever non-digit text follows |
| Text.ParseIntWithoutDigits | src/routes/manage-tables.lazy.tsx:23-24 | a text without digits parses to `NaN` |
| Text.ParseInt | src/routes/manage-tables.lazy.tsx:23 | `parseInt(s, 10)`: leading white space skipped, an optional minus, then the longest run of digits, `NaN` (None) when there is none; `ParseIntFormatInt` and `ParseIntWithoutDigits` state its behaviour |
| Text.FormatInt | src/routes/manage-tables.lazy.tsx:31 | `${n}` in a template literal: never empty, starting with a minus or a digit; `ParseIntFormatInt` shows `parseInt` reads it back |
| Text.ToLower | src/routes/index.lazy.tsx:55 | lower-casing keeps the length and maps each character on its own |
| Text.ContainsIffOccurs | src/routes/index.lazy.tsx:55 | `includes` holds exactly when the term occurs at some position |
| Text.Contains | src/routes/index.lazy.tsx:55 | `includes`: the term is a prefix of the text or of one of its suffixes; `ContainsIffOccurs` states it as an occurrence |
| Text.LexLeqTotal | src/components/page/MenuList.tsx:114 | any two names are ordered one way or the other |
| Text.LexLeqTransitive | src/components/page/MenuList.tsx:114 | the name order is transitive |
| Text.LexLeqAntisymmetric | src/components/page/MenuList.tsx:114 | two names ordered both ways are equal |
| Text.LexLeq | src/components/page/MenuList.tsx:114 | `localeCompare(...) <= 0` read as code-point order; total, transitive and antisymmetric by the three lemmas above |

## Left out

- HTTP calls, react-query caching, invalidation and retries: each call is an abstract outcome, and a cache invalidation is a returned flag (`CreateTableSettled`) or left out where nothing reads it.
- The kitchen channel itself: opening, closing, JSON decoding and the `onclose` log. Only the handling of already decoded messages is modelled. Nothing in the source reconnects.
- The race between the initial fetch and pushed messages: `Load` replaces both columns whenever the fetch answers.
- Money: the cart total, `parseFloat` of prices and every `toFixed`. Prices stay the typed or received strings, and the product request carries the price text.
- Text.LexLeq stands for `localeCompare`: plain code-point order, not the locale's collation.
- Text.ToLower lower-cases ASCII letters only; JavaScript's `toLowerCase` also maps other scripts.
- Text.IsWhitespace lists the common white-space characters that `trim` removes, not every Unicode space separator.
- Text.ParseInt reads base 10 and unbounded integers. In `ProductModal.tsx:43` the source calls `parseInt` without a radix, so a "0x" prefix would read as hexadecimal there. Precision loss above 2^53 is not modelled.
- MenuListView.SortEntry sorts a copy of the entry's products. The source sorts the record's own array in place, so the memoised record is reordered too; the model's record keeps filter order.
- MenuListView.SortCategoryProducts and ManageTables.SortTables do not state stability. `Sorting.SortInPlace` is an insertion sort and keeps equal elements in order, but the contracts do not say so. The order of equal names or numbers is not specified.
- PointOfSale.ProductsByCategory keeps keys in insertion order. A JavaScript object lists integer-like keys first, so a category named "1" would come first.
- PointOfSale.PointOfSalePage.AddProductToOrder takes a `nat` quantity. `Array(q)` with a negative `q` throws, but no caller can pass one.
- The consumption failure is also logged to the console, and that is not modelled.
- The error banner under the new-category field is `categoryError`. Its fixed prefix text is not modelled.
- EditProduct.ErrorDetail gives "" when both the backend `error` and the error's message are missing. The source would print "undefined" there.
- Disabled buttons and fields are modelled as predicates over the state (`Render`, `AddCategoryEnabled`, `SubmitEnabled`). The handlers themselves do not check them, as in the source.
- The pages that only show query data (overview, waiter monitor, the other listing pages), login, cash register, the dashboard and the context and query hooks are not part of this model. Only the one-line status guards of the waiter monitor and the overview are modelled, in `OrderFlow`.
- The order lifecycle in `OrderFlow.LifecycleStep` also allows cancelling an order in preparation, but no view offers it: the overview's button is enabled only for a pending order.

## Findings

| source | as written | input that shows it | evidently intended | confidence | as-written member | corrected member |
|---|---|---|---|---|---|---|
| src/routes/index.lazy.tsx:146-147 | the page passes `sessionId`/`setSessionId`, but `OrderSummary` reads `wristbandCode`/`setWristbandCode` (src/components/page/OrderSummary.tsx:13-23), so the panel's code is undefined | any page state, e.g. code "cliente001" and a cart of one product: both buttons stay disabled | the panel shows and edits the page's code, so the buttons follow the code | not executed | OrderSummaryView.AsWrittenButtonsNeverEnabled | OrderSummaryView.FinalizeEnabledIff |
