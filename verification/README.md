# Inventory and sales core of the stock-control app

This project models the business rules of a small Flask inventory application (`app.py`)
as pure state transitions over immutable records, and proves properties of them in Dafny.
The database is replaced by plain sequences of products, customers and sales in insertion
order. Each request handler becomes a single transition that returns the next store and
an outcome. A refused request returns the store unchanged, because nothing is committed.

The modelled parts are:

- **Recording a sale** (`nova_venda`), in module `Sales`. A sale is refused when the
  product has fewer units than requested. Otherwise:
  - the product's stock drops by the requested quantity;
  - one sale row is appended;
  - its total is the product's unit price at that moment times the quantity.
- **CSV import** (`importar_csv`), in modules `CsvImport` and `Text`. It is a left fold over
  the rows after the header. A row is skipped when:
  - it has fewer than three cells;
  - its name is blank after `strip()`;
  - a numeric cell fails to parse.

  An accepted row is upserted by product name. The first product with that name gains the
  row's quantity, and it takes the row's cost only when that cost is positive. A row whose
  name matches no product appends a new product. One of two counters, created or updated,
  grows per accepted row. A lookup sees the products created earlier in the same import.
- **The reports page** (`relatorios`), in modules `Reports` and `Folds`:
  - revenue and units sold over all sales;
  - stock valued at cost and at price, and their difference;
  - units sold per product name, skipping sales whose product was deleted;
  - revenue per day and month, with the year dropped;
  - the list of products with fewer than 5 units.

  Both dictionaries are one generic group-by fold, `Folds.GroupSum`. It is proved against
  independent reference sums and against first-encounter key order.
- **The sales export's name fallbacks** (`exportar('vendas')`), in module `Export`. A sale
  whose product is gone shows "Removido". A sale without a resolvable customer shows
  "Balcão".
- **Conservation across a sale**, in module `Conservation`. A sale moves units and value
  from the stock figures into the sales figures of the reports page. The totals stay the
  same.

Money is modelled as integer cents. `int()` and `float()` (with the comma-to-period
substitution) are passed to the import as functions returning `Option<int>`. `None` stands
for the `ValueError` that skips a row. The sale time is a parameter `now`.

## Model

| member | source | states |
|---|---|---|
| Sales.NewSale | app.py:244-266 | When the product exists, the sale is refused exactly when stock < quantity, with the remaining stock as the error; a refused or unknown-product request changes nothing. An accepted sale leaves the product with stock − quantity and never below zero, changes no other product or customer, and appends exactly one sale whose total is price × quantity at that moment. |
| Sales.NewSalePreservesValid | app.py:258-264 | Recording a sale keeps product and sale ids unique and below their next-id counters. |
| Sales.NewSaleKeepsStockNonNegative | app.py:253-262 | If no stock was negative before a sale request, none is negative after it, whether it was accepted or refused. |
| Sales.SaleRun | app.py:244-266 | A run of sale requests keeps the product count and the customers, keeps every earlier sale as a prefix, and appends at most one sale per request. |
| Sales.SaleRunKeepsStockNonNegative | app.py:253-262 | No sequence of sale requests drives any stock negative. |
| Sales.NegativeQuantityRaisesStock | app.py:250-262 | The stock check only compares quantities, so a negative quantity is accepted and raises the stock. |
| Sales.ScenarioAcceptedSale | app.py:253-262 | Ten units at 5.00 with three sold gives a 15.00 sale and seven units left. |
| Sales.ScenarioRefusedSale | app.py:253-255 | Five units asked with two in stock is refused with "2 left", and the stock stays at two. |
| Inventory.FindProduct | app.py:251 | Lookup by id: the position of the first product with that id, or none when no product has it. |
| Inventory.FindProductNamed | app.py:345 | `filter_by(nome=...).first()`: the position of the first product with that exact name, or none. |
| Inventory.FindCustomer | app.py:376 | Lookup of a customer by id: the first customer with that id, or none. |
| Inventory.ProductOf | app.py:287 | The product of a sale, or none once that product has been deleted. |
| Text.Strip | app.py:338-339 | `str.strip()`: the input is the result with only whitespace on either side, the result neither starts nor ends with whitespace, and it is empty exactly when every character is whitespace (the blank-name skip). |
| Text.SpanEmptyIffBlank | app.py:338-339 | The kept span is empty exactly when every character is whitespace. |
| Text.StripIdempotent | app.py:338 | Stripping twice is stripping once. |
| Text.CommaToPeriod | app.py:341-342 | `replace(',', '.')`: same length, commas become periods, every other character unchanged. |
| Text.CommaToPeriodSpec | app.py:341-342 | The substitution leaves no comma, is the identity on text without commas, and is idempotent. |
| CsvImport.ParseRow | app.py:336-343 | A row with fewer than three cells, or with a blank stripped name, is skipped. An accepted row carries the stripped name, the parsed quantity, price and cost (an empty or absent cost cell is 0; a whitespace-only one must parse) and the stripped expiry ("" if absent). A nonblank row is skipped only when a parse fails. |
| CsvImport.ApplyRow | app.py:345-352 | With a product of that name, the first one gains the quantity and takes the cost only when it is > 0. Nothing else about it or any other product changes, and only the updated counter grows. Otherwise exactly one product with the row's fields and the next id is appended, and only the created counter grows. |
| CsvImport.ApplyRowExtends | app.py:345-352 | One upsert keeps every existing product's id and name and appends at most one product, under the next id. |
| CsvImport.Step | app.py:335-353 | A skipped row leaves products and both counters unchanged; any row moves at most one counter. |
| CsvImport.ExtendsTrans | app.py:335-353 | The "follows after at most n rows" relation composes, the row budgets adding up. |
| CsvImport.ImportRows | app.py:333-353 | The fold over the data rows: existing products keep id and name, new products are appended with consecutive ids, created counts them, and created + updated never exceeds the number of rows. |
| CsvImport.ImportCsv | app.py:321-359 | A missing file part, an empty file name or an undecodable file is refused and changes nothing. Otherwise the rows after the header are folded in, and sales and customers are untouched. Every existing product keeps its position, id and name. The created products are appended with consecutive ids from the counter, which grows by their number. Created + updated ≤ the number of data rows. |
| CsvImport.ImportCsvEffect | app.py:321-356 | An accepted upload raises total stock by exactly the quantities of its parsed data rows, leaves every accepted row's name naming a product, and keeps product names distinct if they were. |
| CsvImport.ImportRowsStock | app.py:345-352 | The import raises total stock by exactly the quantities of the accepted rows, whether they create or update. |
| CsvImport.ApplyRowStock | app.py:347-351 | One upsert raises total stock by exactly the row's quantity. |
| CsvImport.ImportRowsKeepsNamesDistinct | app.py:345-352 | If product names were distinct before an import, they are distinct after it. |
| CsvImport.ApplyRowKeepsNamesDistinct | app.py:345-352 | One upsert never creates a second product with an existing name. |
| CsvImport.ImportRowsNamesPresent | app.py:345-352 | After the import, every accepted row's name names some product. |
| CsvImport.ApplyRowNamePresent | app.py:345-352 | After one upsert, the row's name names a product. |
| CsvImport.NamePresentPersists | app.py:345-352 | A name that names a product keeps naming one for the rest of the import. |
| CsvImport.ImportCsvPreservesValid | app.py:345-354 | The import keeps product ids unique and below the next-id counter. |
| CsvImport.EmptyCostKeepsCost | app.py:342-349 | A row with an empty or absent cost naming an existing product changes its stock and the updated counter, never its cost. |
| CsvImport.ImportTwoRows | app.py:335-353 | Importing two rows upserts the first, then the second against the result. |
| CsvImport.FindAppended | app.py:345-351 | A product appended under a new name is the one a later lookup by that name finds. |
| CsvImport.UpsertSameNameTwice | app.py:345-352 | Two parsed rows with the same new name: the first appends a product, the second updates that product, adding its quantity and taking its cost only if positive, so each counter moves once. |
| CsvImport.SameNameTwice | app.py:345-352 | Two rows with the same new name create one product and then update it: quantities add, the second cost wins only if positive, and each counter moves once. |
| Folds.SumOfAppend | app.py:279-282 | A sum over a concatenation is the sum of the sums. |
| Folds.SumOfSnoc | app.py:279-280 | Appending one record adds its amount to a sum, as when a sale is recorded or a product is created. |
| Folds.SumOfUpdate | app.py:279-282 | Replacing one record changes a sum by the difference of that record's amounts. |
| Folds.FindFirst | app.py:251 | The first-match search behind `.get()` and `.first()`: the position of the first element satisfying the test, none exactly when no element does. |
| Folds.Find | app.py:288 | Dictionary lookup, through `FindFirst`: the position of the first entry with the key, or the length when there is none. |
| Folds.Upsert | app.py:288 | `d[k] = d.get(k, 0) + v`: an existing key keeps its position and grows by v; a new key is appended with v; other entries are unchanged. |
| Folds.GroupSumKeys | app.py:285-290 | The group-by fold's keys are distinct and are exactly the keys of the non-skipped entries. |
| Folds.GroupSumValues | app.py:285-290 | Each key's value is the sum of the amounts of every non-skipped entry with that key. |
| Folds.GroupSumOrder | app.py:285-290 | Keys appear in the order of their first occurrence. |
| Reports.ProductEntriesSum | app.py:286-288 | The per-product entries carry, under a name, the units of the resolvable sales with that product name. |
| Reports.DayEntriesSum | app.py:293-295 | The per-day entries carry, under a day label, the revenue of the sales on that day and month. |
| Reports.SalesByProductKeys | app.py:285-289 | The per-product labels are distinct and are exactly the names of products that still exist and have sales; sales of deleted products are skipped. |
| Reports.SalesByProductValues | app.py:286-290 | Each label's value is the units of all resolvable sales whose product bears that name. |
| Reports.SalesByProductOrder | app.py:285-290 | Labels appear in the order of the first resolvable sale carrying each, and no earlier sale carries it. |
| Reports.DailyRevenueKeys | app.py:292-296 | The per-day labels are distinct and are exactly the day-and-month labels of the sales. |
| Reports.DailyRevenueValues | app.py:292-297 | Each day label's value is the revenue of all sales on that day and month, whatever the year. |
| Reports.DailyRevenueOrder | app.py:292-297 | Day labels appear in the order of the first sale made on each. |
| Reports.DailyRevenueConflatesYears | app.py:294-295 | Two sales on the same day and month of different years share one label and one summed total. |
| Reports.LowStock | app.py:299 | The low-stock list is no longer than the product list. |
| Reports.LowStockAppend | app.py:299 | The filter distributes over concatenation, so the original order is kept. |
| Reports.LowStockMembers | app.py:299 | A product is in the list exactly when it is a product with fewer than 5 units. |
| Reports.LowStockSingle | app.py:299 | A single product is kept exactly when its stock is below 5. |
| Reports.LowStockThresholdIsStrict | app.py:299 | Four units is low and five is not. |
| Reports.LabelsSet | app.py:289 | The label list of a series holds exactly the dictionary's keys. |
| Reports.ProductSeries | app.py:285-290 | The per-product chart series: labels and values have equal length, the labels are distinct, each value is the units sold under its label, and a name is a label exactly when some resolvable sale's product bears it. |
| Reports.ProductLabelOrder | app.py:285-289 | The per-product labels come in the order of the first resolvable sale carrying each name. |
| Reports.DaySeries | app.py:292-297 | The per-day chart series: labels and values have equal length, the labels are distinct, each value is that day's revenue, and a label appears exactly when some sale was made on that day and month. |
| Reports.DayLabelOrder | app.py:292-296 | The per-day labels come in the order of the first sale made on each day and month. |
| Reports.BuildReport | app.py:276-301 | Revenue and units sold are the sums over all sales; stock at cost and at price are the sums over all products; estimated profit is their difference. The product labels are exactly the names of resolvable sales' products, and the day labels exactly the sale days. Each series has distinct labels with the reference sums as values, in the order of the first sale carrying each label (`dict` insertion order). The low-stock list is the order-keeping filter `LowStock`, so it holds exactly the products under 5 units in their own order. |
| Export.SaleProductName | app.py:375 | The product column is the product's name, or "Removido" once the product is gone. |
| Export.SaleCustomerName | app.py:376 | The customer column is the customer's name, or "Balcão" when the sale has no customer or the customer no longer exists. |
| Export.ExportAgreesWithReport | app.py:285-288 | Export and reports resolve products alike: a resolvable sale is exported under a name the per-product series shows, and (with no product named "Removido") a sale is exported as removed exactly when the reports skip it. |
| Export.CustomerNameResolves | app.py:376 | A customer column other than "Balcão" is the name of a customer with the sale's customer id; with no customer named "Balcão", the marker is shown exactly when the sale has no customer or its customer no longer exists. |
| Conservation.AcceptedSaleShape | app.py:257-263 | An accepted sale replaces exactly one product and appends its sale row with total price × quantity. |
| Conservation.ValueMoved | app.py:257-262 | Selling q units at the product's price moves exactly their value from stock to revenue. |
| Conservation.SaleConservesValue | app.py:257-262 | Stock value at sale price plus revenue is the same before and after any sale request. |
| Conservation.SaleConservesUnits | app.py:262 | Units in stock plus units sold is the same before and after any sale request. |

## Left out

- Authentication, password hashing, routing, redirects, flash messages and templates: user-interface plumbing and foreign library calls with no rule to state.
- Product and customer create, edit and delete, the sales listing and clearing all sales: plain field assignment, no business rule.
- Database configuration, sessions and commits: each handler is modelled as one atomic transition, and query results are in insertion order.
- Concurrency: the application has no locking, so two simultaneous sales are not modelled.
- Floating point: prices, costs and totals are integer cents, so float rounding is not modelled.
- `int()` and `float()`: passed in as parameters; only the comma-to-period substitution before `float()` is modelled.
- CSV tokenising, UTF-8 decoding and CSV writing: rows arrive already split into cells. A decoding failure is the upload's `rows = None`. Any other exception of the import is not modelled.
- `datetime.now` and `strftime('%d/%m')`: the sale date is a parameter, and the day label is the pair (day, month).
- The template download and the product and customer exports: constant or column-by-column output with no logic beyond the two name fallbacks.
- Unknown product id in a sale: the application dereferences a missing product and fails with an error before any change; the model returns a `ProductNotFound` refusal with the store unchanged.
- Sales.NewSale: the sale's customer id is taken as given; it is not checked against the customers, as in the application.
- Reports.LowStock: its own contract only bounds the length; membership and order are stated by `LowStockMembers`, `LowStockAppend` and `LowStockSingle`.
- Export.SaleCustomerName: a customer actually named "Balcão" is indistinguishable from the fallback, as in the application.

A product created by the import stores the cost 0 when the cost cell is empty, not an absent cost; the model follows the code here. The products export puts the ID in the first column and the name in the second (app.py:369-370). Re-importing such a file would therefore read the name as the quantity, and `int()` fails on it, so every row is skipped unless the name is itself an integer. The export layout is not part of this model.
