# Otocap admin dashboard — verified model of its core rules

Otocap's admin dashboard is a React front end over a hosted Postgres/storage
backend. Under its markup and pass-through calls sits a small set of
sequential rules, and this project models them in Dafny:

- **Product image columns** (`products_service.dfy`, `products_page.dfy`).
  - A product row keeps up to four image paths in `image1..image4`.
  - The service derives public URLs from the non-empty columns.
  - It uploads staged files one after another and stops at the first failure.
  - It packs retained paths, then uploads, into the four columns.
  - It releases exactly the non-empty paths when a product or one image is deleted.
  - The product form stages files in all-or-nothing batches, checked against a count limit, a MIME allow-list and a 5 MiB ceiling.
  - It removes existing or staged images independently.
  - It keeps `existing + staged <= 4` through every transition.
- **Searches and statistics** (`search.dfy`, `orders.dfy`, `orders_page.dfy`, `order_list.dfy`, `dashboard.dfy`, `users.dfy`).
  - Case-insensitive substring filters over orders, products, brands, categories and users.
  - Order counts, revenue with missing totals as 0, per-status counts, today's orders, distinct customers.
  - The "n minutes/hours/days ago" buckets and the recent-list and report truncation.
- **Display helpers** (`orders.dfy`, `users.dfy`).
  - Status class and Turkish label tables, customer display-name fallbacks, decoding of the products JSON and the address line.
  - The mapping of authentication users to member rows.
- **Form controllers** (`forms.dfy`, `banners.dfy`, `blogs.dfy`, `brands.dfy`, `categories.dfy`, `order_form.dfy`).
  - Seeding from a record, reset to defaults and checkbox coercion.
  - What each page's submit sends and when it reloads or closes.

**Modelling choices**

- JavaScript values are one datatype `Basics.Json`, and `undefined` is read as null. `Truthy` and `Or` model JavaScript truthiness and `||`.
- Forms are `map<string, Json>`.
- Every backend call is a parameter. The product service takes a `Backend` of functions and returns the calls it issued (`Run`), so "no row write after a failed upload" is a statement about that trace.
- `JSON.parse`, `parseFloat`, date parsing and locale formatting are also parameters.
- `toLowerCase` is ASCII case folding.
- Timestamps are integer milliseconds, and the local day uses a fixed offset from UTC.

## Model

| member | source | states |
|---|---|---|
| ProductsService.FilledPaths | src/services/productsService.js:166-167 | The non-empty image columns in column order. A path is listed exactly when it is non-empty and stored in some column, and there are never more paths than columns. |
| ProductsService.ImageUrls | src/services/productsService.js:4-15 | One URL per non-empty column, each the bucket's base URL followed by that column's path, in column order, so at most four. |
| ProductsService.SlotOf | src/services/productsService.js:97-100 | The value written for position i is the i-th path when there is one and it is non-empty, and null otherwise. |
| ProductsService.PackSlots | src/services/productsService.js:95-101 | Column i of a packed row holds the i-th path or null, for all four columns. |
| ProductsService.FilledPathsOfPacked | src/services/productsService.js:97-100 | Columns filled from consecutive non-empty paths read back as exactly that run of paths. |
| ProductsService.PackThenReadBack | src/services/productsService.js:95-101 | Round trip: packing non-empty paths and reading the non-empty columns back gives the first four paths, in order. |
| ProductsService.UploadImages | src/services/productsService.js:18-38 | Files are uploaded in order and the run stops at the first failure, whose error becomes the reply. On success there is one path per file, each the one its upload returned. |
| ProductsService.CreateProduct | src/services/productsService.js:85-115 | A failed upload ends the create with that error and no row write. Otherwise the calls are the uploads followed by one insert of the packed paths, and the insert's answer is the reply. |
| ProductsService.CreateSlotsFollowUploads | src/services/productsService.js:87-101 | When a create reaches its insert, column i holds the path uploaded for file i and every column past the last file is null. |
| ProductsService.UpdateSlots | src/services/productsService.js:120-136 | The retained paths come first, then the uploads, and the list is cut to four, so with four or more retained paths the uploads are dropped. |
| ProductsService.UpdateProduct | src/services/productsService.js:118-153 | A failed upload ends the update with that error and no row write. Otherwise the uploads are followed by one update of the combined columns. |
| ProductsService.UpdateWithoutFiles | src/services/productsService.js:118-145 | Without new files the update is the single row write, with the retained paths cut to four in column order. |
| ProductsService.DeleteImages | src/services/productsService.js:41-54 | No storage call exactly when every path is empty. Otherwise there is one removal whose paths are the non-empty ones in their original order, as many as there are non-empty paths (a repeated path is released as often as it occurs), and a removal error is not returned. |
| ProductsService.DeleteProduct | src/services/productsService.js:156-185 | The row's columns are read first. When the read yields non-empty paths exactly those are released, and the row delete runs in every case. The reply is the delete's error. |
| ProductsService.ClearSlot | src/services/productsService.js:190-193 | Only the named column becomes null. The other three and the other fields are unchanged, and the remaining paths are those before and after that column. |
| ProductsService.DeleteProductImage | src/services/productsService.js:188-219 | The named column is read. Its old path is released only if it was non-empty, and then that one column is cleared. |
| ProductsService.GetProducts | src/services/productsService.js:58-82 | A failed fetch gives no rows and the error. Otherwise each fetched row comes back in order with the URLs of its own columns. |
| ProductsPage.InitialIsValid | src/components/ProductsPage.jsx:18-32 | The first rendered state holds no images and satisfies the image-count invariant. |
| ProductsPage.Reset | src/components/ProductsPage.jsx:155-172 | Defaults in every field, no images or previews, no edited product, visibility unchanged. |
| ProductsPage.AddNew | src/components/ProductsPage.jsx:253-256 | An open, empty form for a new product that keeps the invariant. |
| ProductsPage.CloseForm | src/components/ProductsPage.jsx:174-177 | Closing returns to the initial state, which keeps the invariant. |
| ProductsPage.FilePreviews | src/components/ProductsPage.jsx:104-116 | One preview per accepted file, in file order, each carrying its file. |
| ProductsPage.HandleImageChange | src/components/ProductsPage.jsx:75-117 | A batch that would pass four images, that has a disallowed type or a file over 5 MiB is refused with the state unchanged, checked in that order. A batch is accepted exactly when it passes all three checks. Acceptance appends every file, in order, to the staged files and previews and changes nothing else. |
| ProductsPage.ImageChangeKeepsValid | src/components/ProductsPage.jsx:75-102 | In the open form every batch, accepted or not, keeps at most four images. |
| ProductsPage.FindPreview | src/components/ProductsPage.jsx:126 | The found preview carries the id. No preview is found only when none carries it. |
| ProductsPage.RemoveImage | src/components/ProductsPage.jsx:119-134 | Removing an existing image drops the existing images with that id and leaves the staged files alone. Removing a staged image drops only the file of the first preview with that id and leaves the existing images alone. Previews with the id go in both cases, order is kept and the count never grows. |
| ProductsPage.RemoveStagedByPreview | src/components/ProductsPage.jsx:125-131 | An id no preview carries leaves the staged files unchanged. A staged file's own preview id removes that file. |
| ProductsPage.RemoveImageKeepsValid | src/components/ProductsPage.jsx:119-134 | Every removal keeps the image-count invariant. |
| ProductsPage.InputOrNotice | src/components/ProductsPage.jsx:628-654 | Exactly one of the file input and the four-image notice is shown, the input exactly while fewer than four images are held. At four images any batch is refused. |
| ProductsPage.FilledColumns | src/components/ProductsPage.jsx:203-215 | The non-empty columns, each with its position and path, in increasing column order. |
| ProductsPage.ColumnsArePaths | src/components/ProductsPage.jsx:203-215 | The paths of the non-empty columns are exactly the paths the service reads back from the row, in the same order. |
| ProductsPage.Paths | src/components/ProductsPage.jsx:141 | One path per existing image, in order. |
| ProductsPage.ExistingImagesAsWritten | src/components/ProductsPage.jsx:202-215 | As written, the existing images are the row's non-empty columns, but each takes the URL at its column position in the compacted URL list. |
| ProductsPage.EditUrlMisaligned | src/components/ProductsPage.jsx:209 | Counterexample: with image1 empty and image2 and image3 set, image2 is shown with image3's picture and image3 with none. |
| ProductsPage.ExistingImages | src/components/ProductsPage.jsx:202-215 | The existing images are the row's non-empty columns in column order, each with the URL of its own path. |
| ProductsPage.HandleEdit | src/components/ProductsPage.jsx:179-220 | Each field is seeded from the product, or from its default when falsy. The existing images and their previews are the non-empty columns, each paired with the URL of its own path (the corrected pairing; the code as written indexes the compacted URL list by column, see Findings). The form opens on that product. |
| ProductsPage.EditKeepsValid | src/components/ProductsPage.jsx:179-220 | Opening a product from the closed form keeps the image-count invariant. |
| ProductsPage.Submit | src/components/ProductsPage.jsx:136-153 | An edit submits an update retaining exactly the paths of the remaining existing images, otherwise a create with the staged files. The list reloads and the form closes whatever the service replied. |
| ProductsPage.EditThenSaveKeepsImages | src/components/ProductsPage.jsx:141-142 | Opening a product and saving it untouched writes the same non-empty paths back, in order, from image1 on. |
| ProductsPage.FilterProducts | src/components/ProductsPage.jsx:234-236 | The products whose name contains the term, ignoring case, in their original order, as many as match. The empty term keeps every product with a text name. |
| Orders.ParseUser | src/components/OrdersPage.jsx:58-67 | There is no customer exactly when the column is falsy or is a text that does not parse. |
| Orders.ParseUserRoundTrip | src/components/OrdersPage.jsx:58-67 | A customer stored as JSON text by an encoder that `JSON.parse` inverts reads back as itself, and a column that already holds the object reads back unchanged. |
| Orders.DisplayName | src/components/OrdersPage.jsx:69-72 | The name when truthy, else the email when truthy, else the fallback. |
| Orders.DisplayNameShown | src/components/OrdersPage.jsx:69-72 | The display name is never blank, and it equals the fallback exactly when neither name nor email supplies a different value. |
| Orders.UndecodableUserShowsFallback | src/components/OrdersPage.jsx:58-72 | A customer column that does not parse is shown under the fallback. |
| Orders.StatusClass | src/components/OrdersPage.jsx:36-45 | One of the five classes: a known status name gets its own, and the result is 'status-pending' exactly when the name is not one of the other four. |
| Orders.StatusLabel | src/components/OrdersPage.jsx:47-56 | A known name gets its Turkish label. The value comes back unchanged exactly when it is not a known name. |
| Orders.Badge | src/components/OrdersPage.jsx:679-680 | A missing status reads as Pending for the class and the label. A set status name picks its class from the status table (so 'Delivered' gets 'status-delivered', and an unknown name 'status-pending'). The status's own display name wins over the table's label; without one, a known name shows its Turkish label and an unknown set name is shown as it is. |
| Orders.ParseProducts | src/components/OrdersPage.jsx:97-106 | The decoded array when there is one. No products for a falsy column, an undecodable text or a decoded value that is not an array. |
| Orders.ProductsRoundTrip | src/components/OrdersPage.jsx:97-106 | A product list stored as JSON text by an encoder the parser inverts decodes back to the same list. |
| Orders.TruthyParts | src/components/OrdersPage.jsx:663-669 | The set address parts, in the order full_address, district, city, postal_code, country, one entry per set key even when two keys hold the same value, and no others. |
| Orders.AddressLine | src/components/OrdersPage.jsx:661-669 | A customer without an address object gets an empty line. Otherwise the line is the left-to-right reading of full_address, district, city, postal_code and country: falsy parts are skipped, and each set part's text is followed by ', ' exactly when a later part is set. |
| Orders.JoinedFilterIsPartsLine | src/components/OrdersPage.jsx:663-669 | `filter(Boolean).join(', ')` over any list of values equals that left-to-right reading. |
| Orders.AddressLineTwoParts | src/components/OrdersPage.jsx:663-669 | With exactly two set parts the line is the earlier part, ', ', then the later part. |
| Orders.AddressLineAllParts | src/components/OrdersPage.jsx:663-669 | With all five parts set the line is full_address, district, city, postal_code and country joined by ', '. |
| Orders.AddressLineEmptyIff | src/components/OrdersPage.jsx:663-669 | The line is empty exactly when no part is set, and a single set part is shown on its own. |
| Orders.TotalReadingsAgree | src/components/OrdersPage.jsx:576 | `order.total \|\| 0` and `parseFloat(order.total) \|\| 0` give the same amount for every total that is not text, and only an order with a numeric total adds a non-zero amount. |
| Orders.RevenueOfTotalled | src/components/OrdersPage.jsx:576 | The revenue equals the sum over the orders that have a total, so missing totals count as nothing. |
| Orders.RevenueAppend | src/components/OrdersPage.jsx:576 | The revenue of two lists is the sum of their revenues. |
| Orders.RevenueBoundsTotals | src/components/OrdersPage.jsx:576 | With no negative totals the revenue is non-negative and at least every single total. |
| Orders.TextTotalRoundTrip | src/components/OrderList.jsx:169 | A total written as decimal text is read back as the same number that a numeric total contributes. |
| Orders.RevenuesAgree | src/components/OrderList.jsx:169 | The order list's parsed revenue equals the orders page's revenue whenever no total is stored as text. |
| Orders.StatusCount | src/components/OrdersPage.jsx:582 | The number of orders whose status name is the given one, which is at most the number of orders. |
| Orders.StatusCountsDisjoint | src/components/OrdersPage.jsx:579-589 | Pending and delivered counts together never exceed the number of orders. |
| OrdersPage.FilterOrders | src/components/OrdersPage.jsx:74-88 | Order-preserving subset, as long as the number of matching orders: an order is kept exactly when its number contains the term as typed, or a customer field (nested address included) or the raw products text contains the lower-cased term. The empty term keeps all. |
| OrdersPage.SearchByIdFinds | src/components/OrdersPage.jsx:79 | Searching for an order's number always finds that order. |
| OrdersPage.UndecodableCustomerNotSearched | src/components/OrdersPage.jsx:74-88 | An order whose customer does not decode matches only through its number or its products text. |
| OrdersPage.Summarize | src/components/OrdersPage.jsx:569-589 | Count of orders, revenue over the orders with totals, and pending and delivered counts that together never exceed the count. |
| OrdersPage.HandleEdit | src/components/OrdersPage.jsx:186-193 | The modal opens on the order with exactly its delivery date and status id. |
| OrdersPage.HandleEditInputChange | src/components/OrdersPage.jsx:214-220 | Only the named field takes the typed value. The order and visibility stay. |
| OrdersPage.HandleEditSubmit | src/components/OrdersPage.jsx:204-212 | One update of the edited order with the form. The list reloads and the modal closes exactly when there is no error, and an error leaves the modal unchanged. |
| OrdersPage.EditThenSaveSendsOnlyTwoFields | src/components/OrdersPage.jsx:186-212 | Opening an order and saving sends exactly its delivery date and status id to its own id. |
| OrdersPage.HandleDelete | src/components/OrdersPage.jsx:195-202 | Nothing without confirmation. Otherwise one delete, and the list reloads exactly on success. |
| OrderList.FilterOrders | src/components/OrderList.jsx:66-80 | Order-preserving subset, as long as the number of matching orders, keeping an order exactly when its number contains the term or a flat customer field or the products text contains the lower-cased term. The empty term keeps all. |
| OrderList.NestedAddressNotSearched | src/components/OrderList.jsx:75-77 | The model reads an address object as no match. The list itself throws on `toLowerCase` in that case; see Left out. |
| OrderList.CustomerName | src/components/OrderList.jsx:61-64 | Name, else email, else 'N/A', and never blank. |
| OrderList.FormatDatePlaceholderIff | src/components/OrderList.jsx:82-90 | With a locale rendering that never writes 'N/A', the placeholder shows exactly when the date is empty. |
| OrderList.HandleDelete | src/components/OrderList.jsx:30-39 | After confirmation the order is marked as being deleted and then unmarked whatever the outcome, and the list reloads only on success. Without confirmation nothing changes. |
| OrderList.DeleteClearsMark | src/components/OrderList.jsx:30-39 | A confirmed delete ends with no order marked, and the mark named the order during the call. |
| OrderList.RevenueCard | src/components/OrderList.jsx:169 | With no total stored as text, the card shows the same revenue as the orders page. |
| OrderList.RevenueCardAppend | src/components/OrderList.jsx:169 | The card over two lists is the sum of their cards. |
| OrderList.RevenueCardAddsOrder | src/components/OrderList.jsx:169 | An order adds its numeric total, the number `parseFloat` reads from a text total, or nothing when the text does not start with a number. |
| OrderForm.Appointment | src/components/OrderForm.jsx:34 | The appointment is the stored text cut to 16 characters, or blank. |
| OrderForm.Seed | src/components/OrderForm.jsx:24-36 | Exactly the default fields, each from the order when truthy, else its default, with the appointment cut to 16 characters. |
| OrderForm.SeedOfBlankOrder | src/components/OrderForm.jsx:7-36 | Seeding from an order with nothing set gives the default form. |
| OrderForm.ShortAppointmentKept | src/components/OrderForm.jsx:34 | An appointment of at most 16 characters survives seeding unchanged. |
| OrderForm.Payload | src/components/OrderForm.jsx:50-54 | The form with total read as a number (0 when unreadable) and a blank appointment sent as null. Every other field is unchanged. |
| OrderForm.SubmitAsWritten | src/components/OrderForm.jsx:45-72 | As written: an update of the given order, saved exactly on success. A new order issues no call and is never saved. Loading is cleared. |
| OrderForm.CreateNeverSaves | src/components/OrderForm.jsx:60 | As written a new order is never saved. With a create call it is created and saved on success. |
| OrderForm.Submit | src/components/OrderForm.jsx:56-66 | Update of the given order or create, and `onSave`/`onClose` exactly when the reply carries no error. Loading is cleared. |
| OrderForm.UpdatePathsAgree | src/components/OrderForm.jsx:57-58 | For an existing order, the as-written and corrected submits agree. |
| Dashboard.SameDayIffWithinDay | src/components/DashboardPage.jsx:221-225 | Two instants share a local day exactly when the first lies in the day-long window starting at the second's local midnight. |
| Dashboard.TodayOrders | src/components/DashboardPage.jsx:221-225 | The number of orders created on the current local day. |
| Dashboard.Customers | src/components/DashboardPage.jsx:227 | A value is a customer exactly when it is a truthy `user` of some order. There are never more customers than orders. |
| Dashboard.RepeatCustomerNotCounted | src/components/DashboardPage.jsx:227 | Another order by a known customer does not change the customers. |
| Dashboard.Summarize | src/components/DashboardPage.jsx:220-227 | Total orders; today's orders as the number of orders on the current local day; revenue over the orders with totals; active customers as the number of distinct truthy customers. Today's and active counts are at most the total. |
| Dashboard.Ago | src/components/DashboardPage.jsx:369-381 | Minutes while under 60 minutes, else hours while under 24 hours, else days, each rounded down. |
| Dashboard.AgoBuckets | src/components/DashboardPage.jsx:369-381 | The buckets split at one hour and one day. Hours run 1 to 23 and days start at 1, and a future order shows as minutes. |
| Dashboard.Recent | src/components/DashboardPage.jsx:368 | The first five orders, or all when fewer, in loaded order. |
| Dashboard.ReportRows | src/components/DashboardPage.jsx:182 | The first ten orders, or all when fewer, in loaded order. |
| Dashboard.RecentHeadsReport | src/components/DashboardPage.jsx:182 | The recent list is the head of the report. |
| BannersPage.AddNew | src/components/BannersPage.jsx:182-195 | An open form for a new banner with the eight empty fields. |
| BannersPage.Cancel | src/components/BannersPage.jsx:677-680 | Hides the form and forgets the banner but keeps the typed data. |
| BannersPage.CancelledDataNeverShown | src/components/BannersPage.jsx:127-195 | Data a cancel leaves behind is never shown, since both ways back in replace the form. |
| BannersPage.HandleInputChange | src/components/BannersPage.jsx:42-48 | A checkbox gives its checked state and any other input its value. Only that field changes. |
| BannersPage.HandleImageUpload | src/components/BannersPage.jsx:50-83 | Without a file, or on an upload error, nothing changes. Otherwise the image becomes the fresh file name. |
| BannersPage.HandleSubmit | src/components/BannersPage.jsx:85-125 | Without an image there is no call and no change. Otherwise an update when editing or a create. Success reloads, resets and closes, and an error keeps the form open with its data. |
| BannersPage.HandleEdit | src/components/BannersPage.jsx:127-140 | The form opens on the banner with exactly its eight fields. |
| BannersPage.EditThenSaveWritesBack | src/components/BannersPage.jsx:94-105 | Opening a banner with an image and saving it writes its eight fields back to its own id. |
| BannersPage.HandleDelete | src/components/BannersPage.jsx:142-163 | Nothing without confirmation. Otherwise one delete, and a reload exactly on success. |
| BannersPage.ActiveWindow | src/components/BannersPage.jsx:167-172 | Active at both ends of its window and never outside it. A window ending before it starts is never active. |
| BlogsPage.HandleInputChange | src/components/BlogsPage.jsx:42-48 | A checkbox gives its checked state and any other input its value. Only that field changes. |
| BlogsPage.HandleDescriptionChange | src/components/BlogsPage.jsx:50-55 | The editor's HTML becomes the description and no other field changes. |
| BlogsPage.HandleSubmit | src/components/BlogsPage.jsx:92-116 | One update or create, then a reload and a reset, closed form whatever the reply. |
| BlogsPage.SubmitIgnoresReply | src/components/BlogsPage.jsx:92-116 | A failed save looks exactly like a successful one. |
| BlogsPage.HandleEdit | src/components/BlogsPage.jsx:118-129 | The form opens on the post with exactly its six fields. |
| BlogsPage.AddNew | src/components/BlogsPage.jsx:153-164 | An open form for a new post with the six empty fields. |
| BlogsPage.Cancel | src/components/BlogsPage.jsx:532-535 | Hides the form and forgets the post but keeps the typed data. |
| BlogsPage.HandleDelete | src/components/BlogsPage.jsx:131-141 | Nothing without confirmation. Otherwise one delete and a reload whatever the reply. |
| BrandsPage.HandleInputChange | src/components/BrandsPage.jsx:38-44 | The typed value goes into the named field, checkbox or not. Only that field changes. |
| BrandsPage.AddNew | src/components/BrandsPage.jsx:134-137 | An open, empty form for a new brand. |
| BrandsPage.Cancel | src/components/BrandsPage.jsx:375-378 | Hides the form and resets it to the empty brand. |
| BrandsPage.AddNewAndCancelAgree | src/components/BrandsPage.jsx:134-137 | Add-new and cancel leave the same empty form and no edited brand. |
| BrandsPage.HandleSubmit | src/components/BrandsPage.jsx:81-98 | One update or create, then a reload and the cancelled form, without looking at the reply. |
| BrandsPage.SubmitIgnoresReply | src/components/BrandsPage.jsx:81-98 | A failed save looks exactly like a successful one. |
| BrandsPage.HandleEdit | src/components/BrandsPage.jsx:100-108 | The form opens on the brand with exactly name, order and image. |
| BrandsPage.HandleDelete | src/components/BrandsPage.jsx:110-120 | Nothing without confirmation. Otherwise one delete and a reload whatever the reply. |
| BrandsPage.FilterBrands | src/components/BrandsPage.jsx:122-124 | The brands whose name contains the term ignoring case, in order, as many as match. The empty term keeps all with a text name. |
| CategoriesPage.HandleInputChange | src/components/CategoriesPage.jsx:33-39 | Only the named field takes the typed value. |
| CategoriesPage.AddNew | src/components/CategoriesPage.jsx:151-154 | An open, empty form for a new category. |
| CategoriesPage.Cancel | src/components/CategoriesPage.jsx:307-310 | Hides the form and resets it. |
| CategoriesPage.HandleSubmit | src/components/CategoriesPage.jsx:41-58 | One update or create, a reload exactly when there is no error, and a reset, closed form in every case. |
| CategoriesPage.FailedSaveDiscardsInput | src/components/CategoriesPage.jsx:41-58 | A failed save loses the typed data without reloading. |
| CategoriesPage.HandleEdit | src/components/CategoriesPage.jsx:60-67 | The form opens on the category with exactly name and order. |
| CategoriesPage.HandleDelete | src/components/CategoriesPage.jsx:69-76 | Nothing without confirmation. Otherwise one delete and a reload exactly on success. |
| CategoriesPage.FilterCategories | src/components/CategoriesPage.jsx:78-80 | The categories whose name contains the term ignoring case, in order, as many as match. The empty term keeps all with a text name. |
| Users.EmailPrefix | src/services/usersService.js:17 | The email's text up to, and without, its first '@'. |
| Users.ToRow | src/services/usersService.js:15-21 | Name is the full name, else the email prefix, else 'Kullanıcı'. Phone is the user's phone, else the metadata's, else '-'. Id, email and creation time are copied. |
| Users.RowAlwaysNamed | src/services/usersService.js:17-19 | Every row has a name and a phone. Without a full name, an email not starting with '@' names the row by its prefix. |
| Users.EmptyPrefixFallsBack | src/services/usersService.js:17 | An empty email, or one starting with '@', falls back to 'Kullanıcı'. |
| Users.GetUsers | src/services/usersService.js:5-28 | One row per user, in order, or no rows and the error. |
| Users.RowsKeepIds | src/services/usersService.js:15-16 | The row ids are the user ids, in order. |
| Users.FilterUsers | src/components/UsersPage.jsx:22-29 | Order-preserving subset, as long as the number of matching rows, of rows whose name, email or phone contains the lower-cased term. Only rows with some text field can appear. |
| Users.EmptyTermKeepsRowsWithText | src/components/UsersPage.jsx:22-29 | A row without a text name, email or phone is never listed, even for the empty term. One with a text name is. |
| Users.ServiceRowsAllListed | src/components/UsersPage.jsx:22-29 | The empty search lists every row the service produced from text full names. |
| Users.Cell | src/components/UsersPage.jsx:88-98 | '-' for a missing value, the text itself otherwise. |
| Users.DateCellPlaceholderIff | src/components/UsersPage.jsx:103 | With a locale rendering that never writes '-', the dash shows exactly when the date is missing. |
| Forms.InputChange | src/components/BannersPage.jsx:42-48 | Checkbox coercion: the named field takes the checked state or the value, and every other field is unchanged. |
| Forms.ValueChange | src/components/BrandsPage.jsx:38-44 | The named field takes the value and every other field is unchanged. |
| Forms.CopyFields | src/components/BannersPage.jsx:129-138 | Exactly the named fields, each the record's value (null when missing). |
| Forms.SeedOrDefault | src/components/ProductsPage.jsx:186-196 | Exactly the default fields, each the record's value when truthy, else the default. |
| Forms.SeedOfEmptyIsDefaults | src/components/ProductsPage.jsx:186-196 | Seeding from an empty record gives the defaults. |
| Forms.SaveCall | src/components/BannersPage.jsx:95-105 | An update of the edited record's id exactly when editing, else a create, always carrying the form. |
| Forms.ConfirmedDelete | src/components/CategoriesPage.jsx:69-76 | Nothing without confirmation. Otherwise one delete, with a reload on success or when the page reloads regardless. |
| Search.EmptyTermMatchesText | src/components/BrandsPage.jsx:122-124 | Every text matches the empty term. |
| Search.NameMatchIgnoresTermCase | src/components/BrandsPage.jsx:122-124 | A term and its lower-cased spelling keep the same records. |
| Search.FilterByName | src/components/CategoriesPage.jsx:78-80 | The records whose name contains the term, in order, as many as match. The empty term keeps all with a text name. |
| Text.Lower | src/components/OrdersPage.jsx:76 | Same length, and each letter A-Z is mapped to its lower-case letter and every other character kept. |
| Text.LowerIdempotent | src/components/OrdersPage.jsx:76 | Lower-casing twice is lower-casing once. |
| Text.ContainsIffOccurs | src/components/OrdersPage.jsx:79 | `includes` holds exactly when the term occurs at some position. |
| Text.NatToStringRoundTrip | src/components/OrdersPage.jsx:79 | An order number's decimal text reads back as the number. |
| Text.JoinEmptyIff | src/components/OrdersPage.jsx:669 | Joining non-empty parts is empty exactly when there are no parts. |
| Text.BeforeAt | src/services/usersService.js:17 | A prefix of the text without '@' that is the whole text or stops at its first '@'. |
| Listing.Filter | src/components/ProductsPage.jsx:234-236 | `filter`: an order-preserving subsequence of kept elements whose length is the number of kept elements, so exactly the filtered list, and the whole list when all are kept. |
| Listing.FilterOnlyTwo | src/components/OrdersPage.jsx:663-669 | When only two positions pass, `filter` returns exactly those two elements in their order. |
| Listing.CountIsFilterLength | src/components/OrdersPage.jsx:582 | A count equals the length of the filtered list. |
| Listing.DisjointCounts | src/components/OrdersPage.jsx:579-589 | Counts of two exclusive conditions add up to at most the length. |
| Listing.SumOfAppend | src/components/OrdersPage.jsx:576 | A `reduce` sum over two lists is the sum of the two. |
| Listing.Take | src/components/DashboardPage.jsx:368 | `slice(0, n)`: the first n elements, or all when fewer. |

## Left out

- Backend calls (table select/insert/update/delete, storage upload/remove, the admin user listing) are parameters. They are foreign calls into the hosted client. The thin pass-through services for banners, orders, categories, brands and blogs only forward and wrap errors as values, so each page models them as an error reply. Their `updated_at`/`created_add` timestamps are left out.
- ProductsService.ClearSlot: the `updated_at` timestamp of the clear, the `updated_at: new Date()` that ProductsService.UpdateProduct writes with the row, and the other services' timestamps are not modelled, because the clock is not part of the model. `deleteProductImage` takes any column name; the model restricts it to the four image columns, which is how the page uses it.
- Random, time-based file names (product uploads and the banner, blog and brand image uploads) are opaque fresh strings. The product upload returns the stored path as an answer of `upload`. The blog and brand image upload handlers follow the banner one, which is the only one modelled (`BannersPage.HandleImageUpload`).
- `JSON.parse`, `parseFloat`, `Date` parsing, `toDateString`, `toLocaleDateString` and `Intl.NumberFormat` are parameters or left out. The local day uses a fixed offset, so a daylight-saving change within a day is not modelled.
- Text.Lower: lower-casing folds only ASCII letters. Turkish and other Unicode case mappings are not modelled.
- Orders.Amount: a total stored as text counts as 0, whereas JavaScript's `sum + '12'` would turn the sum into text. `true` would count as 1. Floating-point totals are modelled as integers (minor units).
- Search.NameMatches: a record whose name is not a string never matches. The pages would instead throw on `toLowerCase` and fail to render. The same holds for non-string customer and user fields in the order and user searches.
- ProductsPage.HandleImageChange: the previews are appended at once and in file order. In the code each preview is appended by its FileReader's `onload`, after the handler returns and in completion order, so other events may run first and the previews of one batch may land in any order.
- ProductsPage.FilePreviews: fixes the file order of a batch's previews; the completion order of the readers is not modelled, for the same reason.
- OrdersPage.FilterOrders: a products column that is not text (an already decoded array, the shape `parseProducts` accepts) is read as no match. The page calls `order.products?.toLowerCase()` on it and throws a TypeError for a non-empty term that id and customer fields did not match, so the list fails to render; the model does not represent that failure.
- OrderList.FilterOrders: the same holds for the products column of the order list, whose search calls `order.products?.toLowerCase()` as well; a non-text column is read as no match instead of throwing.
- OrderList.NestedAddressNotSearched: an address object is read as no match. The list calls `toLowerCase` on it and throws a TypeError whenever id, name, email and phone did not match, so the list fails to render; the model does not represent that failure.
- Orders.AddressLineEmptyIff: excludes address parts that are arrays, because an empty array is truthy but written as the empty string.
- OrderForm.Appointment: a truthy appointment that is not a string (which would make `slice` throw, or slice an array) is read as blank.
- Dashboard.Customers: distinctness is value equality. JavaScript's `Set` compares objects by identity, so two equal decoded objects would count twice.
- OrdersPage.HandleEditSubmit: requires an edited order. The modal can only be opened through `handleEdit`, and without one the handler would throw on `editingOrder.id`.
- The HTML invoice and report templates, the status dropdown (`getStatuses`), loading and uploading flags, FileReader preview contents, `alert` and `window.confirm` are left out. Confirmation is a parameter, and preview ids come from a parameter function because they are random.
- Object keys inherited from `Object.prototype` (a status named `constructor`, say) are treated as unknown statuses.
- The blog and banner lists are shown unfiltered and are not modelled as a filter.
- Routing, login, the sidebar, the rich-text editor and the client configuration are not part of this model.

Where the written description of the system and the code differ, the model follows the code:

- `deleteProduct` ignores an error from its pre-read and still deletes the row.
- The product form closes and reloads even when the service reports an error, since the service returns errors instead of throwing.
- `OrderList`, `OrderForm` and `UsersPage` are modelled although the app's router does not mount them.

## Findings

| source | as written | input that shows it | evidently intended | confidence | as-written member | corrected member |
|---|---|---|---|---|---|---|
| src/components/ProductsPage.jsx:209 | An existing image's URL is `imageUrls[index]` with the column position, but `getImageUrls` (src/services/productsService.js:9-12) skips empty columns. | A product with image1 empty and image2 = a, image3 = b: image2 is shown with b's picture and image3 with none. | Each existing image shows the URL of its own path. | not executed | ProductsPage.ExistingImagesAsWritten, ProductsPage.EditUrlMisaligned | ProductsPage.ExistingImages, ProductsPage.HandleEdit |
| src/components/OrderForm.jsx:60 | Creating calls `ordersService.createOrder`, which the orders service (src/services/ordersService.js) does not define. The call throws, is caught, and only the loading flag is cleared. | Submitting the form with no order given, whatever the service would reply. | A new order is created and `onSave`/`onClose` run on success. | not executed | OrderForm.SubmitAsWritten, OrderForm.CreateNeverSaves | OrderForm.Submit |
