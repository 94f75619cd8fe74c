# Omborxona warehouse tracker — a Dafny model

This project models the logic of a browser-resident warehouse tracker. The tracker keeps
products, stock movements ("kirim" is inbound, "chiqim" is outbound) and staff accounts in
the browser's local storage, and shows five permission-gated pages.

What the model covers:

- **The record store** (`Storage.Store`). Its three collections are `seq` fields, together
  with a flag saying whether the users key exists yet. The class covers:
  - upsert and replace-only update of products;
  - deletion of products by id;
  - the stock-movement rule `updateStock`;
  - seeding of the administrator on first read;
  - upsert and guarded deletion of users;
  - exact-match login.

  The read-only searches are functions over the collections: lookup by barcode, the list
  of distinct categories, and the credential search.
- **The permission gate.** `App` holds the session state, the page dispatch and the
  landing page chosen at login. `Sidebar` holds the fixed menu and its permission filter.
- **The receiving and dispatch screens.** `Inbound.InboundPage` and
  `Outbound.OutboundPage` are classes whose fields are the screens' state. Their handlers
  are methods that change those fields and call the store.
- **The derived views.** `Dashboard` covers the counters, the per-category grouping and
  the recent list. `Inventory` covers the search and category filter and the edit dialog.
  `AdminUsers` covers the permission toggles, the guarded user creation and deletion.

The generic JavaScript array operations live in `Lists`: `filter`, `findIndex`, `find`,
find-then-overwrite-or-push, and `Array.from(new Set(...))`. `String.prototype.trim`,
`toLowerCase` and `includes` live in `Strings`. Every collection operation is keyed by a
named key function: a product's id, a product's barcode or a user's id.

Behaviours of the code that the model reproduces and proves as they are:

- A new product is saved with the entered quantity, and then a stock update of 0 is made.
  So the only transaction logged for it records quantity 0
  (`Inbound.NewProductLogsZeroQuantity`).
- `updateStock` never rejects a negative change, so an inbound movement can lower stock
  (`Storage.NegativeInboundLowersStock`). The inbound submit handler's own guard refuses
  only 0. The browser's `min` check on the quantity input, which is not modelled, is what
  stops a negative quantity, so through that form this happens only when the browser check
  is bypassed.
- Barcodes are not unique. Every lookup by barcode returns the first match.
- The delete guard looks only at the first user with the id. With duplicate ids, a user
  named `admin` can be removed (`Storage.DuplicateIdDeletesAdmin`). With unique ids, which
  every store operation keeps, it cannot (`Storage.DeleteUserKeepsAdmins`).
- Usernames are not checked for uniqueness, and login returns the first user whose
  username and password match. A new user who repeats an earlier user's credentials logs in
  as that earlier user (`AdminUsers.RepeatedCredentialsLogInAsEarlierUser`).
- A user whose first permission is `admin` and who lacks `dashboard` lands on page id
  `admin`. No page has that id, so the page shown is "not found"
  (`App.AdminFirstLandsOnNotFound`).
- Selecting the category option `new` and leaving the new-category field blank stores the
  product under the category `new` (`Inbound.BlankNewCategoryKeepsSentinel`).

## Model

| member | source | states |
|---|---|---|
| Lists.Filter | services/storage.ts:53 | the result keeps exactly the elements passing the test, each as often as before, in their original order |
| Lists.FilterPartition | pages/Dashboard.tsx:18-19 | two filters with complementary tests together keep every element once |
| Lists.FilterLengthAppendOne | pages/Dashboard.tsx:17 | a filter over a list with one more element keeps one more exactly when that element passes |
| Lists.FilterLengthCountsIndices | pages/Dashboard.tsx:17-19 | the length of a filter is the number of positions whose element passes |
| Lists.IndexOfKey | services/storage.ts:30 | -1 when no record has the key, else the first index with it |
| Lists.FindByKey | services/storage.ts:59 | none exactly when no record has the key, else the first record with it |
| Lists.Upsert | services/storage.ts:28-39 | the record overwrites the slot of the first record with its key, or is appended at the end when there is none; afterwards the key finds the new record and every other key finds what it found before |
| Lists.UpsertIdempotent | services/storage.ts:28-39 | saving the same record twice equals saving it once |
| Lists.UpsertKeepsKeysUnique | services/storage.ts:28-39 | an upsert never creates a duplicate key |
| Lists.Replace | services/storage.ts:42-49 | same length; a no-op when the key is absent; otherwise the record overwrites the slot of the first record with its key, the key finds the new record and every other key is unaffected |
| Lists.RemoveKey | services/storage.ts:51-55 | exactly the records without that key remain, with their multiplicities and order |
| Lists.RemoveAbsentKey | services/storage.ts:51-55 | removing a key no record has changes nothing |
| Lists.Distinct | services/storage.ts:104-108 | every value of the input once, no duplicates and nothing else |
| Lists.DistinctFirstAppearance | services/storage.ts:104-108 | distinct values are ordered by their first occurrence |
| Strings.Trim | pages/Inbound.tsx:30 | never longer than its input; its shape is stated by the lemmas below |
| Strings.TrimStartDropsWhitespace | pages/Inbound.tsx:30 | trimming the front removes a whitespace prefix and stops at a non-whitespace character |
| Strings.TrimEndDropsWhitespace | pages/Inbound.tsx:30 | trimming the back removes a whitespace suffix and stops at a non-whitespace character |
| Strings.TrimIsSlice | pages/Outbound.tsx:20 | the trimmed text is a slice of the input with only whitespace on either side |
| Strings.TrimEndsWithContent | pages/Outbound.tsx:20 | a non-empty trimmed text starts and ends with a non-whitespace character |
| Strings.TrimEmptyIffBlank | pages/Outbound.tsx:20-21 | the trimmed text is empty exactly when the input is all whitespace |
| Strings.Lower | pages/Inventory.tsx:25 | same length; each ASCII capital becomes its small letter, other characters are unchanged |
| Strings.Contains | pages/Inventory.tsx:25 | a text includes only pieces no longer than itself, and always includes itself |
| Strings.ContainsEmpty | pages/Inventory.tsx:25 | every text includes the empty search |
| Storage.InitialAdmin | services/storage.ts:11-19 | the seed user admin_1, admin with password 123, holding all five permissions |
| Storage.HasStockFor | services/storage.ts:68 | only an outbound movement above the current stock is refused |
| Storage.ProductByBarcode | services/storage.ts:57-60 | none exactly when no product has the barcode, else the first product with it |
| Storage.Categories | services/storage.ts:104-108 | every category present among the products, each exactly once, and no other |
| Storage.CategoriesInFirstAppearanceOrder | services/storage.ts:104-108 | categories are listed in the order their first product appears |
| Storage.CredentialsIndex | services/storage.ts:146 | -1 when no user has both the username and the password, else the first index that does |
| Storage.FindCredentials | services/storage.ts:144-148 | none exactly when no user matches both username and password, else the first user who does |
| Storage.SeedAdminLogsIn | services/storage.ts:11-19 | the seeded administrator logs in as admin with password 123 |
| Storage.Moved | services/storage.ts:72-78 | inbound adds and outbound subtracts the change; the update time becomes the current time; nothing else changes |
| Storage.StockUpdate | services/storage.ts:62-97 | succeeds exactly when the id is found and it is not an outbound movement above the stock; on failure nothing changes; on success only that product moves, and one transaction naming it with its current name is put in front of the unchanged old list |
| Storage.StockUpdateLogsOnce | services/storage.ts:82-96 | one transaction is logged on success and none on failure |
| Storage.ShipWholeStock | services/storage.ts:68-76 | shipping exactly the stock succeeds and leaves 0 |
| Storage.NegativeInboundLowersStock | services/storage.ts:72-73 | a negative inbound change is accepted and lowers the stock |
| Storage.LocateProduct | services/storage.ts:64 | with unique ids, looking up a stored product's id finds that product |
| Storage.OutboundNeverOverdraws | services/storage.ts:68-76 | an outbound movement never makes a non-negative stock negative |
| Storage.StockUpdateKeepsIdsUnique | services/storage.ts:72-79 | a stock movement keeps product ids unique |
| Storage.UsersAfterDelete | services/storage.ts:134-142 | unchanged when the first user with the id is named admin; otherwise exactly the users with that id are removed and every other user keeps its multiplicity and order |
| Storage.DeleteUnknownUserIsNoop | services/storage.ts:137-141 | deleting an id no user has changes nothing |
| Storage.DeleteUserKeepsAdmins | services/storage.ts:136-138 | with unique ids, no user named admin is ever removed |
| Storage.DuplicateIdDeletesAdmin | services/storage.ts:137-140 | with a repeated id the guard checks only the first user, and a later admin is removed |
| Storage.Store.constructor | services/storage.ts:7-8 | a fresh store has no products, no transactions and no users key, and satisfies the unique-id invariant every operation keeps |
| Storage.Store.SaveProduct | services/storage.ts:28-39 | the products become the upsert of the product; nothing else changes; id uniqueness is kept |
| Storage.Store.UpdateProductDetails | services/storage.ts:42-49 | the products become the replace-only update; nothing else changes; id uniqueness is kept |
| Storage.Store.DeleteProduct | services/storage.ts:51-55 | every product with the id is dropped; nothing else changes |
| Storage.Store.UpdateStock | services/storage.ts:62-97 | result, products and transactions are exactly those of the stock-movement rule; users are untouched; id uniqueness is kept |
| Storage.Store.GetUsers | services/storage.ts:112-120 | returns the stored users, or seeds and returns exactly the administrator when the key is absent |
| Storage.Store.SaveUser | services/storage.ts:122-132 | the users, seeded first if need be, become the upsert of the user |
| Storage.Store.DeleteUser | services/storage.ts:134-142 | the users, seeded first if need be, become the guarded deletion's result |
| Storage.Store.LoginUser | services/storage.ts:144-148 | returns the credential search over the users, seeding them first if need be |
| Sidebar.AllMenuItems | components/Sidebar.tsx:15-21 | the five entries with their page ids and the permission each is gated by, in menu order |
| Sidebar.VisibleItems | components/Sidebar.tsx:13-25 | an entry is shown exactly when it is in the menu and its permission is among the user's; the shown entries keep menu order |
| Sidebar.NoUserNoMenu | components/Sidebar.tsx:13 | logged out, no entry is shown |
| Sidebar.MenuGates | components/Sidebar.tsx:15-21 | the user administration entry is gated by admin, and every other entry's id is its permission's tag |
| App.HasPermission | App.tsx:37-39 | false when nobody is logged in, else whether the user holds the permission |
| App.RenderPage | App.tsx:41-62 | the login form is produced exactly when nobody is logged in |
| App.RenderMenuPage | App.tsx:44-54 | each menu page renders its view exactly when the user holds the permission the menu gates it by, else access denied |
| App.RenderUnknownPage | App.tsx:55-56 | any other page id renders the dashboard when permitted, else not found |
| App.MenuAgreesWithDispatch | App.tsx:44-54 | an entry is visible in the sidebar exactly when clicking it renders its page, and hidden exactly when it renders access denied |
| App.LandingPage | App.tsx:26-28 | dashboard when held; otherwise the tag of the first permission, which the user holds; with no permission the current page is kept |
| App.LandingPageIsPermitted | App.tsx:26-28 | unless the first permission is admin, a user with a permission lands on a page they may see |
| App.AdminFirstLandsOnNotFound | App.tsx:28 | an admin-first user without dashboard lands on id admin, which renders not found |
| App.AppState.constructor | App.tsx:12-13 | nobody logged in, page dashboard |
| App.AppState.HandleLogin | App.tsx:23-29 | the user is remembered and the page becomes the landing page |
| App.AppState.HandleLogout | App.tsx:31-35 | the user is forgotten, the page resets to dashboard, and the login form is shown |
| App.AppState.SelectMenuItem | components/Sidebar.tsx:53 | clicking a shown entry moves to its page, which then renders that entry's view |
| Outbound.Precheck | pages/Outbound.tsx:38-46 | the request passes exactly when 0 < amount <= the snapshot's stock, else invalid amount or not-enough-stock with the snapshot's stock and unit |
| Outbound.FreshSnapshotShips | pages/Outbound.tsx:43-48 | a current snapshot that passes the page's check always ships, leaves a non-negative stock and logs one outbound transaction by System |
| Outbound.StaleSnapshotIsRefused | pages/Outbound.tsx:43-48 | a stale snapshot can pass the page's check while the store refuses the movement |
| Outbound.OutboundPage.constructor | pages/Outbound.tsx:7-10 | empty scanner, no snapshot, amount 1, no banner |
| Outbound.OutboundPage.SetBarcode | pages/Outbound.tsx:77 | only the scanner text changes |
| Outbound.OutboundPage.SetAmount | pages/Outbound.tsx:132 | only the amount changes |
| Outbound.OutboundPage.Decrement | pages/Outbound.tsx:126 | the amount becomes max(1, amount - 1): one less, and 1 for an amount of 1 or less |
| Outbound.OutboundPage.Increment | pages/Outbound.tsx:136 | the amount rises by one |
| Outbound.OutboundPage.HandleScan | pages/Outbound.tsx:18-33 | a blank code changes nothing; a found code takes the first product with it as the snapshot, resets the amount to 1 and clears the banner; otherwise the snapshot is cleared and not-found is shown |
| Outbound.OutboundPage.HandleOutbound | pages/Outbound.tsx:35-58 | no snapshot: nothing; a failed check: its banner and no store call; otherwise the store's outbound movement as System, then reset with a shipped banner or the failure banner with the state kept |
| Inbound.FinalCategory | pages/Inbound.tsx:66 | a typed category that is not blank wins, trimmed; a blank one gives the selected category; empty exactly when nothing is selected and nothing non-blank is typed |
| Inbound.BlankNewCategoryKeepsSentinel | pages/Inbound.tsx:66 | with option new selected and nothing typed, the category stored is new |
| Inbound.FormComplete | pages/Inbound.tsx:68 | the submit guard: name, final category, barcode not empty and a quantity other than 0 |
| Inbound.FormLocked | pages/Inbound.tsx:108 | the descriptive fields are locked exactly for an existing product whose name is loaded |
| Inbound.NewProductLogsZeroQuantity | pages/Inbound.tsx:83-84 | the new product keeps the entered quantity and the only transaction logged for it has quantity 0 |
| Inbound.RestockAddsQuantity | pages/Inbound.tsx:89-91 | with unique ids, the product found by barcode gains exactly the entered quantity and one inbound transaction is logged |
| Inbound.RegisterNewProduct | pages/Inbound.tsx:83-84 | the store ends as the stock update of 0 applied to the upsert of the new product |
| Inbound.RestockByBarcode | pages/Inbound.tsx:89-93 | if the barcode is still found, the store ends as the inbound movement of that product; otherwise it is unchanged |
| Inbound.InboundPage.constructor | pages/Inbound.tsx:8-19 | an empty, unlocked form with unit dona and quantity 0 |
| Inbound.InboundPage.Mount | pages/Inbound.tsx:23-26 | the category list is the store's distinct categories |
| Inbound.InboundPage.SetScannedBarcode | pages/Inbound.tsx:143 | only the scanner text changes |
| Inbound.InboundPage.SetName | pages/Inbound.tsx:162 | only the name changes, and only while the form is unlocked |
| Inbound.InboundPage.SelectCategory | pages/Inbound.tsx:175-178 | the category changes, and any option but new clears the typed category |
| Inbound.InboundPage.SetNewCategory | pages/Inbound.tsx:189-195 | only the typed category changes, while new is selected |
| Inbound.InboundPage.SetUnit | pages/Inbound.tsx:210 | only the unit changes, and only while the form is unlocked |
| Inbound.InboundPage.SetQuantity | pages/Inbound.tsx:226 | only the quantity changes |
| Inbound.InboundPage.HandleScan | pages/Inbound.tsx:28-52 | a blank code changes nothing; a known code loads that product's fields and locks the form when its name is not empty; an unknown code prepares an unlocked new-product form under the code |
| Inbound.InboundPage.LoadProduct | pages/Inbound.tsx:36-41 | the form takes the product's name, category, unit and barcode, as an existing product |
| Inbound.InboundPage.PrepareNewProduct | pages/Inbound.tsx:44-49 | the form is cleared for a new product under the code, with unit dona |
| Inbound.InboundPage.GenerateBarcode | pages/Inbound.tsx:54-61 | both barcode fields take the drawn digits, the name is cleared and the form is for a new, unlocked product |
| Inbound.InboundPage.HandleSubmit | pages/Inbound.tsx:63-103 | an incomplete form changes nothing but the banner; a new product is registered and a typed category is appended; an existing one is restocked by barcode if still found; a valid submit then resets the form |
| Inbound.InboundPage.ClearAfterSubmit | pages/Inbound.tsx:96-101 | quantity 0, empty name and barcodes, not a new product, so the form is unlocked |
| Dashboard.Count | pages/Dashboard.tsx:16-19 | total is the product count; low stock, inbound and outbound are the numbers of positions whose product is below 10, whose movement is inbound and whose movement is outbound; low stock is at most the total, 0 exactly when no product is below 10 and total exactly when all are; inbound and outbound counts add up to the transaction count |
| Dashboard.Bump | pages/Dashboard.tsx:22-27 | one reduce step: add one to the slice of the category, or push a slice with value 1 |
| Dashboard.Tally | pages/Dashboard.tsx:21-29 | the reduce over all products, as a left fold of that step |
| Dashboard.CategoryData | pages/Dashboard.tsx:21-29 | the in-place reduce loop computes the fold of the add-one-or-push step over the products |
| Dashboard.BumpCounts | pages/Dashboard.tsx:22-27 | one reduce step keeps every slice counting its category among the products seen so far |
| Dashboard.TallyNamesAreCategories | pages/Dashboard.tsx:21-29 | the slices name each category exactly once, in order of first appearance, the same list the store derives |
| Dashboard.TallyCountsCategories | pages/Dashboard.tsx:21-29 | each slice's value is the number of products in its category, and no category is missing |
| Dashboard.TallySumsToProductCount | pages/Dashboard.tsx:21-29 | the slice values add up to the number of products |
| Dashboard.Recent | pages/Dashboard.tsx:135 | the first min(10, n) transactions, in order |
| Dashboard.NewestFirst | pages/Dashboard.tsx:135 | after a movement the recent list starts with it, followed by the previous recent list, whose oldest entry drops off once ten are shown |
| Inventory.Matches | pages/Inventory.tsx:25-27 | name contains the search ignoring case or barcode contains it, and the filter is all or the category |
| Inventory.Filtered | pages/Inventory.tsx:24-28 | a product is listed exactly when its name matches the search ignoring case or its barcode contains the search, and the filter is all or its category; table order and multiplicities are kept |
| Inventory.EmptySearchShowsAll | pages/Inventory.tsx:24-28 | an empty search under the all filter lists every product |
| Inventory.BarcodeFindsProduct | pages/Inventory.tsx:25 | searching a product's exact barcode under the all filter lists it |
| Inventory.ApplyEdit | pages/Inventory.tsx:147-188 | one dialog input sets its own field to the typed value and changes no other field; id, quantity and update time are kept |
| Inventory.ApplyEdits | pages/Inventory.tsx:147-188 | any sequence of dialog inputs keeps id, quantity and update time |
| Inventory.ApplyEditsAppend | pages/Inventory.tsx:147-188 | the inputs take effect in the order typed: a further input applies to the copy the earlier ones left |
| Inventory.LastRenameWins | pages/Inventory.tsx:147 | the name shown is the one typed last, whatever came before |
| Inventory.SavedEditKeepsStock | pages/Inventory.tsx:34-41 | with unique ids, saving an edited copy rewrites only that product's slot and changes no id and no stock quantity |
| Inventory.InventoryPage.constructor | pages/Inventory.tsx:7-13 | no products or categories loaded yet, an empty search, the all filter and no dialog |
| Inventory.InventoryPage.Mount | pages/Inventory.tsx:15-17 | products and categories are read from the store; search, filter and dialog are unchanged |
| Inventory.InventoryPage.LoadData | pages/Inventory.tsx:19-22 | products and categories are re-read from the store |
| Inventory.InventoryPage.SetSearch | pages/Inventory.tsx:62 | only the search changes |
| Inventory.InventoryPage.SetFilterCat | pages/Inventory.tsx:71 | only the category filter changes |
| Inventory.InventoryPage.EditClick | pages/Inventory.tsx:30-32 | the dialog opens on a copy of the product |
| Inventory.InventoryPage.EditField | pages/Inventory.tsx:147-188 | the copy takes one edit |
| Inventory.InventoryPage.CancelEdit | pages/Inventory.tsx:196 | the dialog closes and nothing else changes |
| Inventory.InventoryPage.SaveEdit | pages/Inventory.tsx:34-41 | with the dialog open, the store gets the replace-only update of the copy, the dialog closes and the page reloads; otherwise nothing changes |
| AdminUsers.Without | pages/AdminUsers.tsx:30 | every permission but the given one, each as often as before and in the same order; the list itself when it is absent |
| AdminUsers.WithoutIsFilter | pages/AdminUsers.tsx:30 | the removal is the list filter keeping every other permission |
| AdminUsers.WithoutAppended | pages/AdminUsers.tsx:30-32 | removing a permission just appended gives back the list before |
| AdminUsers.TogglePermission | pages/AdminUsers.tsx:28-34 | the permission's membership flips and no other permission's does; an absent one is appended at the end; removing one keeps the others' order and multiplicity |
| AdminUsers.ToggleTwiceRestores | pages/AdminUsers.tsx:28-34 | toggling an absent permission twice restores the original list |
| AdminUsers.DeleteOffered | pages/AdminUsers.tsx:178 | the trash button is shown for every user not named admin |
| AdminUsers.OfferedDeleteRemovesThatUser | pages/AdminUsers.tsx:178-180 | with unique ids, a delete button that is shown removes that user and keeps every other user |
| AdminUsers.SavedUserCanLogIn | pages/AdminUsers.tsx:40-48 | a user just saved can log in with the username and password given, and is the account returned when no stored user already has those credentials |
| AdminUsers.RepeatedCredentialsLogInAsEarlierUser | pages/AdminUsers.tsx:36-51 | usernames are not checked for uniqueness: a new user repeating an earlier user's credentials logs in as the earlier user |
| AdminUsers.AdminUsersPage.constructor | pages/AdminUsers.tsx:7-14 | empty list, closed empty form with dashboard selected |
| AdminUsers.AdminUsersPage.Mount | pages/AdminUsers.tsx:16-18 | the list is read from the store, which seeds the administrator when needed |
| AdminUsers.AdminUsersPage.SetUsername | pages/AdminUsers.tsx:105 | only the username changes |
| AdminUsers.AdminUsersPage.SetPassword | pages/AdminUsers.tsx:116 | only the password changes |
| AdminUsers.AdminUsersPage.SetFullName | pages/AdminUsers.tsx:94 | only the full name changes |
| AdminUsers.AdminUsersPage.ToggleForm | pages/AdminUsers.tsx:76 | the form opens or closes without being cleared |
| AdminUsers.AdminUsersPage.Toggle | pages/AdminUsers.tsx:131 | the selection becomes the toggle of the permission |
| AdminUsers.AdminUsersPage.ResetForm | pages/AdminUsers.tsx:60-66 | empty fields, dashboard only, form closed |
| AdminUsers.AdminUsersPage.HandleSave | pages/AdminUsers.tsx:36-51 | nothing happens when username, password or full name is empty; otherwise the user built from the form is upserted under the new id, the list is reloaded and the form resets |
| AdminUsers.AdminUsersPage.HandleDelete | pages/AdminUsers.tsx:53-58 | the store's guarded deletion runs and the list is reloaded |

## Left out

- Local storage and session storage, with their JSON encoding: the collections, the
  users-key flag and the session user are plain fields. Parse and quota failures are not
  handled by the code either.
- `getProducts` and `getTransactions` are field reads. `initialProducts` is the empty
  sequence the constructor starts from.
- All rendering: markup, styling, icons, input focus and `window.print`. A page's
  effect on mount is a method the caller invokes. The browser's own `required` and `min`
  checks on form inputs are not modelled; the handlers' own guards are.
- `window.confirm` in the user page is taken as accepted.
- `components/BarcodeRenderer.tsx` is not part of this model. It only draws decorative
  stripes.
- `pages/Login.tsx` is not part of this model. It is a form around `loginUser`, which is
  modelled.
- `Math.random` in `generateRandomBarcode`: the drawn digits are a parameter.
- The pie chart, its colours and its percentage labels.
- `Date.now()` ids and ISO timestamps are parameters. The two clock reads in
  `updateStock` are one `now`. Nothing is proved about generated ids being fresh.
- `Storage.Store.UpdateStock`: the product's `lastUpdated` and the transaction's
  timestamp are the same `now`, although the code reads the clock twice.
- `Inbound.InboundPage.HandleSubmit`: the new product's `lastUpdated` is the same `now`
  as the stock update's, although the code reads the clock separately.
- `Strings.Lower`: only ASCII capitals are lowered; full Unicode case mapping is not
  modelled.
- Quantities are integers. Fractional amounts and the `NaN` that `Number()` gives for
  non-numeric input are not modelled. Setters take an `int`.
- The optional `price` field of a product and the unused `CategoryStats` type.
- The optional `user` field of a transaction: it is always set, because `updateStock`
  defaults it to `System`.
- `App.AppState.SelectMenuItem`: the precondition is that the entry is in the menu and the
  user holds its permission. By `Sidebar.VisibleItems` that is exactly the condition for the
  entry being shown. The sidebar list itself is not re-derived inside the method.
- Concurrent tabs writing the same storage.
