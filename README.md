# Storefront catalog, session and admin logic in Dafny

This project models the client-side core of a small React storefront. Every piece of it runs in the browser and persists to `localStorage`:

- **Catalog store** (`ProductsProvider`). It holds the product list and offers `addProduct`, `updateProduct`, `deleteProduct` and `getProductById`. It loads the list from the `"products"` key and falls back to the built-in demo catalog. It writes a snapshot back whenever the list is non-empty.
- **`useProducts` hook**. It gives a filtered view of the catalog (category, search text, price range), the sorted list of distinct categories, and four inventory statistics.
- **Admin dashboard** (`Admin` page). It has the same statistics, a stock badge per product, the product form's validation rules, and a modal whose submit updates the edited product or adds a new one.
- **Mock session** (`UserProvider`). Two hard-coded credential pairs sign in an admin or a customer. `logout` signs out. The session is mirrored to the `"user"` key.
- **Route gate** (`ProtectedRoute`). It redirects to `/` unless the user is signed in and, on admin routes, is an admin.
- **Demo catalog** (`mockProducts`). The twelve seed products.

Pure list computations are Dafny functions with lemmas about them. Each provider or page whose state React replaces is a class:

- `ProductsStore`: `products`
- `UserProvider`: `user`
- `AdminDashboard`: `isModalOpen`, `editingProduct`, form values

Each class has methods whose `ensures` tie the new state to those functions. `localStorage` is the class `LocalStorage.Storage`, which holds a string map. `JSON.parse` and `JSON.stringify` are function parameters (`decode`, `encode`), so the load and save rules hold for any serialisation.

Files:

- `product.dfy`: the `Product` record and its id-less `Draft`.
- `products_context.dfy`: the catalog store.
- `use_products.dfy`: filtering, categories, statistics, and the seed scenarios.
- `admin_page.dfy`: the dashboard.
- `user_context.dfy`: the session.
- `protected_route.dfy`: the route gate.
- `mock_products.dfy`: the demo catalog.
- `storage.dfy`, `strings.dfy`, `collections.dfy`, `wrappers.dfy`: the browser built-ins the code relies on. These are `localStorage`, `toLowerCase`, `includes`, `new Set`, `sort` and optional values.

Three behaviours of the code are worth noting:

- **Search.** The search box matches the whole lower-cased query as a substring of the name or the description. It does not split the query into terms, and it does not search the category.
- **Category filter.** It compares lower-cased values, and an empty string means "no filter". There is no `"all"` sentinel.
- **Persistence.** The catalog snapshot is written only while the list is non-empty. There is no "never loaded" flag. So after the last product is deleted, the stored snapshot keeps the list as it was before that deletion (`ReloadAfterDeletingLast`).

## Model

| member | source | states |
|---|---|---|
| ProductTypes.Draft.WithId | src/context/ProductsContext.tsx:40-43 | `{ ...draft, id }` carries the given id |
| ProductTypes.Ids | src/context/ProductsContext.tsx:42 | `products.map(p => p.id)` has one id per product, in list order |
| ProductTypes.DraftOf | src/context/ProductsContext.tsx:39-43 | a product is its own fields spread with its id: putting the id back on the id-less fields gives the product |
| ProductsContext.MaxId | src/context/ProductsContext.tsx:42 | `Math.max(...ids, 0)` is at least 0, bounds every id, and is 0 or one of the ids |
| ProductsContext.NextId | src/context/ProductsContext.tsx:42 | the new id is at least 1 and strictly greater than every existing id; it is 1 or one more than an existing id |
| ProductsContext.NextIdEmpty | src/context/ProductsContext.tsx:42 | on an empty catalog the first id is 1 |
| ProductsContext.Added | src/context/ProductsContext.tsx:39-45 | the add appends at the end: length grows by one, earlier entries are unchanged, the new entry is the draft with the new id, and that id differs from every earlier id |
| ProductsContext.Updated | src/context/ProductsContext.tsx:47-51 | the update keeps the length and order; entries with other ids are unchanged and entries with the target id become the draft with that id |
| ProductsContext.Deleted | src/context/ProductsContext.tsx:53-55 | the delete keeps exactly the entries whose id differs, never growing the list |
| ProductsContext.DeletedCounts | src/context/ProductsContext.tsx:53-55 | the delete keeps every copy of an entry with another id and no copy of an entry with this id |
| ProductsContext.Find | src/context/ProductsContext.tsx:57-59 | the lookup gives the first entry with the id, or nothing exactly when no entry has it |
| ProductsContext.Loaded | src/context/ProductsContext.tsx:19-31 | an absent key, an empty value or a parse failure gives the seed; a non-empty value that parses gives the parsed list |
| ProductsContext.Persisted | src/context/ProductsContext.tsx:33-37 | a non-empty list is written under `"products"`; an empty list leaves storage unchanged |
| ProductsContext.NextIdConsecutive | src/context/ProductsContext.tsx:42 | when the ids are 1..n in order, the next id is n+1 |
| ProductsContext.AddedConsecutive | src/context/ProductsContext.tsx:39-45 | adding to a catalog with ids 1..n gives ids 1..n+1 |
| ProductsContext.AddAllConsecutive | src/context/ProductsContext.tsx:39-45 | k adds to a catalog with ids 1..n keep the old entries and assign n+1..n+k in call order, each entry being its draft |
| ProductsContext.AddAllFromEmpty | src/context/ProductsContext.tsx:39-45 | n adds from an empty catalog assign ids 1..n in call order |
| ProductsContext.AddToSeedAssigns13 | src/context/ProductsContext.tsx:42 | adding to the demo catalog assigns id 13 and appends the draft with that id |
| ProductsContext.FindAdded | src/context/ProductsContext.tsx:39-59 | after an add, looking up the new id gives the draft with that id |
| ProductsContext.AddedUnique | src/context/ProductsContext.tsx:42-44 | adding keeps ids unique |
| ProductsContext.UpdatedIds | src/context/ProductsContext.tsx:47-51 | an update keeps every id in its place |
| ProductsContext.UpdatedAbsent | src/context/ProductsContext.tsx:47-51 | updating an absent id changes nothing |
| ProductsContext.FindUpdated | src/context/ProductsContext.tsx:47-59 | after updating a present id, looking it up gives the draft with that id |
| ProductsContext.UpdatedUnique | src/context/ProductsContext.tsx:47-51 | updating keeps ids unique |
| ProductsContext.UpdatedWithOwnDraft | src/context/ProductsContext.tsx:47-51 | saving a product's own fields again leaves a catalog with unique ids unchanged |
| ProductsContext.DeletedSubsequence | src/context/ProductsContext.tsx:53-55 | the remaining entries keep their original order |
| ProductsContext.FindDeleted | src/context/ProductsContext.tsx:53-59 | after a delete, looking up the id gives nothing |
| ProductsContext.DeletedAbsent | src/context/ProductsContext.tsx:53-55 | deleting an absent id changes nothing |
| ProductsContext.DeletedLength | src/context/ProductsContext.tsx:53-55 | with unique ids a delete shortens the list by one when the id is present and by zero otherwise |
| ProductsContext.DeletedUnique | src/context/ProductsContext.tsx:53-55 | deleting keeps ids unique |
| ProductsContext.ReloadRestoresSnapshot | src/context/ProductsContext.tsx:19-37 | after any change to a non-empty list, a reload gives that list back (given that parsing inverts serialising) |
| ProductsContext.ReloadAfterDeletingLast | src/context/ProductsContext.tsx:33-37 | deleting the only product writes nothing, so the stored value and a reload still hold the one-product list |
| ProductsContext.ProductsStore.constructor | src/context/ProductsContext.tsx:16-37 | mounting loads by the load rule, then persists by the persist rule, and establishes the snapshot invariant |
| ProductsContext.ProductsStore.Persist | src/context/ProductsContext.tsx:33-37 | the persist effect writes the snapshot exactly when the list is non-empty |
| ProductsContext.ProductsStore.AddProduct | src/context/ProductsContext.tsx:39-45 | the new list is `Added` of the old one, and its snapshot is written |
| ProductsContext.ProductsStore.UpdateProduct | src/context/ProductsContext.tsx:47-51 | the new list is `Updated` of the old one, persisted by the persist rule |
| ProductsContext.ProductsStore.DeleteProduct | src/context/ProductsContext.tsx:53-55 | the new list is `Deleted` of the old one, persisted by the persist rule |
| ProductsContext.ProductsStore.GetProductById | src/context/ProductsContext.tsx:57-59 | the result is the first entry of the list with that id, and it is missing exactly when no entry has the id |
| Strings.LowerChar | src/hooks/useProducts.ts:23 | `toLowerCase` on one character maps `A`–`Z` to `a`–`z` and keeps every other character; no upper-case letter is left |
| Strings.Lower | src/hooks/useProducts.ts:23 | `toLowerCase` keeps the length and lower-cases character by character |
| Strings.IncludesIffOccurs | src/hooks/useProducts.ts:31-32 | `includes(q)` holds exactly when `q` occurs at some offset |
| UseProducts.Keep | src/hooks/useProducts.ts:22-45 | a kept product passes the category test and both price bounds; a filter object without properties keeps every product |
| UseProducts.KeepIff | src/hooks/useProducts.ts:21-46 | a product is kept iff all four hold: no category (or "") or equal lower-cased categories; no query (or "") or the lower-cased query occurs in the lower-cased name or description; no min or price ≥ min; no max or price ≤ max |
| UseProducts.FilterProducts | src/hooks/useProducts.ts:21-46 | the filtered list holds exactly the kept products and is never longer |
| UseProducts.FilterCounts | src/hooks/useProducts.ts:21-46 | the filter keeps every copy of a passing product and no copy of any other |
| UseProducts.FilteredProducts | src/hooks/useProducts.ts:16-47 | without filters, or with an empty filter object, the result is the list itself; with any filter object it holds exactly the products that pass the callback |
| UseProducts.FilteredCounts | src/hooks/useProducts.ts:16-47 | given a filter object, the hook's view keeps every copy of a passing product and no copy of any other |
| UseProducts.FilterAllKept | src/hooks/useProducts.ts:21-46 | when every product passes, the filter returns the list unchanged |
| UseProducts.EmptyStringsKeepAll | src/hooks/useProducts.ts:23-28 | an empty-string category and query impose nothing |
| UseProducts.FilterSubsequence | src/hooks/useProducts.ts:21-46 | the filtered list is an order-preserving subsequence of the products |
| UseProducts.FilteredSubsequence | src/hooks/useProducts.ts:16-47 | the hook's filtered view is an order-preserving subsequence of the products |
| UseProducts.FilteredIdempotent | src/hooks/useProducts.ts:16-47 | filtering the filtered view again with the same filters returns it unchanged |
| UseProducts.CategoryValues | src/hooks/useProducts.ts:50 | `products.map(p => p.category)` has one category per product, in list order |
| Collections.Distinct | src/hooks/useProducts.ts:50 | `[...new Set(xs)]` has no duplicates, holds exactly the values of `xs`, and is never longer |
| Collections.Sort | src/hooks/useProducts.ts:50 | `sort()` gives a permutation of its input |
| Collections.SortSorted | src/hooks/useProducts.ts:50 | the result of `sort()` is ascending in the lexicographic order of strings |
| Collections.SortedUnique | src/hooks/useProducts.ts:50 | two ascending duplicate-free lists with the same values are equal |
| UseProducts.Categories | src/hooks/useProducts.ts:49-51 | the category list has no duplicates, is sorted, holds exactly the products' categories, and its length is the number of distinct categories (at most the number of products) |
| UseProducts.CategoriesOfTwo | src/hooks/useProducts.ts:49-51 | a catalog whose categories are exactly a and b, with a ordered first, has the category list [a, b] |
| UseProducts.TotalValue | src/hooks/useProducts.ts:56 | with non-negative prices the inventory value `Σ price × stock` is non-negative |
| UseProducts.TotalValueAppend | src/hooks/useProducts.ts:56 | the inventory value grows by price × stock for each appended product |
| UseProducts.LowStockProducts | src/hooks/useProducts.ts:57 | the low-stock list holds exactly the products with stock below 10 |
| UseProducts.LowStockCountFrom | src/hooks/useProducts.ts:57 | the low-stock list has one entry per position whose stock is below 10 |
| UseProducts.ComputeStats | src/hooks/useProducts.ts:53-60 | totalProducts is the length; totalValue is the inventory value `Σ price × stock`; lowStockCount is the number of positions with stock below 10, so it is ≤ totalProducts and is 0 iff no stock is below 10; categories is the number of distinct categories, at most totalProducts |
| UseProducts.CategoriesUnique | src/hooks/useProducts.ts:49-51 | the category list is the only sorted duplicate-free list of the catalog's categories |
| UseProducts.SeedCategories | src/data/mockProducts.ts:3-111 | the demo catalog's category list is ["accessories", "electronics"] |
| UseProducts.SeedStats | src/data/mockProducts.ts:3-111 | the demo catalog has 12 products worth 13012.23 and 2 categories; only product 2 (stock 8) is low, and product 9 (stock 10) is not |
| UseProducts.SeedAccessoriesFrom20 | src/hooks/useProducts.ts:21-46 | the filter {category 'accessories', minPrice 20} on the demo catalog gives products 3, 8, 10 and 12, in catalog order |
| UseProducts.KeepAccessoriesFrom20 | src/hooks/useProducts.ts:21-46 | on the seed's two categories that filter keeps exactly the accessories priced at 20 or more |
| UseProducts.TwoProductScenario | src/hooks/useProducts.ts:53-60 | products priced 10 (stock 5) and 20 (stock 1) are worth 70, and both count as low on stock |
| MockData.MockProductsSeedLike | src/data/mockProducts.ts:3-111 | the demo catalog has twelve products with ids 1..12 and the listed prices, categories and stocks |
| MockData.MockProductsIds | src/data/mockProducts.ts:3-111 | the demo catalog has 12 products with ids 1..12 in order, so its ids are unique |
| MockData.MockProductsPrices | src/data/mockProducts.ts:3-111 | every demo product has a positive price |
| AdminPage.DashboardStats | src/pages/Admin.tsx:112-116 | the dashboard's statistics, which count unsorted distinct categories, equal the hook's statistics |
| AdminPage.StatusOf | src/pages/Admin.tsx:212-218 | the badge is "Out of Stock" iff stock is 0, "Low Stock" iff stock is 1..9, and "In Stock" iff stock ≥ 10; exactly one applies |
| AdminPage.LowStockMeansBadge | src/pages/Admin.tsx:212-218 | a product is counted as low on stock iff its badge is not "In Stock"; every "Out of Stock" product is counted |
| AdminPage.Validate | src/pages/Admin.tsx:16-32 | the form validates iff name ≥ 3 characters, price a number > 0, description ≥ 10 characters, image and category non-empty, stock a whole number ≥ 0; validated data carries the form's values |
| AdminPage.FormOf | src/pages/Admin.tsx:62-76 | the form filled from a product validates to that product's own fields exactly when they meet the rules, and to nothing otherwise |
| AdminPage.EmptyFormRejected | src/pages/Admin.tsx:16-32 | the reset form never validates |
| AdminPage.AdminDashboard.constructor | src/pages/Admin.tsx:38-39 | the page starts with the modal closed and no product being edited |
| AdminPage.AdminDashboard.HandleOpenModal | src/pages/Admin.tsx:62-76 | opening with a product edits it and fills the form with its values; opening without one edits nothing and resets the form; the modal opens |
| AdminPage.AdminDashboard.HandleCloseModal | src/pages/Admin.tsx:78-82 | the modal closes, nothing is edited and the form is reset |
| AdminPage.AdminDashboard.OnSubmit | src/pages/Admin.tsx:84-103 | exactly one store operation runs: an update of the edited product's id when one is edited, an add otherwise; the modal then closes with nothing edited |
| AdminPage.AdminDashboard.Submit | src/pages/Admin.tsx:253 | the form reaches `onSubmit` with the validated data iff it validates: the store then updates the edited id or adds, the snapshot follows the persist rule, and the modal closes; otherwise nothing changes |
| AdminPage.AdminDashboard.HandleDelete | src/pages/Admin.tsx:105-110 | a confirmed delete removes the id through the store and storage follows the persist rule, so deleting the last product keeps the old snapshot; an unconfirmed one changes nothing |
| UserContext.Authenticate | src/context/UserContext.tsx:43-64 | the admin pair selects the admin user, the customer pair the customer user, and any other pair nobody |
| UserContext.IsAuthenticated | src/context/UserContext.tsx:74-76 | `user !== null`: signed in means a user is present, in one of the two roles |
| UserContext.SignedInRoles | src/context/UserContext.tsx:70-76 | `isAuthenticated` holds iff the user is an admin or a customer; a signed-out visitor is never an admin |
| UserContext.IsAdmin | src/context/UserContext.tsx:70-76 | being an admin implies being signed in |
| UserContext.LoadedUser | src/context/UserContext.tsx:24-33 | an absent key, an empty value or a parse failure leaves nobody signed in; a non-empty stored value that parses becomes the user |
| UserContext.Mirrored | src/context/UserContext.tsx:35-41 | with a user the `"user"` key holds its serialisation; without one the key is absent; all other keys are untouched |
| UserContext.LoadFailureSignsOut | src/context/UserContext.tsx:24-41 | a stored value that fails to parse leaves nobody signed in, and mounting removes the key |
| UserContext.ReloadRestoresUser | src/context/UserContext.tsx:24-41 | a mirrored session comes back on reload (given that parsing inverts serialising) |
| UserContext.KnownCredentials | src/context/UserContext.tsx:43-61 | the admin pair signs in user 1 as admin; the customer pair signs in user 2, who is signed in but not an admin |
| UserContext.WrongPasswordRejected | src/context/UserContext.tsx:63 | a known email with any password other than its own, including the other account's password, signs nobody in |
| LocalStorage.Storage.SetItem | src/context/ProductsContext.tsx:35 | `setItem` writes the value under the key and keeps every other key |
| LocalStorage.Storage.RemoveItem | src/context/UserContext.tsx:39 | `removeItem` deletes the key and keeps every other key |
| UserContext.UserProvider.constructor | src/context/UserContext.tsx:21-41 | mounting loads the user by the load rule and mirrors it, establishing the mirror invariant |
| UserContext.UserProvider.Mirror | src/context/UserContext.tsx:35-41 | the key is written when a user is present and removed when none is |
| UserContext.UserProvider.Login | src/context/UserContext.tsx:43-64 | a known pair returns true and replaces the session with its user, mirrored; any other pair returns false and leaves the user and the storage unchanged, even when someone is signed in |
| UserContext.UserProvider.Logout | src/context/UserContext.tsx:66-68 | afterwards nobody is signed in, nobody is an admin, and the key is removed |
| ProtectedRoute.Gate | src/components/common/ProtectedRoute.tsx:10-26 | a signed-out visitor is always redirected to `/`; on an admin route a non-admin is redirected; the children render iff signed in and (no admin requirement or admin) |
| ProtectedRoute.AdminRouteOnlyForAdmins | src/components/common/ProtectedRoute.tsx:20-25 | an admin route opens exactly for a signed-in admin, and an admin can open every route |
| ProtectedRoute.RequireAdminOnlyNarrows | src/components/common/ProtectedRoute.tsx:20-25 | any route that opens with the admin requirement also opens without it |
| ProtectedRoute.GateAfterSessionChanges | src/components/common/ProtectedRoute.tsx:14-25 | after an admin sign-in every route opens; after a customer sign-in plain routes open and admin routes redirect; signed out, every route redirects |

## Left out

- The shopping cart. `src/context/CartContext` is not part of this model, and `src/pages/Cart.tsx` only calls it and formats totals.
- `src/hooks/useFetch.ts`. It is asynchronous network I/O.
- The presentation components. These include buttons, cards, alerts, badges, modals, the login modal and the error boundary. They also include the pages' markup, the notification banner with its three-second timer, and the theme.
- `src/types/product.ts` is not part of this model. The `Product` fields are the ones the catalog code reads and writes.
- The `console.error` logging when a stored value fails to parse (`src/context/ProductsContext.tsx:25`, `src/context/UserContext.tsx:30`). It is console output. The model keeps the fallback that follows it.
- `JSON.parse` and `JSON.stringify` are the abstract `decode` and `encode` parameters.
  - A value that parses to something other than a product list or a user is folded into `decode` returning nothing. For the user only a stored `"null"` matches the code. Any other value that is not a user (`"{}"`, `"[]"`, `"0"`) becomes `user` in the code (`src/context/UserContext.tsx:28`). Then `isAuthenticated()` holds with no admin role, so the gate opens every non-admin route, and the mirror effect writes a truthy value back. The model signs nobody in. For the catalog the code does not match either. The code keeps the parsed value, and for `"null"` the persist effect's `products.length` (`src/context/ProductsContext.tsx:34`) throws, whereas the model shows the demo catalog.
  - Storage quota errors are not modelled.
  - Other tabs writing the same keys are not modelled.
- React effect scheduling and batching. Mounting a provider is one step: the load effect, then the save or mirror effect. Each operation is one step followed by its effect. In the code `addProduct` reads the list of the current render (`src/context/ProductsContext.tsx:42,44`), so two calls within one event handler both take id max+1 and the second replaces the first. `AddAllConsecutive` and `AddAllFromEmpty` describe adds made in separate events, which is how the admin page calls it (`src/pages/Admin.tsx:94-100`, one call per submit).
  - `setUser` always receives a new object on a successful login, so the mirror effect re-runs. The model writes the key on every successful login.
  - On mount, the session's mirror effect first runs with no user, then again with the loaded one. Only the end state is modelled.
- Numbers. Prices and the inventory value are exact reals, not JavaScript doubles. `toFixed` display rounding is not modelled.
- The model's `Lower` changes ASCII letters only, where JavaScript's `toLowerCase` lower-cases all of Unicode. The model's sort compares Unicode characters, where JavaScript's default `sort()` compares UTF-16 code units. String lengths in the form rules count characters.
- The form resolver. Only the numeric and length rules of `productSchema` are modelled. Left out are the `.url()` check on the image, the error messages, and yup's casting of input text to numbers. A number field that does not read as a number is `None`.
- `window.confirm` is the `confirmed` parameter of `HandleDelete`.
