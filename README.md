# Library admin console: list-page controllers

This project models the controller logic of the three list pages of a React
administrative console for a small library backend. Each page manages one
resource collection (books or categories) against a REST API:

- `src/features/buku/pages/IndexBuku.jsx`: books, with a detail view and a staged delete confirmation;
- `src/features/kategori/pages/IndexKategori.jsx`: categories (a single `nama` field), same shape;
- `src/features/buku/pages/BukuListPage.jsx`: the older book page, whose delete is gated by `confirm()`.

Each page is a Dafny `class` whose fields are the page's React state. For `IndexBuku.jsx`
these are `buku`, `form`, `editingId`, `loading`, `showForm`, `selectedBuku` and
`deleteConfirmation`; the older `BukuListPage.jsx` has only the first five, with no detail
view and no staged confirmation.
There are also two logs: `requests` holds the calls issued on the API client, and `notices`
holds the toasts shown. Each event handler is a method. Its postcondition gives the whole new
state as an update of `old(View())`, so every field it does not name is unchanged. It also
keeps the object invariant `Valid()`: the draft always carries the schema's field names.

The API client is not part of this model. Each method takes the outcome of its remote calls
as arguments:

- `CallResult` for create, update and delete: `Ok`, or `Failed` with optional `message` / `error`.
- `ListResult` for the list call: `ListFailed`, or `Listed` with a payload. The payload is
  `Array(items)` or `NotArray`, which is how the `Array.isArray` guard is modelled.
- For `fetchBuku` / `fetchKategori`, the argument `live` is the value of `mountedRef.current`
  when the response arrives. The refresh inside a handler goes through a fresh ref, so it is
  called with `live = true`.

Shared pure parts live in their own modules:

- `Js`: JavaScript truthiness of ids (`null`, `0` and `""` are falsy), the `a || b || fallback`
  chain, and `String(n)` for integers. `ParseInt` is a reference inverse of `String(n)`. It
  shows that `handleEdit`'s stringified year and stock read back unchanged.
- `Api`: requests, outcomes, failure texts, and the create-versus-update choice.
- `Books` and `Categories`: records, drafts, default messages and the statistics cards.

The draft form is a `map<string, string>`, as the JavaScript object is. Because of this,
`handleChange` with a name outside the schema adds a key, just as `{...prev, [name]: value}` does.

Two details of the code that the model keeps, and one it does not:

- A failed save, whether create or update, falls back to `err.response.data.error` when
  `message` is falsy.
- `confirmDelete` with nothing staged throws before changing any state. The model treats this
  as "no change" rather than as a precondition.
- In the code the refresh after a delete is not awaited, while the refresh after a submit is.
  Nothing follows the delete's refresh in its handler, so the model runs it inside
  `ConfirmDelete` / `HandleDelete`, and the final state is the same.

Mounting a page is its constructor followed by `FetchBuku(live, r)` or `FetchKategori(live, r)`:
the mount effect (`IndexBuku.jsx:37-41`, `BukuListPage.jsx:34-38`, `IndexKategori.jsx:31-35`)
issues that one list call. Unmounting sets the ref to false, which is the `live = false` case.
Under `<React.StrictMode>` a development build runs the mount effect, its cleanup and the
effect again, so a development mount is the constructor, `FetchX(false, r1)` and then
`FetchX(true, r2)`, and its call log starts with two GETs. The scenarios below trace a
production build's single mount.

The category cards are `kategori.length` twice and a literal 0 (`IndexKategori.jsx:139-152`).
`Categories.Stats` computes them for the scenario below and makes no separate claim.

`IndexBuku.jsx` exports a component that is also named `BukuListPage`. The model names each
module after its file.

## Model

| member | source | states |
|---|---|---|
| Js.IdTruthy | src/features/buku/pages/IndexBuku.jsx:53 | an id is truthy exactly when it is not `null`, not the number 0 and not the empty string |
| Js.FirstTruthy | src/features/buku/pages/IndexBuku.jsx:67-70 | the result is the first truthy candidate; it is the fallback when no candidate is truthy; it is never empty when the fallback is not |
| Js.IntToString | src/features/buku/pages/IndexBuku.jsx:82-83 | `String(n)` is non-empty, starts with `-` exactly when `n` is negative, is otherwise all decimal digits, and has no leading zero unless `n` is 0 |
| Js.ParseIntRoundTrip | src/features/buku/pages/IndexBuku.jsx:82-83 | `String(n)` reads back as `n` for every integer; this matches JavaScript for integers with `\|n\| < 2^53` |
| Js.IntToStringInjective | src/features/buku/pages/IndexBuku.jsx:54 | two integers with the same decimal string are equal |
| Api.SaveFailureText | src/features/buku/pages/IndexBuku.jsx:67-70 | the message shown for a failed save: `response.data.message` if truthy, else `response.data.error` if truthy, else the fallback; never empty given a non-empty fallback |
| Api.DeleteFailureText | src/features/buku/pages/IndexBuku.jsx:104 | the message shown for a failed delete: `response.data.message` if truthy, else the fallback; `error` is ignored |
| Api.SaveRequest | src/features/buku/pages/IndexBuku.jsx:53-58 | the save call is a PUT to `{base}/{editingId}` exactly when `editingId` is truthy, otherwise a POST to the base path; the body is always the draft |
| Api.ItemPath | src/features/buku/pages/IndexBuku.jsx:98 | `${base}/${id}`: the path is the base, then `/`, then exactly the id's string |
| Api.ListedItems | src/features/buku/pages/IndexBuku.jsx:27 | `Array.isArray(res.data.data) ? res.data.data : []`: an array payload is taken whole, and every listed item comes from an array payload |
| Api.Refreshed | src/features/buku/pages/IndexBuku.jsx:25-32 | a failed list call keeps the current collection; a successful one replaces it with the server's array, and nothing that is not in that array survives |
| Api.ListNotices | src/features/buku/pages/IndexBuku.jsx:29-33 | a list call shows at most one toast; it shows one exactly when the page is live and the call failed, and that toast is the load-failure error |
| Api.ItemPathSeparatesNumericIds | src/features/buku/pages/IndexBuku.jsx:98 | two different numeric ids never share an item path, so an update or delete reaches only its own record |
| Books.EmptyDraft | src/features/buku/pages/IndexBuku.jsx:121-128 | the reset draft has exactly the five book fields, all empty strings |
| Books.EditDraft | src/features/buku/pages/IndexBuku.jsx:77-84 | the edit draft has exactly the five fields; title, author and publisher are copied; year and stock are strings that parse back to the book's numbers |
| Books.EditDraftRoundTrip | src/features/buku/pages/IndexBuku.jsx:77-84 | reading the edit draft back with the book's id gives the very same book, so an unchanged edit submits the record as it was |
| Books.StockSum | src/features/buku/pages/IndexBuku.jsx:165 | the "Stok Tersedia" left fold is non-negative when every stock is, and 0 when every stock is 0 |
| Books.SoldOutCount | src/features/buku/pages/IndexBuku.jsx:171 | the "Buku Habis" count is at most the collection's length, and it is 0 exactly when no book has stock 0 |
| Books.SoldOut | src/features/buku/pages/IndexBuku.jsx:171 | `filter(b => b.stok === 0)`: every book occurs in the result as often as in the collection when its stock is 0, and not at all otherwise; the result is no longer than the collection |
| Books.SoldOutMembers | src/features/buku/pages/BukuListPage.jsx:151 | a book is among the sold-out ones exactly when it is in the collection with stock 0 |
| Books.EmptyStats | src/features/buku/pages/BukuListPage.jsx:140-151 | available stock and sold-out count of the empty collection are 0 |
| Books.StockSumAppend | src/features/buku/pages/IndexBuku.jsx:165 | the stock sum of a concatenation is the sum of the parts' stock sums |
| Books.SoldOutCountAppend | src/features/buku/pages/IndexBuku.jsx:171 | the sold-out count of a concatenation is the sum of the parts' counts |
| Books.NoStockIffAllSoldOut | src/features/buku/pages/IndexBuku.jsx:165-171 | with non-negative stock, the stock sum is non-negative, and it is 0 exactly when the sold-out count equals the total |
| Categories.EmptyDraft | src/features/kategori/pages/IndexKategori.jsx:109-112 | the reset draft is `{nama: ''}` |
| Categories.EditDraft | src/features/kategori/pages/IndexKategori.jsx:71-72 | the edit draft is `{nama: k.nama}` and has no other key |
| IndexBuku.Page.constructor | src/features/buku/pages/IndexBuku.jsx:9-21 | initial state: empty collection, empty draft, null `editingId`, not loading, form hidden, no detail, no confirmation, no calls, no toasts |
| IndexBuku.Page.FetchBuku | src/features/buku/pages/IndexBuku.jsx:23-35 | issues one GET; while mounted, the collection becomes `res.data.data` if it is an array and `[]` otherwise; a failure while mounted shows one error toast and keeps the collection; when not mounted, nothing changes but the call log |
| IndexBuku.Page.HandleChange | src/features/buku/pages/IndexBuku.jsx:43-46 | only the named draft field changes; a known field name keeps the draft's key set |
| IndexBuku.Page.HandleSubmit | src/features/buku/pages/IndexBuku.jsx:48-75 | issues the save call from `SaveRequest`: a PUT or POST whose body carries every book field. On success: the success toast for update or create, a live refresh, the draft reset, a null `editingId` and a hidden form. On failure: the fallback-chain error toast, with draft, `editingId`, form and collection kept. `loading` is false after both outcomes. |
| IndexBuku.Page.HandleEdit | src/features/buku/pages/IndexBuku.jsx:77-87 | the draft becomes `EditDraft(b)`, `editingId` becomes `b.id`, the form opens; nothing else changes |
| IndexBuku.Page.OpenDeleteConfirmation | src/features/buku/pages/IndexBuku.jsx:89-91 | stages `{id, judul}`, with no call and no other change |
| IndexBuku.Page.ConfirmDelete | src/features/buku/pages/IndexBuku.jsx:93-107 | the confirmation is cleared whatever the outcome. One DELETE is issued to the staged id's path. Success shows a toast and refreshes. Failure shows `message` or the default and leaves the collection as it was. With nothing staged, nothing changes. |
| IndexBuku.Page.CancelDelete | src/features/buku/pages/IndexBuku.jsx:109-111 | clears only the confirmation |
| IndexBuku.Page.HandleViewDetail | src/features/buku/pages/IndexBuku.jsx:113-115 | sets only the detail selection |
| IndexBuku.Page.CloseModal | src/features/buku/pages/IndexBuku.jsx:117-119 | clears only the detail selection |
| IndexBuku.Page.ResetForm | src/features/buku/pages/IndexBuku.jsx:121-130 | the draft becomes five empty strings and `editingId` null; nothing else changes |
| IndexBuku.Page.ToggleForm | src/features/buku/pages/IndexBuku.jsx:144-148 | resets the draft and `editingId`, then flips the form's visibility |
| IndexBuku.Page.CancelEdit | src/features/buku/pages/IndexBuku.jsx:188-191 | resets the draft and `editingId` and hides the form |
| IndexBuku.TypeBook | src/features/buku/pages/IndexBuku.jsx:43-46 | opening the form from the header button and typing the five fields leaves exactly the typed draft, a null `editingId` and an open form, and changes nothing else |
| IndexBuku.CreateBookScenario | src/features/buku/pages/IndexBuku.jsx:37-64 | mount on an empty server, open the form, type a book and submit it; the server assigns id 7. The calls are GET, POST to `/buku`, GET. Afterwards the collection is exactly that book, the posted body reads back as it, the only toast is the create success, and the form is reset and hidden |
| BukuListPage.Page.constructor | src/features/buku/pages/BukuListPage.jsx:8-18 | initial state: empty collection, empty draft, null `editingId`, not loading, form hidden, no calls, no toasts |
| BukuListPage.Page.FetchBuku | src/features/buku/pages/BukuListPage.jsx:20-32 | the same array guard and mount guard as the newer page; a failure keeps the collection |
| BukuListPage.Page.HandleChange | src/features/buku/pages/BukuListPage.jsx:40-43 | only the named draft field changes |
| BukuListPage.Page.HandleSubmit | src/features/buku/pages/BukuListPage.jsx:45-72 | branches on truthy `editingId`; the save call is a PUT or POST whose body carries every book field. On success it refreshes, resets the draft and hides the form. On failure it keeps draft, `editingId`, form and collection. `loading` is false after both outcomes. |
| BukuListPage.Page.HandleEdit | src/features/buku/pages/BukuListPage.jsx:74-84 | the draft becomes `EditDraft(b)` (year and stock stringified), `editingId` becomes `b.id`, the form opens |
| BukuListPage.Page.HandleDelete | src/features/buku/pages/BukuListPage.jsx:86-99 | a declined `confirm()` changes nothing and issues no call. When confirmed, one DELETE is issued. Success shows a toast and replaces the collection only through the refresh. Failure shows `message` or `'Gagal menghapus buku.'` and keeps the collection. |
| BukuListPage.Page.ResetForm | src/features/buku/pages/BukuListPage.jsx:101-110 | five empty strings and a null `editingId`; nothing else changes |
| BukuListPage.Page.ToggleForm | src/features/buku/pages/BukuListPage.jsx:124-128 | resets the draft and `editingId`, then flips the form's visibility |
| BukuListPage.Page.CancelEdit | src/features/buku/pages/BukuListPage.jsx:168-171 | resets the draft and `editingId` and hides the form |
| BukuListPage.EditThenSubmitScenario | src/features/buku/pages/BukuListPage.jsx:45-84 | edit a book, then submit successfully. The save call's body is the edit draft, which reads back as the book. It is a PUT to the book's path when the id is truthy and a POST when the id is 0. Afterwards the form is reset, hidden and not loading |
| IndexKategori.Page.constructor | src/features/kategori/pages/IndexKategori.jsx:9-15 | initial state: empty collection, `{nama: ''}`, null `editingId`, not loading, form hidden, no detail, no confirmation |
| IndexKategori.Page.FetchKategori | src/features/kategori/pages/IndexKategori.jsx:17-29 | issues one GET; while mounted, stores `res.data.data` if it is an array and `[]` otherwise; a failure while mounted shows one error toast and keeps the collection |
| IndexKategori.Page.HandleChange | src/features/kategori/pages/IndexKategori.jsx:37-40 | only the named draft field changes |
| IndexKategori.Page.HandleSubmit | src/features/kategori/pages/IndexKategori.jsx:42-69 | an update of `/kategori/{editingId}` when `editingId` is truthy and a create otherwise, whose body carries `nama`. Success refreshes, resets the draft to `{nama: ''}`, nulls `editingId` and hides the form. Failure keeps them and shows `message`, else `error`, else the default. `loading` is false after both outcomes. |
| IndexKategori.Page.HandleEdit | src/features/kategori/pages/IndexKategori.jsx:71-75 | the draft becomes `{nama: k.nama}`, `editingId` becomes `k.id`, the form opens |
| IndexKategori.Page.OpenDeleteConfirmation | src/features/kategori/pages/IndexKategori.jsx:77-79 | stages `{id, nama}`, with no call and no other change |
| IndexKategori.Page.ConfirmDelete | src/features/kategori/pages/IndexKategori.jsx:81-95 | the confirmation is nulled whatever the outcome. A failure shows `message` or `'Gagal menghapus kategori.'` and keeps the collection. A success refreshes. With nothing staged, nothing changes. |
| IndexKategori.Page.CancelDelete | src/features/kategori/pages/IndexKategori.jsx:97-99 | clears only the confirmation |
| IndexKategori.Page.HandleViewDetail | src/features/kategori/pages/IndexKategori.jsx:101-103 | sets only the detail selection |
| IndexKategori.Page.CloseModal | src/features/kategori/pages/IndexKategori.jsx:105-107 | clears only the detail selection |
| IndexKategori.Page.ResetForm | src/features/kategori/pages/IndexKategori.jsx:109-112 | `{nama: ''}` and a null `editingId`; nothing else changes |
| IndexKategori.Page.ToggleForm | src/features/kategori/pages/IndexKategori.jsx:126-130 | resets the draft and `editingId`, then flips the form's visibility |
| IndexKategori.Page.CancelEdit | src/features/kategori/pages/IndexKategori.jsx:167-170 | resets the draft and `editingId` and hides the form |
| IndexKategori.DeleteCategoryScenario | src/features/kategori/pages/IndexKategori.jsx:81-95 | a page listing `{id: 1, nama: "Fiksi"}` stages and confirms its delete, and the refresh lists nothing. Afterwards the collection is empty, no confirmation is pending, the calls were GET, DELETE `/kategori/1`, GET, and every category card reads 0 |

## Left out

- The JSX rendering, CSS classes and icons of the three pages, and `src/features/buku/components/BukuForm.jsx`. Its `min`, `max` and `required` attributes are enforced by the browser, and `new Date().getFullYear()` is a clock call.
- The HTTP client (`services/api`), which is not part of this model. Its results are method arguments, and the payload of a successful create, update or delete is never read by the pages. The toasts are modelled only as an appended log, and `console.error` is dropped.
- Asynchronous interleaving: overlapping refreshes, React's batched or deferred `setState`, and the refresh after a delete running after the handler returns. Each handler runs to completion in source order.
- The browser `confirm()` dialog, which is a boolean argument of `BukuListPage.Page.HandleDelete`.
- `e.preventDefault()` in the submit handlers, which only affects the browser.
- Shapes of server records other than the declared types. `stok` and `tahun_terbit` are integers and ids are `null`, integers or strings. A string `stok` would make the `reduce` concatenate instead of add; this is not modelled.
- JavaScript numbers are doubles, and the model's are unbounded integers. `String(n)` is plain decimal only for magnitudes below `1e21`, and integers are exact only below `2^53`; the `reduce` sum also rounds once it passes `2^53`. `Js.IntToString`, `Js.ParseIntRoundTrip` and `Books.StockSum` therefore match the JavaScript only for such values.
- Js.ParseIntRoundTrip: proved for every integer; it describes `String(n)` only for `|n| < 2^53`.
- Books.StockSum: exact integer sum; no floating-point rounding above `2^53`.
- IndexBuku.Page.HandleSubmit: states that `loading` is false afterwards but not that it was true while the call was in flight, because a handler runs to completion here. Every other handler leaves `loading` unchanged.
- BukuListPage.Page.HandleSubmit: the same limit on the intermediate `loading` value.
- IndexKategori.Page.HandleSubmit: the same limit on the intermediate `loading` value.
- IndexBuku.Page.ConfirmDelete: states that the confirmation is cleared whatever the outcome, but not that it is cleared before the call is issued. That order is only observable under interleaving.
- IndexKategori.Page.ConfirmDelete: the same limit on the clear-before-call order.
- The dashboard page, header, sidebar, routing, layout, bootstrap and button/input components, which are static markup or prop pass-through.
