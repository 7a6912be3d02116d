# BooksDashboard core, modelled in Dafny

BooksDashboard is a React admin dashboard for books, newspapers, courses and
contact-us messages. It talks to REST back ends through four RTK Query API
slices, validates its forms with Yup, and shows each collection in a shared
`Table` on a paginated, searchable list page. This project models the rules
the dashboard itself computes, and proves what they guarantee:

- **API slices** (`services.dfy`, module `Services`). It models:
  - the list query builder: an imperative method that fills a `URLSearchParams`, proved equal to a query specification;
  - the request of every endpoint;
  - the cache tags each query provides and each mutation invalidates;
  - `prepareHeaders`;
  - the contact-us `transformResponse` decoder.
- **Validation** (`validation.dfy`, module `Validation`). The three Yup rule sets are written as data, and `validate(…, { abortEarly: false })` is evaluated over them. Lemmas give the exact set of failing fields of every schema.
- **Form modals**:
  - `forms.dfy` holds the shared parts: the loop that folds Yup's errors into the error map, toasts and request bodies.
  - `book_modals.dfy`, `course_modals.dfy` and `newspaper_modals.dfy` model each of the six create/update modals as a class. Each class holds its inputs and error map. Its `Submit` takes the mutation's outcome as a parameter.
  - Proved: the book schema requires a `type` that neither book form sends, so **no book can ever be created or updated from the dashboard**.
  - Proved: the course form's own image check after validation can never fire.
- **Table** (`table.dfy`). The `Table` component is a pure function of its props: skeleton, empty state, or one row per item with the actions column.
- **List pages** (`pages.dfy`, module `ListPages`):
  - one `ListPage` class models Products, Courses, NewsPaper and ContactUs, parameterised by the slice;
  - the contact-us cell fallbacks;
  - which modals are mounted and shown.
- **Login** (`login.dfy`, module `LoginPage`): the access-token lifecycle.

Strings are `seq<char>`. `trim` strips the ECMAScript whitespace set. `String(n)` of an integer is its decimal text.

## Model

| member | source | states |
|---|---|---|
| Text.TrimSlice | src/validation/index.tsx:7 | `trim` returns a contiguous slice whose cut-away ends are all whitespace and whose first and last characters are not |
| Text.TrimIdempotent | src/components/ModalProduct/CreateNewBook.tsx:30 | trimming an already trimmed title (form `trim()` then Yup `.trim()`) changes nothing |
| Text.TrimEmptyIff | src/validation/index.tsx:6-7 | a trimmed value is "" exactly when the input is all whitespace, so a blank title fails `required` |
| Text.NatToString | src/app/services/crudBooks.ts:45-46 | `String(n)` is a non-empty run of decimal digits with no leading zero |
| Text.NatToStringValue | src/app/services/crudBooks.ts:45-46 | reading the digits of `String(n)` back in base ten gives `n`, so the sent `page` and `limit` denote the requested numbers |
| Text.IntToStringInjective | src/app/services/crudBooks.ts:45 | distinct integers print as distinct `page` values (for naturals a consequence of `Text.NatToStringValue`) |
| Validation.ValidateExact | src/validation/index.tsx:4-49 | with `abortEarly: false` an error is reported for exactly each failing rule of each field, nothing more |
| Validation.ValidatePassesIff | src/components/ModalProduct/CreateNewBook.tsx:28-36 | `validate` resolves (no error) exactly when every field of the schema passes on its own; `Validation.Validate` itself is the plain fold and carries no contract |
| Validation.RequiredReported | src/validation/index.tsx:6 | a `required` rule reports its message on an absent or empty value |
| Validation.SchemasAllRequired | src/validation/index.tsx:4-49 | every field of the three schemas opens with `required` |
| Validation.EveryFieldRequired | src/validation/index.tsx:4-49 | an empty (after the field's trimming) value of any field of any schema reports that field's required message |
| Validation.BookSchemaPaths | src/validation/index.tsx:4-20 | the book schema flags title unless 3..100 chars after trim, description unless >= 20 chars untrimmed, image and type unless non-empty, and nothing else |
| Validation.NewspaperSchemaPaths | src/validation/index.tsx:22-32 | the newspaper schema flags title unless 3..100 chars after trim and description unless >= 10 chars |
| Validation.CourseSchemaPaths | src/validation/index.tsx:35-49 | the course schema flags name under 3 chars, title under 5, empty type or image; no upper bounds |
| Validation.UndeclaredKeyIgnored | src/validation/index.tsx:4-49 | a key no field declares never changes the outcome of validation |
| Validation.BookIgnoresPrice | src/components/ModalProduct/CreateNewBook.tsx:32 | the book schema has no price rule: any price, or none, gives the same errors |
| Services.SetParamFresh | src/app/services/crudBooks.ts:44-52 | `set` of a key not yet present appends the pair at the end |
| Services.SetParam | src/app/services/crudBooks.ts:44-51 | after `set(k, v)`, `get(k)` is `v` and every other key reads as before |
| Services.WithoutLookup | src/app/services/crudBooks.ts:44-52 | dropping the entries of one key leaves the first value of every other key unchanged |
| Services.LookupAppend | src/app/services/crudBooks.ts:44-52 | `get` on a concatenation answers from the first part holding the key |
| Services.GetAllQuery | src/app/services/crudBooks.ts:42-54 | the books list request is GET `api/v1/books` with the query built by the successive `set` calls, equal to `ListQuery`; the newspaper, course and contact-us slices build the same query on their own paths (crudNewsPaper.ts:21-29, crudCourses.ts:21-29, crudContactus.ts:26-38) |
| Services.ListQueryLookup | src/app/services/crudBooks.ts:43-53 | page and limit are always sent (defaults 1 and 10), sort only when non-empty (default "-createdAt"), keyword only when non-empty, and no other key |
| Services.DistinctPagesDistinctQueries | src/app/services/crudBooks.ts:43-45 | two requests for different pages never share a query string |
| Services.RequestFor | src/app/services/crudBooks.ts:66-97 | create is POST on the base path; get-by-id, update and delete are GET, PATCH and DELETE on `<base>/<id>`; it is defined only for declared endpoints, and the contact-us slice declares only the list query and delete (crudContactus.ts:22-72) |
| Services.ListProvides | src/app/services/crudBooks.ts:55-61 | a list result provides one tag per returned `_id`, in order, then the LIST tag; no result provides only LIST; the other three slices do the same with their own tag type |
| Services.ByIdProvides | src/app/services/crudBooks.ts:88 | a by-id query provides exactly one tag, the slice's tag for the requested id |
| Services.Invalidates | src/app/services/crudBooks.ts:72-97 | create invalidates only the LIST tag; update and delete invalidate the LIST tag and the tag of their own id, and no other id; every tag has the slice's own type (`tagTypes`, line 37), so no other slice is touched |
| Services.MutationStalesEveryList | src/app/services/crudBooks.ts:55-97 | every create, update or delete invalidates every cached list of its slice, whatever it held |
| Services.ByIdStaleIff | src/app/services/crudBooks.ts:82-97 | a by-id entry is invalidated exactly by an update or delete of that id, or by any mutation when its id is the string "LIST" |
| Services.PrepareHeaders | src/app/services/crudBooks.ts:28-34 | the ngrok header is always "true"; authorization is "Bearer " + token when a non-empty token is stored; other headers are kept |
| Services.BearerIffToken | src/app/services/crudNewsPaper.ts:8-15 | a request carries an authorization header if and only if a non-empty token is stored |
| Services.BearerConformsIff | src/app/services/crudCourses.ts:8-15 | the header is well-formed RFC 6750 section 2.1 credentials exactly when the stored token is a b64token; nothing checks it |
| Services.TransformMessages | src/app/services/crudContactus.ts:39-49 | status, code, message default to "success", 200 and "" when missing or falsy (code 0 becomes 200); results and data come from one level down with defaults 0 and []; pagination defaults to `{}` |
| Services.TransformKeepsWellFormed | src/app/services/crudContactus.ts:39-49 | a truthy status and code and any message pass through unchanged, as do the results count, the pagination object and every data item (as its row, in order); only the nesting is flattened |
| Forms.FailureText | src/components/ModalProduct/CreateNewBook.tsx:72 | the `||` case split: the server's message when non-empty, otherwise the form's fallback; its use is stated by the `Submit` rows |
| Forms.CollectErrors | src/components/ModalProduct/CreateNewBook.tsx:37-44 | the `forEach` loop builds exactly the fold of the error list |
| Forms.FoldKeys | src/components/ModalProduct/CreateNewBook.tsx:38-43 | the error map has a key for exactly each non-empty error path |
| Forms.FoldLastWins | src/components/ModalProduct/CreateNewBook.tsx:38-43 | each key holds the message of the last error reported for that path |
| Forms.FoldSingleMessage | src/components/ModalProduct/CreateNewBook.tsx:38-43 | a path whose errors all carry one message shows that message |
| Forms.FoldPaths | src/components/ModalProduct/CreateNewBook.tsx:38-43 | with no empty paths, the error map's keys are the failing fields |
| Forms.NoErrorsIffNoPaths | src/components/ModalProduct/CreateNewBook.tsx:37-47 | validation passes exactly when no field is flagged |
| BookModals.MissingTypeRejected | src/validation/index.tsx:18-19 | without a `type` key the book schema always fails and shows "Type is required" under type |
| BookModals.CreateBookErrorKeys | src/components/ModalProduct/CreateNewBook.tsx:28-47 | CreateNewBook flags title, description and image by their rules, and always type |
| BookModals.UpdateBookErrorKeys | src/components/ModalProduct/UpdateBooks.tsx:37-56 | UpdateBooks flags title and description by their rules, never image (`book.image or "valid"`), and always type |
| BookModals.BookFormsNeverValidate | src/components/ModalProduct/CreateNewBook.tsx:28-36 | neither book form can pass validation, so neither mutation is ever called |
| BookModals.CreateBookRecord | src/components/ModalProduct/CreateNewBook.tsx:28-35 | the validated object has no `type` key, carries the description unchanged, and its image is non-empty exactly when a file is chosen |
| BookModals.UpdateBookRecord | src/components/ModalProduct/UpdateBooks.tsx:37-45 | the validated object has no `type` key, carries the description unchanged, and its image is never empty |
| BookModals.CreateBookForm | src/components/ModalProduct/CreateNewBook.tsx:55-59 | the form data appends title, description, price and image in that order: the trimmed title, the raw description and price texts, and the file |
| BookModals.UpdateBookForm | src/components/ModalProduct/UpdateBooks.tsx:58-64 | the form data holds the trimmed title, then the description only when non-empty, then the image only when a file is chosen, each with its own value |
| BookModals.CreateNewBook.constructor | src/components/ModalProduct/CreateNewBook.tsx:14-18 | all inputs start empty, no image, no errors |
| BookModals.CreateNewBook.ChooseFile | src/components/ModalProduct/CreateNewBook.tsx:136-140 | a picked file becomes the image and blanks only the image error; no file changes nothing |
| BookModals.CreateNewBook.Submit | src/components/ModalProduct/CreateNewBook.tsx:20-74 | errors cleared; on failing validation the fold of the errors and no request; no image: the image error; else the body (trimmed title, description, raw price, file); success resets and closes, failure keeps the fields and shows the message |
| BookModals.CreateNewBook.Settle | src/components/ModalProduct/CreateNewBook.tsx:61-73 | a successful create shows the success toast, resets every input and the errors and closes; a failure shows the server message or the fallback and changes nothing |
| BookModals.UpdateBooks.constructor | src/components/ModalProduct/UpdateBooks.tsx:16-19 | inputs seeded from the book |
| BookModals.UpdateBooks.Sync | src/components/ModalProduct/UpdateBooks.tsx:21-28 | opening reseeds title and description, drops the image and the errors |
| BookModals.UpdateBooks.ChooseFile | src/components/ModalProduct/UpdateBooks.tsx:122-126 | a picked file changes only the image |
| BookModals.UpdateBooks.Submit | src/components/ModalProduct/UpdateBooks.tsx:30-73 | errors folded and no request on failure; else PATCH of `book._id` with the trimmed title, the description when non-empty and the file when chosen; success closes, failure shows the message |
| CourseModals.CreateCourseErrorKeys | src/components/ModalCourses/CreateCourse.tsx:25-44 | CreateCourse flags exactly the failing fields after trimming, and passes iff name >= 3, title >= 5, type non-blank and a file is chosen |
| CourseModals.CreateCourseImageCheckUnreachable | src/components/ModalCourses/CreateCourse.tsx:46-50 | once validation passes a file is always chosen, so the `!image` branch never runs |
| CourseModals.UpdateCourseErrorKeys | src/components/ModalCourses/UpdateCourse.tsx:36-56 | the image is flagged only when no file is chosen and the course has no stored image; passes iff the text rules hold and an image exists |
| CourseModals.CreateCourseRecord | src/components/ModalCourses/CreateCourse.tsx:25-33 | the validated object's image is non-empty exactly when a file is chosen |
| CourseModals.UpdateCourseRecord | src/components/ModalCourses/UpdateCourse.tsx:36-45 | the validated object's image is empty exactly when no file is chosen and the course has no stored image |
| CourseModals.CreateCourseForm | src/components/ModalCourses/CreateCourse.tsx:52-56 | the form data appends name, title, type and image in that order: the three texts trimmed and the file |
| CourseModals.UpdateCourseForm | src/components/ModalCourses/UpdateCourse.tsx:58-64 | the form data holds the trimmed name, title and type, then the image only when a file is chosen, with that file |
| CourseModals.CreateCourse.constructor | src/components/ModalCourses/CreateCourse.tsx:14-18 | all inputs start empty |
| CourseModals.CreateCourse.ChooseFile | src/components/ModalCourses/CreateCourse.tsx:136-140 | a picked file becomes the image and blanks only the image error |
| CourseModals.CreateCourse.Submit | src/components/ModalCourses/CreateCourse.tsx:20-71 | errors folded and no request on failure; the body holds trimmed name, title, type and the file; success resets and closes, failure keeps the fields and shows the message |
| CourseModals.CreateCourse.Settle | src/components/ModalCourses/CreateCourse.tsx:58-70 | a successful create shows the success toast, resets every input and the errors and closes; a failure shows the server message or the fallback and changes nothing |
| CourseModals.UpdateCourse.constructor | src/components/ModalCourses/UpdateCourse.tsx:16-20 | inputs seeded from the course |
| CourseModals.UpdateCourse.Sync | src/components/ModalCourses/UpdateCourse.tsx:22-30 | opening reseeds name, title and type, drops the image and the errors |
| CourseModals.UpdateCourse.ChooseFile | src/components/ModalCourses/UpdateCourse.tsx:141-145 | a picked file changes only the image |
| CourseModals.UpdateCourse.Submit | src/components/ModalCourses/UpdateCourse.tsx:32-74 | errors folded and no request on failure; else PATCH of `course._id` with trimmed name, title, type and the file only when chosen; success closes, failure shows the message |
| NewspaperModals.NewspaperErrorKeys | src/components/ModalNewsPaper/CreateNewsPaper.tsx:22-40 | the newspaper forms flag exactly the failing fields and pass iff the trimmed title is 3..100 chars and the description >= 10 |
| NewspaperModals.NewspaperRecord | src/components/ModalNewsPaper/CreateNewsPaper.tsx:23-29 | the validated object holds the trimmed title and the description unchanged |
| NewspaperModals.NewspaperBody | src/components/ModalNewsPaper/CreateNewsPaper.tsx:43 | the request body is JSON with exactly title then description, holding the values that were validated |
| NewspaperModals.CreateNewsPaper.constructor | src/components/ModalNewsPaper/CreateNewsPaper.tsx:14-16 | inputs start empty |
| NewspaperModals.CreateNewsPaper.Submit | src/components/ModalNewsPaper/CreateNewsPaper.tsx:18-53 | errors folded and no request on failure; else JSON `{title: trimmed, description}`; success resets and closes, failure keeps the fields and shows the message |
| NewspaperModals.UpdateNewsPaper.constructor | src/components/ModalNewsPaper/UpdateNewsPaper.tsx:16-18 | inputs seeded from the newspaper |
| NewspaperModals.UpdateNewsPaper.Sync | src/components/ModalNewsPaper/UpdateNewsPaper.tsx:20-26 | opening reseeds title and description and empties the errors |
| NewspaperModals.UpdateNewsPaper.Submit | src/components/ModalNewsPaper/UpdateNewsPaper.tsx:28-63 | errors emptied then folded on failure with no request; else update of `newspaper._id` with `{title: trimmed, description}`; success closes, failure shows the message |
| Table.Buttons | src/components/Table.tsx:96-167 | one button per supplied handler, in the order View, Edit, Delete, each bound to its own row; none when no handler |
| Table.Cell | src/components/Table.tsx:78-85 | the accessor case split: a function accessor is applied to the row; otherwise `render(value, row)` if given, else the value with missing shown as ""; `ListPages.MessageRowShows` builds on it |
| Table.Render | src/components/Table.tsx:27-74 | loading gives a skeleton of `columns.length` columns and 5 rows whatever the data; empty data the empty state; otherwise headers plus Actions exactly when some handler is given, and one row per item in order keyed by `_id` |
| ListPages.PageQueryArgs | src/pages/Products.tsx:26-32 | a page queries its current page, limit 10, sort "-createdAt", and the keyword only when the search box is non-empty (`searchKeyword \|\| undefined`) |
| ListPages.TableData | src/pages/Products.tsx:134 | a page hands its table the response's items in order, and none while there is no response; the other pages do the same (Courses.tsx:139, NewsPaper.tsx:118, ContactUs.tsx:112) |
| ListPages.PaginationControl | src/pages/Products.tsx:141-151 | the control appears iff the response has a pagination object and shows its current page and page count |
| ListPages.MessagesPaginationAlwaysShown | src/pages/ContactUs.tsx:118-128 | because the decoder always supplies `{}`, the contact-us page shows pagination whenever a response exists |
| ListPages.Preview | src/pages/ContactUs.tsx:61-63 | a message up to 50 chars is shown as is, a longer one as its first 50 chars plus "..." (53), a missing one as "No message" |
| ListPages.DeleteName | src/pages/ContactUs.tsx:146 | the `||` case split: the delete confirmation names the sender, or "Unknown"; `ListPages.MessageRowShows` builds on it |
| ListPages.TableHandlers | src/pages/Products.tsx:136-138 | the books, course and newspaper pages give View, Edit and Delete, each bound to the row; the contact-us page gives only View and Delete (ContactUs.tsx:114-115) |
| ListPages.MessageColumns | src/pages/ContactUs.tsx:46-79 | four columns Name, Email, Message, Date: name and email or "N/A", the message preview, and the formatted creation date |
| ListPages.MessageRowShows | src/pages/ContactUs.tsx:46-117 | a contact-us row, fed from the decoded response through `data?.data || []`, shows name and email or "N/A", the preview and the date, and offers View then Delete, never Edit |
| ListPages.MessagesTableEmpty | src/pages/ContactUs.tsx:111-117 | the contact-us table shows its empty state exactly when there is no response yet or the response holds no messages |
| ListPages.ListPage.constructor | src/pages/Products.tsx:18-24 | page 1, empty keyword, no selection, all modals closed; the contact-us page (ContactUs.tsx:12-17) has no create or edit modal |
| ListPages.ListPage.View | src/pages/Products.tsx:34-37 | selects the row and opens only the view modal |
| ListPages.ListPage.Edit | src/pages/Courses.tsx:32-35 | selects the row and opens only the edit modal |
| ListPages.ListPage.Delete | src/pages/Products.tsx:44-47 | selects the row and opens only the delete flag; on the books page the modal shows only for a non-empty `_id` |
| ListPages.ListPage.OpenCreate | src/pages/Products.tsx:92 | opens only the create modal |
| ListPages.ListPage.Search | src/pages/Products.tsx:126 | changes only the keyword; the current page is kept (also on the course, newspaper and contact-us pages) |
| ListPages.ListPage.ChangePage | src/pages/Products.tsx:145-148 | sets the current page to the requested one |
| ListPages.ListPage.CloseCreate | src/pages/Products.tsx:156-159 | closes create and refetches; the selection is kept |
| ListPages.ListPage.CloseView | src/pages/Products.tsx:166-169 | closes view and clears the selection without refetching (also ContactUs.tsx:41-44) |
| ListPages.ListPage.CloseEdit | src/pages/Products.tsx:175-179 | closes edit, clears the selection and refetches |
| ListPages.ListPage.CloseDelete | src/pages/Products.tsx:188-192 | closes delete, clears the selection and refetches (also ContactUs.tsx:35-39) |
| LoginPage.Stored | src/pages/Login.tsx:21 | the case split of `setItem`: the token text, or "undefined" when the response has none; `LoginPage.LoginDecidesBearer` builds on it |
| LoginPage.LoginForm.constructor | src/pages/Login.tsx:7-8 | email and password start empty |
| LoginPage.LoginForm.Submit | src/pages/Login.tsx:13-33 | runs only with both inputs non-empty (`required`, lines 45 and 57); the token is removed before the request; the request is `{email, password}`; success stores the token and goes to /dashboard/products; failure leaves no token and shows the server message or the fallback |
| LoginPage.LoginDecidesBearer | src/pages/Login.tsx:15-21 | after a failed login no content request carries a bearer; after a success every one carries "Bearer " + token, unless the token is empty |

## Left out

- The cache engine behind `createApi` (subscriptions, refetching, eviction) is not modelled. `Services.Stale` ("an entry is stale when it provides an invalidated tag") is an assumption about that library, not a proved fact.
- I/O is not performed:
  - toasts, the route and the access token are returned values or class fields;
  - mutation and login outcomes are parameters;
  - `console.error` and `window.scrollTo` are dropped.
- `URLSearchParams.toString` percent-encoding and the base URLs are left out. A query is the ordered list of its pairs.
- `parseFloat(price)` is left out, because it is floating point. Price is kept as the raw text, which the book schema never reads (`Validation.BookIgnoresPrice`).
- Date formatting (`toLocaleDateString`) is locale-dependent. The contact-us date column takes the formatter as a parameter.
- Validation.Validate: errors are listed in schema order, then rule order. Yup does not promise this order, so the message shown for a field that breaks several rules (`Forms.FoldLastWins`) holds only under this order. The set of flagged fields does not depend on it.
- Lengths count Dafny characters (code points), while JavaScript counts UTF-16 code units. `Preview` cuts at 50 code points.
- Each submit, login and close is one atomic step. A second click while a request is pending, and the `isLoading` disabling of buttons, are not modelled.
- Text inputs' `onChange` setters are plain assignments to the class fields and have no method.
- Each modal's `isOpen` flag lives in `ListPages.ListPage`. A modal's call of `onClose` is the `closed` result of its `Submit`.
- Table cells are text. Only the contact-us columns are given concretely; the book, course and newspaper columns (images, badges, dates) are presentation.
- These are presentation or navigation only and are not part of this model:
  - the delete modals (DeleteBooks, DeleteCourse, DeleteNewsPaper, DeleteMessage) and the view modals;
  - `Modal`, `SkeletonTable`, `Layout`, `Sidebar` and the `App` routes;
  - the `Pagination` component, which is not part of the sources.
- `crudAuth.ts` is not part of this model. The login request's own headers are therefore not modelled.
- `store.ts` is not part of this model. It registers only the books, contact-us and auth slices, so the newspaper and course slices are not mounted in the store. This is a configuration matter outside the modelled logic.
- `String(page)` is modelled for integer pages only.
- Services.TransformMessages: numeric fields are integers, so a `NaN` code or result count is not modelled.
- LoginPage.LoginForm.Submit: of the inputs' browser constraints only `required` is a precondition; the `type="email"` syntax check and its whitespace stripping are not modelled.
- Two throws outside the declared response types are not modelled: a login response without `data` (Login.tsx:21, caught at 27-31), and a null contact-us body (crudContactus.ts:43).
