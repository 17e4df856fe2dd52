# Brand management: a verified model of the brand CRUD core

This project models the brand and company (chain) administration of the brand management
system in Dafny. It covers both halves.

- **Browser pages.** The dashboard, with its `{brands, loading}` reducer, a brand fetch that
  re-runs when the company filter or the refresh key changes and drops the replies of superseded
  runs, the delete flow and the client-side search. The "Add Brand" and "Edit Brand" forms, with
  their shared validation and the request body they send.
- **Server.** The brand service over an in-memory brand table with its primary key, foreign key,
  column length and `(brand_name, chain_id)` unique constraint. The repository queries, the
  entity's builder and lifecycle callbacks, the request body's Bean Validation, the chain
  listing, and the global exception handler with the JSON error body it builds.

Layout, one module per source file plus shared helpers:

| file | module | models |
|---|---|---|
| `wrappers.dfy` | `Wrappers` | `Option` |
| `text.dfy` | `Text` | `trim`, lower-casing, `includes`, `String(n)` and `Number(s)` on digit strings |
| `seqs.dfy` | `Seqs` | order-preserving `filter` |
| `records.dfy` | `Records` | the JSON bodies (`BrandDTO`, `ChainDTO`, `BrandRequestDTO`) and the chain row |
| `client_common.dfy` | `ClientCommon` | settled API calls, toasts, `err.response?.data?.message \|\| fallback`, `Number(...)` |
| `dashboard_page.dfy` | `DashboardPage` | `Dashboard.jsx` |
| `brand_form.dfy` | `BrandForm` | the `validate` rule and sent body shared by `AddBrand.jsx` and `EditBrand.jsx` |
| `add_brand_page.dfy` | `AddBrandPage` | `AddBrand.jsx` |
| `edit_brand_page.dfy` | `EditBrandPage` | `EditBrand.jsx` |
| `brand_request.dfy` | `BrandRequestValidation` | `BrandRequestDTO.java`'s constraints |
| `brand_entity.dfy` | `BrandEntity` | `Brand.java` |
| `brand_repository.dfy` | `BrandRepository` | `BrandRepository.java` |
| `brand_service.dfy` | `BrandService` | `BrandServiceImpl.java`, with `BrandController`'s list rule |
| `chain_service.dfy` | `ChainService` | `ChainServiceImpl.java` |
| `linked_maps.dfy` | `LinkedMaps` | `java.util.LinkedHashMap` as a list of entries |
| `error_body.dfy` | `ErrorBody` | `buildError` of `GlobalExceptionHandler.java` |
| `exception_handler.dfy` | `ExceptionHandler` | the handlers of `GlobalExceptionHandler.java` |

How the model is built:

- **Page state.** Each page is a class whose fields are its `useState` and `useReducer`
  values. Its event handlers are methods.
- **Asynchronous replies.** A reply is an explicit method call (`OnBrandsResponse`,
  `OnDeleteSettled`, `OnCreateSettled` and so on), carrying the outcome the API call settled with.
- **Cancelled brand fetches.** Each run of the brand fetch gets a generation number. A run's
  `cancelled` flag is set exactly when a later run has started, so "not cancelled" means "the
  latest generation". The pure fold `Settle` and its lemmas state what any sequence of replies
  does.
- **Calls sent and pages visited.** The page logs every API call it sends (`brandRequests`,
  `deleteRequests`, `createRequests`, `updateRequests`), the toasts it raises, and the route it
  navigates to. Each form page keeps the invariant that every body it sent has a trimmed name of
  1 to 50 characters.
- **The brand table.** It is a class holding a sequence of rows in primary-key order, plus the
  next generated key. Queries return rows in that order (see "Left out"). Its invariant `Valid` is preserved by every operation. Reads are functions;
  create, update and delete are methods.
- **Saves.** `brandRepository.save` is modelled by `Insert` and `Replace`. A save that would
  break the unique constraint fails and leaves the rows as they were. A failed insert still
  uses up its generated key.

## Model

| member | source | states |
|---|---|---|
| Text.Trim | brand-management-frontend/src/pages/AddBrand.jsx:31 | the result of `trim` is no longer than its input and neither starts nor ends with whitespace |
| Text.TrimIsInfix | brand-management-frontend/src/pages/AddBrand.jsx:31 | the trimmed string occurs inside the original and everything cut off around it is whitespace |
| Text.TrimEmptyIff | brand-management-frontend/src/pages/AddBrand.jsx:31 | `!s.trim()` (and a failing `@NotBlank`) holds exactly when every character of `s` is whitespace |
| Text.TrimIdempotent | brand-management-frontend/src/pages/EditBrand.jsx:60 | trimming a trimmed name again changes nothing |
| Text.TrimFixedIff | brand-management-frontend/src/pages/EditBrand.jsx:22 | `trim` leaves a string alone exactly when it neither starts nor ends with whitespace |
| Text.Lower | brand-management-frontend/src/pages/Dashboard.jsx:64 | `toLowerCase` keeps the length and lower-cases each character on its own |
| Text.Contains | brand-management-frontend/src/pages/Dashboard.jsx:64-65 | `includes` is true exactly when the text occurs at some position |
| Text.ContainsEmpty | brand-management-frontend/src/pages/Dashboard.jsx:64-65 | the empty search text occurs in every string |
| Text.DecimalString | brand-management-frontend/src/pages/EditBrand.jsx:23 | `String(chainId)` is a non-empty string of digits |
| Text.ParseDecimal | brand-management-frontend/src/pages/AddBrand.jsx:45 | `Number` of a select value gives a number exactly for non-empty digit strings, and then their decimal value |
| Text.DecimalRoundTrip | brand-management-frontend/src/pages/EditBrand.jsx:23 | a chain id turned into a string by `String` and read back by `Number` is the same id |
| ClientCommon.ErrorText | brand-management-frontend/src/pages/Dashboard.jsx:56 | `err.response?.data?.message || fallback`: the server message when present and non-empty, otherwise the fallback |
| ClientCommon.NumberOf | brand-management-frontend/src/pages/AddBrand.jsx:45 | `Number(chainId)`: 0 for the empty string, the value of a digit string, NaN (sent as null) for anything else |
| ClientCommon.NumberOfString | brand-management-frontend/src/pages/EditBrand.jsx:23 | the `chainId` a loaded form holds is sent back as the brand's own chain id |
| Seqs.Filter | brand-management-frontend/src/pages/Dashboard.jsx:63-66 | `filter` keeps exactly the elements that satisfy the predicate, and all of them when every element does |
| Seqs.FilterKeepsOrder | brand-management-frontend/src/pages/Dashboard.jsx:63-66 | `filter` keeps the order of the list |
| Seqs.FilterCounts | brand-management-frontend/src/pages/Dashboard.jsx:63-66 | `filter` keeps every copy of a matching element and drops every copy of the others |
| Seqs.FilterAppend | brand-management-backend/src/main/java/com/brandmanagement/service/impl/BrandServiceImpl.java:31 | filtering a concatenation filters each part (the active listing of a grown table) |
| Seqs.FilterSplice | brand-management-backend/src/main/java/com/brandmanagement/service/impl/BrandServiceImpl.java:118-119 | filtering around one element keeps it exactly when it passes |
| DashboardPage.Reduce | brand-management-frontend/src/pages/Dashboard.jsx:7-14 | only `FETCH_SUCCESS` replaces the list (an empty payload too); `FETCH_ERROR` keeps it; `loading` is set by a start, cleared by a success or an error, kept by an unknown action, which changes nothing |
| DashboardPage.Deliver | brand-management-frontend/src/pages/Dashboard.jsx:36-42 | a reply of a cancelled run changes nothing; the latest run's success commits its payload and its failure keeps the list, both ending loading |
| DashboardPage.Settle | brand-management-frontend/src/pages/Dashboard.jsx:32-44 | after a run of replies the list is the one held before or the payload of one of the successful replies of the latest run |
| DashboardPage.LastSuccess | brand-management-frontend/src/pages/Dashboard.jsx:36 | the list of the last successful reply of the latest run is one of its replies; when there is none, each of its replies failed |
| DashboardPage.SettleIgnoresStale | brand-management-frontend/src/pages/Dashboard.jsx:33-43 | any number of replies of superseded runs leave the state as it was |
| DashboardPage.SettleCommitsLatestRun | brand-management-frontend/src/pages/Dashboard.jsx:32-44 | the committed list is that of the latest run's last successful reply, or the list held before the run |
| DashboardPage.SettleLoading | brand-management-frontend/src/pages/Dashboard.jsx:34-42 | the spinner stays on until a reply of the latest run arrives |
| DashboardPage.Search | brand-management-frontend/src/pages/Dashboard.jsx:63-66 | a brand is shown exactly when its name or its company name contains the search text, ignoring case |
| DashboardPage.SearchKeepsOrder | brand-management-frontend/src/pages/Dashboard.jsx:63-66 | the shown brands keep the order of the fetched list |
| DashboardPage.EmptySearchKeepsAll | brand-management-frontend/src/pages/Dashboard.jsx:63-66 | an empty search text shows every fetched brand |
| DashboardPage.SearchIdempotent | brand-management-frontend/src/pages/Dashboard.jsx:63-66 | searching the shown rows again for the same text shows the same rows |
| DashboardPage.ChainParam | brand-management-frontend/src/pages/Dashboard.jsx:35 | `selectedChain \|\| null`: no chain parameter exactly when no company is selected |
| DashboardPage.ClearOffered | brand-management-frontend/src/pages/Dashboard.jsx:114 | the Clear button is shown exactly when a company is selected or the search text is non-empty |
| DashboardPage.Dashboard.constructor | brand-management-frontend/src/pages/Dashboard.jsx:6-22 | the initial state and the first fetch run, for all companies |
| DashboardPage.Dashboard.StartBrandsFetch | brand-management-frontend/src/pages/Dashboard.jsx:32-35 | a new run becomes the latest, sets `loading`, keeps the list and asks for the selected company |
| DashboardPage.Dashboard.OnChainsResponse | brand-management-frontend/src/pages/Dashboard.jsx:25-29 | the companies are stored on success; a failure adds the "Failed to load companies" toast |
| DashboardPage.Dashboard.OnBrandsResponse | brand-management-frontend/src/pages/Dashboard.jsx:36-42 | the reply goes through `Deliver`; only the latest run's failure adds the "Failed to load brands" toast |
| DashboardPage.Dashboard.SelectChain | brand-management-frontend/src/pages/Dashboard.jsx:103 | the selected company is stored and the fetch re-runs only when the value changed |
| DashboardPage.Dashboard.SetSearch | brand-management-frontend/src/pages/Dashboard.jsx:95 | the search text is stored, the shown rows are the search over the held list, nothing is fetched |
| DashboardPage.Dashboard.ClearFilters | brand-management-frontend/src/pages/Dashboard.jsx:114-117 | offered only when a filter is set; empties both filters; re-fetches only when a company was selected |
| DashboardPage.Dashboard.HandleDelete | brand-management-frontend/src/pages/Dashboard.jsx:47-50 | a declined confirm changes nothing; a confirmed one sets `deletingId` and sends the delete; the brand being deleted cannot be pressed again, as its button is disabled |
| DashboardPage.Dashboard.OnDeleteSettled | brand-management-frontend/src/pages/Dashboard.jsx:51-59 | success: success toast, `refreshKey` up by one and a new fetch run; failure: server message or "Failed to delete brand", list and key kept; either way `deletingId` is null |
| BrandForm.Validate | brand-management-frontend/src/pages/AddBrand.jsx:29-35 | a name error exactly when the trimmed name is empty or longer than 50, with the matching message; a chain error exactly when no company is selected; no other key |
| BrandForm.FormValidIff | brand-management-frontend/src/pages/EditBrand.jsx:43-49 | a form passes exactly when its trimmed name has 1 to 50 characters and a company is selected |
| BrandForm.ValidateIgnoresPadding | brand-management-frontend/src/pages/AddBrand.jsx:31-32 | surrounding whitespace never changes the verdict |
| BrandForm.SentRequest | brand-management-frontend/src/pages/EditBrand.jsx:59-63 | the body carries the trimmed name, `Number(chainId)` and the given active flag |
| BrandForm.AcceptedFormSendsTrimmedName | brand-management-frontend/src/pages/AddBrand.jsx:40-45 | a form that passes `validate` is sent with a trimmed name of 1 to 50 characters |
| BrandForm.SentBodyPassesServerValidation | brand-management-backend/src/main/java/com/brandmanagement/dto/BrandRequestDTO.java:18-23 | every body the pages send with a numeric chain id passes the server's Bean Validation |
| AddBrandPage.AddBrand.constructor | brand-management-frontend/src/pages/AddBrand.jsx:6-13 | empty name, no company, no errors, not submitting, nothing sent |
| AddBrandPage.AddBrand.OnChainsResponse | brand-management-frontend/src/pages/AddBrand.jsx:15-19 | the companies are stored on success; a failure adds the "Failed to load companies" toast |
| AddBrandPage.AddBrand.HandleChange | brand-management-frontend/src/pages/AddBrand.jsx:22-26 | only the named input changes and only its error is blanked |
| AddBrandPage.AddBrand.HandleSubmit | brand-management-frontend/src/pages/AddBrand.jsx:38-45 | with errors: they are stored and nothing is sent; otherwise the trimmed name and `Number(chainId)` are sent and the page is submitting |
| AddBrandPage.AddBrand.OnCreateSettled | brand-management-frontend/src/pages/AddBrand.jsx:46-53 | success toast and dashboard, or the server message / "Failed to create brand" with the form kept; submitting ends either way |
| EditBrandPage.Loaded | brand-management-frontend/src/pages/EditBrand.jsx:20-25 | the loaded form holds the brand's name, `String(chainId)` (which `Number` reads back as the id) and its active flag |
| EditBrandPage.LoadedBrandResubmits | brand-management-frontend/src/pages/EditBrand.jsx:20-25 | a stored brand loaded into the form passes `validate` and is sent back with its own name, chain and flag, which the server accepts |
| EditBrandPage.EditBrand.constructor | brand-management-frontend/src/pages/EditBrand.jsx:10-14 | empty active form, no errors, loading, not submitting |
| EditBrandPage.EditBrand.OnLoadSettled | brand-management-frontend/src/pages/EditBrand.jsx:17-33 | both loads succeed: form filled and companies stored; either fails: "Failed to load brand details" and back to the dashboard; loading ends either way |
| EditBrandPage.EditBrand.HandleChange | brand-management-frontend/src/pages/EditBrand.jsx:36-40 | the checkbox stores `checked`, other inputs their value; only that field's error is blanked |
| EditBrandPage.EditBrand.HandleSubmit | brand-management-frontend/src/pages/EditBrand.jsx:52-63 | with errors: stored, nothing sent; otherwise the trimmed name, `Number(chainId)` and the unchanged active flag are sent |
| EditBrandPage.EditBrand.OnUpdateSettled | brand-management-frontend/src/pages/EditBrand.jsx:64-71 | success toast and dashboard, or the server message / "Failed to update brand"; submitting ends either way |
| BrandRequestValidation.Validate | brand-management-backend/src/main/java/com/brandmanagement/dto/BrandRequestDTO.java:18-23 | blank (null or all whitespace) name, untrimmed name longer than 50 and missing chain id are reported exactly when they occur, each at most once |
| BrandRequestValidation.FieldErrors | brand-management-backend/src/main/java/com/brandmanagement/dto/BrandRequestDTO.java:18-23 | one field error per violation, with its field and its annotation's message |
| BrandRequestValidation.ValidIff | brand-management-backend/src/main/java/com/brandmanagement/dto/BrandRequestDTO.java:18-25 | a body is valid exactly when its name has a non-whitespace character and at most 50 characters and its chain id is present; `isActive` plays no part |
| BrandRequestValidation.ValidTrimmedName | brand-management-backend/src/main/java/com/brandmanagement/dto/BrandRequestDTO.java:18-19 | a valid body's trimmed name has 1 to 50 characters |
| BrandEntity.Build | brand-management-backend/src/main/java/com/brandmanagement/entity/Brand.java:42-44 | `isActive` is true unless the builder is given false |
| BrandEntity.OnCreate | brand-management-backend/src/main/java/com/brandmanagement/entity/Brand.java:56-60 | a new row gets its key, the draft's fields, no zones, and both timestamps set to the clock reading |
| BrandEntity.SaveChanges | brand-management-backend/src/main/java/com/brandmanagement/entity/Brand.java:46-50 | `createdAt` never changes; `updatedAt` becomes now exactly when some other field changed; all other fields are the edited ones |
| BrandEntity.UniqueNameChain | brand-management-backend/src/main/java/com/brandmanagement/entity/Brand.java:18-20 | the `uq_brand_name_chain` constraint: no row has the exact (brand_name, chain_id) pair of another row |
| BrandEntity.AppendKeepsUnique | brand-management-backend/src/main/java/com/brandmanagement/entity/Brand.java:18-21 | appending a row that clashes with no row keeps (brand_name, chain_id) unique |
| BrandEntity.ReplaceKeepsUnique | brand-management-backend/src/main/java/com/brandmanagement/entity/Brand.java:18-21 | replacing a row by one that clashes with no other row keeps the pair unique |
| BrandRepository.FindByIsActiveTrue | brand-management-backend/src/main/java/com/brandmanagement/repository/BrandRepository.java:16 | exactly the stored rows that are active |
| BrandRepository.FindByChainIdAndIsActiveTrue | brand-management-backend/src/main/java/com/brandmanagement/repository/BrandRepository.java:19 | exactly the active rows of that chain |
| BrandRepository.DuplicateOf | brand-management-backend/src/main/java/com/brandmanagement/repository/BrandRepository.java:22-33 | a row counts only when it is active, of that chain, not the excluded key and its name equals the given one up to case (same length); an exact match that is not excluded always counts |
| BrandRepository.ExistsByBrandNameAndChainIgnoreCase | brand-management-backend/src/main/java/com/brandmanagement/repository/BrandRepository.java:22-33 | true exactly when an active row of the chain has the name ignoring case and is not the excluded key |
| BrandRepository.FindByBrandIdAndIsActiveTrue | brand-management-backend/src/main/java/com/brandmanagement/repository/BrandRepository.java:36 | a row exactly when a row with that key exists and is active |
| BrandRepository.ExcludedRowNeverCounts | brand-management-backend/src/main/java/com/brandmanagement/repository/BrandRepository.java:27 | the excluded key never counts: the answer equals the query over the table without that row |
| BrandRepository.PaddedNameEscapesDuplicateCheck | brand-management-backend/src/main/java/com/brandmanagement/service/impl/BrandServiceImpl.java:65-71 | the duplicate check compares the untrimmed request name, so a padded copy of an active name passes it |
| BrandService.FindChain | brand-management-backend/src/main/java/com/brandmanagement/service/impl/BrandServiceImpl.java:41-42 | `chainRepository.findById`: a chain with that key, active or not, or none |
| BrandService.ToDto | brand-management-backend/src/main/java/com/brandmanagement/service/impl/BrandServiceImpl.java:123-133 | every field copied, with the chain's id and name |
| BrandService.ToDtos | brand-management-backend/src/main/java/com/brandmanagement/service/impl/BrandServiceImpl.java:31-34 | one body per row, in order, each made by `toDTO` |
| BrandService.Edited | brand-management-backend/src/main/java/com/brandmanagement/service/impl/BrandServiceImpl.java:95-99 | trimmed name and chain set, `isActive` changed only when the request has one; key, zones and timestamps kept |
| BrandService.SoftDeleted | brand-management-backend/src/main/java/com/brandmanagement/service/impl/BrandServiceImpl.java:118-119 | the row a soft delete saves: inactive, new `updatedAt`, nothing else changed |
| BrandService.SoftDeleteKeepsRow | brand-management-backend/src/main/java/com/brandmanagement/service/impl/BrandServiceImpl.java:107-120 | the deleted row stays with its key and name, other rows are unchanged, and it is no longer found (a repeat delete is not-found) |
| BrandService.SoftDeleteDropsFromListing | brand-management-backend/src/main/java/com/brandmanagement/service/impl/BrandServiceImpl.java:107-120 | after a delete the active listing is the previous one without that brand |
| BrandService.CreatedBrandListedLast | brand-management-backend/src/main/java/com/brandmanagement/service/impl/BrandServiceImpl.java:70-76 | a created brand is listed last, after the brands listed before |
| BrandService.AppendKeepsTableValid | brand-management-backend/src/main/java/com/brandmanagement/service/impl/BrandServiceImpl.java:70-76 | a saved new row keeps keys, chains, column lengths and the unique constraint valid |
| BrandService.ReplaceKeepsTableValid | brand-management-backend/src/main/java/com/brandmanagement/service/impl/BrandServiceImpl.java:95-101 | a saved edited row keeps the table valid |
| BrandService.ActiveListing | brand-management-backend/src/main/java/com/brandmanagement/service/impl/BrandServiceImpl.java:30-35 | the listed bodies are exactly those of the active rows |
| BrandService.ChainListing | brand-management-backend/src/main/java/com/brandmanagement/service/impl/BrandServiceImpl.java:39-47 | the listed bodies are exactly those of the chain's active rows: each such row is listed and every listed body comes from one |
| BrandService.BrandStore.constructor | brand-management-backend/src/main/java/com/brandmanagement/service/impl/BrandServiceImpl.java:25-26 | an empty, valid table over the given chains |
| BrandService.BrandStore.GetAllActiveBrands | brand-management-backend/src/main/java/com/brandmanagement/service/impl/BrandServiceImpl.java:30-35 | every active brand, mapped by `toDTO`, and nothing else |
| BrandService.BrandStore.GetBrandsByChain | brand-management-backend/src/main/java/com/brandmanagement/service/impl/BrandServiceImpl.java:39-47 | not-found exactly for an unknown chain; otherwise the active brands of that chain and only them |
| BrandService.BrandStore.GetBrandById | brand-management-backend/src/main/java/com/brandmanagement/service/impl/BrandServiceImpl.java:51-55 | the brand exactly when it exists and is active, otherwise not-found; its name is trimmed and 1 to 50 characters |
| BrandService.BrandStore.ListBrands | brand-management-backend/src/main/java/com/brandmanagement/controller/BrandController.java:28-31 | no chain id lists all active brands, otherwise the chain's |
| BrandService.BrandStore.Insert | brand-management-backend/src/main/java/com/brandmanagement/service/impl/BrandServiceImpl.java:76 | `save` of a new row: on a (name, chain) clash it fails and the rows stay as they were; otherwise the row is appended; the generated key is used up either way |
| BrandService.BrandStore.Replace | brand-management-backend/src/main/java/com/brandmanagement/service/impl/BrandServiceImpl.java:101 | `save` of an existing row: it fails, changing nothing, on a clash with another row; otherwise that row is replaced |
| BrandService.BrandStore.SaveEdit | brand-management-backend/src/main/java/com/brandmanagement/service/impl/BrandServiceImpl.java:94-101 | the setters and `save` of an update: the stored row gets the trimmed name, the chain, `isActive` only if given and `onUpdate`'s stamp; the response is the entity before the flush, with the old `updatedAt`; a clash fails and changes nothing |
| BrandService.BrandStore.CreateBrand | brand-management-backend/src/main/java/com/brandmanagement/service/impl/BrandServiceImpl.java:60-77 | chain checked first, then the untrimmed duplicate check; success appends one active row with the trimmed name and changes no other row; every error leaves the rows as they were; success and a clash use up one generated key, the earlier errors none |
| BrandService.BrandStore.UpdateTarget | brand-management-backend/src/main/java/com/brandmanagement/service/impl/BrandServiceImpl.java:83-93 | not-found for a missing or inactive brand, then for an unknown chain, then duplicate excluding the brand itself; success gives that brand's row |
| BrandService.BrandStore.UpdateBrand | brand-management-backend/src/main/java/com/brandmanagement/service/impl/BrandServiceImpl.java:82-102 | after those checks the row gets the trimmed name and chain, `isActive` only if given, and keeps its key; only that row changes; the response carries the `updatedAt` from before the flush; errors change nothing |
| BrandService.BrandStore.DeleteBrand | brand-management-backend/src/main/java/com/brandmanagement/service/impl/BrandServiceImpl.java:107-120 | not-found for a missing or inactive brand; an active zone refuses with no change; otherwise only that row becomes inactive |
| ChainService.ActiveChains | brand-management-backend/src/main/java/com/brandmanagement/service/impl/ChainServiceImpl.java:23 | exactly the active chains |
| ChainService.ChainToDto | brand-management-backend/src/main/java/com/brandmanagement/service/impl/ChainServiceImpl.java:29-35 | `toDTO` copies the chain's id, name and active flag |
| ChainService.GetAllActiveChains | brand-management-backend/src/main/java/com/brandmanagement/service/impl/ChainServiceImpl.java:22-35 | one body per active chain, in order, copying its fields, so each is marked active |
| ExceptionHandler.Raised | brand-management-backend/src/main/java/com/brandmanagement/service/impl/BrandServiceImpl.java:42-119 | each service error is thrown as the matching exception: not-found, duplicate, linked-to-zone, or unexpected for the unique-constraint failure |
| ExceptionHandler.Concatenated | brand-management-backend/src/main/java/com/brandmanagement/exception/GlobalExceptionHandler.java:45 | the message starts with "An unexpected error occurred: " and continues with the exception message, or with `null` when there is none |
| ExceptionHandler.Pairs | brand-management-backend/src/main/java/com/brandmanagement/exception/GlobalExceptionHandler.java:18-19 | one (field, message) pair per field error, in order |
| ExceptionHandler.FieldErrorsKeys | brand-management-backend/src/main/java/com/brandmanagement/exception/GlobalExceptionHandler.java:17-20 | each field with an error has one entry, no key twice, in order of first occurrence |
| ExceptionHandler.FieldErrorsLastWins | brand-management-backend/src/main/java/com/brandmanagement/exception/GlobalExceptionHandler.java:17-20 | a field with several errors holds the message of its last one |
| ExceptionHandler.CollectFieldErrors | brand-management-backend/src/main/java/com/brandmanagement/exception/GlobalExceptionHandler.java:17-20 | the loop builds the map of one `put` per field error, in order |
| ExceptionHandler.Handle | brand-management-backend/src/main/java/com/brandmanagement/exception/GlobalExceptionHandler.java:15-46 | 400 "Validation failed" with details, 404, 409 and 409 with the exception message, 500 with the "An unexpected error occurred: " prefix; details only for validation |
| ErrorBody.BuildError | brand-management-backend/src/main/java/com/brandmanagement/exception/GlobalExceptionHandler.java:49-56 | keys timestamp, status, error, message in that order, then details only when not null; each with its value |
| ErrorBody.BodyEntries | brand-management-backend/src/main/java/com/brandmanagement/exception/GlobalExceptionHandler.java:50-54 | the four entries put first are found under their keys, and there is no details entry |
| ErrorBody.PutDetails | brand-management-backend/src/main/java/com/brandmanagement/exception/GlobalExceptionHandler.java:55 | details goes last and changes no other entry |
| LinkedMaps.Keys | brand-management-backend/src/main/java/com/brandmanagement/exception/GlobalExceptionHandler.java:50 | the keys in iteration order |
| LinkedMaps.Get | brand-management-backend/src/main/java/com/brandmanagement/exception/GlobalExceptionHandler.java:50 | `get` finds a value exactly for a key that is present |
| LinkedMaps.PutGet | brand-management-backend/src/main/java/com/brandmanagement/exception/GlobalExceptionHandler.java:19 | after `put(k, v)` the key maps to `v` and other keys keep their values |
| LinkedMaps.PutKeys | brand-management-backend/src/main/java/com/brandmanagement/exception/GlobalExceptionHandler.java:19 | `put` keeps a present key where it is and appends a new key |
| LinkedMaps.PutKeepsDistinct | brand-management-backend/src/main/java/com/brandmanagement/exception/GlobalExceptionHandler.java:19 | `put` never makes a key occur twice |
| LinkedMaps.PutNew | brand-management-backend/src/main/java/com/brandmanagement/exception/GlobalExceptionHandler.java:51-55 | `put` of an absent key appends one entry |
| LinkedMaps.GetEntry | brand-management-backend/src/main/java/com/brandmanagement/exception/GlobalExceptionHandler.java:50-55 | in a map without repeated keys, `get` finds the one entry's value |
| LinkedMaps.PutAllHasKey | brand-management-backend/src/main/java/com/brandmanagement/exception/GlobalExceptionHandler.java:17-20 | a key has an entry exactly when some put used it |
| LinkedMaps.PutAllLastWins | brand-management-backend/src/main/java/com/brandmanagement/exception/GlobalExceptionHandler.java:17-20 | a key holds the value of its last put |
| LinkedMaps.PutAllFirstOrder | brand-management-backend/src/main/java/com/brandmanagement/exception/GlobalExceptionHandler.java:17-20 | the keys are distinct, exactly those put, in order of first put |

## Left out

- I/O, the clock and the locale are not modelled. `LocalDateTime.now()` is a `now` parameter and the error body's timestamp is a string parameter.
- Unicode `trim`, `toLowerCase` and SQL `LOWER` are not modelled. Whitespace is space, tab, line feed and carriage return, and lower-casing maps `A`-`Z` only. The differences between JavaScript and Java whitespace rules are not modelled.
- `Number(...)` is modelled only on what a company select can hold: the empty string or a decimal digit string. Any other text is NaN, which JSON sends as `null`.
- The text of `ResourceNotFoundException`'s message, and the message of a database exception, are not modelled. They come from classes that are not part of this model, so the handler receives them as parameters.
- The Axios transport (`brandApi.js`), JSX markup, the router and the toaster are not modelled. An API call is an outcome delivered by an explicit event, `window.confirm` is a boolean, a toast is an entry in a log, and `navigate` records a path.
- Promise scheduling is not modelled. Replies are events in whatever order the caller chooses. The dashboard's delete replies and the edit page's load reply are assumed to settle once each: the settled set enforces this for deletes, and the `loading` / `submitting` preconditions enforce it for the form pages. The dashboard's brand-fetch replies are not restricted: `Settle` takes any number of them.
- JPA, transactions and entity aliasing are not modelled. The table is a value (`seq<Brand>`), and a setter is a datatype update that is then saved.
- `ChainRepository` is not modelled as such. Chains are a fixed list held by the brand store.
- The `Zone` entity is represented only by its active flags. A `null` zones list is not modelled, because the builder always gives an empty list.
- BrandForm.Validate: a name's length is counted in Unicode characters, while JavaScript's `.length` counts UTF-16 code units. A character above U+FFFF counts once here and twice in the source, so the two agree only on names without such characters. For example, 26 copies of U+1F600 pass here but fail the 50-character limit in the source.
- BrandRequestValidation.Validate: `@Size(max = 50)` counts UTF-16 code units in Java, and the model counts Unicode characters, with the same consequence as for `BrandForm.Validate`.
- The database collation is not modelled. The unique constraint compares names exactly.
- BrandService.BrandStore.CreateBrand: it requires the body to be `Accepted` (name and chain id present, trimmed name of 1 to 50 characters), which `@Valid` guarantees before the service is reached. Invalid bodies end at `ExceptionHandler.Handle` instead, so the service does not model them.
- BrandService.BrandStore.UpdateBrand: it requires `Accepted` too, for the same reason.
- BrandRequestValidation.Validate: the order of violations is fixed (blank, size, chain), because Bean Validation leaves it open. Only which violations occur is stated.
- BrandService.CreatedBrandListedLast: "listed last" rests on an assumption about result order. `findByIsActiveTrue` and `findByChainIdAndIsActiveTrue` have no `ORDER BY`, and the model returns their rows in primary-key order. Without that assumption, only the membership of the new brand in the listing is promised.
- `onCreate` calls `LocalDateTime.now()` twice. The model takes both timestamps from one reading `now`, so a new brand's `createdAt` and `updatedAt` are equal here, while in the source they may differ by the time between the two calls.
- The `updatedAt` stamp of `@PreUpdate` is modelled as Hibernate's dirty check decides it: it changes exactly when some other field changed.
