# Buyer-lead CRM: verified model of the decision rules

This project models the decision logic of a small buyer-lead CRM written in
Next.js, and proves properties of that model in Dafny. It covers:

- the server-side lead schema (`BuyerFormSchema`): field rules and the two
  cross-field refinements;
- the create-lead server action (`createBuyerLead`): an authentication gate,
  a schema gate, comma-separated tag parsing, and one transaction that inserts
  a buyer row and its history row;
- the new-lead page's own client checks (`validateForm`, `isFormValid`,
  `handleTagsChange`, `handleSubmit`);
- the pagination bar: whether it renders, the previous and next targets, the
  strip of page buttons and ellipses, and `createPageUrl`;
- the filter bar: defaults read from the URL, `updateParam` and the search box;
- the leads table: status badge colours and the delete-confirmation flow;
- the login/signup form: field edits, the submit gate, the payload, and the
  loading flag.

Modules, one per source file, with shared helpers:

| file | module | models |
|---|---|---|
| `wrappers.dfy` | `Wrappers` | `Option` and `Result` |
| `text.dfy` | `Text` | JavaScript `trim` (the white-space and line-terminator set), `split`/`join` on one character, and decimal `toString` of an integer |
| `tags.dfy` | `Tags` | `split(",").map(trim).filter(nonEmpty)`, shared by the action and the page |
| `search_params.dfy` | `SearchParams` | `URLSearchParams` as a map from key to value, and the `router.push` target |
| `buyer_schema.dfy` | `BuyerSchema` | `lib/validations/buyerSchema.ts` |
| `buyer_actions.dfy` | `BuyerActions` | `createBuyerLead` and the two tables, as class `LeadStore` |
| `new_lead_page.dfy` | `NewLeadPage` | the new-lead page, as class `NewLeadPage` |
| `pagination.dfy` | `Pagination` | `components/pagination.tsx` |
| `leads_header.dfy` | `LeadsHeader` | `components/buyer-leads-header.tsx` |
| `leads_table.dfy` | `LeadsTable` | `components/buyer-leads-table.tsx`, as class `LeadsTableState` |
| `auth_form.dfy` | `AuthForm` | `components/auth-form.tsx`, as class `AuthFormState` |

Foreign calls become parameters of the model:

- the signed-in user returned by the auth client (`user: Option<User>`);
- the id the database assigns to a new row (`newId`);
- which statement of the transaction throws (`fault`);
- zod's `.email()` check (`isEmail`);
- whether `onSubmit` is passed to the auth form, and whether it throws.

Browser effects are modelled as state:

- `router.push` calls are an appended `navigations` sequence, or the returned
  `Href`;
- the auth form's alerts, loading-flag changes and `onSubmit` call are an
  appended `effects` sequence.

Where the product documentation and the code disagree, the model follows
the code:

- The schema does not trim `fullName`. Its length bounds apply to the text as
  typed (`BuyerSchema.UntrimmedNameAccepted`).
- Tags are not deduplicated. Every trimmed, non-empty piece is kept, in
  order.
- The schema has no `status` field, and the action sets no status. The status
  default is a database column and is not part of this model.
- An email of `""` passes the schema and is stored as `""`. It is not turned
  into an absent value.
- The only buyer action in the code is `createBuyerLead`. Update, delete and
  CSV import/export have no code to model.

## Model

| member | source | states |
|---|---|---|
| BuyerSchema.FieldIssueIff | lib/validations/buyerSchema.ts:5-20 | Each field check passes exactly when its rule holds: fullName raw length 2..80; phone raw length 10..15 with characters unchecked; email absent, `""` or an address; each enum absent or one of its case-sensitive literals; notes absent or at most 1000 characters |
| BuyerSchema.LengthIssue | lib/validations/buyerSchema.ts:5-7 | `z.string().min(lo).max(hi)` on a required field: missing, too short, too long, in that order; stated by `FieldIssueIff` |
| BuyerSchema.EmailIssue | lib/validations/buyerSchema.ts:6 | `z.string().email().optional().or(z.literal(''))`; stated by `FieldIssueIff` and `EmptyEmailAccepted` |
| BuyerSchema.EnumIssue | lib/validations/buyerSchema.ts:10-17 | `z.enum([...]).optional()`; stated by `FieldIssueIff` |
| BuyerSchema.NotesIssue | lib/validations/buyerSchema.ts:20 | `z.string().max(1000).optional()`; stated by `FieldIssueIff` |
| BuyerSchema.FieldIssue | lib/validations/buyerSchema.ts:5-20 | The object schema's rule for each named field; stated by `FieldIssueIff` |
| BuyerSchema.FieldIssues | lib/validations/buyerSchema.ts:4-21 | The issues of the object schema, keyed by field; stated by `FieldIssuesEmptyIff` and `Validate` |
| BuyerSchema.FieldIssuesEmptyIff | lib/validations/buyerSchema.ts:4-21 | The field checks report nothing exactly when all field rules hold |
| BuyerSchema.Merge | lib/validations/buyerSchema.ts:22-37 | Combining two issue maps keeps every path of both, with the first map's messages before the second's |
| BuyerSchema.BhkRule | lib/validations/buyerSchema.ts:22-29 | The first `.refine`: an Apartment or Villa needs a truthy bhk; stated by `BhkRequiredForApartmentAndVilla` and `BhkNotRequiredOtherwise` |
| BuyerSchema.BudgetRule | lib/validations/buyerSchema.ts:30-37 | The second `.refine`: with both budgets truthy, max is at least min; stated by `BudgetOrder` |
| BuyerSchema.RefinementIssues | lib/validations/buyerSchema.ts:22-37 | The two refinements' issues on paths `bhk` and `budgetMax`; stated by `Validate` |
| BuyerSchema.NoAbortingIssue | lib/validations/buyerSchema.ts:4-37 | No required field is missing and no enum value is outside its list, the field issues after which the refinements can still run; used by `Validate` |
| BuyerSchema.Validate | lib/validations/buyerSchema.ts:4-37 | `safeParse` succeeds exactly when the field rules and both refinements hold, and then yields the input record with `tags` still an unsplit string. A failure has only non-empty message lists, under failing fields or `bhk`/`budgetMax`. Every failing field is reported with its own message first; after an aborting field issue only the field issues are reported. When every field passes, exactly the failing refinements are reported, each with its message |
| BuyerSchema.BhkRequiredForApartmentAndVilla | lib/validations/buyerSchema.ts:22-29 | When every field rule holds, an Apartment or Villa without bhk fails on path `bhk` with the refinement's message; with a bhk present that path never fails |
| BuyerSchema.BhkNotRequiredOtherwise | lib/validations/buyerSchema.ts:22-29 | When every field rule holds, other property types, or none, never fail on `bhk` |
| BuyerSchema.BudgetOrder | lib/validations/buyerSchema.ts:30-37 | When every field rule holds, both budgets non-zero with max below min fails on `budgetMax`; equal budgets pass; a zero budget disables the check |
| BuyerSchema.BudgetAbsentUnchecked | lib/validations/buyerSchema.ts:30-37 | When every field rule holds, an absent min or max budget never fails on `budgetMax` |
| BuyerSchema.EmptyEmailAccepted | lib/validations/buyerSchema.ts:6 | An absent or empty email is never reported, whatever the address check says |
| BuyerSchema.UntrimmedNameAccepted | lib/validations/buyerSchema.ts:5 | A name of two spaces is accepted and kept untrimmed |
| BuyerSchema.OnlyBhkFails | lib/validations/buyerSchema.ts:22-37 | When every field rule and the budget refinement hold but the bhk refinement fails, the error map is exactly `{bhk: [message]}` |
| BuyerSchema.ApartmentWithoutBhk | lib/validations/buyerSchema.ts:22-29 | Jo Lee with a phone and an apartment but no bhk fails with exactly `{bhk: [message]}` |
| BuyerSchema.ApartmentWithBhk | lib/validations/buyerSchema.ts:17-29 | The same lead with bhk `TWO` succeeds, yielding the input record |
| BuyerSchema.InvalidCityHidesBhk | lib/validations/buyerSchema.ts:10-29 | An apartment without bhk in city `Delhi` is reported on `city` with the enum message and not on `bhk`, for either scheduling of the refinements |
| BuyerSchema.ShortNameKeepsBhk | lib/validations/buyerSchema.ts:5-29 | An apartment without bhk and a one-letter name is reported on both `fullName` and `bhk` when the refinements run after non-aborting issues |
| Text.TrimIdempotent | app/buyers/actions/buyers.ts:106 | `trim()` applied to a trimmed text changes nothing, so each tag piece is trimmed once and for all |
| Tags.CleanPiece | app/buyers/actions/buyers.ts:106 | The trim+filter of one piece yields at most one non-empty trimmed tag |
| Tags.CleanPieceOfTrimmed | app/buyers/actions/buyers.ts:106 | Cleaning a piece that is already trimmed contributes the same tag as cleaning the original piece |
| Tags.CleanPieces | app/buyers/actions/buyers.ts:106 | All cleaned pieces are non-empty and trimmed, and there are no more of them than pieces |
| Tags.CleanPiecesNoCommas | app/buyers/actions/buyers.ts:106 | Trimming comma-free pieces leaves them comma-free |
| Tags.ParseTags | app/buyers/actions/buyers.ts:106 | Every parsed tag is non-empty, trimmed and comma-free |
| Tags.CleanPiecesAppend | app/buyers/actions/buyers.ts:106 | Cleaning works piece by piece, so source order is kept |
| Tags.CleanPiecesOfTags | app/buyers/actions/buyers.ts:106 | Pieces that are already tags pass through unchanged (no deduplication) |
| Tags.ParseJoinRoundTrip | app/buyers/actions/buyers.ts:106 | Parsing the comma-join of well-formed tags gives them back |
| Tags.ParseTagsIdempotent | app/buyers/actions/buyers.ts:106 | Re-parsing the joined result of a parse changes nothing |
| Tags.ParseTagsEmpty | app/buyers/actions/buyers.ts:106 | Empty text gives no tags |
| BuyerActions.TagsOf | app/buyers/actions/buyers.ts:106 | An absent or empty tags text gives `[]`; otherwise the parsed tags |
| BuyerActions.ChangedBy | app/buyers/actions/buyers.ts:141 | The user's email when non-empty, otherwise the user id |
| BuyerActions.StoredBhk | app/buyers/actions/buyers.ts:126 | bhk is stored as null exactly when absent or empty, otherwise as given |
| BuyerActions.NewBuyer | app/buyers/actions/buyers.ts:110-129 | The `data` object of `tx.buyer.create`; its columns are stated by `NewBuyerFields` |
| BuyerActions.NewBuyerFields | app/buyers/actions/buyers.ts:110-136 | The inserted row has the assigned id and copies fullName, email, phone, city, propertyType, purpose, timeline, source, budgetMin, budgetMax and notes from the validated lead; it is owned by the acting user, stores bhk as null exactly when it is falsy, and holds well-formed tags |
| BuyerActions.HistoryCountAbsent | app/buyers/actions/buyers.ts:138-144 | An id no history row refers to has no history rows |
| BuyerActions.NewBuyerHistoryOnce | app/buyers/actions/buyers.ts:109-145 | After the commit, the new buyer has exactly one history row |
| BuyerActions.IdsAppend | app/buyers/actions/buyers.ts:110 | Appending a buyer adds exactly its id to the stored ids |
| BuyerActions.RecordedAppend | app/buyers/actions/buyers.ts:138-144 | A recorded creation stays recorded when rows are appended |
| BuyerActions.AppendKeepsConsistent | app/buyers/actions/buyers.ts:109-145 | Appending a fresh buyer with its creation row keeps ids unique, every history row referring to a stored buyer, and every buyer's creation recorded |
| BuyerActions.LeadStore.constructor | app/buyers/actions/buyers.ts:109 | The store starts empty and consistent |
| BuyerActions.LeadStore.CreateBuyerLead | app/buyers/actions/buyers.ts:87-153 | With no user: `Authentication required.`, before parsing, store unchanged. With invalid data: `Invalid form data.` with the schema's errors, store unchanged. When the transaction throws (either insert, or a duplicate id): `Failed to create lead.` and neither row persists. Otherwise: a redirect to `/buyers`, with exactly one buyer row and one history row appended. The history row has buyerId = the new id, changedBy = email or id, diff = `{created: newBuyer}`, and it is the only row about that buyer. Consistency is preserved throughout |
| BuyerActions.LeadStore.Commit | app/buyers/actions/buyers.ts:109-145 | Both rows are appended together; the store stays consistent |
| NewLeadPage.ScanDotIff | app/buyers/new/page.tsx:45 | Scanning rightwards from a position succeeds exactly when it reaches, through non-space characters only, a `.` followed by a non-space |
| NewLeadPage.ScanAtIff | app/buyers/new/page.tsx:45 | Scanning from a position succeeds exactly when some position at or after it holds an `@` that starts a match |
| NewLeadPage.AtMatchesIff | app/buyers/new/page.tsx:45 | A match starting at one `@` is exactly a pattern occurrence at that `@` |
| NewLeadPage.ScanAtPattern | app/buyers/new/page.tsx:45 | The full scan succeeds exactly when the string contains an occurrence of `\S+@\S+\.\S+` |
| NewLeadPage.MatchesEmail | app/buyers/new/page.tsx:45 | `/\S+@\S+\.\S+/.test(s)`: true exactly when `s` contains, somewhere, a non-space, `@`, a non-space run, `.`, a non-space (unanchored) |
| NewLeadPage.EmailExamples | app/buyers/new/page.tsx:45 | `a@b.c` and `x y@z.w` match; `a@b` and `a @b.c` do not |
| NewLeadPage.NameRejected | app/buyers/new/page.tsx:39-41 | `!formData.fullName.trim() \|\| formData.fullName.length < 2`; stated by `RejectionMeaning` |
| NewLeadPage.PhoneRejected | app/buyers/new/page.tsx:42-44 | `!formData.phone.trim()`; stated by `RejectionMeaning` |
| NewLeadPage.EmailRejected | app/buyers/new/page.tsx:45-47 | A non-empty email that the pattern does not match; stated by `MatchesEmail` and `EmailExamples` |
| NewLeadPage.BhkMissing | app/buyers/new/page.tsx:48-50 | An Apartment or Villa with an empty bhk; used by `ValidateForm` and `FormErrors` |
| NewLeadPage.ErrorsOf | app/buyers/new/page.tsx:37-50 | The error record has an entry for exactly the failing checks, each with its own message |
| NewLeadPage.FlagsDetermine | app/buyers/new/page.tsx:37-50 | Only one record reports a given set of failing checks |
| NewLeadPage.FormErrors | app/buyers/new/page.tsx:37-50 | The validator's record reports exactly the failing checks of the form |
| NewLeadPage.ReportsDetermined | app/buyers/new/page.tsx:37-52 | Any record that reports the checks of a form equals the validator's |
| NewLeadPage.RejectionMeaning | app/buyers/new/page.tsx:39-44 | A name error exactly when the name is blank or shorter than 2 untrimmed; a phone error exactly when the phone is blank, with no length bound |
| NewLeadPage.NoErrorsIff | app/buyers/new/page.tsx:53 | The record is empty exactly when every check passes |
| NewLeadPage.FormValid | app/buyers/new/page.tsx:74 | `isFormValid`: a trimmed name of at least 2 and a non-blank phone; stated by `FormValidImpliesNameAndPhone` and `NameCheckWeakerThanButton` |
| NewLeadPage.FormValidImpliesNameAndPhone | app/buyers/new/page.tsx:74 | When `isFormValid` holds, neither a name nor a phone error is produced |
| NewLeadPage.NameCheckWeakerThanButton | app/buyers/new/page.tsx:39-44 | The converse fails: `" a "` with phone `"1"` passes both checks while `isFormValid` is false |
| NewLeadPage.NewLeadPage.constructor | app/buyers/new/page.tsx:18-34 | Every field starts empty, with no errors, no tags and no navigation |
| NewLeadPage.NewLeadPage.ValidateForm | app/buyers/new/page.tsx:36-54 | The stored errors report exactly the failing checks (name, phone, email, bhk); the result is true exactly when all pass; the form is untouched |
| NewLeadPage.NewLeadPage.HandleTagsChange | app/buyers/new/page.tsx:56-63 | The tags text is stored, and the preview becomes its trimmed non-empty pieces in order; nothing else changes |
| NewLeadPage.NewLeadPage.SetTagsText | app/buyers/new/page.tsx:57 | Only the tags text of the form changes |
| NewLeadPage.NewLeadPage.PreviewTags | app/buyers/new/page.tsx:58-62 | The preview is the parsed tags of the text |
| NewLeadPage.NewLeadPage.HandleSubmit | app/buyers/new/page.tsx:65-72 | Validates, then navigates to `/buyers` exactly when every check passed |
| Pagination.ItemsFrom | components/pagination.tsx:109-129 | The strip is in ascending page order within range, and holds an item exactly when it is what that page contributes |
| Pagination.ShouldShow | components/pagination.tsx:109-114 | First, last and neighbouring pages get a button; stated by `ButtonIff` and `EndsAlwaysShown` |
| Pagination.ItemFor | components/pagination.tsx:109-129 | What one page contributes: a button, an ellipsis, or nothing; stated by `ButtonIff` and `EllipsisIff` |
| Pagination.PageStrip | components/pagination.tsx:109-131 | The map over pages `1..totalPages`; stated by `ItemsFrom`, `StripBounds` and `CurrentMarkedOnce` |
| Pagination.Render | components/pagination.tsx:18-20 | Nothing is rendered exactly when there is at most one page; otherwise the page strip is rendered |
| Pagination.CreatePageUrl | components/pagination.tsx:22-26 | The URL keeps the path, sets `page` to the decimal text of the page (it reads back as that number), and keeps every other parameter |
| Pagination.PrevNextPages | components/pagination.tsx:38-39 | prev exists exactly when the current page is above 1, and is then one less; next exists exactly when it is below the last, and is then one more |
| Pagination.NavOf | components/pagination.tsx:45-73 | `prevPage ? ... : <disabled>`: a missing page or page 0 disables the control; stated by `NavButtons` |
| Pagination.NavButtons | components/pagination.tsx:38-39 | The controls rendered from those targets are disabled when the target is missing or 0 (falsy) |
| Pagination.ButtonIff | components/pagination.tsx:109-114 | A page has a button exactly when it is first, last, or within one of the current page; the button is marked current exactly for the current page |
| Pagination.EllipsisIff | components/pagination.tsx:116-129 | A page without a button is an ellipsis exactly when it is two from the current page; otherwise it is omitted |
| Pagination.EndsAlwaysShown | components/pagination.tsx:109-114 | With two pages or more, pages 1 and totalPages always have buttons |
| Pagination.CurrentMarkedOnce | components/pagination.tsx:131 | Only the current page's button is marked current; one is marked exactly when the current page is in range |
| Pagination.ButtonsOfStrip | components/pagination.tsx:109-114 | The number of buttons equals the number of shown pages |
| Pagination.EllipsesOfStrip | components/pagination.tsx:116-129 | The number of ellipses equals the number of gap pages |
| Pagination.StripBounds | components/pagination.tsx:109-129 | At most five buttons and at most two ellipses ever appear |
| LeadsHeader.CurrentFilters | components/buyer-leads-header.tsx:30-35 | A missing or empty `q` reads as `""`; a missing or empty select filter reads as `all`; a present value reads as itself |
| LeadsHeader.Keeps | components/buyer-leads-header.tsx:39 | `value && value !== "all"`; what it means for the query is stated by `Updated` |
| LeadsHeader.Updated | components/buyer-leads-header.tsx:38-41 | `name` holds the value exactly when it is neither `""` nor `all`, and is absent otherwise; `page` is `"1"`; every other key is unchanged |
| LeadsHeader.UpdatedIdempotent | components/buyer-leads-header.tsx:37-44 | Applying the same change twice gives the once-applied parameters |
| LeadsHeader.SelectReadAfterUpdate | components/buyer-leads-header.tsx:30-41 | After setting a select filter, reading it gives the chosen value, with `""` reading as `all` |
| LeadsHeader.UpdateParam | components/buyer-leads-header.tsx:37-44 | The pushed target is the path with the updated query; the bare-path branch is never taken because `page` is always set |
| LeadsHeader.OnSearchChange | components/buyer-leads-header.tsx:46-48 | As written: the trimmed text goes through `updateParam` under `q`, so `q` holds it unless it is `""` or `all`, which remove `q`; `page` is reset and other keys are kept |
| LeadsHeader.SearchForAllIsDropped | components/buyer-leads-header.tsx:39 | As written, searching for ` all ` removes `q`, and the search box reads back empty |
| LeadsHeader.SearchUpdated | components/buyer-leads-header.tsx:39-41 | The intended search update: `q` is present exactly when the text is non-empty and then holds it; `page` is `"1"`; other keys are unchanged |
| LeadsHeader.SearchReadAfterUpdate | components/buyer-leads-header.tsx:30-48 | With the intended update the search box reads back exactly the trimmed text, and it agrees with the written update on every text but `all` |
| LeadsHeader.IntendedOnSearchChange | components/buyer-leads-header.tsx:46-48 | The search handler with the intended update: the trimmed text becomes `q`, or removes it only when empty; it pushes what `OnSearchChange` pushes for every text but `all` |
| LeadsTable.StatusColor | components/buyer-leads-table.tsx:75-90 | Any status outside the five listed ones gets the gray default |
| LeadsTable.ListedColors | components/buyer-leads-table.tsx:76-86 | new, contacted, qualified, converted and lost each get their fixed blue, yellow, green, purple and red classes |
| LeadsTable.DefaultColorIff | components/buyer-leads-table.tsx:75-90 | The default colour is given exactly to the unlisted statuses |
| LeadsTable.WithoutId | components/buyer-leads-table.tsx:106 | The filtered list is no longer than the original, and no lead in it has the removed id |
| LeadsTable.WithoutIdMembers | components/buyer-leads-table.tsx:106 | A lead survives exactly when it was present and its id differs |
| LeadsTable.WithoutIdAppend | components/buyer-leads-table.tsx:106 | Filtering works piecewise, so survivors keep their order |
| LeadsTable.WithoutAbsentId | components/buyer-leads-table.tsx:106 | Removing an id no lead has changes nothing |
| LeadsTable.WithoutIdIdempotent | components/buyer-leads-table.tsx:106 | Removing the same id twice removes nothing more |
| LeadsTable.Truthy | components/buyer-leads-table.tsx:105 | `if (deleteModal.leadId)`: null and 0 are falsy; its effect is stated by `HandleDeleteConfirm` |
| LeadsTable.LeadsTableState.constructor | components/buyer-leads-table.tsx:93-98 | The modal starts closed, with no lead id and an empty name |
| LeadsTable.LeadsTableState.HandleDeleteClick | components/buyer-leads-table.tsx:100-102 | The modal opens on that id and name; the leads are unchanged |
| LeadsTable.LeadsTableState.HandleDeleteConfirm | components/buyer-leads-table.tsx:104-109 | With a truthy lead id, every lead with that id is removed, the others are kept in order, and the modal closes; with a null or 0 id the leads are unchanged; with the modal closed nothing changes |
| LeadsTable.LeadsTableState.HandleDeleteCancel | components/buyer-leads-table.tsx:111-113 | The modal closes; the leads are unchanged |
| AuthForm.GateIff | components/auth-form.tsx:60-75 | Submission goes ahead exactly when email and password are non-empty and, in signup mode, the name is non-empty and the password equals its confirmation |
| AuthForm.LoginIgnoresSignupFields | components/auth-form.tsx:65-75 | In login mode the name and the confirmation never affect the decision |
| AuthForm.CredentialsCheckedFirst | components/auth-form.tsx:60-63 | A missing email or password is reported first, in either mode |
| AuthForm.Gate | components/auth-form.tsx:60-75 | The guard chain of `handleSubmit`; stated by `GateIff`, `LoginIgnoresSignupFields` and `CredentialsCheckedFirst` |
| AuthForm.AlertOf | components/auth-form.tsx:60-75 | The alert each stopping guard raises; used by `HandleSubmit` |
| AuthForm.SubmitData | components/auth-form.tsx:81-88 | The payload has only email and password in login mode, adds name and confirmPassword in signup mode, and copies every value from the form |
| AuthForm.AuthFormState.constructor | components/auth-form.tsx:37-44 | Loading is off; the four fields are empty |
| AuthForm.AuthFormState.HandleInputChange | components/auth-form.tsx:48-54 | The field named by the input id takes the value; every other field is kept; loading and effects are unchanged |
| AuthForm.AuthFormState.HandleSubmit | components/auth-form.tsx:56-97 | A failing guard raises its alert and changes nothing else: no loading, no `onSubmit` call. Otherwise loading turns on, `onSubmit` (when given) receives the mode's payload, and loading turns off again whether or not the call throws; the form is unchanged |

## Left out

- Prisma and Supabase calls become parameters of the model: `getUser`, the database-assigned id, and whether a statement of the transaction throws.
- `redirect('/buyers')` is the action's result value `Redirected(BuyersPath)`, and `router.push` is the returned or recorded `Href`.
- `revalidatePath` and `router.refresh` are cache and re-render effects with no state in the model, and are left out.
- `signInWithOAuth` and `signOut` are left out, and so are the Google sign-in and sign-out handlers that call them.
- Database-filled columns are not part of the model: timestamps and the status default.
- zod's `.email()` is an uninterpreted predicate `isEmail`; the address syntax it accepts is not modelled.
- `z.coerce.number()`: budgets are already-parsed optional integers; `Number()` parsing, NaN and fractional values are not modelled.
- A missing `fullName` or `phone`, or a value outside an allow-list, aborts the object, and the refinements are then skipped (`NoAbortingIssue`). After a length, email or notes issue alone, whether zod runs the refinements is zod's own behaviour. That choice is the parameter `refinesAfterFieldIssues`, and every claim about a failing field holds for either value.
- Missing required fields: fullName and phone raise a field error. The exact zod `invalid_type` message is modelled as `Required`.
- zod's enum message: modelled as `Invalid enum value`, without zod's suffix listing the expected and received values.
- Field lengths are counted in Dafny characters; JavaScript counts UTF-16 code units, which differs for characters outside the Basic Multilingual Plane.
- Render, PageStrip, ItemsFrom and CreatePageUrl: page numbers are assumed to be integers. The props are JavaScript numbers, so a fractional or NaN `currentPage` (no page marked current, a `page` text such as `2.5`, no previous/next control) is not modelled.
- The 300 ms debounce of the search box: `OnSearchChange` models the callback once the delay has passed.
- `URLSearchParams.toString()` serialisation and percent-encoding: a query is a map from key to value. Repeated keys in the incoming URL are not modelled (`get` would read the first value, `set` would drop the others).
- Alerts, `console` logging and toasts: the auth form's alerts are recorded in its effects log, and the rest is left out.
- `handlePageChange` (push, then refresh) is not modelled beyond the URL it pushes (`CreatePageUrl`).
- The mock lead data and the table's display-only columns are not part of the model; a lead carries its id, name and status.
- JSX rendering, the dashboard, navbar, header, the delete modal component and the CSV import page are left out as presentation.
- CSV import/export and the update/delete server actions have no code in the action file, so `exportBuyersCSV` and `importBuyersCSV` are not part of this model.
- The commented-out schema variants are left out as dead code.
- No compatibility is claimed between the new-lead page's option values and the schema's enums; the two validators are modelled independently.

## Findings

| source | as written | input that shows it | evidently intended | confidence | as-written member | corrected member |
|---|---|---|---|---|---|---|
| components/buyer-leads-header.tsx:39 | `updateParam` drops any value equal to `"all"`, the select filters' "no filter" sentinel, and `onSearchChange` routes the search text through it | typing `all` (or ` all `) in the search box: `q` is removed and the search box reads back empty | only the select filters treat `all` as "no filter"; a search text is dropped only when empty | medium, not executed | LeadsHeader.SearchForAllIsDropped | LeadsHeader.SearchUpdated |
