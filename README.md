# Guest-to-user merge: a Dafny model

This project models how the application hands an anonymous visitor's data over to them once
they sign in. It covers these parts:

- **Middleware**: gives every unauthenticated request without a guest cookie a fresh
  `guest_session_id` cookie. Its path matcher decides which requests it runs on.
- **Identity resolver**: picks the owner a request acts for. A signed-in email wins over the
  guest cookie. With neither, resolution fails.
- **Record model**: every owned record carries `ownerId` and `isArchived`. Find-family queries
  hide archived records by rewriting their filter. Note is the one record type that can be
  merged.
- **Merge ledger**: one entry per completed merge, looked up by the (guest id, user id) pair.
- **`mergeGuestData` server action**: the merge itself, run behind the safe-action wrapper.
  The action does these steps in order:
  1. It refuses a caller that is not signed in.
  2. It returns zero when there is no guest cookie.
  3. It reports the recorded total when the ledger already has an entry for the pair.
  4. Otherwise, in one transaction, it rewrites the owner of every guest record in every
     mergeable model and writes one ledger entry.
  5. It then deletes the cookie on a best-effort basis.

Files, one module each: `common.dfy` (Option, Result), `safe_action.dfy`, `identity.dfy`,
`middleware.dfy`, `base_schema.dfy`, `note.dfy`, `merge_log.dfy`, `merge.dfy`.

The merge is imperative, like the source:

- A `Store` class holds the record collections, the ledger and the request's cookies.
- `Store.MergeGuestData` runs the steps. Its transaction loop runs over a working copy of the
  collections (`RewriteOwners`). The copy is committed together with the ledger entry, or it is
  dropped.
- Each method is proved equal to a specification function. `Store.MergeGuestData` equals
  `MergeSpec`, `Store.Handle` equals `Handler` and `Store.Transact` equals `NewMerge`.
  `RewriteOwners` gives `MigratedPrefix` and `CountsPrefix`. The source's promises are proved
  as lemmas about `MergeSpec`.
- Storage failures come in as a `StorageFault` parameter (connect, lookup, the update of model
  *i*, the ledger write). A failing cookie delete comes in as an optional error message. These
  parameters are what let rollback be stated.

The session is the session's email (`Option<string>`). Cookies are a `map<string, string>`.
The UUID generator and `NODE_ENV` are parameters.

Behaviour of the code worth knowing, each item proved in the member named:

- Storage errors reach the caller word for word, as the `Error`'s message
  (`TransactionFaultRollsBack`).
- In the already-merged branch, `cookieStore.delete` sits outside the handler's own `try`
  blocks (src/app/actions/merge-guest-data.ts lines 81 and 117). Only the wrapper's `try`
  catches it, so a throwing delete there turns the result into a failure
  (`AlreadyMergedShortCircuits`). After a commit, the same failure is swallowed
  (`CookieFailureAfterCommitHarmless`).
- The ledger's `(guestId, userId)` index is not unique, and there is no recovery from a
  conflict. One entry per pair is proved for sequential calls only
  (`MergeKeepsLedgerInvariants`).
- The auth token is read with `??`. An empty `authjs.session-token` cookie therefore hides a
  non-empty `__Secure-authjs.session-token`, and such a request gets a guest cookie
  (`EmptyPlainTokenHidesSecureToken`).
- The matcher's comment says auth API routes are excluded, but the pattern does not exclude
  them (`ApiRoutesHandled`). The `.` in `favicon.ico` is unescaped, so it matches any
  character (`FrameworkPathsSkipped`).
- A title of exactly 200 characters is accepted, although the message says "under 200"
  (`TitleErrors`).
- The `timestamps` option makes every `updateMany` also write `updatedAt`, so `modifiedCount`
  is every record the filter matches. When the guest cookie equals the email, no record changes
  owner, yet the merge reports and records the number of records that id already owns
  (`ModifiedCountIsOwned`, `MergeConservesRecords`).
- A guest record created after a merge whose cookie delete failed is never migrated. The next
  call finds the ledger entry, deletes the cookie and leaves the record with the guest
  (`AlreadyMergedShortCircuits`: only the cookie changes).

## Model

| member | source | states |
|---|---|---|
| `SafeAction.SafeNoInputAction` | src/lib/safe-action.ts:56-72 | The result is a success exactly when the handler returned. A returned value is the success's data. A thrown `Error`'s message is the error word for word. Anything else thrown gives "An unexpected error occurred". |
| `SafeAction.CatchMessage` | src/lib/safe-action.ts:42-49 | The catch clause's message is a thrown `Error`'s own message, or the generic message for a thrown non-`Error`. |
| `SafeAction.SafeAction` | src/lib/safe-action.ts:23-51 | Invalid input fails with "Validation failed: " and the formatted field errors. The handler is applied only to the parsed data, and its outcome is wrapped like `createSafeNoInputAction`'s. |
| `SafeAction.InvalidInputIgnoresHandler` | src/lib/safe-action.ts:29-38 | When validation fails, the result is a failure and is the same whichever handler is given: the handler is not called. |
| `SafeAction.ValidationMessageHasPrefix` | src/lib/safe-action.ts:37 | A validation failure's message starts with "Validation failed: ". |
| `SafeAction.Join` | src/lib/safe-action.ts:34-35 | `join` of no parts is empty, and `join` of one part is that part. |
| `SafeAction.JoinSnoc` | src/lib/safe-action.ts:34-35 | Joining one more part appends the separator and the part. |
| `SafeAction.FormatFieldErrors` | src/lib/safe-action.ts:32-35 | No field errors format to "", and one field formats to its own `field: e1, e2` entry. `FormatFieldErrorsSnoc` gives the rest. |
| `SafeAction.FormatFieldErrorsSnoc` | src/lib/safe-action.ts:32-35 | Each further invalid field adds "; " and its own `field: e1, e2` entry at the end, so entries keep the fields' order. |
| `Identity.CookieValue` | src/lib/auth/get-owner.ts:30 | `get(name)?.value`: present exactly when the cookie is, and then its value. |
| `Identity.GetGuestSessionId` | src/lib/auth/get-owner.ts:46-49 | The raw guest cookie value, empty or not, read only from the cookies and so independent of any session. |
| `Identity.GetCurrentOwner` | src/lib/auth/get-owner.ts:20-40 | A non-empty email gives `{email, user}`. Otherwise a non-empty guest cookie gives `{guestId, guest}`. Otherwise resolution fails with "No identity found…", and it fails in no other case. |
| `Identity.UserBeatsGuest` | src/lib/auth/get-owner.ts:22-26 | With an email, the result does not depend on the cookies at all, and its kind is user. |
| `Identity.ResolvedOwnerNonEmpty` | src/lib/auth/get-owner.ts:24-34 | A resolved owner id is never empty, because an empty email or cookie counts as absent. A guest owner is exactly the guest cookie's value. |
| `Middleware.AuthToken` | src/middleware.ts:19-21 | The token is the `authjs.session-token` value whenever that cookie is present, even when it is empty. When that cookie is missing, it is the `__Secure-` cookie's value. |
| `Middleware.HasAuthToken` | src/middleware.ts:19-23 | The request counts as authenticated when the token `??` picks is non-empty. `HasAuthTokenCases` states this in terms of the two cookies. |
| `Middleware.HasAuthTokenCases` | src/middleware.ts:19-26 | The request counts as authenticated exactly when the plain session cookie is non-empty, or it is missing and the secure one is non-empty. |
| `Middleware.EmptyPlainTokenHidesSecureToken` | src/middleware.ts:19-34 | An empty plain session cookie next to a real secure token leaves the request unauthenticated, and a guest cookie is issued. |
| `Middleware.GuestCookieOptions` | src/middleware.ts:34-40 | httpOnly, sameSite "lax", path "/", maxAge 2592000 (30 days in seconds). secure holds exactly when NODE_ENV is "production". |
| `Middleware.IssuedCookie` | src/middleware.ts:19-43 | A cookie is set exactly when there is no auth token and no non-empty guest cookie. It is `guest_session_id` with value "guest_" followed by the fresh token, and carries the guest options. |
| `Middleware.IssueOnce` | src/middleware.ts:29-31 | Once the client stores the issued cookie, the next request sets nothing, whatever token it would draw: repeated requests are no-ops. |
| `Middleware.Response.Next` | src/middleware.ts:15 | A pass-through response carries no cookies. |
| `Middleware.Response.Set` | src/middleware.ts:34-40 | Setting a cookie adds or replaces exactly that name's entry. |
| `Middleware.HandleRequest` | src/middleware.ts:13-44 | The response's cookies are exactly the issued guest cookie when `IssuedCookie` gives one, and none otherwise. |
| `Middleware.MatcherHandles` | src/middleware.ts:55 | The pattern matches the whole pathname: a leading slash, then a rest without line terminators that the negative lookahead accepts. `MatcherHandlesExactly` restates it over the whole path. |
| `Middleware.MatcherHandlesExactly` | src/middleware.ts:55 | A path is handled exactly when it starts with a slash, has no line terminator, is not under `/_next/static` or `/_next/image`, is not icon-like and does not end in an image extension. This is proved in both directions, for every path. |
| `Middleware.FrameworkPrefixSkipped` | src/middleware.ts:55 | Every path under `/_next/static` or `/_next/image`, and every path whose rest is `favicon`, any one character, then `ico`, is skipped. |
| `Middleware.StaticExtensionSkipped` | src/middleware.ts:55 | Every path ending in `.svg`, `.png`, `.jpg`, `.jpeg`, `.gif` or `.webp` is skipped. |
| `Middleware.EndsWithRest` | src/middleware.ts:55 | The part after the leading slash ends in a non-empty suffix that does not start with a slash exactly when the whole path ends in it. |
| `Middleware.ApiRoutesHandled` | src/middleware.ts:47-56 | Every `/api/...` path, `/api/auth/...` included, is handled unless it ends in a static image extension. |
| `Middleware.FrameworkPathsSkipped` | src/middleware.ts:55 | `/_next/static/...`, `/_next/image` and `/favicon.ico` are skipped. So is `/favicon-ico`, since the pattern's dot is unescaped. |
| `Middleware.ImagePathSkipped` | src/middleware.ts:55 | A path ending in `.png` is skipped. |
| `Middleware.PagePathHandled` | src/middleware.ts:55 | An application page such as `/dashboard` is handled. |
| `BaseSchema.DefaultArchived` | src/models/base.ts:21-25 | A new record is unarchived unless the flag is given. |
| `BaseSchema.OwnerIdErrors` | src/models/base.ts:15-20 | `ownerId` passes exactly when it is given and non-empty. Otherwise the one error is "ownerId is required" on `ownerId`. |
| `BaseSchema.SaveAssigned` | src/models/base.ts:15-20 | A document-level save keeps the immutable `ownerId` whatever was assigned to it. `isArchived` and the record's own fields take the new values. |
| `BaseSchema.SoftDeleteFilter` | src/models/base.ts:31-35 | A filter without `isArchived` gains `isArchived: false`. A filter that has `isArchived` (true or false) is kept as is. Every other condition is kept. |
| `BaseSchema.EffectiveFilter` | src/models/base.ts:31 | Only operations whose name starts with "find" get the rewrite. Any other operation runs its filter unchanged. |
| `BaseSchema.SoftDeleteIdempotent` | src/models/base.ts:32-34 | Rewriting twice equals rewriting once. |
| `BaseSchema.FindHidesArchived` | src/models/base.ts:31-35 | A find query without an `isArchived` condition matches a record exactly when its own filter does and the record is unarchived. |
| `BaseSchema.UpdateManySeesArchived` | src/models/base.ts:10-11 | `updateMany` is not a find operation, so its filter reaches archived records. |
| `BaseSchema.FindByOwner` | src/models/base.ts:31-35 | A record is in the result of `find({ ownerId: o })` exactly when it is one of the owner's unarchived records. |
| `BaseSchema.FindByOwnerCount` | src/models/base.ts:31-35 | `find({ ownerId: o })` returns as many records as the owner has unarchived ones. |
| `BaseSchema.CountLiveOwnedBy` | src/models/base.ts:31-35 | The number of an owner's unarchived records, at most its number of records. |
| `BaseSchema.OwnerFilterMatches` | src/app/actions/merge-guest-data.ts:89-93 | The merge's filter `{ ownerId: guestId }` matches exactly the guest's records, archived or not. |
| `BaseSchema.UpdateManyOwner` | src/app/actions/merge-guest-data.ts:89-93 | Every record of the old owner gets the new owner and keeps its other fields. Every other record is unchanged. The collection's length is unchanged. |
| `BaseSchema.ModifiedCount` | src/app/actions/merge-guest-data.ts:89-95 | `modifiedCount` is the number of records `updateMany`'s filter matches, and never exceeds the collection's size. The `timestamps` option (src/models/base.ts line 28) writes `updatedAt` to each of them, so each counts as modified. |
| `BaseSchema.ModifiedCountIsOwned` | src/app/actions/merge-guest-data.ts:89-95 | `modifiedCount` is exactly the old owner's number of records, archived ones included, whatever the new owner is. |
| `BaseSchema.Select` | src/models/base.ts:31-35 | A record is in a query's result exactly when it is in the collection and matches the filter the operation runs with, after the find hook's rewrite. The result is no longer than the collection. |
| `BaseSchema.SelectMultiplicity` | src/models/base.ts:31-35 | A query returns each matching record as many times as the collection holds it, and never a record that does not match. |
| `BaseSchema.CountOwnedBy` | src/app/actions/merge-guest-data.ts:89-95 | The number of an owner's records in a collection, at most the collection's size. `UpdateManyLeavesNothing` and `UpdateManyMovesCount` use it to state the rewrite's effect. |
| `BaseSchema.UpdateManyMovesLive` | src/app/actions/merge-guest-data.ts:87-98 | When the two owners differ, after the rewrite the new owner's unarchived records are its own plus the old owner's, and the old owner has none. |
| `BaseSchema.UpdateManyLeavesNothing` | src/app/actions/merge-guest-data.ts:87-98 | After the rewrite the old owner has no record left, when the two owners differ. |
| `BaseSchema.UpdateManyMovesCount` | src/app/actions/merge-guest-data.ts:87-98 | When the two owners differ, the new owner has its former records plus exactly `modifiedCount` more after the rewrite. When they are the same id, the rewrite leaves the collection as it was. |
| `NoteModel.TrimStart` | src/models/note.ts:18 | The result is a suffix of the input that does not start with white space. |
| `NoteModel.TrimEnd` | src/models/note.ts:18 | The result is a prefix of the input that does not end with white space. |
| `NoteModel.TrimStartRemovesOnlyTrimmable` | src/models/note.ts:18 | Every character removed from the start is white space. |
| `NoteModel.TrimEndRemovesOnlyTrimmable` | src/models/note.ts:18 | Every character removed from the end is white space. |
| `NoteModel.Trim` | src/models/note.ts:18 | `String.prototype.trim`: the leading white space is removed, then the trailing white space. `TrimShape`, `TrimIdempotent` and `TrimUnpadded` state its properties. |
| `NoteModel.TrimShape` | src/models/note.ts:18 | A trimmed title is a contiguous part of the input with no leading or trailing white space. |
| `NoteModel.TrimUnpadded` | src/models/note.ts:18 | A title without padding is stored as given. |
| `NoteModel.TrimIdempotent` | src/models/note.ts:18 | Trimming twice equals trimming once. |
| `NoteModel.TrimAllTrimmable` | src/models/note.ts:18 | A title of white space only trims to the empty string. |
| `NoteModel.TitleErrors` | src/models/note.ts:15-20 | The title passes exactly when it is present and 1 to 200 characters long. A missing or empty title fails with "Title is required". A longer one fails with "Title must be under 200 characters". |
| `NoteModel.ValidNote` | src/models/note.ts:14-28 | A stored Note has a non-empty owner, a trimmed title of 1 to 200 characters, and string content. `CreateNote` and `UpdateManyKeepsNotesValid` establish and keep it. |
| `NoteModel.CreateNote` | src/models/note.ts:14-28 | A Note is created exactly when the owner id is non-empty and the trimmed title is 1 to 200 characters. The stored title is the trimmed input. Content defaults to "". isArchived defaults to false. The owner is the given one. Otherwise the errors are the title's, then the owner's. |
| `NoteModel.BlankTitleRequired` | src/models/note.ts:17-19 | A title of spaces is rejected with "Title is required", because trimming runs before validation. |
| `NoteModel.UpdateManyKeepsNotesValid` | src/models/note.ts:14-28 | The merge's owner rewrite keeps every Note valid when the new owner id is non-empty. |
| `MergeLog.ValidEntry` | src/models/guest-merge-log.ts:12-34 | The schema's validators as one condition: both ids present and non-empty, every item named with a count of at least 0, and a total of at least 0. |
| `MergeLog.ItemErrors` | src/models/guest-merge-log.ts:24-29 | The items' failing paths, `mergedModels.<i>.model` and `mergedModels.<i>.count`, are empty exactly when every item has a name and a count of at least 0. There are at most two per item. |
| `MergeLog.NegativeCountPath` | src/models/guest-merge-log.ts:27 | An item with a negative count is reported at `mergedModels.<i>.count`, where `i` is its own index. |
| `MergeLog.EntryErrors` | src/models/guest-merge-log.ts:12-41 | An entry has no failing path exactly when both ids are non-empty, every item has a name and a count of at least 0, and the total is at least 0. |
| `MergeLog.Create` | src/models/guest-merge-log.ts:12-41 | `create` appends a valid entry to the end of the ledger. An invalid entry is refused with its failing paths. |
| `MergeLog.FindEntry` | src/models/guest-merge-log.ts:43-44 | The lookup by `(guestId, userId)` finds an entry exactly when one for the pair exists, and what it finds is in the ledger and is for the pair. |
| `MergeLog.CountFor` | src/models/guest-merge-log.ts:43-44 | The number of ledger entries for a pair, at most the ledger's length. The non-unique index allows more than one. |
| `MergeLog.CountForAppend` | src/models/guest-merge-log.ts:43-44 | Appending an entry adds one to its own pair's count and nothing to any other pair's. |
| `MergeLog.FindEntryNoneIffNoCount` | src/app/actions/merge-guest-data.ts:67-72 | The lookup finds nothing exactly when the ledger holds no entry for the pair. |
| `MergeLog.FindEntryStable` | src/app/actions/merge-guest-data.ts:67-72 | Appending to the ledger never changes what an existing pair's lookup returns. |
| `Merge.NewEntry` | src/app/actions/merge-guest-data.ts:101-112 | The entry a merge writes is for the (guest id, email) pair. It has one item per mergeable model, named in registry order. Its total is the number of records the guest id owns across those models. |
| `Merge.AlreadyMerged` | src/app/actions/merge-guest-data.ts:72-76 | The already-merged branch: the cookie is deleted and the recorded total is returned with `alreadyMerged` true, or a throwing delete escapes with the state kept. `AlreadyMergedShortCircuits` states it for the whole action. |
| `Merge.NewMerge` | src/app/actions/merge-guest-data.ts:78-130 | The transaction branch: a throwing update or ledger write leaves everything as it was, and otherwise the rewritten collections and the new entry are committed together. The lemmas `TransactionFaultRollsBack`, `MergeTransfersOwnership` and `MergeRecordsEntry` state it. |
| `Merge.Handler` | src/app/actions/merge-guest-data.ts:44-131 | The handler's steps in order: the auth check, the guest cookie check, connect and lookup, then `AlreadyMerged` or `NewMerge`. `FailureChangesNothing` and `RecordsNeverMoveWithoutEntry` state what it guarantees. |
| `Merge.MergeSpec` | src/app/actions/merge-guest-data.ts:43-132 | `Handler` behind `createSafeNoInputAction`. Its state and result are what `Store.MergeGuestData` is proved to produce, and the lemmas below are stated about it. |
| `Merge.CountsPrefixStep` | src/app/actions/merge-guest-data.ts:95-97 | Each pass of the loop pushes the next model's `{model, count}` item after those of the earlier models. |
| `Merge.RegistryDistinct` | src/app/actions/merge-guest-data.ts:19 | The mergeable models are listed once each. |
| `Merge.RewriteOwners` | src/app/actions/merge-guest-data.ts:85-98 | The loop fails exactly when the update of a listed model throws, and then carries that update's message. Otherwise it gives every mergeable collection rewritten, one `{model, count}` item per model in list order, and the sum of the counts. |
| `Merge.TotalCountSnoc` | src/app/actions/merge-guest-data.ts:96-97 | Pushing an item adds its count to the total. |
| `Merge.MigratedPrefixStep` | src/app/actions/merge-guest-data.ts:87-98 | Rewriting the next model extends the rewritten prefix by that one model. The models before it do not touch its collection. |
| `Merge.Store.constructor` | src/app/actions/merge-guest-data.ts:55-64 | The abstract store the handler reads: the cookie store it gets at line 55 and the database it connects to at line 64. It starts with the given collections, ledger and cookies. |
| `Merge.Store.Handle` | src/app/actions/merge-guest-data.ts:44-131 | The handler's new state and outcome are exactly `Handler`'s: the auth check, the cookie check, the lookup, then the transaction. |
| `Merge.Store.Transact` | src/app/actions/merge-guest-data.ts:79-130 | The transaction commits the rewritten collections and the new entry together, or nothing. The cookie is then deleted unless that throws. State and outcome are `NewMerge`'s. |
| `Merge.Store.MergeGuestData` | src/app/actions/merge-guest-data.ts:43-132 | The state the action leaves and the `ActionResult` it returns are exactly `MergeSpec`'s. |
| `Merge.UnauthenticatedRejected` | src/app/actions/merge-guest-data.ts:46-50 | A caller without an email fails with a message containing "Authentication required", and records, ledger and cookies are unchanged. |
| `Merge.NoGuestCookieMergesNothing` | src/app/actions/merge-guest-data.ts:55-61 | With no guest cookie the result is `{0, false}` and the state is unchanged, whatever the records, ledger and storage faults. |
| `Merge.AlreadyMergedShortCircuits` | src/app/actions/merge-guest-data.ts:67-76 | With a ledger entry for the pair, the cookie is deleted and the result is `{entry.totalMerged, true}`. Records and ledger are unchanged. A throwing delete fails the action and changes nothing. |
| `Merge.FailureChangesNothing` | src/app/actions/merge-guest-data.ts:85-113 | Any failing call leaves records, ledger and cookies exactly as they were. |
| `Merge.TransactionFaultRollsBack` | src/app/actions/merge-guest-data.ts:85-113 | A throwing update or ledger write inside the transaction rolls back all rewrites, adds no entry, and fails with that error's message. |
| `Merge.TotalCountNonNegative` | src/app/actions/merge-guest-data.ts:82-97 | Counts of at least 0 sum to a total of at least 0. |
| `Merge.NewEntryValid` | src/models/guest-merge-log.ts:14-34 | The entry the merge writes meets every schema constraint, so its `create` never fails validation. |
| `Merge.TotalCountIsGuestRecords` | src/app/actions/merge-guest-data.ts:87-98 | The accumulated total is the number of records the guest id owns across the mergeable models, archived ones included. This holds even when the guest id equals the email. |
| `Merge.UserGainsTotal` | src/app/actions/merge-guest-data.ts:87-98 | When guest and user differ, after the rewrite the user owns what it owned before plus the total, across the mergeable models. |
| `Merge.MergeTransfersOwnership` | src/app/actions/merge-guest-data.ts:87-98 | A committed merge rewrites every mergeable collection by `UpdateManyOwner`: each guest record, archived or not, goes to the user. No other record or collection changes. The guest then owns nothing, unless the guest id equals the email. |
| `Merge.MergeChangesFindResults` | src/app/actions/merge-guest-data.ts:87-98 | After a committed merge with distinct ids, in every mergeable model, `find` for the user returns its former unarchived records plus the guest's, and `find` for the guest returns nothing. |
| `Merge.MergeRecordsEntry` | src/app/actions/merge-guest-data.ts:82-127 | A committed merge appends exactly one valid entry for the pair. It has one item per mergeable model in list order, zero counts included. Its `totalMerged` is the sum of the items and the guest's record count, and is the `mergedCount` returned with `alreadyMerged` false. |
| `Merge.MergeConservesRecords` | src/app/actions/merge-guest-data.ts:87-127 | When the guest id differs from the email, a committed merge leaves the user owning its earlier records plus exactly the returned `mergedCount`. When they are the same id, no record changes, and `mergedCount` is the number of records that id owns. |
| `Merge.CookieFailureAfterCommitHarmless` | src/app/actions/merge-guest-data.ts:115-127 | A throwing cookie delete after the commit leaves the result, the records and the ledger as they would otherwise be. Only the cookie stays. |
| `Merge.SecondCallReadsLedger` | src/app/actions/merge-guest-data.ts:67-76 | With the cookie left over, a second call reports the first call's count with `alreadyMerged` true, even if the records changed in between. It changes neither records nor ledger, and the ledger holds exactly one entry for the pair. |
| `Merge.FirstEntryIsAppended` | src/app/actions/merge-guest-data.ts:67-72 | After the first entry for a pair is appended, the lookup for the pair finds it. |
| `Merge.MergeKeepsLedgerInvariants` | src/models/guest-merge-log.ts:43-44 | Each call only appends, and at most one entry. Under sequential calls the ledger keeps at most one entry per pair and only valid entries. |
| `Merge.RecordsNeverMoveWithoutEntry` | src/app/actions/merge-guest-data.ts:85-113 | Records change only in a successful new merge, which appends its ledger entry in the same step. |
| `Merge.MergeTargetsResolvedOwner` | src/lib/auth/get-owner.ts:22-26 | The rewritten records end up owned by the identity that resolution gives the signed-in caller. |

## Left out

- Racing merges for the same pair are not modelled. The code has no unique constraint and no conflict recovery, so only sequential calls are modelled.
- Transaction retries inside `withTransaction` are not modelled. The transaction is one all-or-nothing commit. This hides one effect: `totalMerged` and `mergedModels` are declared outside the callback (src/app/actions/merge-guest-data.ts lines 82-83). So a retried callback would push the items a second time and add the counts again, and the entry and result would over-report.
- `endSession`, the database connection cache and `startSession` are not modelled, because they are connection plumbing with no effect on data. Only the connect and lookup failures are kept, as faults.
- UUID generation is a parameter (`uuid`), because it is randomness. `NODE_ENV` is also a parameter.
- Timestamps (`mergedAt`, `createdAt`, `updatedAt`) are not modelled. Neither is console logging.
- Auth.js is not modelled beyond the session's email. Nor is its `authorized` callback (always true), or the `auth(...)` wrapper around the middleware.
- Zod parsing and `flatten()` are not modelled. The schema's verdict is an input: parsed data, or a list of (field, messages) entries.
- BaseSchema.FieldOf: a filter key whose value is `undefined` is not represented; such a key is treated like a missing one. Filters are equality conditions only.
- BaseSchema.UpdateManyOwner: the `updatedAt` value the `timestamps` option writes is not stored in the rewritten records, because it comes from a clock. Its one visible effect, that every matched record counts in `modifiedCount`, is modelled in `ModifiedCount`.
- Merge.LogValidationMessage: the message lists only the failing paths, not the ODM's per-validator wording. `NewEntryValid` shows that no merge reaches this branch.
- BaseSchema.UpdateManyOwner: follows the code's stated intent that `updateMany` rewrites `ownerId` (src/models/base.ts lines 10-11, src/app/actions/merge-guest-data.ts line 88). Whether the ODM would strip a `$set` on the immutable path is library behaviour that is not visible here. If it does, no owner changes, yet `modifiedCount` still counts every matched record through the `updatedAt` write. `MergeTransfersOwnership`, `UserGainsTotal` and `MergeConservesRecords` hold under the stated intent only.
- NoteModel.CreateNote: validation errors are listed one per path, in schema path order, at most one per path. The ODM's own error ordering and messages, and casting of non-string values, are not modelled.
- NoteModel.TitleErrors: lengths are counted in Unicode characters, not JavaScript's UTF-16 code units. A title with characters outside the Basic Multilingual Plane counts differently against the 200 limit.
- Middleware.MatcherHandles: the pattern is modelled as a JavaScript regular expression matched against the whole pathname, case-sensitively. How the framework compiles matchers (locales, data routes, trailing slashes) is not modelled.
- MergeLog.FindEntry: `findOne` is modelled as returning the first matching entry in insertion order.
- Counts are unbounded integers. JavaScript numbers are exact only up to 2^53.
- Page components, layouts and environment validation are outside the modelled core.
