# Loan records: owner-scoped CRUD over the `loans` table

This project models the backend of a small personal-loan record keeper. The
model covers the `loans` table declared in `convex/schema.ts` and the six
handlers in `convex/loans.ts`: `list`, `create`, `update`, `updateStatus`,
`remove` and `get`. Every handler does three things in order:

1. It resolves the caller's identity and throws "Not authenticated" if there is none.
2. If it targets an existing record, it fetches that record and throws "Loan not
   found or unauthorized" when the record is absent or belongs to another user.
   Both cases give the same error.
3. It applies exactly one table operation: an index filter, an insert, a patch
   or a delete.

Layout:

- `wrappers.dfy`: `Option`.
- `schema.dfy` (module `Schema`): the eight-field `Loan` record and the
  four-value `Status` enumeration. `ParseStatus` models the union-of-literals
  validator on `status`. `Scan` models an index lookup followed by `collect()`
  for both declared indexes, `by_user` and `by_status`. Lemmas describe how a
  scan responds to changes in the table.
- `loans.dfy` (module `Loans`): the errors, the record built by `create`, the
  two patches, and the shared ownership check `Authorize`. The class
  `LoanStore` holds the table as a `map` plus the next fresh id, and each
  handler is a method that updates that state in place. `OwnerSession` is a
  client that runs one owner's create / list / activate / read / remove cycle.

Modelling choices:

- Amounts, interest rates, terms and timestamps are JavaScript numbers. The
  handlers only store and copy them, so they are the opaque type parameter `Num`.
- The caller's identity is an `Option<UserId>` parameter. The time `create`
  stores is a parameter `now`.
- Document ids are naturals taken from a counter (`nextId`). Every stored id is
  below the counter, so `create` always returns a fresh id and a deleted id is
  never reused.
- Within one user, the `by_user` index returns documents in creation order.
  Ids are issued in creation order, so `Scan` returns documents in increasing
  id order.
- `updateStatus` receives the status as the raw string the client sent. The
  argument validator runs before the handler body. It rejects any string other
  than the four literals with `ArgumentValidation`, before the authentication
  check.
- `term` is declared as `v.number()` (`convex/schema.ts:11`, `convex/loans.ts:23`).
  It is therefore any number, not an integer count of months, and the model
  follows the code.
- The validator error is raised by the framework, so the model has three error
  kinds, not the two that the handlers throw themselves.
- A status is a `Status` value and an owner is the `userId` field of the
  `Loan` datatype. So every loan has exactly one owner and one of exactly four
  statuses by construction.

## Model

| member | source | states |
|---|---|---|
| `Schema.ParseStatus` | convex/schema.ts:12-17 | accepts exactly the literals "pending", "active", "paid" and "defaulted", and the accepted literal is the one the parsed status is written as |
| `Schema.StatusRoundTrip` | convex/loans.ts:74-79 | the validator accepts each of the four statuses' literals and returns that status |
| `Schema.Scan` | convex/schema.ts:21-22 | an index lookup returns exactly the stored documents the key selects (owner for `by_user`, status for `by_status`), each as stored, with no duplicates, in insertion order |
| `Schema.ScanFrame` | convex/schema.ts:21 | a lookup depends only on the records its key selects: tables that agree on those records give the same result |
| `Schema.ScanInsert` | convex/schema.ts:21 | inserting under a fresh, larger id appends the new document to the lookups that select it and leaves all other lookups unchanged |
| `Schema.StatusScansPartition` | convex/schema.ts:22 | each stored loan is returned by the `by_status` lookup for its own status and by none of the other three |
| `Loans.NewLoan` | convex/loans.ts:30-39 | a created loan is owned by the caller, has status pending and start date equal to the call time, and carries the five client fields verbatim |
| `Loans.WithFields` | convex/loans.ts:61-67 | the `update` patch replaces the five editable fields and keeps owner, status and start date |
| `Loans.WithStatus` | convex/loans.ts:90 | the `updateStatus` patch sets the status to any of the four values and keeps every other field |
| `Loans.PatchesCommute` | convex/loans.ts:61-90 | the `update` and `updateStatus` patches touch disjoint fields, so applying them in either order gives the same record |
| `Loans.Authorize` | convex/loans.ts:56-59 | with no caller the check fails with NotAuthenticated; otherwise it succeeds exactly when the record exists and the caller owns it, returns the stored record, and fails with NotFoundOrUnauthorized for absent and foreign records alike |
| `Loans.DeletedIsNotFound` | convex/loans.ts:117-120 | after a record is deleted, the ownership check refuses it to every caller |
| `Loans.LoanStore.List` | convex/loans.ts:5-16 | fails with NotAuthenticated without a caller; otherwise returns every stored record of the caller and only those, each as stored, in id order |
| `Loans.LoanStore.Create` | convex/loans.ts:18-41 | without a caller it fails and changes nothing; otherwise it stores the created loan under a fresh id, returns that id, and leaves every other record unchanged. The new loan goes at the end of the caller's list and no other user's list changes |
| `Loans.LoanStore.Update` | convex/loans.ts:43-69 | succeeds exactly when the caller owns the record, and otherwise fails with the shared denial and changes nothing; on success it applies only the field patch to that record, and no other user's list changes |
| `Loans.LoanStore.UpdateStatus` | convex/loans.ts:71-92 | rejects any literal other than the four statuses and changes nothing; otherwise it follows the same ownership check and on success sets only the status of that record, and no other user's list changes |
| `Loans.LoanStore.Remove` | convex/loans.ts:94-109 | succeeds exactly when the caller owns the record, and otherwise fails with the shared denial and changes nothing; on success it deletes exactly that id, and no other user's list changes |
| `Loans.LoanStore.Get` | convex/loans.ts:111-123 | succeeds exactly when the caller owns the record, returns it unchanged, fails with NotAuthenticated or NotFoundOrUnauthorized otherwise, and changes nothing |
| `Loans.OwnerSession` | convex/loans.ts:18-123 | for a user with no loans: after create, list returns one pending loan; after activation, get returns it with status active, owner and fields intact; another user's get fails with NotFoundOrUnauthorized; after remove, the owner's get fails with NotFoundOrUnauthorized |

## Left out

- The React client (`src/App.tsx`, `src/components/*.tsx`): rendering, form state, toasts and confirmation dialogs. It only calls the handlers.
- Parsing form strings with `Number(...)` and formatting amounts with `toLocaleString`. These are floating-point conversions outside the backend.
- How `getAuthUserId` resolves a session. Its result is the `caller` parameter.
- `Date.now()`. The timestamp is the `now` parameter.
- The database engine behind `ctx.db`: how indexes are built, reactive subscriptions, transactions, and last-write-wins between concurrent sessions. Each handler is modelled as one atomic step on the table.
- Document ids are opaque strings in the original. Here they are naturals from a counter, which keeps freshness and creation order but not the string form.
- The system field `_creationTime` is not modelled. `Doc` carries only the id and the eight declared fields, and ids stand in for creation order.
- Shape-only argument validation (`v.string()`, `v.number()`, `v.id("loans")`). The parameter types express it. The status union is the exception and is modelled by `ParseStatus`.
- The `users` table and the other auth tables that the schema spreads in (`convex/schema.ts:26`). These are not part of this model; `UserId` stands for a reference into them.
