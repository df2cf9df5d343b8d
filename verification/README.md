# Storage page ledger and role gate

A Dafny model of the logic inside the storage ("cloakroom") page component
`src/pages/Index.tsx`. Staff log in with a fixed password per role and register
deposited items. Each department has a capacity ceiling. Staff hand items back,
which marks them picked up. A client logs in with a phone number and sees the
items deposited under that phone.

Modules:

- `Wrappers`: `Option`, standing in for a nullable value such as the current role.
- `JsRuntime`: the two JavaScript built-ins the logic depends on.
  `Filter` is `Array.prototype.filter`. It is proved to keep exactly the matching
  elements and their order, and to count the matching positions.
  `Trim` is `String.prototype.trim` over the ECMAScript whitespace and
  line-terminator code points.
- `Ledger`: item records, the new-item form, the capacity table, the stored-item
  count, the client view, building a new item and the pickup update. It also holds
  the lemmas about capacity, pickup and the client view.
- `Roles`: the roles, the staff password table, the acceptance rule of each login
  branch, and lemmas that say who gets in.
- `IndexPage`: the `Index` component as a class. Its state variables
  (`currentRole`, `username`, `password`, `items`, `showItemForm`, `newItem`) are
  fields. Each handler is a method that updates them in one atomic step.

## Model

| member | source | states |
|---|---|---|
| `JsRuntime.Filter` | src/pages/Index.tsx:107 | the result keeps exactly the elements of the input that satisfy the predicate, and is no longer than the input |
| `JsRuntime.FilterConcat` | src/pages/Index.tsx:259 | filtering distributes over concatenation, so the filter keeps insertion order |
| `JsRuntime.FilterLengthIsMatchCount` | src/pages/Index.tsx:107 | the filtered list's length is the number of positions whose element satisfies the predicate |
| `JsRuntime.TrimStart` | src/pages/Index.tsx:58 | the result is a suffix of the input, only whitespace was dropped, and it does not start with whitespace |
| `JsRuntime.TrimEnd` | src/pages/Index.tsx:58 | the result is a prefix of the input, only whitespace was dropped, and it does not end with whitespace |
| `JsRuntime.Trim` | src/pages/Index.tsx:58 | `s.trim()` is the slice of `s` left after dropping leading and trailing whitespace; everything outside it is whitespace, and a non-empty result starts and ends with a non-whitespace character |
| `JsRuntime.TrimEmptyIffAllWhitespace` | src/pages/Index.tsx:58 | `trim()` gives the empty string exactly when every character is whitespace |
| `Ledger.DepartmentLimit` | src/pages/Index.tsx:29-34 | only `other` is unbounded; every other department's ceiling is 100 |
| `Ledger.HasRoom` | src/pages/Index.tsx:114 | the negated `count >= limit` test holds exactly when one more stored item would still fit the department's limit |
| `Ledger.NewItem` | src/pages/Index.tsx:119-125 | the new item carries the form's fields, the given id and QR code, and status stored; its creator is the user name, or `admin` when the user name is empty |
| `Ledger.PickUp` | src/pages/Index.tsx:146-150 | same length and order; only the status can change; items with the id become picked up and all others keep their status |
| `Ledger.StoredCountIsNumberOfStoredItems` | src/pages/Index.tsx:106-108 | the department count equals the number of positions holding an item of that department with status stored |
| `Ledger.StoredCountAppend` | src/pages/Index.tsx:106-108 | appending an item raises its department's count by one when it is stored; every other count is unchanged |
| `Ledger.PickedUpNotCounted` | src/pages/Index.tsx:107 | a picked-up item adds nothing to any department's count |
| `Ledger.FullDepartmentHasNoRoom` | src/pages/Index.tsx:106-114 | when at least the ceiling's number of positions hold stored items of a capped department, that department has no room |
| `Ledger.OtherAlwaysHasRoom` | src/pages/Index.tsx:33 | the `other` department is never refused |
| `Ledger.AppendKeepsLimits` | src/pages/Index.tsx:110-127 | appending to a department with room keeps every capped department at or below its ceiling |
| `Ledger.PickUpNeverRaisesCount` | src/pages/Index.tsx:145-150 | pickup never raises any department's stored count |
| `Ledger.PickUpKeepsLimits` | src/pages/Index.tsx:145-150 | pickup keeps the capacity invariant |
| `Ledger.PickUpUnknownIdIsNoOp` | src/pages/Index.tsx:146-150 | when no item has the id, the list is unchanged |
| `Ledger.PickUpIdempotent` | src/pages/Index.tsx:146-150 | picking up the same id twice gives the same list as once |
| `Ledger.PickUpConcat` | src/pages/Index.tsx:147-149 | pickup works item by item, so it distributes over concatenation |
| `Ledger.PickUpPrefix` | src/pages/Index.tsx:147-149 | a prefix of the updated list is the update of the prefix |
| `Ledger.PickUpCommutesWithClientView` | src/pages/Index.tsx:145-150 | a client's view after a pickup is their earlier view with the same items marked picked up |
| `Ledger.ClientViewMembers` | src/pages/Index.tsx:259 | an item is in a client's view exactly when it is in the list and its phone is the client's |
| `Ledger.ClientViewOrder` | src/pages/Index.tsx:259 | the client view of a concatenation is the concatenation of the views, so insertion order is kept |
| `Ledger.ClientViewAppend` | src/pages/Index.tsx:259 | a new item joins a client's view, at the end, exactly when its phone matches; other clients' views are unaffected |
| `Roles.StaffPassword` | src/pages/Index.tsx:65-86 | every staff password is a non-empty string of digits |
| `Roles.Accepts` | src/pages/Index.tsx:57-92 | a client is accepted exactly when the user name has a non-whitespace character and the password is all whitespace; a staff role is accepted, by definition, exactly when the password equals its constant in `StaffPassword`, whatever the user name, so it is never accepted with a blank password. `HandleLogin`'s chain of literal passwords is proved to agree with this table |
| `Roles.StaffPasswordsDistinct` | src/pages/Index.tsx:64-92 | no password opens two different staff roles |
| `Roles.ClientAndStaffExclusive` | src/pages/Index.tsx:56-92 | credentials a staff role accepts are refused for the client role |
| `IndexPage.Index.constructor` | src/pages/Index.tsx:37-54 | the page starts logged out, with no items and an empty, hidden form; the capacity invariant holds |
| `IndexPage.Index.EnterUsername` | src/pages/Index.tsx:182-202 | the phone input of the client tab (:182) and the name input of the staff tab (:202) set `username` and nothing else |
| `IndexPage.Index.EnterPassword` | src/pages/Index.tsx:212 | the password input sets `password` and nothing else |
| `IndexPage.Index.EditForm` | src/pages/Index.tsx:415-533 | the form inputs set `newItem` and nothing else |
| `IndexPage.Index.SetShowItemForm` | src/pages/Index.tsx:405-545 | the open button (:405) and the cancel button (:545) set `showItemForm` and nothing else |
| `IndexPage.Index.HandleLogin` | src/pages/Index.tsx:56-93 | the role is set exactly when the credentials fit the requested role; on rejection or a null role it is unchanged; nothing else changes |
| `IndexPage.Index.HandleLogout` | src/pages/Index.tsx:95-100 | the role becomes null, and the user name and password are cleared |
| `IndexPage.Index.GetDepartmentCount` | src/pages/Index.tsx:106-108 | the count is the number of stored items of the department |
| `IndexPage.Index.ClientItems` | src/pages/Index.tsx:259 | the view holds exactly the items whose phone equals the user name |
| `IndexPage.Index.HandleAddItem` | src/pages/Index.tsx:110-143 | a full department is refused with nothing changed. Otherwise the item built from the form is appended, only its department's count rises, by one, the form is reset and hidden, and the capacity invariant is kept |
| `IndexPage.Index.HandlePickupItem` | src/pages/Index.tsx:145-152 | the list becomes its pickup update, no department's count rises, and the capacity invariant is kept |

## Left out

- Rendering, the UI components, icons and localized strings are presentation only.
- The `toast` notifications are user-visible side effects. `HandleLogin` returns whether the login was accepted, and `HandleAddItem` returns the new item or the full department and its ceiling. `HandlePickupItem` always reports success in the code, so it returns nothing.
- `printForm` and `window.print()` are a host side effect.
- `Date.now()` and `Math.random()` make the item id and `generateQRCode`'s code. They are parameters of `HandleAddItem`. Nothing in the code makes them unique, and the model does not claim they are.
- `Infinity` is the `other` limit and is modelled as `Limit.Unlimited`. The amounts come from `Number(...)` and are modelled as integers, so floating point is not modelled.
- React batches `setState` calls asynchronously. Each handler is modelled as one atomic update.
- The role-based visibility of the staff panels is left out. The code does not check the role inside `handleAddItem` or `handlePickupItem`; only the rendering hides their buttons. So the model's methods do not check the role either.
- No archive operation, archived status, archival timestamp or persisted storage exists in this code, so none is modelled. A pickup of an unknown id leaves the list unchanged but still shows the success notification; it is not a NotFound error. A second pickup of the same id also leaves the list unchanged (`Ledger.PickUpIdempotent`).
- `IndexPage.Index.EditForm` replaces the whole form. Each input in the page changes one field of it, which is a special case.
- The client view compares `username` as typed, without trimming, against the phone. The login check trims it. The model keeps both as written.
- Dafny's `char` is a Unicode scalar value, while JavaScript strings are sequences of UTF-16 code units. Equality and `trim` agree on well-formed strings, but strings holding lone surrogates cannot be represented.
- `IndexPage.Index.HandleLogin`: the page offers the login buttons only while logged out (:159). The method can also be called from a logged-in state. Its contract holds there too, and it covers every call the page can make.
