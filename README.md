# Barter: form validators and schema constraints in Dafny

Barter is a peer-to-peer item-trading marketplace. This project models the parts of it whose
behaviour is stated precisely in its code:

- **Client-side validation.** The model covers `isValidEmail`, `isStrongPassword` and `calculateAge`
  from `src/view/src/utils/validation.ts`. Both regular expressions are written as predicates over
  the string. `.` in them matches any character except a line terminator (LF, CR, U+2028, U+2029).
- **Form handlers.** The model covers the `submit` handlers of the sign-up, login and add-item cards.
  Each is a pure decision function returning `Error(message)` or `Submit(payload)` (module `Forms`).
  A small class per card delivers that decision. It holds the card's fields and the error it shows,
  and it logs the calls the card makes to `onSubmit`, `onCreate` and `onClose`.
- **Database constraints.** The consolidated migration `20251109213612_Common.cs` and the EF model
  in `Database.cs` declare CHECK constraints, unique indexes and foreign-key actions. The model
  is the class `Store.Database`, which holds the Users, Items, Images and Trades tables as maps.
  The predicate `Consistent` is its invariant. Its insert and delete methods refuse or cascade
  exactly as the foreign keys declare:
  - deleting a user removes their items, and then those items' images;
  - deleting a user is refused while a trade names them;
  - deleting an image is refused while a remaining user has it as profile picture. That foreign
    key has no `onDelete`, so it takes the default, NO ACTION.

Modules, one per source file or concern:

| module | file | models |
|---|---|---|
| `Wrappers` | wrappers.dfy | `Option`, `Outcome` |
| `JsText` | js_text.dfy | line terminators, white space and `String.prototype.trim` as the handlers use them |
| `Validation` | validation.dfy | validation.ts |
| `Forms` | forms.dfy | the `Error`/`Submit` outcome of a handler, and what the card shows and calls afterwards |
| `Signup` | signup_card.dfy | SignupCard.tsx `submit` |
| `Login` | login_card.dfy | LoginCard.tsx `submit` |
| `AddItem` | add_item_card.dfy | AddItemCard.tsx: `CATEGORY_LABELS`, `onFilesChangedWeb`, `submit` |
| `Schema` | schema.dfy | the rows of the four tables, and the two CHECK constraints |
| `Store` | store.dfy | the tables together: unique indexes, foreign keys, inserts and deletes |

`Images.ItemID` is declared NOT NULL (src/server/Migrations/20251109213612_Common.cs:20), so every image,
a profile picture included, belongs to an item.

`Schema.Credential` is a tagged form of the three nullable credential columns.
`Schema.CredentialRoundTrip` proves that it describes exactly the rows
CHECK_User_AuthenticationFields admits.

## Model

| member | source | states |
|---|---|---|
| `JsText.Trim` | src/view/src/components/AddItemCard.tsx:74-75 | `String.prototype.trim`, also behind `!name.trim()` at SignupCard.tsx:27; what it yields is stated by `JsText.TrimIsSlice`, `JsText.TrimEmptyIffBlank` and `JsText.TrimIdempotent` |
| `JsText.LeadingEnd` | src/view/src/components/AddItemCard.tsx:74-75 | where the leading white space of `trim` ends: every character skipped is white space or a line terminator, and the character found is neither |
| `JsText.TrailingStart` | src/view/src/components/AddItemCard.tsx:74-75 | where the trailing white space of `trim` starts: every character cut is white space or a line terminator, and the one before it is neither |
| `JsText.TrimIsSlice` | src/view/src/components/AddItemCard.tsx:74-75 | `trim` yields a contiguous slice with only blank text cut away on both sides, and the slice has no white space at either end |
| `JsText.TrimEmptyIffBlank` | src/view/src/components/SignupCard.tsx:27 | `!s.trim()` holds exactly when the string is empty or all white space and line terminators |
| `JsText.TrimIdempotent` | src/view/src/components/AddItemCard.tsx:74-75 | trimming a trimmed string changes nothing |
| `Validation.IsValidEmail` | src/view/src/utils/validation.ts:1 | `isValidEmail`: some substring matches `.+@.+\..+` with `.` excluding line terminators; its meaning is stated by `Validation.EmailIffMinimalRun`, `Validation.EmailNeedsAtThenDot` and `Validation.EmailUnanchored` |
| `Validation.EmailIffMinimalRun` | src/view/src/utils/validation.ts:1 | the unanchored `.+@.+\..+` matches iff the string contains a run: one non-line-terminator, `@`, at least one non-line-terminator, `.`, one non-line-terminator |
| `Validation.EmailNeedsAtThenDot` | src/view/src/utils/validation.ts:1 | an accepted address has an `@` that is not first, and a `.` at least two positions later that is not last; so a string with no `@`, or with no such `.`, is rejected |
| `Validation.EmailUnanchored` | src/view/src/utils/validation.ts:1 | if `s` is accepted, `p + s + q` is accepted for every `p` and `q` |
| `Validation.EmailExamples` | src/view/src/utils/validation.ts:1 | `a@b.c` and `first.last@example.org` are accepted; `a@.c`, `plainaddress` and `a@b` + LF + `.c` are rejected |
| `Validation.IsStrongPassword` | src/view/src/utils/validation.ts:2 | `isStrongPassword`: the anchored regex with its two lookaheads; its meaning is stated by `Validation.StrongPasswordIff` |
| `Validation.StrongPasswordIff` | src/view/src/utils/validation.ts:2 | the regex holds iff: at least 6 characters, no line terminator, a digit, and a character outside `[A-Za-z0-9]` |
| `Validation.AlphanumericPasswordNeverStrong` | src/view/src/utils/validation.ts:2 | a password of ASCII letters and digits only is never strong, whatever its length |
| `Validation.CalculateAge` | src/view/src/utils/validation.ts:4-12 | the NaN result (None) occurs exactly when the birth date does not parse |
| `Validation.AgeIsCompletedYears` | src/view/src/utils/validation.ts:8-11 | the age is the number of completed years: that anniversary is on or before today and the next one is after it |
| `Validation.AgeAtLeastIff` | src/view/src/utils/validation.ts:8-11 | age is at least `n` iff the `n`-th anniversary of the birth date is on or before today |
| `Validation.AgeNonNegative` | src/view/src/utils/validation.ts:8-10 | a birth date on or before today gives an age of at least 0 |
| `Validation.AgeAroundBirthday` | src/view/src/utils/validation.ts:8-10 | on the birthday the age is the year difference; on the day before it, in the same month, it is one less |
| `Validation.AgeMonotone` | src/view/src/utils/validation.ts:8-11 | as today moves forward, the age never decreases |
| `Signup.FirstFailingIsFirst` | src/view/src/components/SignupCard.tsx:27-37 | the reference first-failure search finds nothing iff every check passes; otherwise it finds a failing check whose predecessors all pass |
| `Signup.SubmitSignup` | src/view/src/components/SignupCard.tsx:40 | a submitted payload carries name, email, password and birthdate unchanged; the name is not trimmed |
| `Signup.SignupReportsFirstFailure` | src/view/src/components/SignupCard.tsx:27-40 | the handler reports the message of the first failing check, in the order name, email, strength, confirm, empty birthdate, NaN age, age under 18; it submits iff none fails |
| `Signup.SignupSubmitsIffAllPass` | src/view/src/components/SignupCard.tsx:27-40 | `onSubmit` is reached iff every one of the seven checks passes |
| `Signup.BlankNameReportedFirst` | src/view/src/components/SignupCard.tsx:27 | an empty or whitespace-only name is reported before any other check |
| `Signup.WeakPasswordBeforeMismatch` | src/view/src/components/SignupCard.tsx:29-32 | a password that is both weak and mismatched gets the strength message, not the mismatch message |
| `Signup.AdultThreshold` | src/view/src/components/SignupCard.tsx:35-37 | once the other checks pass, the form is submitted iff the 18th birthday is on or before today (age 18 passes, 17 fails); otherwise it gets the age message |
| `Signup.SignupCard.constructor` | src/view/src/components/SignupCard.tsx:15-20 | all fields start empty, with no error and no `onSubmit` call |
| `Signup.SignupCard.Submit` | src/view/src/components/SignupCard.tsx:24-41 | the error is cleared and then set to the first failure, if any; `onSubmit` is called once with the payload iff all checks pass, and never otherwise |
| `Login.SubmitLogin` | src/view/src/components/LoginCard.tsx:22-27 | an invalid email gets "Enter a valid email." whatever the password; a valid email with fewer than 6 characters of password gets the length message; otherwise `(email, password)` is submitted unchanged |
| `Login.SignupCredentialsPassLogin` | src/view/src/components/LoginCard.tsx:24-26 | whatever the sign-up form submits passes the login checks with the same email and password |
| `Login.LoginChecksLengthOnly` | src/view/src/components/LoginCard.tsx:25-26 | login checks length, not strength: `a@b.c` with `abcdef` is submitted, although that password is not strong |
| `Login.LoginCard.constructor` | src/view/src/components/LoginCard.tsx:16-18 | the fields start empty, with no error and no `onSubmit` call |
| `Login.LoginCard.Submit` | src/view/src/components/LoginCard.tsx:22-27 | the error is reset and then set to the failure, if any; `onSubmit` is called exactly once iff both checks pass |
| `AddItem.FindLabelFirstMatch` | src/view/src/components/AddItemCard.tsx:43-44 | `find` returns nothing iff no row has the label; otherwise it returns the enum of the first row that has it |
| `AddItem.CategoryLabelsDistinct` | src/view/src/components/AddItemCard.tsx:20-29 | no two rows of the table share a label or an enum value, so the mapping over the table is injective |
| `AddItem.CategoryOf` | src/view/src/components/AddItemCard.tsx:43-44 | the `find` over `CATEGORY_LABELS` with the `'Other'` fallback; its results are stated by `AddItem.CategoryOfTable`, `AddItem.CategoryOfUnknown` and `AddItem.CategoryLabelsCover` |
| `AddItem.CategoryOfTable` | src/view/src/components/AddItemCard.tsx:20-44 | each of the eight labels maps to its paired enum value |
| `AddItem.CategoryOfUnknown` | src/view/src/components/AddItemCard.tsx:44 | a label that is not in the table maps to `Other` |
| `AddItem.CategoryLabelsCover` | src/view/src/components/AddItemCard.tsx:14-29 | every member of the category union is the mapped value of some label, so the table's range is the whole union |
| `AddItem.SubmitItem` | src/view/src/components/AddItemCard.tsx:67-78 | the `submit` chain up to the `onCreate` call: the two checks with their messages, then the payload; what it yields is stated by `AddItem.SubmitItemChecks` and `AddItem.ItemPayloadNormalised` |
| `AddItem.SubmitItemChecks` | src/view/src/components/AddItemCard.tsx:69-70 | a blank name gets "Please enter a name."; a non-blank name with no files gets "Please add at least one image."; `onCreate` is called iff neither applies |
| `AddItem.ItemPayloadNormalised` | src/view/src/components/AddItemCard.tsx:72-78 | the payload has the owner, the name as `name.trim()` (non-empty), the trimmed description or none iff the description is blank, the mapped category, and the same files in the same order |
| `AddItem.ResubmitSamePayload` | src/view/src/components/AddItemCard.tsx:72-78 | normalisation is idempotent: submitting a payload's own fields again yields the same payload |
| `AddItem.CopyFileList` | src/view/src/components/AddItemCard.tsx:62-63 | the push loop copies the picked list, same files, same order |
| `AddItem.AddItemCard.constructor` | src/view/src/components/AddItemCard.tsx:34-38 | a new card has an empty name and description, label `Other`, no files, no error |
| `AddItem.AddItemCard.OnFilesChangedWeb` | src/view/src/components/AddItemCard.tsx:59-65 | a null list leaves `files` unchanged; otherwise `files` becomes the picked list in order |
| `AddItem.AddItemCard.Submit` | src/view/src/components/AddItemCard.tsx:67-85 | a validation failure shows its message and changes nothing else; otherwise `onCreate` is called once; if it resolves, the form resets (empty name and description, `Other`, no files) and `onClose` is called; if it throws, its message is shown and the form is kept |
| `Schema.CredentialOf` | src/server/Migrations/20251109213612_Common.cs:49 | a row has a credential iff it satisfies CHECK_User_AuthenticationFields |
| `Schema.CredentialRoundTrip` | src/server/Migrations/20251109213612_Common.cs:49 | every credential written into a row passes the check and reads back unchanged; every row that passes is the one its own credential writes; so exactly one of "hash and salt, no provider" and "provider, no hash or salt" holds |
| `Store.UserCascadeKeepsConsistency` | src/server/Migrations/20251109213612_Common.cs:71-76 | removing a deletable user, their items and those items' images keeps every constraint |
| `Store.ItemCascadeKeepsConsistency` | src/server/Migrations/20251109213612_Common.cs:147-153 | removing a deletable item and its images keeps every constraint |
| `Store.OwnerRemovalNeedsCascade` | src/server/Migrations/20251109213612_Common.cs:71-76 | removing a user who owns items, without the cascade, breaks FK_Items_Users_OwnerID |
| `Store.ItemRemovalNeedsCascade` | src/server/Migrations/20251109213612_Common.cs:147-153 | removing items whose images stay breaks FK_Images_Items_ItemID |
| `Store.TradePartyRemovalBreaksTrade` | src/server/Migrations/20251109213612_Common.cs:96-107 | removing a user named by a trade breaks a trade foreign key, whatever else is removed |
| `Store.ItemsPartitionedByOwner` | src/server/Database.cs:57-60 | in a consistent store each item is in the `Items` collection of its owner, who exists, and of no other user |
| `Store.Database.constructor` | src/server/Migrations/20251109213612_Common.cs:12-154 | the schema starts with four empty tables, which satisfy every constraint |
| `Store.Database.InsertUser` | src/server/Migrations/20251109213612_Common.cs:30-55 | the insert succeeds iff: the id is new, the authentication CHECK holds, the email is unused and any profile picture exists; a refusal names a violated constraint and changes nothing; the invariant is kept |
| `Store.Database.InsertItem` | src/server/Migrations/20251109213612_Common.cs:57-77 | the insert succeeds iff the id is new and the owner exists; a refusal changes nothing |
| `Store.Database.InsertImage` | src/server/Migrations/20251109213612_Common.cs:115-119 | the insert succeeds iff the id is new, the key is unused and the item exists; a refusal changes nothing |
| `Store.Database.InsertTrade` | src/server/Migrations/20251109213612_Common.cs:79-108 | a trade whose initiator equals its receiver is refused and leaves the store unchanged; the insert succeeds iff the users differ, the id is new and both users exist |
| `Store.Database.DeleteUser` | src/server/Migrations/20251109213612_Common.cs:71-107 | refused, changing nothing, when the user is missing, named by a trade, or would take a remaining user's profile picture with them; otherwise it removes the user, exactly their items and exactly those items' images, and leaves trades alone |
| `Store.Database.DeleteItem` | src/server/Migrations/20251109213612_Common.cs:147-153 | removes the item and exactly its images; users, other items and trades are unchanged; refused, changing nothing, when an image is a profile picture |

## Left out

- Trade negotiation: proposing trades and updating their status are not part of this model. No implementation of them is in the code: `src/server/Program.cs` registers only stub routes. `Store.Database.InsertTrade` stores the offered and sought item ids as given, because they are `jsonb` columns, not foreign keys.
- `Library.cs`, `Seaweed.cs` and `Program.cs` are not part of this model. They hold JWT signing and checking, the Apple key fetch, S3 calls, reflection, console output and ASP.NET wiring.
- The earlier migrations are not part of this model; they declare subsets of the consolidated one. `Down` is not modelled either.
- Date parsing and the clock: `new Date(dateString)` and `new Date()` become the parameters `birth` and `today` of `Validation.CalculateAge`. Time zones are not modelled.
- String lengths: JavaScript counts UTF-16 code units and Dafny counts characters. So `password.length` and `.{6,}` disagree with the model on text outside the Basic Multilingual Plane.
- Generated ids: `Guid.NewGuid()` is randomness, so callers pass ids. A reused id is refused with the primary-key violation.
- Columns: timestamps (`CreatedAt`, `UpdatedAt`, `DateTime.UtcNow` defaults) and the floating-point `Rating` are not modelled. Nothing constrains them.
- Indexes: the non-unique indexes serve only performance and are not modelled.
- Store.Database.InsertUser: when a row breaks several constraints, the contract says only that the reported one is violated. It does not fix which one PostgreSQL reports first. The same holds for `InsertItem`, `InsertImage`, `InsertTrade`, `DeleteUser` and `DeleteItem`.
- UPDATE statements, and deleting images or trades directly, are not part of this model. No code in the program issues them: the routes in `src/server/Program.cs` are stubs.
- EF change tracking: EF deletes loaded dependents itself. The model assumes this has the same effect as the database's cascade.
- Card rendering, navigation callbacks (`onBack`, `onForgot`, `onClose` beyond a counter), image previews, and the native and web file pickers are not modelled. Only the `submit` logic and `onFilesChangedWeb` are.
- AddItem.AddItemCard.Submit: `onCreate` is awaited, but the model treats it as one step with a given outcome. Edits made while the promise is pending are not modelled.
