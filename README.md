# NEXA GURU credit ledger — a Dafny model

NEXA GURU is a single-page React application that sells AI image generation
against a per-account credit balance. All account state lives in the
browser: a JSON map from email to account record (`royal_users`) and the
email of the logged-in account (`royal_current_user`). This project models
the client-side account and credit ledger:

- the root component `App` (App.tsx). It holds the session user, the
  displayed balance and the modal flags. Its handlers are session restore on
  mount, `updateUserInStorage`, login, logout, consuming a credit, adding
  credits, redeeming a gift code, and opening or closing the subscription
  upsell. It also derives the `canGenerate` prop;
- the login/signup screen's `handleSubmit` (components/AuthScreen.tsx);
- the image generator's `handleGenerate` (components/ImageGenerator.tsx). It
  checks the prompt, gates on affordability, debits before calling the
  provider, and shows the result or the error;
- the gift-code dialog (components/GiftCodeModal.tsx). It upper-cases the
  input, sends the trimmed code to the redeem handler, and resets itself
  after a success;
- the demo top-up panel (components/AdminPanel.tsx). It runs `parseInt` on
  the typed amount, accepts only amounts above zero, and closes after adding;
- the records and constants of types.ts.

Stateful components are Dafny classes whose methods update their fields.
The browser's storage is the class `Storage.LocalStorage`. The arithmetic
each handler performs is a set of pure functions in `Ledger`. The JavaScript
built-ins the code relies on are written out in `Text` and `Numbers`:
`trim`, `toLowerCase`/`toUpperCase`, `parseInt` and number-to-string. The
root component keeps three invariants, and every handler preserves them:

- `Valid`: the displayed balance is the session user's balance, or 0 when
  nobody is logged in.
- `Consistent`: the stored map is keyed by email. A logged-in user is the
  record stored under its email, and that email is the session key.
- `Solvent`: no stored or displayed balance is negative.

The modules follow the source files: `Types` (types.ts), `Storage`,
`Ledger` and `AppRoot` (App.tsx), `Auth`, `Generator`, `GiftCode`, `Admin`
(the four components), and `Text`/`Numbers` (the built-ins).

The button-disabled conditions are predicates next to their classes:
`Generator.ImageGenerator.GenerateDisabled`,
`GiftCode.GiftCodeModal.SubmitDisabled` and `Auth.AuthScreen.SubmitDisabled`.
The last is the screen's `loading` flag itself.

Four behaviours of the code that the model keeps:

- The debit clamps at zero, because `Math.max(0, …)` is applied.
- A failed generation keeps its debit. No refund is made.
- `handleGenerate` has no reject-while-busy guard of its own. Only the
  button's `disabled` state prevents a second click while loading.
- `handleAddCredits` adds any amount it is given. No `InvalidAmount` check
  exists in the root handler; the admin panel alone refuses amounts that are
  not positive.

## Model

| member | source | states |
|---|---|---|
| Types.PlansCatalogue | types.ts:26-41 | the catalogue has two plans, starter (99, 49 credits) and pro (199, 120 credits); ids are distinct and prices and credits positive |
| Types.CostsPositive | types.ts:22-24 | the image cost is positive and below the video cost, and a new account's initial credits cover at least one image |
| Text.TrimStart | components/ImageGenerator.tsx:23 | the result is the longest suffix of the input that does not start with JavaScript whitespace; everything removed is whitespace |
| Text.TrimEnd | components/GiftCodeModal.tsx:19-20 | the result is the longest prefix of the input that does not end with whitespace; everything removed is whitespace |
| Text.BlankIffAllWhitespace | components/ImageGenerator.tsx:23 | a string trims to empty exactly when it consists of whitespace only, in both directions |
| Text.Trim | components/GiftCodeModal.tsx:20 | `trim` returns a slice of the input with nothing but whitespace before and after it, and the result is empty or starts and ends with a non-whitespace character |
| Text.TrimPadded | components/AuthScreen.tsx:34 | surrounding whitespace never changes what `trim` returns |
| Text.TrimStartPadded | components/AuthScreen.tsx:34 | leading whitespace never changes the result of trimming the start |
| Text.TrimStartAppend | components/AuthScreen.tsx:34 | after a non-blank string, appended text survives trimming the start unchanged |
| Text.TrimEndPadded | components/AuthScreen.tsx:34 | trailing whitespace never changes the result of trimming the end |
| Text.TrimStartAllWhitespace | components/GiftCodeModal.tsx:19 | trimming the start of an all-whitespace string leaves nothing |
| Text.ToUpper | components/GiftCodeModal.tsx:59 | upper-casing keeps the length, turns each lower-case letter into its upper-case letter (code point minus 32), and keeps every other character in place |
| Text.ToLower | components/AuthScreen.tsx:34 | lower-casing keeps the length, turns each upper-case letter into its lower-case letter (code point plus 32), and keeps every other character in place |
| Text.UpperFixed | App.tsx:93 | upper-casing text without lower-case letters returns it unchanged |
| Text.TrimKeepsNoLowercase | components/GiftCodeModal.tsx:19-20 | trimming upper-cased input leaves it free of lower-case letters |
| Text.TrimKeepsNoUppercase | components/AuthScreen.tsx:34 | trimming lower-cased input leaves it free of upper-case letters |
| Text.ToLowerAppend | components/AuthScreen.tsx:34 | lower-casing distributes over concatenation |
| Text.ToLowerWhitespace | components/AuthScreen.tsx:34 | lower-casing leaves whitespace unchanged |
| Numbers.DigitPrefixLength | components/AdminPanel.tsx:25 | `parseInt` reads the longest prefix of digits of the radix, stopping at the first non-digit |
| Numbers.NatToString | App.tsx:104 | a number renders as a non-empty string of decimal digits with no leading zero except for 0 itself |
| Numbers.NatToStringValue | App.tsx:104 | the rendered digits read back in decimal give the number rendered |
| Numbers.DigitPrefixOfDigits | components/AdminPanel.tsx:25 | on a string of digits, the digit prefix is the whole string |
| Numbers.ParseUnsignedDecimal | components/AdminPanel.tsx:25 | an unsigned decimal numeral parses as its value |
| Numbers.ParseInt | components/AdminPanel.tsx:25-26 | `parseInt` of empty or all-whitespace text is NaN |
| Numbers.ParseIntRoundTrip | components/AdminPanel.tsx:25 | `parseInt` of the decimal rendering of n returns n |
| Numbers.ParseIntPadded | components/AdminPanel.tsx:25 | leading whitespace does not change what `parseInt` returns |
| Numbers.ParseIntUnpadded | components/AdminPanel.tsx:25 | on text that does not start with whitespace, `parseInt` is the sign-and-digits parse |
| Numbers.ParseSignedDecimal | components/AdminPanel.tsx:25 | a `+` or `-` sign followed by a decimal numeral parses as the signed value |
| Numbers.ParseIntSigned | components/AdminPanel.tsx:25 | with any leading whitespace, `parseInt` of a sign and a numeral gives the signed value |
| Numbers.ParseUnsignedNoDigit | components/AdminPanel.tsx:25-26 | text that does not start with a digit is NaN |
| Numbers.ParseIntNoDigits | components/AdminPanel.tsx:25-26 | text that starts with neither whitespace, a sign nor a digit is NaN |
| Ledger.Debit | App.tsx:64-68 | consuming a credit keeps email, password and gift flag; lowers an affordable balance by the image cost; clamps an unaffordable one at 0 |
| Ledger.Credit | App.tsx:70-74 | adding credits changes only the balance, by exactly the amount |
| Ledger.DebitUndoesCredit | App.tsx:64-74 | on a non-negative balance, adding one image's cost and consuming a credit restores the record |
| Ledger.DebitLowers | App.tsx:64-68 | consuming never raises a non-negative balance and lowers a positive one by exactly 1 |
| Ledger.Persist | App.tsx:40-50 | when the map is stored, the record is written under its email, no other key appears and every other entry is unchanged; when no map is stored, nothing is written |
| Ledger.GiftBonus | App.tsx:96-99 | every known code is upper-case and carries a positive bonus |
| Ledger.GiftTable | App.tsx:96-99 | exactly NEXA0909, GURU1212 and SN1010 are known; they give 10, 30 and 20 credits |
| Ledger.Redeem | App.tsx:86-102 | with no user the refusal is "Please login first."; after a redemption it is "You have already used a gift code."; an unknown code gives "Invalid or expired code."; otherwise the record gains the code's bonus and the gift flag |
| Ledger.ResultOf | App.tsx:86-104 | the handler reports success exactly when the code was redeemed; a refusal returns its reason as the message, a redemption "Success! N credits added." with N the bonus |
| Ledger.RedeemIgnoresCase | App.tsx:93 | a code and its upper-case form are decided alike |
| Ledger.FlagIsOneWay | App.tsx:64-105 | once the gift flag is set, no sequence of consumes, top-ups or redemptions clears it or changes email or password |
| Ledger.RedeemAtMostOnce | App.tsx:89-91 | after one successful redemption, every later redemption is refused as already used, whatever happened in between |
| Ledger.BalanceStaysNonNegative | App.tsx:64-105 | without negative top-ups, no sequence of handlers makes a non-negative balance negative |
| Ledger.UnknownCodeChangesNothing | App.tsx:99 | an unknown code leaves the record as it was, and is refused as invalid when the gift flag is clear |
| Storage.SessionRecord | App.tsx:25-31 | a user is restored exactly when the session key is present and non-empty, and the stored map holds a record under it; that record is the one restored |
| Storage.RestoredOwnsKey | App.tsx:28-33 | in a map keyed by email, the restored account's email is the session key |
| AppRoot.App.CanGenerate | App.tsx:216 | when the displayed balance is the user's, generation is allowed exactly for a logged-in user whose balance covers one image |
| AppRoot.App.constructor | App.tsx:14-21 | no user, balance 0, not initialised, every modal closed, no upsell message |
| AppRoot.App.RestoreSession | App.tsx:24-37 | the session record becomes the user and its balance the display; without one, only the initialisation flag changes; the invariants are kept |
| AppRoot.Mount | App.tsx:13-37 | after mounting, the user is exactly the session record, and the invariants hold when the stored map satisfies them |
| AppRoot.App.UpdateUserInStorage | App.tsx:40-50 | the record becomes user and display and is persisted; the session key and the modal flags do not change |
| AppRoot.App.Login | App.tsx:52-56 | the record becomes user and display, and its email becomes the session key; the stored map is untouched |
| AppRoot.App.Logout | App.tsx:58-62 | no user, balance 0 and no session key; the stored map is untouched and the invariants are kept |
| AppRoot.App.ConsumeCredit | App.tsx:64-68 | without a user nothing changes; otherwise the user becomes the debited record, persisted, and the invariants are kept |
| AppRoot.App.AddCredits | App.tsx:70-74 | without a user nothing changes; otherwise the user becomes the credited record, persisted; solvency is kept for non-negative amounts |
| AppRoot.App.RedeemGift | App.tsx:86-105 | the result is the one the decision reports; a refusal changes nothing; a redemption persists the updated record |
| AppRoot.App.OpenSubscription | App.tsx:76-79 | the upsell opens; a missing or empty message is stored as no message |
| AppRoot.App.CloseSubscription | App.tsx:81-84 | the upsell closes and its message is cleared |
| AppRoot.App.SetGiftOpen | App.tsx:143 | the gift dialog flag is set; nothing else changes |
| Auth.EmptyFieldRefused | components/AuthScreen.tsx:21-24 | an empty email or password is refused with "Please fill in all fields." before the store is read |
| Auth.NormalizeEmail | components/AuthScreen.tsx:34 | the account key is the lower-cased email with only its surrounding whitespace removed: a slice of it with whitespace alone on either side, no upper-case letter and no whitespace at either end |
| Auth.Decide | components/AuthScreen.tsx:36-62 | an authenticated user carries the submitted password and is the record stored under the key in the resulting store; login keeps the store and refuses with "Invalid email or password."; signup creates the key's record with 20 credits and no gift used, and refuses with "User already exists. Please login." |
| Auth.Authenticate | components/AuthScreen.tsx:17-62 | authentication needs both fields and the matching password; every refusal carries one of the screen's three messages |
| Auth.LoginIff | components/AuthScreen.tsx:36-44 | login succeeds exactly when a record is stored under the normalised email with that password; it returns that record and leaves the store as it was; otherwise "Invalid email or password." |
| Auth.SignupIff | components/AuthScreen.tsx:45-62 | signup succeeds exactly when nothing is stored under the normalised email; it adds one record with 20 credits and no gift used, and keeps every other record; otherwise "User already exists. Please login." |
| Auth.AuthenticateKeepsKeys | components/AuthScreen.tsx:36-62 | both modes keep the map keyed by email, and the authenticated record is stored under its email |
| Auth.AuthenticateKeepsSolvent | components/AuthScreen.tsx:53-61 | signup and login keep every stored balance non-negative |
| Auth.NormalizeVariant | components/AuthScreen.tsx:34 | emails that differ only in letter case and surrounding whitespace share one key |
| Auth.SignupThenLogin | components/AuthScreen.tsx:34-62 | after a signup, logging in with the same password and any case or whitespace variant of the email returns the new account |
| Auth.AuthScreen.constructor | components/AuthScreen.tsx:11-15 | login mode, empty fields, no error, not loading |
| Auth.AuthScreen.SelectMode | components/AuthScreen.tsx:95-103 | the mode is set and the error cleared |
| Auth.AuthScreen.EditEmail | components/AuthScreen.tsx:121 | only the email field changes |
| Auth.AuthScreen.EditPassword | components/AuthScreen.tsx:135 | only the password field changes |
| Auth.AuthScreen.Submit | components/AuthScreen.tsx:17-69 | an empty field sets its error and leaves the application alone; otherwise the decision is applied, a refusal shows its message and stops loading, and a success writes the store, logs in and keeps the invariants |
| Auth.AuthScreen.Complete | components/AuthScreen.tsx:29-67 | the delayed callback applies the login or signup decision on the store as read; a refusal shows its message and stops loading; the invariants are kept |
| Auth.AuthScreen.CompleteLogin | components/AuthScreen.tsx:36-44 | a stored record with the matching password is logged in; otherwise "Invalid email or password." is shown and loading stops |
| Auth.AuthScreen.CompleteSignup | components/AuthScreen.tsx:45-62 | an existing key shows "User already exists. Please login."; otherwise the new record is written into the store and logged in |
| Generator.FailureMessage | components/ImageGenerator.tsx:40 | the error shown is the provider's message when present and non-empty, else the fixed retry message; never empty |
| Generator.ImageGenerator.constructor | components/ImageGenerator.tsx:17-20 | empty prompt, not loading, no image, no error |
| Generator.ImageGenerator.EditPrompt | components/ImageGenerator.tsx:65 | only the prompt changes |
| Generator.ImageGenerator.GenerateDisabled | components/ImageGenerator.tsx:81 | the generate button is disabled exactly while loading or while the prompt is whitespace only |
| Generator.ImageGenerator.StartGenerate | components/ImageGenerator.tsx:22-36 | a blank prompt does nothing; an unaffordable request opens the upsell with its message, debits nothing and keeps the other flags; otherwise the result is cleared, loading starts, and one credit is debited before the provider is invoked, with the session key and flags kept |
| Generator.ImageGenerator.RefuseUnaffordable | components/ImageGenerator.tsx:25-28 | the upsell opens with "Your credits are finished. Please upgrade your plan."; balances, the gift flag and the initialisation flag do not change |
| Generator.ImageGenerator.BeginAttempt | components/ImageGenerator.tsx:30-36 | the result is cleared and loading starts; the debit is recorded before the invocation and the balance drops by the image cost; the session key and flags are kept |
| Generator.ImageGenerator.FinishGenerate | components/ImageGenerator.tsx:36-43 | loading stops; an image is shown on success, or the failure message on error; no refund is made |
| Generator.ImageGenerator.Generate | components/ImageGenerator.tsx:22-44 | the provider is invoked exactly when the prompt is not blank and the balance covers an image; it then costs one debit and shows the image or the error; an unaffordable request opens the upsell; a blank prompt changes nothing at all; the session key never changes |
| GiftCode.GiftCodeModal.constructor | components/GiftCodeModal.tsx:12-14 | an empty code, idle status, no message |
| GiftCode.GiftCodeModal.Edit | components/GiftCodeModal.tsx:58-62 | the code is the upper-cased input; status and message reset |
| GiftCode.GiftCodeModal.SubmitDisabled | components/GiftCodeModal.tsx:84 | the button is disabled after a success and for an empty code, but enabled for a code of spaces only, which submitting then ignores |
| GiftCode.GiftCodeModal.Submit | components/GiftCodeModal.tsx:18-23 | a blank code does nothing; otherwise the trimmed code is redeemed once, already upper-case, and the status and message report the handler's result; the session key and flags are kept |
| GiftCode.GiftCodeModal.Send | components/GiftCodeModal.tsx:20-22 | the handler's success sets the success status, a refusal sets the error status, and its message is shown; the session key and flags are kept |
| GiftCode.GiftCodeModal.CloseAfterSuccess | components/GiftCodeModal.tsx:25-30 | the dialog closes and the form resets; balances, the upsell state and the initialisation flag do not change |
| Admin.AcceptedAmount | components/AdminPanel.tsx:25-26 | an amount is accepted exactly when `parseInt` gives a number and it is above zero; that number is accepted |
| Admin.DefaultAmountAccepted | components/AdminPanel.tsx:10 | the pre-filled "49" is accepted as 49 |
| Admin.AcceptsPositive | components/AdminPanel.tsx:25-27 | every positive whole number typed in decimal is accepted as itself |
| Admin.RefusesZero | components/AdminPanel.tsx:26 | zero is refused |
| Admin.RefusesNegative | components/AdminPanel.tsx:26 | every negative number is refused |
| Admin.AdminPanel.constructor | components/AdminPanel.tsx:9-10 | closed, with the amount "49" |
| Admin.AdminPanel.SetOpen | components/AdminPanel.tsx:15 | the open flag is set; the amount is kept |
| Admin.AdminPanel.EditAmount | components/AdminPanel.tsx:44 | only the amount changes |
| Admin.AdminPanel.Add | components/AdminPanel.tsx:24-30 | a refused amount changes nothing; an accepted one is added to the user's record and persisted, and the panel closes; the session key, the flags and the invariants are kept |
| Admin.AdminPanel.Accept | components/AdminPanel.tsx:27-28 | a positive amount is added through the root handler and the panel closes; the session key and flags are kept |

## Left out

- services/geminiService.ts is not part of this model. The provider call is a parameter, `ProviderOutcome`, that says how the call settles.
- Video generation is not modelled, because no operation in the core charges `COST_PER_VIDEO`. Aspect ratios are not modelled either.
- Only the parsed content of the stored map is modelled, not JSON serialisation. The `catch` branch in components/AuthScreen.tsx (a parse error gives "An unexpected error occurred.") is therefore unreachable and not modelled. Neither is a crash of the root component on malformed stored JSON.
- Record lookups by inherited JavaScript property names, such as `constructor` or `__proto__`, are not modelled. The map holds only the stored accounts.
- The `setTimeout` delays are not modelled as time. The 1.5 s login delay runs its body at once, in `Auth.AuthScreen.Complete`. The 2 s gift-dialog reset is a separate later step, `GiftCode.GiftCodeModal.CloseAfterSuccess`. Interleavings of other events during these delays are not modelled.
- React rendering, re-render batching and stale closures are not modelled. Each handler runs atomically on the current state. The `isOpen` render gating of the modals is not modelled either, so their handlers can run while closed.
- `toUpperCase` and `toLowerCase` map ASCII letters only. Non-ASCII case mapping is not modelled.
- `parseInt` is modelled on exact integers: whitespace, sign, a `0x` prefix and the longest digit prefix. Floating-point precision loss on very long numerals is not modelled.
- Balances and amounts are JavaScript numbers (doubles) in the source; the model uses exact integers. Above 2^53 a debit of 1 can leave the balance unchanged, which `Ledger.Debit` does not capture. A top-up numeral of more than about 309 digits parses to `Infinity`, is accepted as above zero, and is stored as `null` by `JSON.stringify`; the model instead adds the exact value.
- Generator.ImageGenerator.Generate: requires the displayed balance to match the user's (`Valid`). Every handler keeps this invariant, but the source does not demand it.
- Generator.ImageGenerator.StartGenerate: has the same `Valid` requirement, for the same reason.
- AppRoot.App.AddCredits: keeps `Solvent` only for non-negative amounts, because the root handler adds negative amounts too.
- AppRoot.App.Login: keeps `Consistent` and `Solvent` only when the record is the one stored under its email. This holds for every caller in the core.
- The image download (`handleDownload`) is not modelled; it only touches the DOM.
- The presentational components (CreditDisplay, InstallGuide, SubscriptionModal, SupportModal) and the support dialog's open flag are not modelled.
- The `UserData` interface in types.ts is unused by the core and is not modelled.
- Plaintext password storage is modelled as it is. Its security is out of scope.
