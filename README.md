# UTBK simulation admin console — verified model of its data rules

This project models, in Dafny, the data rules of the administrator console of
the UTBK simulation tester (`src/App.jsx`). The console issues exam tokens,
sends them over WhatsApp, shows a leaderboard and edits the question bank.
Around its Firestore calls and React state, the console applies a few
self-contained rules. Each rule is modelled here as functions over values, and
its properties are proved:

- **Phone normalisation** (module `Phone`). Every non-digit is stripped from
  the student's number. A leading `0` is then replaced by the Indonesian
  country code `62`. All three dispatch paths (Fonnte, backup provider, manual
  WhatsApp link) do the same thing.
- **Token status lists** (module `Tokens`). A token expires when strictly more
  than 24 hours have passed since its creation. The active list holds `active`
  tokens that are not expired. The used list holds `used` tokens. The expired
  list holds expired tokens of any status. The filter buttons pick one of these
  lists, and any other key shows the whole list.
- **Leaderboard** (module `Leaderboard`). The leaderboard holds the tokens that
  carry a score. They are sorted by score, highest first, and then by the time
  left at finish, most first. The sort is stable. The time left is displayed as
  minutes and seconds.
- **Answer key editing** (module `AnswerKeys`). Each question type has a
  default key. A label in a multiple-choice key can be toggled on and off.
- **Question bank** (module `QuestionBank`). The editor form is validated
  before it is saved. The question record is built from the form. Saving
  inserts a new question or replaces one by id. Questions can also be deleted
  by id, and the form can be reset or loaded from a stored question.

The modules `Seqs` (JavaScript's `Array.prototype.filter`, with its
membership, multiplicity, order and concatenation laws) and `Text` (ASCII
digits, the JavaScript whitespace set, `String.prototype.trim`, and
`Array.prototype.toString` on string arrays) hold the helpers these rules are
built on.

Modelling choices:
- Clock readings are parameters: `now` for `Date.now()` in milliseconds, and
  `nowId` for `Date.now().toString()` used as the new question's id. One
  `now` stands for all the clock readings of one render, except in
  `Tokens.TwoReadings`.
  The program stores `createdAt` as an ISO date string
  (`new Date().toISOString()`, `src/App.jsx:221`) and parses it back in
  `isExpired`. The model stores it as integer milliseconds, and the parsing is
  left out.
- Question types, token statuses and filter keys stay strings, as in the
  source. A value other than the expected ones takes the same default branch
  as in the source.
- The form's `editingId` is a string, with `""` standing for `null`. Both
  values are falsy. The source compares `editingId` with a question id
  (`src/App.jsx:327`) only in the branch where it is truthy, so the two values
  are never told apart.
- The answer key (`correctAnswer`) is either a string or an array of labels.
  It is the datatype `Key = Text(..) | Labels(..)`.
- The JavaScript sort is stable, and the model sorts with a stable insertion
  sort driven by the source's comparator. `Math.floor` equals Dafny's `/` for a
  positive divisor. JavaScript's `%` takes the sign of the dividend, so it is
  written out as `JsRemainder`.

The editor does not check the number of options. It only refuses a blank one
(`src/App.jsx:312`), and the model does the same.

## Model

| member | source | states |
|---|---|---|
| Phone.NormalizePhone | src/App.jsx:185-186 | The result has only digits and never starts with `0`. When the stripped digits start with `0`, the result is `62` followed by the remaining digits. Otherwise it is the stripped digits unchanged. |
| Phone.FormatPhone | src/App.jsx:166-167 | The local `formattedPhone`, reassigned as in the source, ends as `NormalizePhone(phone)`. |
| Phone.NormalizeIdempotent | src/App.jsx:201-202 | Normalising an already normalised number changes nothing. |
| Phone.DigitsOf | src/App.jsx:166 | `replace(/\D/g, '')` keeps exactly the ASCII digits of the input. |
| Phone.DigitsOfDigits | src/App.jsx:166 | A string of digits only has nothing to strip. |
| Phone.DigitsOfAppend | src/App.jsx:166 | Stripping keeps the digits in order: the digits of `a + b` are those of `a` followed by those of `b`. |
| Tokens.ActiveTokens | src/App.jsx:263 | Holds exactly the listed tokens whose status is `active` and that are not expired, each as often as in the list. |
| Tokens.UsedTokens | src/App.jsx:264 | Holds exactly the listed tokens whose status is `used`, whatever their age, each as often as in the list. |
| Tokens.ExpiredTokens | src/App.jsx:265 | Holds exactly the listed tokens older than 24 hours, whatever their status, each as often as in the list. |
| Tokens.IsExpired | src/App.jsx:262 | A token is expired exactly from 24 hours plus one millisecond after its creation, and never before that. |
| Tokens.ExpiryBoundary | src/App.jsx:262 | A token is not expired exactly 24 hours after creation. It is expired one millisecond later, and it stays expired. |
| Tokens.StatusCounts | src/App.jsx:263-265 | For one clock reading, active tokens are never expired and never used. So active plus expired, and active plus used, each count at most the total. A used token older than 24 hours is in both the used list and the expired list. |
| Tokens.TwoReadings | src/App.jsx:262-265 | When the active and expired passes read the clock at `now1 <= now2`, a token is in both lists exactly when it is active and turns 24 hours old between the two readings. |
| Tokens.FilteredList | src/App.jsx:267-274 | Shows exactly the tokens matching the selected key, each as often as in the token list. Any key other than `active`, `used` or `expired` shows the whole list unchanged. |
| Tokens.FilteredListKeepsOrder | src/App.jsx:267-274 | Every filtered list is a subsequence of the token list, so the order is preserved. |
| Leaderboard.Compare | src/App.jsx:278-281 | The comparator is negative exactly when the first token has the higher score, or the same score and more time left. It is zero exactly when the two tie on both. |
| Leaderboard.LeaderboardData | src/App.jsx:276-283 | The result is ranked by the comparator and is a permutation of the scored tokens. |
| Leaderboard.LeaderboardContents | src/App.jsx:277-281 | Every entry has a score. Each scored token appears exactly as often as in the token list, and unscored tokens never appear. Scores are non-increasing, and on an equal score the time left is non-increasing. |
| Leaderboard.StrictlyHigherListedFirst | src/App.jsx:279-280 | A token with a higher score, or with the same score and more time left, is listed strictly earlier. |
| Leaderboard.LeaderboardStable | src/App.jsx:278-281 | Tokens tied on both score and time left keep their token-list order. |
| Leaderboard.SortStable | src/App.jsx:278 | The sort keeps the input order of entries tied under the comparator, as JavaScript's stable `sort` does. |
| Leaderboard.SortRanked | src/App.jsx:278-281 | The sort returns a ranked permutation of its input. |
| Leaderboard.Insert | src/App.jsx:278-281 | Inserting one token into a ranked list keeps it ranked and adds exactly that token. |
| Leaderboard.JsRemainder | src/App.jsx:402 | JavaScript's `%` for a positive divisor: the remainder of the quotient truncated toward zero. It lies in `[0, b)` for a non-negative dividend and in `(-b, 0]` for a negative one. |
| Leaderboard.TimeLeftDisplay | src/App.jsx:402 | For a time left `t >= 0`, the displayed minutes `m` and seconds `s` satisfy `m*60 + s = t` and `0 <= s < 60`. For `t < 0`, the minutes are negative and the seconds lie in `(-60, 0]`. A whole number of minutes shows exactly, with `0` seconds. Any other negative `t` shows one minute less: `m*60 + s = t - 60`. |
| AnswerKeys.DefaultKey | src/App.jsx:347-352 | Switching the type resets the key to `'A'` for single choice, `[]` for multiple choice and `''` for `isian`. Any other type keeps the current key. |
| AnswerKeys.CurrentLabels | src/App.jsx:355 | The working copy is the key's labels when the key is an array, and empty otherwise. |
| AnswerKeys.Toggled | src/App.jsx:354-359 | After a toggle, a label is present exactly when it was present and is not the toggled one, or was absent and is the toggled one. A present label is removed everywhere. The other labels keep their order and their number of occurrences, and the list gets shorter. An absent label is appended at the end. |
| AnswerKeys.ToggleMajemukAnswer | src/App.jsx:354-359 | The local copy ends as the toggled label list. A key that is not an array counts as empty, so the result is just the toggled label. |
| AnswerKeys.ToggleTwice | src/App.jsx:354-359 | Toggling the same label twice restores the set of labels. When the label was absent, it restores the exact list. |
| Seqs.Filter | src/App.jsx:263 | `filter` keeps exactly the elements that satisfy the predicate and is never longer than its input. Order, multiplicity and concatenation follow from the lemmas in `Seqs`. |
| Text.Trim | src/App.jsx:311 | `trim()` returns the slice of its input left after cutting off whitespace at both ends. The cut-off parts are all whitespace, and the slice has no whitespace at either end. It is empty exactly when the input is all whitespace. |
| Text.Join | src/App.jsx:314 | `toString()` of an array of strings is `""` for no element and the element itself for one. |
| Text.JoinBlank | src/App.jsx:314 | An array's `toString()` is blank exactly when the array is empty or holds one blank string. |
| QuestionBank.Lookup | src/App.jsx:325 | `bankSoal[subtest] || []`: the stored list of the subtest, or the empty list when the subtest has none. |
| QuestionBank.KeyString | src/App.jsx:314 | `correctAnswer.toString()`: a text key is its text, and a label array is its labels joined with commas. |
| QuestionBank.IsianKeyMissing | src/App.jsx:314 | The `isian` key check fails exactly when the key's string form is blank. For a text key, that means blank text. For an array key, it means no labels, or one blank label. |
| QuestionBank.Validate | src/App.jsx:311-314 | Gives each of the four refusals under exactly the condition at which the source stops with that alert, checked in the source's order. The form is accepted exactly when none of them applies. |
| QuestionBank.NewQuestion | src/App.jsx:316-323 | The record keeps the edited id, or takes the clock id for a new question. An `isian` question is stored with no options. Every other field is copied from the form. |
| QuestionBank.Replace | src/App.jsx:327 | The `map` keeps the length, puts the new question at every entry with the id, and leaves every other entry in place. When no entry has the id, the list is unchanged. |
| QuestionBank.Upsert | src/App.jsx:325-328 | A new question is appended at the end. When editing, the length is unchanged, every entry with the edited id is replaced in place, and every other entry stays put. |
| QuestionBank.AddOrUpdate | src/App.jsx:310-333 | A refused save leaves the bank and the form unchanged. An accepted save writes the upserted list under the selected subtest and resets the form. |
| QuestionBank.HandleTypeChange | src/App.jsx:347-352 | Switching the type sets the new type and its default key, and leaves the rest of the form unchanged. |
| QuestionBank.ResetForm | src/App.jsx:343-345 | After a reset, the form edits nothing and has empty text and image, a single-choice type, key `'A'` and five empty options, on the same subtest. Saving it is refused for the missing question text. |
| QuestionBank.LoadForEdit | src/App.jsx:361-369 | The form takes the question's id as the edited id, and its text, image and key. An empty type falls back to single choice. An `isian` question gives five blank options, and any other type gives its own options. |
| QuestionBank.LoadedQuestionRebuilds | src/App.jsx:361-367 | Rebuilding a record from a loaded question gives back the same question, when its id and type are set and an `isian` question has no options. |
| QuestionBank.ReSaveIsNoOp | src/App.jsx:325-328 | Loading a stored question and saving it unchanged leaves the bank as it was. This holds when the question's id is non-empty and unique in its subtest, its type is set, and, for an `isian` question, it has no options. |
| QuestionBank.UntypedReSaveBecomesSingleChoice | src/App.jsx:361-367 | A stored question without a type, with non-blank text and options, loads as single choice (line 364). Saving it unchanged is accepted and rewrites it in place with the type `pilihan_ganda`, so the bank changes. |
| QuestionBank.LoadedUntypedQuestion | src/App.jsx:364 | Such an untyped question loads as a valid single-choice form, and rebuilding it gives the question with the type `pilihan_ganda`. |
| QuestionBank.EditOfMissingIdChangesNothing | src/App.jsx:326-327 | Saving a valid edit whose id is no longer in the selected subtest changes no question. |
| QuestionBank.DeleteSoal | src/App.jsx:335-341 | Unless confirmed, nothing changes. Once confirmed, the subtest keeps exactly the questions with a different id, and every other subtest is untouched. |
| QuestionBank.DeleteKeepsRest | src/App.jsx:337-338 | After a delete, the remaining questions keep their order, and each occurs as often as before. |
| QuestionBank.DeleteIdempotent | src/App.jsx:338 | Deleting the same id twice is the same as deleting it once. |
| QuestionBank.AddThenDelete | src/App.jsx:325-338 | Deleting the id of a newly added question, when that id was fresh, restores the subtest's list. |
| QuestionBank.TypeChangeNeedsKey | src/App.jsx:347-352 | After a type switch, a single-choice form with non-blank text and options is accepted. A multiple-choice form is refused until a label is chosen, and an `isian` form is refused until a key is typed. |
| QuestionBank.ToggleAfterTypeChange | src/App.jsx:313 | After switching to multiple choice, toggling one label makes the form acceptable, given non-blank text and options. |

## Left out

- Firestore reads and writes (`getDoc`, `setDoc`, `updateDoc`, `getDocs`, `deleteDoc`, `deleteField`), `loadBankSoal`, `loadTokens`, `markAsSent`, `deleteToken`, `deleteAllTokens` and `resetLeaderboard`: these are I/O against an external document store. `saveSoal` is modelled only by its in-memory update of the bank.
- Firebase Auth login and logout, and all of `src/firebase.js`: authentication and configuration, with no logic of their own.
- The message dispatch itself: `fetch` to Fonnte or to the backup URL, `window.open`, `URLSearchParams`, `encodeURIComponent` and the message texts. These are network calls and library encoders. Only the phone normalisation in front of them is modelled.
- `createToken`: its token code comes from `Math.random().toString(36)`, so it is random and not modelled.
- Tokens.StatusCounts: it assumes one clock reading per render. The source calls `Date.now()` in every `isExpired` call, so a token that crosses the 24-hour mark between the active pass and the expired pass is counted as both active and expired. `Tokens.TwoReadings` states exactly when that happens.
- Date parsing: `new Date(createdAt)` on ISO strings, and the newest-first sort of `loadTokens`. Timestamps are integer milliseconds instead. So an unparsable `createdAt`, which gives `NaN` and is never expired in JavaScript, is not modelled.
- Missing values in the sort: scores and time left are integers that are present. JavaScript's `NaN` for a missing `finalTimeLeft` is not modelled, and the comparator never sees an unscored token.
- `alert` and `confirm` dialogs: a confirmation is the boolean parameter of `DeleteSoal`, and alerts are the `SaveError` values. React state setters are not modelled, and neither is any JSX rendering (medals, tables, the string form of the time cell).
- The student application, which the issued links point to (`STUDENT_APP_URL`, `src/App.jsx:54`): it is a separate program and not in this file.
