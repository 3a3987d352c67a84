# Car-wash appointment store: a Dafny model

This project models the data-handling core of a small Flask application (`dakar.py`) that
takes car-wash appointment requests ("agendamentos") and lets staff review, edit, accept and
report on them. What is modelled:

- the appointment record and the persisted appointment list, as a class `Store` whose field
  `items` is the list held in the JSON file (every handler that changes the list reloads it,
  changes it and writes all of it back, so the field stands for the file) and whose field `saves` counts the writes;
- creation with `id = len(list) + 1` and status `Pendente`, the first-match lookup by id,
  the full-overwrite edit, accepting (status `Aceito`) and setting an arbitrary status;
- today's agenda (timestamps starting with a given date) and the two report filters: the
  on-screen results with name, plate, month and status criteria, and the print view with the
  same criteria except the month;
- the in-memory user dictionary, as a class `Registry` over `map<string, User>`, with loading
  (keyed by `str(id)`), registering (keyed by the user name), editing and deleting.

The Python string operations the filters depend on are modelled with Python's semantics in
module `PyText`: `s[:n]` clamps at the end of the string (`Take`), `startswith`, `lower()`,
`replace("-", "")`, `", ".join` and `str(int)`.

Modules: `Wrappers` (Option), `Comprehension` (list comprehensions as `Filter`, with the
subsequence and multiplicity facts), `PyText`, `Appointments` (records and the pure list
rules), `AppointmentStore` (the mutating store), `Reports` (agenda and filters),
`UserAccounts` (the user dictionary), `Walkthrough` (a client: create, accept, report).

Behaviour the model keeps exactly as the code has it:

- status values are the code's Portuguese strings `Pendente` and `Aceito`;
- ids are not guaranteed unique: `id = len + 1` duplicates an id whenever some stored record
  already has id `len + 1`, and a lookup of that id right after the append returns the older record
  (`CreatedReachableIffIdFree`, `CreateAfterRemovalDuplicatesId`); creating from an empty list
  keeps the ids 1..n (`CreatePreservesDenseIds`), and ids 1..n are pairwise distinct
  (`DenseIdsAreUnique`);
- the status handler accepts any string and checks no transition table;
- registering keys the new account by user name while loading keys accounts by `str(id)`,
  so until the next start-up an edit or delete by id reaches a registered account only when
  its user name is the decimal string of that id (`KeyingInconsistency` shows "alice", id 2,
  not found; `NumericNameReachableById` shows the name "2" found by id 2); a restart re-keys
  every saved account by `str(id)`, and `len(users) + 1` reuses ids after a delete
  (`DeleteThenRegisterReusesId`); on a reload, the last of several accounts sharing an id
  is the one kept (`LoadUsersLastWins`).

## Model

| member | source | states |
|---|---|---|
| `Comprehension.Filter` | dakar.py:291-297 | a list comprehension keeps exactly the input elements satisfying the condition, never more elements than the input |
| `PyText.Take` | dakar.py:293-295 | `s[:n]` is a prefix of `s` of length `min(n, len(s))` |
| `PyText.TakeBeyondLength` | dakar.py:293 | `s[:n]` with `n >= len(s)` is `s` itself |
| `PyText.TruncateCompareIsPrefix` | dakar.py:293 | `f == s[:len(f)]` holds exactly when `s` starts with `f`; a `f` longer than `s` never passes |
| `PyText.StartsWith` | dakar.py:161 | `s.startswith(p)` holds exactly when `s` is `p` followed by some string |
| `PyText.Join` | dakar.py:143 | `sep.join([])` is empty and a non-empty join starts with its first part |
| `PyText.JoinAppend` | dakar.py:143 | joining one more part appends the separator and that part, so parts appear in order separated by `sep` |
| `PyText.Lower` | dakar.py:285 | lowercasing keeps the length and lowers each ASCII letter in place |
| `PyText.LowerIsIdempotent` | dakar.py:293 | a lowered string has no upper-case letter and lowering it again changes nothing |
| `PyText.StripHyphens` | dakar.py:286 | removing hyphens leaves no hyphen and keeps every other character |
| `PyText.StripHyphensConcat` | dakar.py:294 | hyphen removal works piece by piece over a concatenation |
| `PyText.StripHyphensIdempotent` | dakar.py:294 | a string without hyphens is unchanged, so removing hyphens twice is removing them once |
| `PyText.NatToString` | dakar.py:35 | `str(n)` is a non-empty string of decimal digits without a leading zero |
| `PyText.NatToStringValue` | dakar.py:35 | the digits of `str(n)` spell the number `n` |
| `PyText.IntToString` | dakar.py:35 | `str(i)` is non-empty and starts with `-` exactly for negative `i` |
| `PyText.IntToStringInjective` | dakar.py:35 | distinct ids give distinct `str(id)` keys |
| `Appointments.FirstIndex` | dakar.py:174 | the id scan stops at the first record with that id, all earlier ones having other ids, or finds none exactly when no record has the id |
| `Appointments.Lookup` | dakar.py:212 | lookup by id returns a stored record with that id preceded by no other record with it, and none exactly when no record has the id |
| `Appointments.FirstIndexAppend` | dakar.py:147 | after an append the scan finds the earlier first match if there is one, else the appended record if it has the id |
| `Appointments.NewAppointment` | dakar.py:137-146 | a new request gets id `len + 1`, status `Pendente`, the given timestamp, the form's name, phone, plate and wash type, and the chosen services joined with ", " |
| `Appointments.CreatedReachableIffIdFree` | dakar.py:138 | a new record is found by its id when no stored record has `len + 1`; otherwise the lookup keeps returning the older record |
| `Appointments.CreateAfterRemovalDuplicatesId` | dakar.py:138 | with only record 2 stored, the next request also gets id 2 and lookup of 2 returns the old record |
| `Appointments.DenseIdsAreUnique` | dakar.py:138 | when ids are 1..n in order they are pairwise distinct and lookup of `id` is position `id - 1` |
| `Appointments.CreatePreservesDenseIds` | dakar.py:136-147 | creating keeps ids 1..n, so sequential creation from empty never duplicates an id |
| `Appointments.WithStatus` | dakar.py:226-231 | a status change keeps the length and every id, and leaves the list unchanged when no record has the id |
| `Appointments.WithStatusFrame` | dakar.py:230 | only the status field of the first record with the id changes; every other record and field stays |
| `Appointments.WithStatusIdempotent` | dakar.py:211-216 | setting the same status twice (accepting twice) equals setting it once |
| `Appointments.Overwrite` | dakar.py:181-188 | the edit replaces name, phone, plate, wash type, services (joined with ", "), timestamp and status, and keeps the id |
| `Appointments.Edited` | dakar.py:173-190 | an edit keeps the length and every id, and leaves the list unchanged when no record has the id |
| `Appointments.EditedFrame` | dakar.py:181-188 | the edit overwrites the first record with the id and no other record |
| `Appointments.EditedIdempotent` | dakar.py:181-190 | posting the same edit twice gives the same list as posting it once |
| `Appointments.UpdatesPreserveDenseIds` | dakar.py:181-188 | edits and status changes keep ids 1..n |
| `AppointmentStore.Store.constructor` | dakar.py:22-27 | a first run starts from the empty list with nothing saved |
| `AppointmentStore.Store.Create` | dakar.py:136-148 | exactly one new record is appended at the end, earlier ones unchanged, and the list is saved once |
| `AppointmentStore.Store.UpdateStatus` | dakar.py:226-231 | the list becomes the status change of the first match; saved once if found, not at all otherwise |
| `AppointmentStore.Store.Accept` | dakar.py:211-219 | the first record with the id becomes `Aceito`; found exactly when some record has the id; no save otherwise |
| `AppointmentStore.Store.SetStatus` | dakar.py:226-234 | the first record with the id takes the given status; found exactly when some record has the id; no save otherwise |
| `AppointmentStore.Store.Edit` | dakar.py:173-190 | the first record with the id is overwritten from the form; no change and no save when there is none |
| `Reports.Agenda` | dakar.py:161 | the agenda holds exactly the records whose timestamp starts with the date |
| `Reports.AgendaIsOrderedSelection` | dakar.py:161 | the agenda is a subsequence of the list holding each record of the day as often as the list does |
| `Reports.Results` | dakar.py:291-297 | the results hold exactly the records meeting all four criteria |
| `Reports.PrintResults` | dakar.py:311-316 | the print view holds exactly the records meeting the name, plate and status criteria |
| `Reports.ResultsIsOrderedSelection` | dakar.py:291-297 | the results are a subsequence of the list holding each matching record as often as the list does |
| `Reports.PrintIsResultsWithoutMonth` | dakar.py:311-316 | the print view equals the results view with an empty month filter |
| `Reports.EmptyFormSelectsAll` | dakar.py:291-297 | an empty form selects the whole list in order |
| `Reports.NameMatchesIsPrefix` | dakar.py:293 | the name test is a case-insensitive prefix test; a longer filter never matches |
| `Reports.NameExamples` | dakar.py:293 | "Jo" selects "John", "ana" selects "Ana Paula", "Ana" does not select "An" |
| `Reports.PlateMatchesIsPrefix` | dakar.py:294 | the plate test is a case-insensitive prefix test on the plates without hyphens |
| `Reports.PlateIgnoresStoredHyphens` | dakar.py:294 | hyphens in the stored plate do not change the plate test |
| `Reports.PlateExamples` | dakar.py:294 | "ab-1234" selects both "AB1234" and "AB-1234" |
| `Reports.PlateLongerFilterExample` | dakar.py:294 | "ab-1234" does not select "AB-123" |
| `Reports.MonthMatchesIsMonthPrefix` | dakar.py:295 | against a full timestamp a non-empty month filter must equal its first seven characters; one longer than seven selects nothing |
| `Reports.StatusFilterExcludes` | dakar.py:296 | a status filter of `Aceito` keeps only `Aceito` records and no `Pendente` one |
| `UserAccounts.LoadUsers` | dakar.py:33-36 | the loaded map's keys are the `str(id)` of the accounts, each key holding an account with that id |
| `UserAccounts.LoadUsersLastWins` | dakar.py:35 | each loaded key holds the last account in the file whose id has that key |
| `UserAccounts.LoadUsersKeepsDistinctIds` | dakar.py:35 | with distinct ids every account is found under its own `str(id)` |
| `UserAccounts.Registered` | dakar.py:117-122 | registering adds the key `username` holding id `len(users) + 1`, every other entry unchanged |
| `UserAccounts.EditedUser` | dakar.py:244-252 | editing changes name and password of the entry under `str(id)`, keeps its id and every other entry |
| `UserAccounts.DeletedUser` | dakar.py:260-263 | deleting removes only the key `str(id)` |
| `UserAccounts.AdminOnlyLoadsUnderOne` | dakar.py:35 | a file with account 1 loads as the single key "1" |
| `UserAccounts.KeyingInconsistency` | dakar.py:114-118 | a registered "alice" (id 2) is not found by id 2; "admin" registers twice; "1" is refused |
| `UserAccounts.NumericNameReachableById` | dakar.py:118 | a user name that spells its own new id, "2", is stored under key "2", so an edit or delete of id 2 reaches it |
| `UserAccounts.DeleteThenRegisterReusesId` | dakar.py:117 | after deleting id 1 of two accounts, the next registration gets id 2, still in use |
| `UserAccounts.Registry.constructor` | dakar.py:47 | the user map is the loaded file's accounts keyed by `str(id)`, nothing saved yet |
| `UserAccounts.Registry.Register` | dakar.py:111-123 | succeeds exactly when the name is not a key, then adds the account and saves once; otherwise nothing changes |
| `UserAccounts.Registry.EditUser` | dakar.py:243-253 | found exactly when `str(id)` is a key; then name and password are replaced and saved once |
| `UserAccounts.Registry.DeleteUser` | dakar.py:259-267 | found exactly when `str(id)` is a key; the entry is removed and saved once, with no change otherwise |

## Left out

- HTTP routing, templates, flash messages, redirects and form access: form values are plain parameters.
- Login, logout, the credential check, `login_required`, session lifetime and `before_request` (dakar.py:60-106): authentication plumbing.
- JSON file I/O (`load_json`, `save_json`, `load_users`' file read, `save_users`): the list and the map are fields; a save is only counted, and the missing-file fallback is the empty initial list.
- `UserAccounts.Registry`: the order in which `save_users` writes the dictionary's values is not modelled, since a Dafny map has no order.
- `datetime.now()`: the creation timestamp and the agenda date are parameters.
- `PyText.Lower`: lowers ASCII letters only; Python's full Unicode `lower()` (which can change string lengths) is not modelled.
- A form without a `cliente` or `placa` field makes the report handlers fail on `None.lower()`, and one without `mes` makes the month test fail for every record; the model takes all form fields as strings.
- `relatorios` (dakar.py:274-278), which only builds display sets; `ver_agendamentos` and `usuarios`, which only pass the whole collection to a template.
- Concurrent requests and the lost updates and duplicate ids they can cause: the code has no concurrency of its own.
- `logging` calls.
