# LadyCakes store and reminder scheduler, in Dafny

LadyCakes is a single-page pastry-business organiser. All of its data sits
in one in-memory document, `state`: the business profile and eight ordered
lists (needs, notes, tasks, recipes, products, inventory, orders,
reminders). The event handlers change that document in place. Every change
is followed by `save()`, which writes the whole document to local storage.
A 30-second interval fires reminders that are due.

This project models that store and proves what its handlers do:

- `Store.AppState` is a class with the nine document keys as fields.
  - Ghost state records how many times `save()` ran and which document it last wrote.
  - A ghost log records the notifications shown.
  - A boolean stands for the scheduler timer.
  - Each handler body is a method. Its contract gives the whole new state: which list changed and how, whether it saved, and that nothing else moved.
- The rules those handlers apply are pure functions in their own modules, each with lemmas:
  - `Forms`: form validation, trimming and defaults;
  - `Orders`: the order draft and stock deduction;
  - `Reminders`: the reminder tick;
  - `Bulk` and `Seed`: bulk addition with case-insensitive de-duplication, and the first-run seed;
  - `Markup`: the logo initials, HTML escaping and the newest-first notes view;
  - `Text`: JavaScript's `trim`, `\s`, `toLowerCase`/`toUpperCase` and `split`/`join` on line feeds;
  - `Records`: the record shapes and the `Object.assign` merge used on load and import.
- The three `forEach` loops are methods with loop invariants, each proved equal to its specification function:
  - firing reminders;
  - deducting stock;
  - adding bulk needs.

Files:
- `wrappers.dfy`: `Option`.
- `records.dfy`: records, merge, derived statuses.
- `text.dfy`: string primitives.
- `seqs.dfy`: `splice` and append-or-replace.
- `markup.dfy`: view helpers.
- `forms.dfy`: editor forms.
- `orders.dfy`: orders.
- `reminders.dfy`: the tick.
- `bulk.dfy`: bulk addition.
- `seed.dfy`: seed and owner's list.
- `store.dfy`: the state class.

## Model

| member | source | states |
|---|---|---|
| Records.Full | app.js:946-947 | The exported object has every key: merging it over any document gives back exactly the exported state |
| Records.Merge | app.js:50 | `Object.assign(state, parsed)` on the top-level keys: a key the parsed object has replaces that key of the state wholesale, any other key is kept. Its laws are `Full`, `MergeEmpty` and `MergeIdempotent` |
| Records.MergeEmpty | app.js:45-53 | Merging a parsed object with none of the document's keys changes nothing |
| Records.MergeIdempotent | app.js:50 | `Object.assign` with the same object twice equals applying it once |
| Records.NeedStatus | app.js:210 | The shown need status is `status` when truthy; otherwise 'Listo' exactly when `acquired` is true, else 'Pendiente' |
| Records.TaskStatus | app.js:429 | The task editor starts from `status` when truthy; otherwise 'Listo' exactly when `done`, else 'Pendiente' |
| Text.TrimStart | app.js:117 | The result is a suffix of the input, does not start with white space, and every character dropped is white space |
| Text.Trim | app.js:289 | `trim` gives a trimmed string, empty exactly when the input is all white space, never longer, and adds no line feed |
| Text.TrimKeepsMiddle | app.js:289 | `trim` keeps a contiguous middle of its input and drops only white space before and after it |
| Text.TrimOfTrimmed | app.js:289 | A string with no white space at either end is its own trim |
| Text.TrimIdempotent | app.js:289 | Trimming twice equals trimming once |
| Text.Lower | app.js:1013 | `toLowerCase` works character by character: the same length, each character lower-cased |
| Text.LowerIdempotent | app.js:1018 | Lower-casing a lower-cased string changes nothing |
| Text.TrimLower | app.js:1013-1018 | Trimming then lower-casing equals lower-casing then trimming |
| Text.Key | app.js:1013 | The de-duplication key `trim().toLowerCase()` is never longer than the name, and is empty exactly when the name is all white space |
| Text.KeyIgnoresCase | app.js:1018 | Names that differ only in letter case share a key |
| Text.KeyOfTrimmed | app.js:1016 | A name and its trimmed form share a key |
| Text.JoinLines | app.js:764-765 | `join('\n')` of the stored lines, as the recipe editor pre-fills them; `SplitJoinLines` and `ParseJoinLines` state what reading it back gives |
| Text.SplitLines | app.js:790 | `split('\n')` yields at least one piece and no piece holds a line feed |
| Text.SplitJoinLines | app.js:764-765 | Splitting the join of line-free pieces gives the pieces back |
| Text.JoinSplitLines | app.js:790 | Joining the pieces of a split gives the text back |
| Text.TrimAndDropBlank | app.js:790-791 | Trimming lines and dropping blank ones never lengthens the list, and every entry is non-empty and trimmed |
| Text.TrimAndDropBlankMembers | app.js:790-791 | A string is kept exactly when it is non-empty and some line trims to it |
| Text.TrimAndDropBlankKeepsClean | app.js:790-791 | A list already trimmed and blank-free passes through unchanged |
| Text.TrimAndDropBlankLineFree | app.js:790-791 | Trimming and dropping blanks brings no line feed into line-free pieces |
| Text.ParseLines | app.js:790-791 | A parsed ingredients or steps field has only non-empty, trimmed, line-free entries |
| Text.ParseJoinLines | app.js:764-791 | Parsing the text the editor pre-fills (`join('\n')`) gives back the stored entries |
| Text.Words | app.js:117 | `split(/\s+/)` of a trimmed string yields at least one piece; the first is the leading word; a second piece exists exactly when white space follows that word, and it is the leading word of what comes after the white space; no piece holds white space |
| Seqs.Splice | app.js:233 | `splice(i, 1)` removes element `i` exactly: one shorter, earlier elements in place, later ones shifted down; an index past the end removes nothing |
| Seqs.SpliceMultiset | app.js:344 | A delete removes one occurrence of the deleted item and nothing else |
| Seqs.SpliceMiddleOfThree | app.js:422 | Deleting index 1 of three items keeps the first and third, in order |
| Seqs.Upsert | app.js:297-298 | `idx == null` appends, any other index replaces that slot wholesale; every other slot is unchanged |
| Markup.Abbreviate | app.js:115-119 | The logo placeholder has at most two characters, and an empty name gives `LC` |
| Markup.AbbreviateIsUpper | app.js:118 | The placeholder is all capitals |
| Markup.AbbreviateBlank | app.js:116-118 | A non-empty name of only white space gives no initials |
| Markup.AbbreviateStartsWithInitial | app.js:117-118 | A name with a visible character starts its placeholder with that character upper-cased |
| Markup.AbbreviateOneWord | app.js:117-118 | A single word gives its upper-cased first letter |
| Markup.AbbreviateFirstTwoWords | app.js:117-118 | A name whose trimmed form starts with two words separated by white space gives the upper-cased initials of those two words, whatever words follow |
| Markup.EscapeHtml | app.js:940-943 | Escaped text holds no `<`, `>` or `"` and is never shorter |
| Markup.UnescapeEscape | app.js:940-943 | Escaping loses nothing: decoding the four entities gives the original text |
| Markup.TitleFor | app.js:153-155 | A view in the title table shows its non-empty heading; any other view shows its own key |
| Markup.UntitledViews | app.js:153-155 | The products, inventory and orders views fall back to their keys |
| Markup.NotesView | app.js:322 | `notes.slice().reverse()` has as many notes as storage |
| Markup.StorageIndex | app.js:331-332 | The index a notes button carries is in range |
| Markup.DisplayedNoteIsAddressed | app.js:322-332 | The note shown at display position `i` is the stored note at `length-1-i` that its buttons edit and delete |
| Forms.StatusOf | app.js:294 | `value \|\| 'Pendiente'` is never empty and keeps a non-empty selection |
| Forms.SelectedStatus | app.js:276-277 | The status select opens on 'Listo' or 'Pendiente', and on the stored one when it is one of those |
| Forms.SelectedUrgency | app.js:269 | The urgency select opens on a value in 1..10, the stored one when in range |
| Forms.NeedFromForm | app.js:289-296 | Refused exactly for a blank trimmed name; else name and description trimmed, price and urgency kept, status from the select, no `acquired` key |
| Forms.NeedFormIsEditorShaped | app.js:288-296 | A save with the offered options yields an editor-shaped need |
| Forms.NeedEditRoundTrip | app.js:251-299 | Opening the editor on an editor-written need and saving untouched stores it unchanged |
| Forms.NeedEditNormalizesLegacy | app.js:251-296 | Re-saving a stored need keeps its displayed status and drops the legacy `acquired` flag |
| Forms.NoteFromForm | app.js:368-370 | Any title is accepted; title and body trimmed; `created` is the save time, also on an edit |
| Forms.TaskFromForm | app.js:460-466 | Refused exactly for a blank trimmed title; else `done` holds exactly when the status is 'Listo' |
| Forms.TaskEditRoundTrip | app.js:429-469 | Opening the editor on an editor-written task and saving untouched stores it unchanged |
| Forms.PrefilledDue | app.js:440 | A falsy or absent due time pre-fills nothing; any other pre-fills midnight UTC of its day, which is at most the stored time and less than a day before it |
| Forms.PrefilledDueKeeps | app.js:440 | A due time comes back from the editor unchanged exactly when it is a non-zero midnight UTC |
| Forms.CheckboxUndoneByEdit | app.js:414-466 | After the checkbox sets `done` alone, the task no longer mirrors its status, and an untouched edit-save puts `done` back |
| Forms.RecipeFromForm | app.js:787-792 | Refused exactly for a blank trimmed title; else the lists are the parsed lines and have no blank or padded entry |
| Forms.RecipeEditRoundTrip | app.js:764-795 | Opening the editor on an editor-written recipe and saving untouched stores it unchanged |
| Forms.ProductFromForm | app.js:565-570 | Refused exactly for a blank trimmed name; stock is always a number; the image is the one picked, else the edited product's |
| Forms.ProductEditRoundTrip | app.js:564-573 | Re-saving a product untouched keeps it, except that a non-numeric stock becomes 0 |
| Forms.PrefilledStock | app.js:545 | `item.stock \|\| 0`: the stored number, or 0 when the stock is not a number |
| Forms.InventoryFromForm | app.js:625-628 | Refused exactly for a blank trimmed name; else name and unit trimmed, quantity kept |
| Forms.ReminderFromForm | app.js:877-882 | Refused exactly for a blank trimmed title; else unfired and due at the chosen time, or at once when none was chosen |
| Forms.ProfileFromForm | app.js:92-95 | An empty business name becomes 'LadyCakes'; description and contact are taken as given; the logo is kept |
| Orders.LineFor | app.js:706-711 | A line is added exactly when the selected index names a product and the quantity is positive; it stores that product's name |
| Orders.CustomerName | app.js:718 | A blank trimmed customer becomes 'Cliente', otherwise the trimmed name |
| Orders.OrderFor | app.js:718-720 | Refused exactly when the draft has no line; otherwise `{customer, items, created}` |
| Orders.FindByName | app.js:723 | `find` returns the first product with the name, or none when no product has it |
| Orders.Floor0 | app.js:724 | `Math.max(0, x)` is at least 0 and at least `x`; it equals `x` when `x` is at least 0 and is 0 when `x` is negative |
| Orders.DeductLine | app.js:722-725 | One line changes only the first product of its name: a numeric stock loses the quantity, floored at 0; nothing else changes |
| Orders.DeductAll | app.js:722-725 | One deduction per line, in line order, each on the result of the previous one; the product list keeps its length |
| Orders.DeductOnlyStock | app.js:722-725 | Placing an order changes nothing about any product but its stock |
| Orders.DeductNeverNegative | app.js:724 | Stocks that start non-negative stay non-negative |
| Orders.DeductSkipsUntracked | app.js:724 | A product whose stock is not a number is unchanged |
| Orders.DeductSkipsUnlisted | app.js:723 | A later product sharing an earlier product's name is never deducted |
| Orders.DeductSkipsUnordered | app.js:722-725 | A product that no line names is unchanged |
| Orders.DeductTotal | app.js:722-725 | Floors taken line by line equal one floor of the total: the stock ends at `max(0, stock - total ordered)` |
| Orders.DeductExamples | app.js:722-725 | Stock 5 with 3 ordered leaves 2; stock 2 with 5 ordered leaves 0 |
| Orders.OrderDraft.constructor | app.js:703 | The draft starts empty, with no removal listeners |
| Orders.OrderDraft.AddLine | app.js:705-714 | Appends exactly the accepted line, and only when it is accepted; all held lines have positive quantity; an accepted line attaches the removal listeners |
| Orders.OrderDraft.RemoveLine | app.js:714 | With listeners attached the line is spliced out; the re-rendered list has none, so a second removal changes nothing until the next add |
| Reminders.FireDue | app.js:893-898 | A tick with the reminders list shown: exactly the due reminders become fired; nothing else about any reminder changes, and `fired` is never reset |
| Reminders.NoticesFor | app.js:893-895 | The notifications of a tick with the list shown: no more than reminders, and each names a position in the list |
| Reminders.NoticesSound | app.js:894-895 | Every notification is about a due reminder and carries its title and notes |
| Reminders.NoticesOnce | app.js:893-895 | Notifications come in list order, so no reminder is notified twice in a tick |
| Reminders.NoticesComplete | app.js:893-895 | With the list shown, the notified positions are exactly the due ones |
| Reminders.NothingDueAfterTick | app.js:894-896 | After a tick with the list shown nothing is due at the same time |
| Reminders.SecondTickSilent | app.js:891-899 | After a tick with the list shown, a second one with the same `now` notifies nothing |
| Reminders.FireDueIdempotent | app.js:891-899 | After a tick with the list shown, a second one with the same `now` changes nothing |
| Reminders.Due | app.js:894 | A reminder fires when it has not fired and its time has come |
| Reminders.FirstDueFrom | app.js:893-897 | None means no reminder from position `i` on is due; otherwise the position is due and none before it, from `i`, is |
| Reminders.FireFirstDue | app.js:893-897 | The reminders after a tick without the list shown: the first due one is marked fired |
| Reminders.FirstNotice | app.js:895-897 | The notification of a tick without the list shown: the first due reminder's, if any |
| Reminders.FirstDueIsLeast | app.js:893-897 | The first due position is absent exactly when none is due, and otherwise is the least due position |
| Reminders.FirstDueAt | app.js:893-897 | A due reminder with none due before it is the first due one, and the run up to it shows exactly its notification |
| Reminders.NoneDueAt | app.js:893-894 | With nothing due, neither form of the tick notifies |
| Reminders.FirstNoticeLeads | app.js:893-897 | Without the list shown, a tick shows exactly the first notification the tick with the list shown would, and nothing when that one shows nothing |
| Reminders.FireFirstDueOne | app.js:893-897 | Without the list shown, a tick notifies at most one reminder, a due one with its title and notes, and none only when nothing is due; afterwards exactly the other due reminders are still due |
| Reminders.FireDueAbsorbsFirst | app.js:891-899 | A tick without the list followed by one with it ends where the tick with the list alone ends |
| Reminders.FireDueNoneDue | app.js:893-894 | With nothing due a tick changes nothing |
| Reminders.RepeatFireFirstCatchesUp | app.js:891-899 | As many runs without the list as there are due reminders, at the same time, fire all of them, as one run with the list shown does |
| Reminders.TickStops | app.js:893-897 | Where the run stops, after the list or after the first firing off the reminders view, the list and the notifications so far are those of the tick |
| Bulk.EntryFor | app.js:1019-1020 | An appended entry takes each field the item supplies, else the defaults: '' description, price 0, urgency 5, status 'Pendiente' |
| Bulk.BulkEntries | app.js:1015-1024 | No more entries than items are appended |
| Bulk.BulkFresh | app.js:1016-1018 | Every appended entry has a non-blank name whose trimmed, lower-cased form was not taken |
| Bulk.BulkFromItems | app.js:1019-1021 | Every appended entry is the defaulted entry of one of the items |
| Bulk.BulkDistinct | app.js:1018-1022 | No two appended entries share a trimmed, lower-cased name |
| Bulk.BulkComplete | app.js:1013-1024 | Every item with a non-blank name is taken already or appended |
| Bulk.BulkNothingNew | app.js:1017-1018 | When every item is blank or known, nothing is appended |
| Bulk.BulkTwice | app.js:1012-1027 | Running the same bulk addition again appends nothing |
| Bulk.NeedKeys | app.js:1013 | The set of the stored needs' keys |
| Bulk.NeedKeysAre | app.js:1013 | A key is taken exactly when some stored need has it |
| Bulk.ItemKeys | app.js:1015-1022 | The keys claimed by the items with a visible name |
| Bulk.Wins | app.js:1016-1018 | An item is appended when its key is neither taken nor claimed by an earlier item |
| Bulk.WinnersFrom | app.js:1015-1022 | The entries of the winning items, in input order |
| Bulk.WinsIsFirst | app.js:1016-1022 | An item wins exactly when its name is visible, its key is not taken, and no earlier item with a visible name has its key: the first one of each key is kept |
| Bulk.BulkEntriesFrom | app.js:1015-1022 | The pass from any position, with the earlier items' keys taken, appends the winners from that position on |
| Bulk.BulkIsWinners | app.js:1015-1022 | The appended entries are exactly the winners' entries, in input order |
| Seed.SeedStatuses | app.js:970-1004 | The seed has 33 needs with the defaults: the first two 'Listo', the third and the last 'Pendiente', the rest with no status |
| Seed.UserNeedsNameTheSeed | app.js:1030-1064 | The owner's list names the seeded needs, in the same order |
| Seed.SeededNeeds | app.js:968-1007 | An empty list becomes the seed; any other list is kept |
| Seed.StartupNeeds | app.js:1009-1066 | After start-up the needs list is never empty |
| Seed.FirstRunAddsNothing | app.js:1009-1066 | On a first run the bulk addition appends nothing, so the needs are exactly the seed |
| Seed.StartupIdempotent | app.js:1009-1066 | Starting again from the needs a start left changes nothing |
| Seed.StartupRestoresOwnerList | app.js:1066 | After every start each item of the owner's list is present by key, so a deleted default returns |
| Store.AppState.constructor | app.js:27-42 | The initial document: the default profile, empty lists, no timer, nothing saved |
| Store.AppState.Save | app.js:55-57 | One save of the current document |
| Store.AppState.Load | app.js:45-53 | A parsed stored object is merged over the state; a missing or unparsable one changes nothing; no save |
| Store.AppState.Import | app.js:953-958 | A parsed file is merged over the state and saved once; a failed parse changes nothing |
| Store.AppState.Export | app.js:946-950 | The exported object restores the current state when merged over any document |
| Store.AppState.SetDoc | app.js:50 | Every key is replaced; nothing saved |
| Store.AppState.SaveProfile | app.js:91-97 | The profile comes from the form, the logo is kept, and one save follows |
| Store.AppState.SetLogo | app.js:78-89 | Only the logo changes, and nothing is saved |
| Store.AppState.SaveNeed | app.js:288-299 | Blank name: no change and no save; else append or replace with the form's need, then one save |
| Store.AppState.SaveNote | app.js:367-373 | Append or replace with the form's note, then one save |
| Store.AppState.SaveTask | app.js:459-469 | Blank title: no change and no save; else append or replace, then one save |
| Store.AppState.SaveRecipe | app.js:786-795 | Blank title: no change and no save; else append or replace, then one save |
| Store.AppState.SaveProduct | app.js:564-573 | Blank name: no change and no save; else append or replace, keeping the old image unless one was picked, then one save |
| Store.AppState.SaveInventory | app.js:624-631 | Blank name: no change and no save; else append or replace, then one save |
| Store.AppState.SaveReminder | app.js:876-884 | Blank title: no change; else the reminder is appended, saved once, and the scheduler is running |
| Store.AppState.DeleteNeed | app.js:233 | Splice the need out, then one save |
| Store.AppState.DeleteNote | app.js:344 | Splice the note out, then one save |
| Store.AppState.DeleteTask | app.js:422 | Splice the task out, then one save |
| Store.AppState.DeleteProduct | app.js:530 | Confirmed: splice out and save once; declined: no change |
| Store.AppState.DeleteInventory | app.js:601 | Confirmed: splice out and save once; declined: no change |
| Store.AppState.DeleteOrder | app.js:676 | Confirmed: splice out and save once; declined: no change |
| Store.AppState.DeleteRecipe | app.js:757 | Splice the recipe out, then one save |
| Store.AppState.DeleteReminder | app.js:850 | Splice the reminder out, then one save |
| Store.Checked | app.js:241-243 | The checkbox sets the shown status to 'Listo' or 'Pendiente', removes `acquired`, and keeps the other fields |
| Store.AppState.SetNeedChecked | app.js:238-245 | Only that need changes, to its checked form; one save |
| Store.AppState.SetTaskDone | app.js:411-416 | Only that task's `done` changes; its status is left; one save |
| Store.AppState.PlaceOrder | app.js:717-726 | No line: no change and no save; else the products are deducted line by line, exactly one order is appended, one save |
| Store.AppState.DeductLine | app.js:722-725 | The loop body: products become their one-line deduction; nothing else changes |
| Store.AppState.ScheduleCheck | app.js:889-891 | Afterwards the timer is running; a second call changes nothing |
| Store.AppState.Tick | app.js:891-899 | With the reminders list shown, reminders become `FireDue` and the log grows by every notification; otherwise only the first due reminder fires and at most one notification is logged; one save per notification; the last save holds the final state |
| Store.AppState.FireIfDue | app.js:893-898 | A due reminder is notified, marked fired and saved, and the result says it fired; any other one changes nothing |
| Store.AppState.SeedNeedsIfEmpty | app.js:968-1007 | An empty list is replaced by the seed and saved; otherwise nothing changes |
| Store.AppState.AddBulkNeeds | app.js:1012-1027 | Exactly the de-duplicated entries are appended after the unchanged existing needs; the count returned is their number; a save exactly when it is positive |
| Store.AppState.AddIfNew | app.js:1015-1023 | The `forEach` body: an item is taken exactly when its name is non-blank and its key new; then its entry is appended and its key recorded |
| Store.AppState.Startup | app.js:965-1073 | After start-up the state is the loaded document with the needs seeded and bulk-added, and the scheduler is running |

## Left out

- Rendering: all `render*` and `refresh*` markup, modals, `createModal`, `selectors`, `setActive` and `applyProfile`. They hold no state of their own. One effect of rendering is modelled: `refreshReminders()` writes into the `remList` element, which exists only while the reminders view is shown (app.js:824, 832-833). On any other view it throws and ends the tick after its first firing, so `Store.AppState.Tick` takes whether that view is shown as a parameter.
- Storage and JSON: `localStorage` and `JSON.parse`/`JSON.stringify`. They become an `Option<Patch>` parameter (`None` when nothing is stored or the text does not parse) and a ghost snapshot of what `save()` last wrote. A parsed value is taken to have the document's shape: a key holding a non-array, or an object of another shape, is not modelled. Every `save()` is taken to succeed. `localStorage.setItem` (app.js:55-57) can throw when the storage quota is exceeded, which data-URL images make likely (app.js:84-86, 569). The handler's change would then stay in memory without being written, and that case is not modelled.
- File APIs and download: `FileReader`, data URLs, `Blob` and `URL`. Images and the logo are opaque strings.
- Notifications: the `Notification` API, its permission chain, the `alert` fallback and the message texts. A notification is one entry in a ghost log, carrying the reminder's position, title and notes. The model assumes the `Notification` global exists. `notify` reads it (app.js:904) before the tick sets `r.fired = true` (app.js:896). In a browser without the API that read throws, so the tick ends before marking anything fired or saving, no reminder ever fires, and the `alert` fallback never runs.
- Time: `Date.now()`, `new Date(...)`, date formatting and the 30-second `setInterval` period. Times are integer parameters. `Store.AppState.Tick` is one run of the interval body and requires that the timer was started. A date input's value parses to midnight UTC, and `Forms.PrefilledDue` rounds a stored time down to that midnight, as `toISOString().substr(0,10)` does; times outside the range `toISOString` can format, where it throws, are not modelled.
- Input coercion: `Number(x) || 0`. Prices, quantities, stock, urgency and timestamps come in as integers. An empty or non-numeric field is taken as the number it coerces to, and there is no floating point.
- Reset: `location.reload` after clearing storage.
- Unicode: `toLowerCase`/`toUpperCase` are modelled for ASCII and Latin-1 letters only. Case mapping outside those, and mappings that change a string's length, are not modelled. Two Latin-1 letters whose upper case lies outside Latin-1 are left unchanged by `Text.UpperChar`, although JavaScript maps them: `ÿ` (U+00FF, to U+0178) and `µ` (U+00B5, to U+039C).
- `Markup.Abbreviate`: JavaScript indexes strings by UTF-16 code unit, so `p[0]` of a word that starts with a character outside the Basic Multilingual Plane is half a surrogate pair. The model indexes by Unicode scalar value and takes the whole character.
- Editor inputs: a single-line `<input>` strips line breaks from its value, and this sanitising is not modelled. The round-trip lemmas for needs, tasks, recipe titles and products hold for the strings passed to the form functions, which may contain line feeds. A `<textarea>` turns each carriage return into a line feed when its value is read. Neither `Forms.EditorNeed` nor `Forms.EditorRecipe` excludes `\r` from a description or a list entry, so for texts holding one the round-trip lemmas state more than the browser gives back.
- `Forms.PrefilledStock`: a stock that is not a number is modelled as absent (`None`). An imported stock that is a numeric string such as "7" is therefore not distinguished. The editor would pre-fill it and save 7, while the model pre-fills 0.
- `Markup.TitleFor`: the title table is a plain key lookup. Keys inherited from `Object.prototype` are not modelled.
- `Store.AppState.SaveNeed`, `SaveNote`, `SaveTask`, `SaveRecipe`, `SaveProduct`, `SaveInventory`: editing requires an index inside the list. The editors only open on the index of an item just read. JavaScript would grow the array on an index past its end, and that is not modelled.
- `Store.AppState.SetNeedChecked` and `SetTaskDone` require an in-range index. A checkbox only exists for an item that is shown.
- `Text.Words`: this is `split(/\s+/)` on a string that is already trimmed, which is the only use the program makes of it. It is not modelled on other strings.

Where the code behaves differently from what a reader might expect, the model follows the code:

- The task checkbox sets `done` alone and leaves `status` (app.js:414). The two can therefore disagree until the task is re-saved from its editor. `Forms.CheckboxUndoneByEdit` shows this.
- A picked logo is assigned to the state at once (app.js:86) and written by the next `save()` of any handler, not only the profile save (app.js:97). `Store.AppState.SetLogo` saves nothing.
- The tick saves once per fired reminder rather than once per tick (app.js:896).
- A tick fires every due reminder only while the reminders view is shown. On any other view, including the dashboard the app starts on (app.js:1073), the `refreshReminders()` call after the first firing throws (app.js:832-833, 897). That run then fires one reminder, and the others wait for later runs. `Reminders.FireFirstDueOne` and `Reminders.RepeatFireFirstCatchesUp` show this.
- In the order editor, only the first "Eliminar" click after an "Agregar" removes a line. The remove handler re-renders the list without attaching listeners (app.js:714). `Orders.OrderDraft.RemoveLine` models this with the `removable` flag.
- Start-up bulk-adds the owner's list on every run (app.js:1066), so a default need the owner deleted comes back at the next start. `Seed.StartupRestoresOwnerList` shows this.
- Stock deduction looks up the first product with the line's name, and only then checks whether its stock is a number (app.js:723-724). So a later product with the same name and a numeric stock is never deducted.
