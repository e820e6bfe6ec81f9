# Catalogue store of the Grâce Auto Service site, in Dafny

The site sells and rents vehicles and rents residences. All of its state is
one document kept in the browser's local storage: the vehicle list
(`vehicules`, each tagged `categorie` "vente" for sale or "location" for
rent), the residence list, the reservation list, a `locations` list that
only the seed data fills, and `lastUpdate`. The `Database` class of
`js/database.js` owns that document. Its getters filter and look it up.
Its mutators append, merge-patch or splice records. Every change that
succeeds ends in `saveToStorage`, which stamps `lastUpdate`, writes the
whole document to storage and fires a `databaseUpdated` event. The
`Security` class in the same file sanitises user input and checks email
addresses and phone numbers.

The model has three modules:

- `Records` (records.dfy): JSON values and records, with records as maps
  from field name to value. It holds the list operations the store uses:
  `findIndex` by id, `filter` by category, `find` by id, the shallow merge
  `{...r, ...patch}`, and the edits that patch or splice the first match.
- `Security` (security.dfy): `sanitizeInput`, `validateEmail` and
  `validatePhone`. Their regular expressions are written as explicit
  character-class predicates. JavaScript's `\s` is the ECMAScript
  WhiteSpace and LineTerminator set, which is also what `trim` strips.
- `Store` (store.dfy): the `Document` datatype with the getters as pure
  member functions, the seed data, and the `Database` class. The class
  keeps the document in a field `data`. A ghost field `stored` stands for
  the copy in local storage, and a ghost counter `syncEvents` counts the
  change events. Every method keeps the invariant `Synced()`: storage holds
  exactly the in-memory document.

Clock readings are parameters. `clock` stands for `Date.now()`, used as the
new id. `now` stands for the ISO timestamp that `saveToStorage` writes.
`date` stands for the timestamp `addReservation` stores. Ids are integers.
`getItemById` applies `parseInt` to its argument, which leaves an integer
below 10^21 unchanged (every `Date.now()` id), while `updateItem`, `deleteItem` and `updateReservationStatus`
compare with `===`. A string id such as "12" therefore finds an item but
updates or deletes nothing. The model takes integer ids throughout, so
that difference does not show in it.

Quirks of the code that the model keeps:

- `updateItem` patches the first matching vehicle AND the first matching
  residence, not a single first match.
- `deleteItem` looks at residences only when no vehicle matches.
- The seed ids collide: id 1 is the Toyota, the Peugeot of the seed
  `locations` list and the Paris flat. Deleting id 1 therefore does not
  make id 1 unfindable (`SeedDeleteOneLeavesResidence`).
- Categories are "vente" and "location", and a new reservation's status is
  "en attente". `updateReservationStatus` accepts any value.
- A stored document that cannot be parsed is not treated as "no data":
  `loadFromStorage` does not catch the parse error.

## Model

| member | source | states |
|---|---|---|
| `Records.FindIndex` | js/database.js:137 | `findIndex` by `id ===`: the index of the first record with that id, or -1 exactly when no record has it |
| `Records.FindById` | js/database.js:113 | `find` by id: none exactly when no record has the id; otherwise the record at the first matching position |
| `Records.FilterCategory` | js/database.js:95-101 | every record of the category, each as often as it occurs in the input, and no record of another category |
| `Records.FilterCategoryAppend` | js/database.js:95-101 | filtering distributes over concatenation, so the listing keeps document order |
| `Records.Merge` | js/database.js:139-142 | `{...r, ...patch}`: the keys of both; patch keys take the patch's values; every other key keeps its old value |
| `Records.PatchFirst` | js/database.js:137-142 | same length; the first record with the id is merged with the patch; every other record is unchanged; no match means no change |
| `Records.RemoveFirst` | js/database.js:164-166 | no match leaves the list as it was; otherwise exactly the first match is spliced out, the rest kept in order, one shorter |
| `Records.FindByIdAppend` | js/database.js:107-114 | a lookup in `[...a, ...b]` returns the match in `a` when there is one, so `a` shadows `b` |
| `Records.RemoveFirstAppend` | js/database.js:163-176 | splicing the first match out of `a + b` takes it from `a` when `a` has one, else from `b` |
| `Records.FindAppended` | js/database.js:116-131 | a record appended with an id no earlier record has is what the lookup returns |
| `Records.MergeOneField` | js/database.js:198 | merging a one-field patch is the field assignment `r.key = v` |
| `Records.PatchFirstKeepsLookup` | js/database.js:133-154 | after a patch that keeps the id, the lookup finds the old first match with the patch merged in |
| `Records.RemoveUniqueLeavesNone` | js/database.js:163-179 | when at most one record has the id, removing the first match leaves none |
| `Security.RemoveAngleBrackets` | js/database.js:230 | no '<' or '>' left; bracket-free input comes back unchanged |
| `Security.RemoveAngleBracketsCounts` | js/database.js:230 | every character other than '<' and '>' is kept as often as it occurred |
| `Security.RemoveAngleBracketsAppend` | js/database.js:230 | removal distributes over concatenation, so the remaining characters keep their order |
| `Security.TrimStart` | js/database.js:231 | a suffix of the input that does not start with whitespace; all that was dropped is whitespace |
| `Security.TrimEnd` | js/database.js:231 | a prefix of the input that does not end with whitespace; all that was dropped is whitespace |
| `Security.Trim` | js/database.js:231 | a slice of the input with only whitespace around it, neither starting nor ending with whitespace |
| `Security.Truncate` | js/database.js:232 | `substring(0, 1000)`: the prefix of length min(1000, n) |
| `Security.TrimKeepsNoAngleBrackets` | js/database.js:230-231 | trimming text that has no brackets leaves text with no brackets |
| `Security.SanitizeString` | js/database.js:229-232 | no '<' or '>', no leading whitespace, at most 1000 characters: the first min(1000, n) characters of the trimmed, bracket-free text |
| `Security.Sanitize` | js/database.js:227-233 | non-strings come back unchanged; strings come back as strings with no brackets, no leading whitespace, length at most 1000 |
| `Security.SanitizeKeepsCleanInput` | js/database.js:227-233 | a string without brackets or surrounding whitespace and at most 1000 long comes back unchanged |
| `Security.SanitizeNotIdempotent` | js/database.js:229-232 | trim comes before the cut, so a long input whose 1000th character is whitespace comes out ending in whitespace and changes when sanitised again |
| `Security.IndexOf` | js/database.js:236 | the first position of the character, or -1 exactly when it does not occur |
| `Security.EmailMatchForcesShape` | js/database.js:236 | a string the email regex matches has no whitespace, one '@' with text before it, and a '.' after it that is not the first or last character of the domain |
| `Security.ValidateEmail` | js/database.js:235-238 | true exactly when `/^[^\s@]+@[^\s@]+\.[^\s@]+$/` matches, with the regex read as positions of '@' and '.' |
| `Security.AllPhoneChars` | js/database.js:241 | true exactly when every character is a digit, whitespace, '+', '-', '(' or ')' |
| `Security.ValidatePhone` | js/database.js:240-243 | true exactly when the length is 10 to 15 and every character is in `[0-9\s\+\-\(\)]` |
| `Store.Document.GetVehicules` | js/database.js:95-97 | only vehicles with category "vente", each as often as in `vehicules`; nothing else |
| `Store.Document.GetLocations` | js/database.js:99-101 | only vehicles with category "location", taken from `vehicules` (never from the seed `locations` list) |
| `Store.Document.GetAllItems` | js/database.js:107-109 | the vehicles followed by the residences |
| `Store.Document.GetResidences` | js/database.js:103-105 | every residence, unfiltered: the part of `getAllItems` after the vehicles |
| `Store.Document.GetReservations` | js/database.js:191-193 | the reservation list in document order |
| `Store.Document.GetItemById` | js/database.js:111-114 | none exactly when neither list has the id; a vehicle with the id shadows any residence with it; otherwise the first matching residence |
| `Store.Document.WithoutItem` | js/database.js:163-179 | seen through `getAllItems`, the first match of the whole catalogue is removed; residences untouched when a vehicle matched; other fields unchanged |
| `Store.Seed` | js/database.js:12-66 | the seed: two vehicles, one seed rental in `locations`, one residence, no reservations |
| `Store.Database.constructor` | js/database.js:3-10 | keeps a usable stored document without saving; otherwise installs the seed, saves once; storage mirrors memory |
| `Store.Database.InitializeDefaultData` | js/database.js:12-69 | the document becomes the seed data and is saved, with one event |
| `Store.Database.SaveToStorage` | js/database.js:78-84 | only `lastUpdate` changes, to the save time; storage then equals the document; one more event |
| `Store.Database.TriggerSync` | js/database.js:87-92 | one more change event; document and storage unchanged |
| `Store.Database.AddVehicule` | js/database.js:116-122 | the record gets id = clock and `disponible = true` and is appended to `vehicules` only; saved |
| `Store.Database.AddResidence` | js/database.js:124-131 | as AddVehicule, with `categorie = "location"` forced, appended to `residences` only; saved |
| `Store.Database.UpdateItem` | js/database.js:133-161 | true exactly when a vehicle or residence has the id; then both lists are patched at their first match and saved; otherwise no change and no event |
| `Store.Database.DeleteItem` | js/database.js:163-179 | true exactly when an item has the id; then the document becomes `WithoutItem(id)` and is saved; otherwise no change and no event |
| `Store.Database.AddReservation` | js/database.js:182-189 | the record gets id = clock, `date`, `statut = "en attente"` and is appended; the list grows by one; saved |
| `Store.Database.UpdateReservationStatus` | js/database.js:195-203 | true exactly when a reservation has the id; then only its first match gets the new `statut` and the store saves; otherwise no change and no event |
| `Store.Database.ExportDatabase` | js/database.js:206-208 | the exported document is the one storage holds |
| `Store.Database.ImportDatabase` | js/database.js:210-220 | a parse error returns false and changes nothing; a parsed document replaces the old one wholesale and is saved; importing the export changes only `lastUpdate` |
| `Store.AddedVehiculeIsFound` | js/database.js:116-122 | a vehicle added under an id no vehicle has is what `getItemById` then returns, even when a residence has that id |
| `Store.AddedReservationIsListed` | js/database.js:182-193 | after adding a reservation, `getReservations` is the old list followed by it, and under an id no reservation had the lookup by that id finds it |
| `Store.AddedResidenceIsFound` | js/database.js:124-131 | a residence added under an id no item has is what `getItemById` then returns |
| `Store.AddedVehiculeListings` | js/database.js:95-101 | adding a vehicle extends the sale or the rental listing by exactly that vehicle, by its category, and leaves the other listing as it was |
| `Store.UpdatedItemIsFound` | js/database.js:133-154 | after `updateItem` with a patch that keeps the id, the lookup returns the old record with the patch merged in |
| `Store.DeletedUniqueItemIsGone` | js/database.js:163-179 | when only one item has the id, after `deleteItem` the lookup finds nothing and the catalogue is one item shorter |
| `Store.StatusUpdateTouchesOnlyStatut` | js/database.js:195-198 | the status update changes only the `statut` field of the first matching reservation; every other field and reservation is unchanged |
| `Store.SeedLookupAndListings` | js/database.js:14-63 | on the seed, id 1 yields the Toyota; the sale listing is the Toyota and the rental listing the Mercedes, without the Peugeot |
| `Store.SeedDeleteOneLeavesResidence` | js/database.js:14-63 | on the seed, deleting id 1 removes the Toyota, and id 1 then finds the Paris flat |
| `Store.SeedUpdateOnePatchesBoth` | js/database.js:14-63 | on the seed, updating id 1 patches both the Toyota and the Paris flat |

## Left out

- Local storage, `JSON.stringify`/`JSON.parse` (the RFC 8259 text format) and the `CustomEvent` dispatch are not modelled. Storage is the ghost field `stored`, taken to hold exactly the saved document. The serialiser is assumed to round-trip. Events are the counter `syncEvents`.
- `Store.Database.ExportDatabase` returns the document, not its pretty-printed JSON text. `ImportDatabase` takes the outcome of parsing (`Malformed` or `Parsed(doc)`), not text.
- `Store.Database.ImportDatabase` assumes a well-formed import is an object carrying the four lists. The source also accepts `5`, `null` or a string. It assigns that value to `this.data`, and then the strict-mode write of `lastUpdate` throws. The catch then returns false with the data already replaced. An object without the lists is saved as it is, and later getters throw. Neither case is modelled.
- `Store.Database.constructor` takes `None` for both "nothing stored" and "stored object without a truthy `vehicules`", because both lead to the seed. A stored text that does not parse makes the source's constructor throw; that is not modelled.
- Aliasing is not modelled. Records are values here. In the source, `addVehicule`, `addResidence` and `addReservation` stamp and return the caller's own object. `getResidences` and `getReservations` return the live arrays. `updateReservationStatus` mutates the record in place, so earlier references see the change.
- `Store.Database.SaveToStorage` and the mutators that call it (`AddVehicule`, `AddResidence`, `UpdateItem`, `DeleteItem`, `AddReservation`, `UpdateReservationStatus`, `ImportDatabase`): a failing storage write is not modelled. In the source, `localStorage.setItem` can throw, for instance when the quota is exceeded. It throws after memory has changed and `lastUpdate` was rewritten, so storage falls behind memory, `Synced()` no longer holds, and no event fires. `importDatabase` then catches the error and returns false with the new data already in place.
- `Records.Value` has no object case, so a record field holding a nested object cannot be represented. Such a field can arrive through `importDatabase`; the operations modelled here never look inside it.
- Numbers are integers; JavaScript doubles, `parseFloat` prices and `NaN` are not modelled. `Date.now()` is any integer the caller passes, so id collisions are possible. The lemmas that need a fresh id say so in their hypotheses.
- Strings are sequences of Unicode characters, while JavaScript counts UTF-16 code units. For `validatePhone` this makes no difference: every character the phone class admits is in the Basic Multilingual Plane, so a string holding any other character fails in both. For `sanitizeInput` it does: the 1000-unit cut counts characters outside that plane twice, and it can split a surrogate pair.
- `Security.ValidateEmail` and `Security.ValidatePhone` take strings. The source's `test` converts other values to strings first.
- `Security.SanitizeString` does not promise the absence of trailing whitespace. The source does not guarantee it either: see `SanitizeNotIdempotent`.
- The `Auth` class (token in local storage, `btoa`, page redirects) is not part of this model; it is a placeholder login with no logic to verify.
- The admin panel (js/admin.js), the reservation form (js/reservation.js) and the site scripts (js/main.js) are not part of this model. They are DOM templating, form wiring, notifications, price formatting and the WhatsApp link. `getStats` and `getSettings`, which js/admin.js calls, are not defined in js/database.js and are not part of this model.
- Two tabs writing the same storage key (last writer wins) are not modelled. The model has one store object, so `Synced()` cannot be broken from outside.
