# Crystal ledger and profile store of the waifu bot

This project models, in Dafny, the `Database` class of the bot's persistence
layer (`database.py`). The SQLite file becomes the fields of a Dafny class
`Store.Database`:

- `users` is a map from user id to a `Ledger.UserRow`. A row holds three crystal
  counters (daily, weekly, monthly), a claim timestamp per category, and the
  `first_logged` flag.
- `groups` is a map from chat id to title.
- `profiles` is a map from user id to a `Profiles.Profile`.
- `rarities` is a map from (user id, rarity) to a count.
- `owned` (`user_waifus`) and `cards` (`waifu_cards`) are sequences. They are read
  here and written elsewhere.
- `userColumns` is the set of column names of `users`, each with its definition.

Each mutator is a method with a field-level `modifies` frame. Its `ensures`
clause gives the new table as a function of the old one. The readers are
functions of the tables. Column names that the source builds from strings
(`f"{k}_crystals"`, `f"{claim_type}_claim"`) become the three-valued
`Ledger.Category`. Timestamps are strings, compared as Python compares `str`
(`Timestamps.Less`).

Modules:

- `Wrappers` holds `Option`, which stands for NULL and None.
- `Timestamps` holds Python's string order and `max`.
- `Ledger` holds the users row, categories, crediting and the `get_crystals` summary.
- `Profiles` holds the profile row, defaults-then-replace, and the rarity increment and map.
- `Cards` holds the join-and-sum behind `get_user_rarity_count`.
- `Schema` holds the legacy-column patch.
- `Store` holds the class.

Two behaviours of `add_crystals` that a caller might not expect, both kept here:

- `add_crystals` runs `UPDATE … WHERE user_id = ?`, so it never creates a missing
  row (`Store.Database.AddCrystals` leaves `users` unchanged for such a user).
- `add_crystals` silently skips keyword names other than `daily`, `weekly` and
  `monthly`. It raises no invalid-category error (`Ledger.CreditedIgnoresUnknownKeys`).

## Model

| member | source | states |
|---|---|---|
| `Store.Database.Open` | database.py:8-12 | Opening keeps every table's rows and patches the `users` columns, so the store is `Valid()` |
| `Store.Database.AddMissingColumn` | database.py:63-72 | A missing column is added (`first_logged` as INTEGER DEFAULT 0, others as TEXT); an existing one is untouched |
| `Store.Database.PatchUserColumns` | database.py:59-61 | After the loop the three claim columns and `first_logged` exist; the columns equal the step-by-step patch of the old ones |
| `Schema.LegacyColumns` | database.py:60 | The patched names are the claim column of each category plus `first_logged` |
| `Schema.AddColumn` | database.py:63-72 | Adds exactly the name; existing column definitions never change; a new column gets the type chosen by name |
| `Schema.AddColumns` | database.py:60-61 | Every listed name ends up a column, and every existing column keeps its definition |
| `Schema.AddColumnsSpec` | database.py:59-61 | Patching adds exactly the listed names, keeps existing definitions, and types new ones by name |
| `Schema.AddColumnsIdempotent` | database.py:59-72 | Running the patch twice, as on a restart, equals running it once |
| `Store.Database.AddUser` | database.py:75-80 | INSERT OR IGNORE: an existing row is unchanged; a new id gets `NewUser`, whose balance is all zero and flag unset |
| `Ledger.NewUser` | database.py:18-33 | A new row has the given names, language "en", every counter 0, every claim NULL and `first_logged` 0 |
| `Ledger.NewUserHasNoBalance` | database.py:100-117 | A new user's `get_crystals` tuple is `(0, 0, 0, 0, None)` |
| `Store.Database.IsFirstLogged` | database.py:82-85 | True exactly when the user has a row whose flag is 1; False for an unknown user |
| `Store.Database.SetFirstLogged` | database.py:87-89 | Sets the flag to 1 on an existing row only, after which `IsFirstLogged` holds; a missing user stays missing |
| `Ledger.ParseCategory` | database.py:94-96 | Exactly "daily", "weekly" and "monthly" are recognised, each as the category of that name |
| `Ledger.ParseName` | database.py:95 | Every category's name is recognised as that category |
| `Ledger.UserRow.WithCrystals` | database.py:96-97 | Setting one counter changes that counter only; other counters and all other columns keep their values |
| `Ledger.UserRow.WithClaim` | database.py:126-128 | Setting one claim changes that claim only; the other claims and all other columns keep their values |
| `Store.Database.AddCrystals` | database.py:92-98 | An existing row becomes `Credited(row, kwargs)`; a missing user is not created and `users` is unchanged |
| `Ledger.Credited` | database.py:92-98 | Each counter grows by the sum of amounts given under its category name; no other column changes |
| `Ledger.AmountForAppend` | database.py:94-97 | Amounts from a longer keyword list are the sum of the amounts of its parts |
| `Ledger.AmountForUnrecognised` | database.py:95 | Keywords that are not category names contribute 0 to every counter |
| `Ledger.CreditedStep` | database.py:94-97 | One more keyword either adds its amount to its category's counter or, if unrecognised, changes nothing |
| `Ledger.CreditedTwice` | database.py:97 | Crediting is additive across calls: `daily=5` twice equals `daily=10` once |
| `Ledger.CreditedOne` | database.py:95-97 | A single recognised keyword adds its amount to that counter only |
| `Ledger.CreditedIgnoresUnknownKeys` | database.py:95 | Keyword lists with no category name leave the row unchanged |
| `Store.Database.GetCrystals` | database.py:100-117 | `(0, 0, 0, 0, None)` for an unknown user, otherwise the summary of the user's row |
| `Ledger.Summary` | database.py:113-117 | Counters as stored, `total` is their sum, and `last_claim` is None iff no claim is non-empty; otherwise it is one of the non-empty claims and no non-empty claim is greater |
| `Ledger.PresentClaims` | database.py:115 | The list holds exactly the claims that are neither NULL nor the empty string |
| `Ledger.SummaryLastClaimAnyOrder` | database.py:115-116 | `last_claim` does not depend on the order the three claims are listed in: listing them monthly, weekly, daily gives the same greatest claim |
| `Ledger.Present` | database.py:115 | A claim passes the `if ts` filter exactly when it is neither NULL nor the empty string |
| `Ledger.Keep` | database.py:115 | A claim contributes at most one timestamp, and contributes `t` exactly when it is `t` and `t` is non-empty |
| `Ledger.AmountFor` | database.py:94-97 | A category no key names is credited nothing; with non-negative amounts the credit is non-negative |
| `Ledger.ColumnsDistinct` | database.py:96-128 | The `{k}_crystals` and `{k}_claim` columns that the three categories name are pairwise distinct, and no crystal column is a claim column |
| `Ledger.CreditKeepsLastClaim` | database.py:92-117 | Crediting leaves `last_claim` alone and raises `total` by the credited amounts |
| `Ledger.ClaimRaisesLastClaim` | database.py:113-129 | After a non-empty claim `t` is recorded, `last_claim` is present and at least `t`, and `total` is unchanged |
| `Timestamps.LessIrreflexive` | database.py:116 | No string is smaller than itself |
| `Timestamps.LessAsymmetric` | database.py:116 | If `a < b` then not `b < a` |
| `Timestamps.LessTransitive` | database.py:116 | String order is transitive |
| `Timestamps.LessTotal` | database.py:116 | Any two strings are equal or one is smaller |
| `Timestamps.Less` | database.py:116 | String `<` never holds between equal strings, and a proper prefix is smaller than the string it begins |
| `Timestamps.MaxStep` | database.py:116 | One step of `max` keeps a value at least as large as both candidates |
| `Timestamps.MaxFrom` | database.py:116 | `max` run left to right returns an element of the list that is at least every element |
| `Timestamps.Latest` | database.py:116 | None iff the list is empty; otherwise an element of the list that no element exceeds |
| `Timestamps.LatestIsTheGreatest` | database.py:116 | The greatest element is unique: any element at least all others is the one returned |
| `Timestamps.LatestIgnoresOrder` | database.py:115-116 | The latest claim does not depend on the order of the claims |
| `Store.Database.GetLastClaim` | database.py:119-124 | The stored claim of that category (possibly NULL), or None for an unknown user |
| `Store.Database.UpdateLastClaim` | database.py:126-129 | On an existing user only that category's claim becomes `t`, and `GetLastClaim` returns `t`; other categories and users are unchanged; a missing user stays missing, and its claim reads None |
| `Store.Database.AddGroup` | database.py:132-137 | INSERT OR IGNORE of a group; the group count grows by one exactly when the chat id is new |
| `Store.Database.GetTotalGroups` | database.py:139-141 | `COUNT(*)`: the number of distinct chat ids stored |
| `Store.Database.GetUserProfile` | database.py:179-204 | None iff there is no profile row, whatever rarity rows exist; otherwise the stored profile with exactly that user's rarities and their counts |
| `Profiles.RaritiesOf` | database.py:200-201 | The map holds exactly the rarities stored for that user, each with its stored count |
| `Store.Database.AddOrUpdateProfile` | database.py:206-232 | The row becomes `Merge(fields)` whether or not one existed, so `GetUserProfile` returns exactly it; other users' rows are unchanged |
| `Profiles.Update` | database.py:218 | Dict update, key by key: each supplied field takes the supplied value, each omitted field keeps the base value; hence no fields changes nothing, all fields replace everything, complete stays complete |
| `Profiles.UpdateTwice` | database.py:218 | Two updates are one update where the later fields win |
| `Profiles.Merge` | database.py:208-218 | The stored fields are the defaults updated by the supplied fields; the old row plays no part |
| `Profiles.MergeAllFields` | database.py:218-231 | Supplying every field stores exactly those values |
| `Profiles.MergeNoFields` | database.py:209-217 | Supplying nothing stores level 1, "Newbie", "None", 0, 0, 0, "Unranked" |
| `Profiles.MergeResetsOmitted` | database.py:208-231 | Supplying only `level` stores the defaults elsewhere, so the rank is "Newbie" whatever it was |
| `Profiles.ReadModifyWriteKeepsOmitted` | database.py:218-231 | Writing back the stored fields updated by new ones keeps the stored values of omitted fields |
| `Store.Database.UpdateUserRarity` | database.py:234-242 | A new (user, rarity) pair starts at `count`, an existing one grows by `count`, and no other pair changes |
| `Profiles.Bump` | database.py:236-241 | The pair is present afterwards with `count` or old + `count`; every other pair is unchanged |
| `Profiles.BumpTwice` | database.py:240 | Increments accumulate: three increments of 1 give 3 |
| `Profiles.BumpCommutes` | database.py:236-241 | The order of increments does not matter |
| `Profiles.BumpOtherUser` | database.py:200-241 | An increment for one user leaves every other user's rarity map unchanged |
| `Profiles.BumpOwnUser` | database.py:200-241 | An increment changes the user's own rarity map at that rarity only |
| `Store.Database.GetUserRarityCount` | database.py:279-289 | 0 when nothing joins; on a valid database (card ids unique), the sum of the user's amounts of cards of that rarity |
| `Cards.SqlSum` | database.py:284 | SQL `SUM` is NULL exactly over no rows, and otherwise the sum of the rows |
| `Cards.RarityCount` | database.py:283-289 | The joined amounts' sum, and 0 when no row joins |
| `Cards.CardRarity` | database.py:285 | None exactly when no catalog entry has that id; otherwise the rarity of the first entry with that id |
| `Cards.JoinRow` | database.py:284-286 | An ownership row joins, contributing its amount, exactly when it is the user's and some catalog entry with its card id has the rarity |
| `Cards.Joined` | database.py:284-286 | Every joined amount is an amount of one of the user's rows; the join is empty exactly when no row joins |
| `Cards.SumAppend` | database.py:284 | Sum distributes over concatenation |
| `Cards.JoinRowAbsent` | database.py:285 | An ownership row whose card is not in the catalog joins nothing |
| `Cards.JoinRowUnique` | database.py:285-286 | With unique card ids an ownership row joins once, with its own card, or not at all |
| `Cards.RarityCountByCatalog` | database.py:283-289 | With unique card ids, the join-and-sum equals the per-row sum over the user's cards of that rarity |
| `Cards.RarityCountAppend` | database.py:283-289 | The count over more ownership rows is the sum of the counts of the parts |
| `Cards.RarityCountNoMatch` | database.py:283-289 | With no ownership row of that user holding a card of that rarity, the count is 0 |
| `Cards.OwnedOfRarityZero` | database.py:283-289 | The per-row sum is 0 when no row matches |
| `Cards.RarityCountNonNegative` | database.py:283-289 | With non-negative amounts, the count is not negative |
| `Cards.JoinRowNonNegative` | database.py:285 | A row with a non-negative amount contributes a non-negative sum |

## Left out

- The SQLite connection, cursor, `commit` and `close`, and `check_same_thread=False`. These are library I/O. Every method here is one atomic change.
- `CREATE TABLE` in `setup`, `setup_profile_tables` and `ensure_waifu_cards_schema`, the `PRAGMA table_info` reads, and the column patch of `waifu_cards`. These are schema bootstrap. `Store.Database.Open` takes the tables as they stand on disk.
- The column set does not govern the rows. Every `UserRow` carries all columns, including ones a legacy table would lack before the patch.
- `log_event`, an append to `logs` that nothing reads back, is not modelled.
- `joined_at`, `added_at` and the other `CURRENT_TIMESTAMP` defaults are not modelled, because they depend on the clock.
- Store.Database.AddCrystals: SQLite stores INTEGER in 64 bits and turns an overflowing sum into a REAL, and Python's sqlite3 raises `OverflowError` when binding an amount `v` outside 64 bits (database.py:97). Counters and amounts here are unbounded integers.
- Store.Database.UpdateUserRarity: the 64-bit limit of `count` is not modelled: binding a `count` outside 64 bits raises `OverflowError` (database.py:241), and the stored sum overflows like the crystal counters.
- Store.Database.AddCrystals: Python's `**kwargs` is a sequence of (name, amount) pairs here. The model allows repeated names, which Python's keyword syntax rules out, and adds each one. Amounts are integers; other Python values are not modelled.
- Store.Database.AddOrUpdateProfile: keyword arguments are a record with one optional field per profile column. A keyword that names no column is not representable. Field values are typed (integers and strings), not arbitrary Python values.
- Store.Database.GetLastClaim and Store.Database.UpdateLastClaim: a category outside daily, weekly and monthly cannot be written, so the SQL error an unknown column name raises is not modelled.
- Foreign keys from `user_profiles` and `user_rarities` to `users` are declared but not enforced (SQLite's default). The model does not relate these tables.
- The `user_waifus` and `waifu_cards` tables are written by code that is not part of this model. Here they are read-only sequences, and of `waifu_cards` only the id and rarity are kept.
- Store.Database.AddUser: like every other method, it takes `user_id` as an unbounded integer, while sqlite3 raises `OverflowError` when binding an integer outside 64 bits. The same holds for `chat_id` in `AddGroup` (database.py:136) and for the integer profile fields and `user_id` bound in `AddOrUpdateProfile` (database.py:231); the model accepts any `int` for all of them.
- Store.Database.GetUserRarityCount: SQLite's `SUM` fails with an integer-overflow error when a partial sum leaves 64 bits (database.py:284); `RarityCount` returns the unbounded sum.
- Store.Database.GetUserRarityCount: `amount` is never NULL here, so SQL's skipping of NULL amounts in `SUM` is not modelled.
- The `/balance` command handler only formats `get_crystals` for display, so it is not modelled.
