# Health-alert policy for stock lots and moves

A Dafny model of the health-alert rules that the `stock_lot_health_alert`
Tryton module adds to `stock.lot` and `stock.move`:

- **Groups** — `HealthAlertGroupControl.in_group`: resolve XML ids such as
  `group_stock_lot_td` (or `module.name`) to group records, pick the acting
  user (the transaction user, or the context's `user` when running as the
  system user 0), let the system user through, and otherwise intersect the
  user's groups with the resolved ones. The three group tiers
  (`CHECK_HEALTH_ALERT_TRUE`, `MODIFY_HEALTH_ALERT_LOT`, `MODIFY_LOT`) are
  constants of this module.
- **Lots** — the display-name suffix and the checks `Lot.create`,
  `Lot.write`, `Lot.delete` and `Lot.copy` make before handing over to
  persistence, as functions returning `Pass` or a tagged error (one tag per
  message key), and a `LotTable` class whose methods run a check and change
  the stored rows only when it passes.
- **Moves** — the destination guard run at validation, the create/write/delete
  gates on moves that reference an alerted lot, the derived
  `lot_last_expiration_date` (a function for one move and a method with the
  source's loop over a list of moves), the draft-state lot domain that uses
  it, and a `MoveTable` class that gates, stores and validates.
- **Configuration** — the two shelf-life `TimeDelta` settings.
- **Values / Records** — the ORM as plain data: value maps
  `map<string, Value>` with Python truthiness and `dict.get`/`setdefault`
  semantics, and storage as "the rows after a successful operation".

Error tags: `RemoveLot`, `RemoveLotHealthAlert(lot)`, `ModifyLotDenied`,
`EditLotHealthAlertTrue(lots)`, `EditLotHealthAlert(lots)`,
`CreateLotHealthAlert`, `HealthAlertLotInvalidDestination(move, lot, toLocation)`,
`RemoveMoveHealthAlert(name)`, `EditMoveHealthAlert(names)`,
`CreateMoveHealthAlert(name)`.

Three behaviours of the code that differ from what one might expect:

- `Lot.copy` uses `setdefault`, so a caller's `default` that already holds
  `health_alert` keeps its value; the flag is forced to false only when the
  caller gives none (`Lots.CopyHealthAlert`).
- `Lot.delete` by a user outside `MODIFY_LOT` fails with `msg_remove_lot`
  before any lot is looked at; the alert message is raised only for users
  inside the group (every such deletion still fails: `Lots.AlertedLotNeverDeleted`).
- A write batch without the `health_alert` key never reaches the "clear the
  flag" branch, because `get` defaults to `True` there
  (`Lots.WriteBatchRules`, first ensures).

Dates are day ordinals, "today" is a parameter, and a `TimeDelta` is a whole
number of days plus a sub-day remainder: `date - timedelta` subtracts only the
days, while the setting counts as set whenever either part is non-zero.

## Model

| member | source | states |
|---|---|---|
| `Groups.FirstDotFinds` | stock.py:28 | `FirstDot` gives the index of the first '.' of an id, and none exactly when the id has no '.' |
| `Groups.Resolve` | stock.py:26-31 | an id without '.' keeps its whole text as the name; otherwise module, '.', name rejoin to the id |
| `Groups.ResolveSplits` | stock.py:26-31 | an id without '.' resolves under module `stock_lot_health_alert`; otherwise module and name split at the first '.' and rejoin to the id |
| `Groups.ActingUser` | stock.py:32-35 | the transaction user unless it is 0, then the context `user`; the result is 0 exactly when both are 0 or the context has none |
| `Groups.Authorized` | stock.py:32-39 | acting user 0 is always in the group; any other user is iff one resolved id names a group of that user |
| `Groups.InGroup` | stock.py:19-39 | the source's loop that collects the groups computes `Authorized`; an empty id list rejects every non-system user |
| `Groups.AuthorizedMonotone` | stock.py:38-39 | adding ids to the list never takes membership away |
| `Groups.TiersNest` | stock.py:10-12 | a `MODIFY_HEALTH_ALERT_LOT` member is also in `CHECK_HEALTH_ALERT_TRUE` and `MODIFY_LOT` |
| `Values.RefOf` | stock.py:170-171 | a many2one value yields a record id exactly when it is a positive id (`Lot(lot) if lot else None`) |
| `Values.SetDefault` | stock.py:114 | `setdefault` adds the key only when absent and keeps every other entry |
| `Lots.RecName` | stock.py:58-62 | the display name starts with the lot number and is longer exactly when the lot is alerted, the extra part being " (marker)" |
| `Lots.FirstAlerted` | stock.py:67-68 | the first alerted lot of the set, or none when no lot is alerted |
| `Lots.CheckDelete` | stock.py:65-74 | `RemoveLot` iff the user is outside `MODIFY_LOT`; pass iff inside and no lot is alerted; otherwise the number of the first alerted lot |
| `Lots.AlertedLotNeverDeleted` | stock.py:65-74 | a deletion containing an alerted lot fails whatever the user's groups |
| `Lots.CheckWriteBatch` | stock.py:81-97 | a failing batch fails with one of `ModifyLotDenied`, `EditLotHealthAlertTrue` or `EditLotHealthAlert` over its lots' numbers; the three rules are stated by `Lots.WriteBatchRules` |
| `Lots.WriteBatchRules` | stock.py:80-97 | key absent: pass iff in `MODIFY_LOT`, else `ModifyLotDenied`; truthy: pass iff in `CHECK_HEALTH_ALERT_TRUE` and (only key or in `MODIFY_HEALTH_ALERT_LOT`); falsy: pass iff in `MODIFY_HEALTH_ALERT_LOT`; errors carry the batch's lot numbers |
| `Lots.SetAlertAloneOnly` | stock.py:86-92 | a set-true-only user may write `{health_alert: True}` but not the flag together with another field |
| `Lots.CheckWrite` | stock.py:78-98 | the write passes iff every batch passes; otherwise the error is that of the first failing batch |
| `Lots.CheckCreate` | stock.py:101-107 | create passes iff the user is in `CHECK_HEALTH_ALERT_TRUE` or no entry has a truthy flag; otherwise `CreateLotHealthAlert` |
| `Lots.CopyDefaults` | stock.py:110-114 | the defaults are the caller's entries plus `health_alert`, false unless the caller gave it |
| `Lots.CopyHealthAlert` | stock.py:110-115 | a duplicate is alerted exactly when the caller's default supplies a truthy flag |
| `Lots.CopyPassesCreate` | stock.py:110-115 | without a truthy caller flag, the duplicates always pass the create check |
| `Lots.LotTable.Create` | stock.py:101-107 | fails exactly when `CheckCreate` does, storing nothing; on success each entry is stored under a new id and every old lot keeps its row |
| `Lots.LotTable.Write` | stock.py:77-98 | the outcome is `CheckWrite` over the stored lots; on failure no lot changes, on success the batches are applied in order |
| `Lots.LotTable.Delete` | stock.py:64-75 | the outcome is `CheckDelete`; the whole set is removed or nothing is |
| `Lots.LotTable.Copy` | stock.py:109-115 | on success the table is the old rows plus exactly the duplicates, stored under fresh ids with the copied defaults; duplicates carry the flag only if the caller asked, and always succeed without such a request; the copy fails exactly when the create check on the duplicates fails, with `CreateLotHealthAlert` |
| `Moves.CheckDestination` | stock.py:144-152 | fails iff the move has an alerted lot and its destination disallows alerted lots; the error names the move, lot and location |
| `Moves.Validate` | stock.py:138-142 | passes iff every move keeps the destination rule; otherwise the first offending move's error |
| `Moves.CheckDelete` | stock.py:154-162 | passes iff the user is in `MODIFY_HEALTH_ALERT_LOT` or no move has an alerted lot; otherwise the product of the first such move |
| `Moves.CheckWrite` | stock.py:164-177 | passes iff the user is in `MODIFY_HEALTH_ALERT_LOT` or no batch's values name an alerted lot; otherwise the products of the first such batch |
| `Moves.WriteGate` | stock.py:169-176 | the gate over the stored moves passes iff the user is in `MODIFY_HEALTH_ALERT_LOT` or no batch's values name an alerted lot; a failure is `EditMoveHealthAlert` |
| `Moves.WriteIgnoresCurrentLot` | stock.py:169-173 | batches whose values have no `lot` key pass, whatever lots the moves hold |
| `Moves.CheckCreate` | stock.py:179-193 | passes iff the user is in `MODIFY_HEALTH_ALERT_LOT` or no entry names an alerted lot; otherwise the product of the first such entry |
| `Configuration.Before` | stock.py:214 | subtracting a non-negative delay never yields a date after today |
| `Configuration.WholeDaysOnly` | stock.py:214 | only the whole days of the delay count: today minus the delay plus its days is today, whatever the sub-day remainder |
| `Configuration.SubDayDelay` | stock.py:213-214 | a delay of zero days and a positive remainder counts as set, yet subtracting it yields today |
| `Moves.LastExpirationDate` | stock.py:211-216 | a move gets a date only when its product tracks expiration and its shipment is inbound or an inbound return |
| `Moves.LastExpirationDateCases` | stock.py:211-216 | a move gets a date iff it has an inbound or inbound-return shipment, its product tracks expiration and the delay for that shipment kind is set; the date is today minus that delay's days |
| `Moves.LotLastExpirationDates` | stock.py:196-217 | the result has an entry for exactly the given moves, each the derived date of its move |
| `Moves.LotDomainAccepts` | stock.py:127-129 | a move outside draft, or without a last expiration date, accepts any lot; a lot without an expiration date is refused exactly when the move is draft and has a last expiration date; on such a move a dated lot is accepted iff it expires strictly after that date |
| `Moves.InboundShelfLife` | stock.py:127-129 | on a draft inbound move with an active delay of d days, a lot is accepted iff its expiration date is later than d days before today (`expiration_date > today - d`) |
| `Moves.WrittenAllowed` | stock.py:138-152 | the validation after a write passes iff every written move, as the write left it, keeps the destination rule; a failure is the error of the first offending written move; the write keeps every row resolvable |
| `Moves.ValidateWritten` | stock.py:138-142 | validating the moves a write names, read back from the table, passes iff each keeps the destination rule |
| `Moves.ValidateWrittenFails` | stock.py:138-152 | a failed validation of the written moves carries the `CheckDestination` error of the first move that breaks the rule |
| `Moves.CreateOutcome` | stock.py:179-193 | a gate failure is the outcome; otherwise the create passes iff every new move keeps the destination rule |
| `Moves.MoveTable.Create` | stock.py:179-193 | fails exactly when `CreateOutcome` does, with its error, storing nothing; on success the moves are stored under fresh consecutive ids and every row stays resolvable |
| `Moves.WriteOutcome` | stock.py:164-177 | a gate failure is the outcome; the write passes iff the gate passes and every written move, as the write left it, keeps the destination rule; after a passing gate a failure is the `CheckDestination` error of the first offending written move; the written rows stay resolvable |
| `Moves.MoveTable.Write` | stock.py:164-177 | the outcome is `WriteOutcome` over the stored moves; on failure nothing changes, on success the batches are applied in order |
| `Records.UntouchedUnchanged` | stock.py:98 | a record that no batch of a write names keeps its stored row |
| `Moves.MoveTable.Delete` | stock.py:154-162 | the outcome is `CheckDelete`; the whole set is removed or nothing is |

## Left out

- The ORM lookups (`Pool`, `Group(...)`, `ModelData.get_id`, `User(...)`,
  `Lot(id)`, `Product(...)`, `Config(1)`) become plain data: a registry from
  XML ids to group ids, a map from users to group sets, and maps of lot,
  location and product rows. Members require that the records they read
  exist (registered groups, the acting user, referenced lots, products and
  destinations); the source raises in those cases. The expiration-date
  getter requires every move's product to exist, since `product` is a
  required field of a move.
- Persistence (`super()` calls) is the row maps after a successful call:
  create stores under consecutive fresh ids, write merges the value map into
  each row batch by batch, delete removes the ids. Field defaults, required
  fields, access rules and the other validations of `stock.move` are not
  modelled; move create and write do run the health-alert validation, as the
  framework calls `validate` after storing.
- `Transaction()` and its context: the user id and the context `user` are
  fields of `Groups.Env`.
- `gettext` rendering: errors are tags with parameters; the translated
  "Health Alert" text of the display name is the `marker` parameter.
- Moves.CheckDestination: the error carries the move id and the location id where the message shows their display names, which are computed outside this module; for the lot it carries the number and drops the translated " (marker)" suffix that this module's `Lot.get_rec_name` (`Lots.RecName`) adds to an alerted lot, which every lot this error names is.
- Lots.LotTable.Copy: callable defaults and the framework's per-field copy rules are not modelled; a duplicate is the source row overlaid with the defaults.
- The PYSON lot domain and context edits in `Move.__setup__`: only the
  domain's condition is stated (`Moves.LotDomainAccepts`); the
  `stock_date_date` and `locations` context keys are not modelled.
- `Date.today()` is a parameter; dates are unbounded day ordinals, so the
  `OverflowError` of dates before year 1 is not modelled.
- Value-map entries outside the ORM's value domain (a negative or non-integer
  many2one value) read as "no record".
- `__init__.py` (registration only) and `Location.allow_health_alert` (a bare
  field, read through `Moves.AllowsHealthAlert`).
- Concurrency and transaction isolation: a rejected call changes nothing,
  which stands in for the rollback.
