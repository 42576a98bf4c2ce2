/** The health-alert policy of `stock.move`: the destination guard run at
    validation, the create/write/delete gates on alerted lots, the derived
    `lot_last_expiration_date`, and the move table they guard. */
module Moves {

  import opened Outcomes
  import opened Values
  import opened Groups
  import opened Configuration
  import opened Records
  import Lots

  type MoveId = nat
  type LocationId = nat
  type ProductId = nat

  /** One tag per message the move hooks raise, with the message's parameters
      (records the message shows by display name are given by id). */
  datatype MoveError =
    | HealthAlertLotInvalidDestination(move: MoveId, lot: string, toLocation: LocationId)
    | RemoveMoveHealthAlert(name: string)          // msg_remove_move_health_alert
    | EditMoveHealthAlert(names: seq<string>)      // msg_edit_move_health_alert
    | CreateMoveHealthAlert(name: string)          // msg_create_move_health_alert

  /** The records moves refer to: lots, locations and products. */
  datatype Catalog = Catalog(
    lots: map<Lots.LotId, Row>,
    locations: map<LocationId, Row>,
    products: map<ProductId, Row>)

  // ---------------------------------------------------------------------
  // reading a move row or a value map

  /** The `lot` a move (or a value map) names exists, if it names one. */
  predicate LotKnown(cat: Catalog, row: Row)
  {
    RefOf(row, "lot").Some? ==> RefOf(row, "lot").value in cat.lots
  }

  /** The move (or value map) names a lot, and that lot is under health alert. */
  predicate AlertedLot(cat: Catalog, row: Row)
    requires LotKnown(cat, row)
  {
    RefOf(row, "lot").Some? && Lots.HealthAlert(cat.lots[RefOf(row, "lot").value])
  }

  predicate ProductKnown(cat: Catalog, row: Row)
  {
    RefOf(row, "product").Some? && RefOf(row, "product").value in cat.products
  }

  function ProductName(cat: Catalog, row: Row): string
    requires ProductKnown(cat, row)
  {
    Text(cat.products[RefOf(row, "product").value], "name")
  }

  /** The product names of a batch of moves, in order, for the error messages. */
  function ProductNames(cat: Catalog, moves: seq<Row>): (ns: seq<string>)
    requires forall i :: 0 <= i < |moves| ==> ProductKnown(cat, moves[i])
    ensures |ns| == |moves|
    ensures forall i :: 0 <= i < |moves| ==> ns[i] == ProductName(cat, moves[i])
  {
    seq(|moves|, i requires 0 <= i < |moves| => ProductName(cat, moves[i]))
  }

  predicate DestinationKnown(cat: Catalog, row: Row)
  {
    RefOf(row, "to_location").Some? && RefOf(row, "to_location").value in cat.locations
  }

  function Destination(cat: Catalog, row: Row): Row
    requires DestinationKnown(cat, row)
  {
    cat.locations[RefOf(row, "to_location").value]
  }

  /** The location's `allow_health_alert` flag; an unset boolean reads as false. */
  predicate AllowsHealthAlert(location: Row)
  {
    Truthy(Get(location, "allow_health_alert", VBool(false)))
  }

  /** A stored move: its lot, product and destination all exist. */
  predicate Stored(cat: Catalog, move: Row)
  {
    LotKnown(cat, move) && ProductKnown(cat, move) && DestinationKnown(cat, move)
  }

  /** Every row of the sequence is a stored move. The conjunction of `Stored`
      is written out so that its three facts need no further unfolding in the
      proofs that read them; `Stored` is that conjunction for one row. */
  predicate AllStored(cat: Catalog, moves: seq<Row>)
  {
    forall i :: 0 <= i < |moves| ==>
      LotKnown(cat, moves[i]) && ProductKnown(cat, moves[i]) && DestinationKnown(cat, moves[i])
  }

  // ---------------------------------------------------------------------
  // validate

  /** The destination invariant: an alerted lot only goes where alerted lots are allowed. */
  predicate DestinationAllowed(cat: Catalog, move: Row)
    requires LotKnown(cat, move) && DestinationKnown(cat, move)
  {
    AlertedLot(cat, move) ==> AllowsHealthAlert(Destination(cat, move))
  }

  /** `check_allow_lot_in_health_alert` for one move. */
  function CheckDestination(cat: Catalog, id: MoveId, move: Row): (r: Outcome<MoveError>)
    requires LotKnown(cat, move) && DestinationKnown(cat, move)
    ensures r == Pass <==> !AlertedLot(cat, move) || AllowsHealthAlert(Destination(cat, move))
    ensures r.Fail? ==>
      RefOf(move, "lot").Some? &&
      r.error == HealthAlertLotInvalidDestination(
        id, Lots.Number(cat.lots[RefOf(move, "lot").value]), RefOf(move, "to_location").value)
  {
    if AllowsHealthAlert(Destination(cat, move)) || RefOf(move, "lot").None? then Pass
    else if Lots.HealthAlert(cat.lots[RefOf(move, "lot").value]) then
      Fail(HealthAlertLotInvalidDestination(
        id, Lots.Number(cat.lots[RefOf(move, "lot").value]), RefOf(move, "to_location").value))
    else Pass
  }

  /** The verdict on each move, in order. */
  function Verdicts(cat: Catalog, moves: seq<(MoveId, Row)>): (vs: seq<Outcome<MoveError>>)
    requires forall i :: 0 <= i < |moves| ==> LotKnown(cat, moves[i].1) && DestinationKnown(cat, moves[i].1)
    ensures |vs| == |moves|
    ensures forall i :: 0 <= i < |moves| ==> vs[i] == CheckDestination(cat, moves[i].0, moves[i].1)
  {
    seq(|moves|, i requires 0 <= i < |moves| => CheckDestination(cat, moves[i].0, moves[i].1))
  }

  /** `Move.validate`: the moves are checked in order and the first offender aborts. */
  function Validate(cat: Catalog, moves: seq<(MoveId, Row)>): (r: Outcome<MoveError>)
    requires forall i :: 0 <= i < |moves| ==> LotKnown(cat, moves[i].1) && DestinationKnown(cat, moves[i].1)
    ensures r == Pass <==> forall i :: 0 <= i < |moves| ==> DestinationAllowed(cat, moves[i].1)
    ensures r.Fail? ==>
      exists k :: 0 <= k < |moves| && CheckDestination(cat, moves[k].0, moves[k].1) == r &&
        forall i :: 0 <= i < k ==> DestinationAllowed(cat, moves[i].1)
  {
    var vs := Verdicts(cat, moves);
    match FirstFailure(vs)
    case None => Pass
    case Some(k) => vs[k]
  }

  // ---------------------------------------------------------------------
  // delete, write, create

  /** Index of the first row that names an alerted lot. Each move hook walks its
      rows in order and raises at the first alerted lot when the user lacks the
      tier; the tier test does not depend on the row, so that is this row. */
  function FirstAlertedLot(cat: Catalog, rows: seq<Row>): (k: Option<nat>)
    requires forall i :: 0 <= i < |rows| ==> LotKnown(cat, rows[i])
    ensures k.None? <==> forall i :: 0 <= i < |rows| ==> !AlertedLot(cat, rows[i])
    ensures k.Some? ==> k.value < |rows| && AlertedLot(cat, rows[k.value])
    ensures k.Some? ==> forall i :: 0 <= i < k.value ==> !AlertedLot(cat, rows[i])
  {
    if rows == [] then None
    else if AlertedLot(cat, rows[0]) then Some(0)
    else
      assert forall i :: 1 <= i < |rows| ==> rows[i] == rows[1..][i - 1];
      match FirstAlertedLot(cat, rows[1..])
      case None => None
      case Some(j) => Some(j + 1)
  }

  /** The checks of `Move.delete`: a move on an alerted lot needs the alert-modify tier. */
  function CheckDelete(env: Env, cat: Catalog, moves: seq<Row>): (r: Outcome<MoveError>)
    requires Installed(env)
    requires forall i :: 0 <= i < |moves| ==> LotKnown(cat, moves[i])
    requires forall i :: 0 <= i < |moves| && AlertedLot(cat, moves[i]) ==> ProductKnown(cat, moves[i])
    ensures r == Pass <==>
      Authorized(env, ModifyHealthAlertLot) || forall i :: 0 <= i < |moves| ==> !AlertedLot(cat, moves[i])
    ensures r.Fail? ==>
      exists k :: 0 <= k < |moves| && AlertedLot(cat, moves[k]) &&
        r.error == RemoveMoveHealthAlert(ProductName(cat, moves[k])) &&
        forall i :: 0 <= i < k ==> !AlertedLot(cat, moves[i])
  {
    if Authorized(env, ModifyHealthAlertLot) then Pass
    else
      match FirstAlertedLot(cat, moves)
      case None => Pass
      case Some(k) => Fail(RemoveMoveHealthAlert(ProductName(cat, moves[k])))
  }

  /** The value map of each batch of a write. */
  function BatchValues(batches: seq<(seq<Row>, Row)>): (vs: seq<Row>)
    ensures |vs| == |batches|
    ensures forall i :: 0 <= i < |batches| ==> vs[i] == batches[i].1
  {
    seq(|batches|, i requires 0 <= i < |batches| => batches[i].1)
  }

  /** The batches of a move write are well formed: the lot each value map names
      exists, and a batch that names an alerted lot has moves with products. */
  predicate WriteReadable(cat: Catalog, batches: seq<(seq<Row>, Row)>)
  {
    forall i :: 0 <= i < |batches| ==>
      LotKnown(cat, batches[i].1) &&
      (AlertedLot(cat, batches[i].1) ==>
         forall j :: 0 <= j < |batches[i].0| ==> ProductKnown(cat, batches[i].0[j]))
  }

  /** The checks of `Move.write`: only the lot in each batch's values is
      looked at, never the lot the moves currently hold. */
  function CheckWrite(env: Env, cat: Catalog, batches: seq<(seq<Row>, Row)>): (r: Outcome<MoveError>)
    requires Installed(env)
    requires WriteReadable(cat, batches)
    ensures r == Pass <==>
      Authorized(env, ModifyHealthAlertLot) || forall i :: 0 <= i < |batches| ==> !AlertedLot(cat, batches[i].1)
    ensures r.Fail? ==>
      exists k :: 0 <= k < |batches| && AlertedLot(cat, batches[k].1) &&
        r.error == EditMoveHealthAlert(ProductNames(cat, batches[k].0)) &&
        forall i :: 0 <= i < k ==> !AlertedLot(cat, batches[i].1)
  {
    if Authorized(env, ModifyHealthAlertLot) then Pass
    else
      match FirstAlertedLot(cat, BatchValues(batches))
      case None => Pass
      case Some(k) => Fail(EditMoveHealthAlert(ProductNames(cat, batches[k].0)))
  }

  /** The checks of `Move.create`: an entry on an alerted lot needs the alert-modify tier. */
  function CheckCreate(env: Env, cat: Catalog, vlist: seq<Row>): (r: Outcome<MoveError>)
    requires Installed(env)
    requires forall i :: 0 <= i < |vlist| ==> LotKnown(cat, vlist[i])
    requires forall i :: 0 <= i < |vlist| && AlertedLot(cat, vlist[i]) ==> ProductKnown(cat, vlist[i])
    ensures r == Pass <==>
      Authorized(env, ModifyHealthAlertLot) || forall i :: 0 <= i < |vlist| ==> !AlertedLot(cat, vlist[i])
    ensures r.Fail? ==>
      exists k :: 0 <= k < |vlist| && AlertedLot(cat, vlist[k]) &&
        r.error == CreateMoveHealthAlert(ProductName(cat, vlist[k])) &&
        forall i :: 0 <= i < k ==> !AlertedLot(cat, vlist[i])
  {
    if Authorized(env, ModifyHealthAlertLot) then Pass
    else
      match FirstAlertedLot(cat, vlist)
      case None => Pass
      case Some(k) => Fail(CreateMoveHealthAlert(ProductName(cat, vlist[k])))
  }

  /** A write batch that does not name a lot passes the gate, whatever lot its moves hold now. */
  lemma WriteIgnoresCurrentLot(env: Env, cat: Catalog, batches: seq<(seq<Row>, Row)>)
    requires Installed(env) && WriteReadable(cat, batches)
    requires forall i :: 0 <= i < |batches| ==> "lot" !in batches[i].1
    ensures CheckWrite(env, cat, batches) == Pass
  {
  }

  // ---------------------------------------------------------------------
  // lot_last_expiration_date

  const ShipmentInModel: string := "stock.shipment.in"
  const ShipmentInReturnModel: string := "stock.shipment.in.return"

  /** The model of the move's shipment, or None when it has none. */
  function ShipmentModel(move: Row): Option<string>
  {
    match Get(move, "shipment", VNone)
    case VRef(m, _) => Some(m)
    case _ => None
  }

  /** The product of the move tracks expiration dates. */
  predicate TracksExpiration(cat: Catalog, move: Row)
    requires ProductKnown(cat, move)
  {
    Text(cat.products[RefOf(move, "product").value], "expiration_state") != "none"
  }

  /** `get_lot_last_expiration_date` for one move: today less the shelf-life
      delay configured for the kind of its shipment. */
  function LastExpirationDate(cat: Catalog, config: Config, today: Date, move: Row): (r: Option<Date>)
    requires ProductKnown(cat, move)
    ensures r.Some? ==> TracksExpiration(cat, move)
    ensures r.Some? ==> ShipmentModel(move) in {Some(ShipmentInModel), Some(ShipmentInReturnModel)}
  {
    var delayIn := config.shelfLifeDelayShipmentIn;
    var delayReturn := config.shelfLifeDelayShipmentInReturn;
    if ShipmentModel(move).None? || !TracksExpiration(cat, move) then None
    else if Active(delayIn) && ShipmentModel(move).value == ShipmentInModel then
      Some(Before(today, delayIn.value))
    else if Active(delayReturn) && ShipmentModel(move).value == ShipmentInReturnModel then
      Some(Before(today, delayReturn.value))
    else None
  }

  /** Which moves get a date, and which delay it is derived from. */
  lemma LastExpirationDateCases(cat: Catalog, config: Config, today: Date, move: Row)
    requires ProductKnown(cat, move)
    ensures var r := LastExpirationDate(cat, config, today, move);
      r.Some? <==>
        ShipmentModel(move) in {Some(ShipmentInModel), Some(ShipmentInReturnModel)} && TracksExpiration(cat, move) &&
        Active(if ShipmentModel(move) == Some(ShipmentInModel) then config.shelfLifeDelayShipmentIn
               else config.shelfLifeDelayShipmentInReturn)
    ensures var r := LastExpirationDate(cat, config, today, move);
      r.Some? && ShipmentModel(move) == Some(ShipmentInModel) ==>
        r.value == today - config.shelfLifeDelayShipmentIn.value.days
    ensures var r := LastExpirationDate(cat, config, today, move);
      r.Some? && ShipmentModel(move) == Some(ShipmentInReturnModel) ==>
        r.value == today - config.shelfLifeDelayShipmentInReturn.value.days
  {
  }

  /** The field getter over a list of moves: every id gets an entry, None unless derived. */
  method LotLastExpirationDates(cat: Catalog, config: Config, today: Date, table: map<MoveId, Row>, ids: seq<MoveId>)
    returns (res: map<MoveId, Option<Date>>)
    requires forall i :: 0 <= i < |ids| ==> ids[i] in table && ProductKnown(cat, table[ids[i]])
    ensures res.Keys == set i | 0 <= i < |ids| :: ids[i]
    ensures forall i :: 0 <= i < |ids| ==> res[ids[i]] == LastExpirationDate(cat, config, today, table[ids[i]])
  {
    var delayIn := config.shelfLifeDelayShipmentIn;
    var delayReturn := config.shelfLifeDelayShipmentInReturn;
    ghost var want := seq(|ids|, i requires 0 <= i < |ids| => LastExpirationDate(cat, config, today, table[ids[i]]));
    res := map i | 0 <= i < |ids| :: ids[i] := None;
    for k := 0 to |ids|
      invariant Filling(res, ids, want, k)
    {
      var move := table[ids[k]];
      if ShipmentModel(move).None? || !TracksExpiration(cat, move) {
        FillStep(res, ids, want, k);
        continue;
      }
      if Active(delayIn) && ShipmentModel(move).value == ShipmentInModel {
        FillStep(res, ids, want, k);
        res := res[ids[k] := Some(Before(today, delayIn.value))];
      } else if Active(delayReturn) && ShipmentModel(move).value == ShipmentInReturnModel {
        FillStep(res, ids, want, k);
        res := res[ids[k] := Some(Before(today, delayReturn.value))];
      } else {
        FillStep(res, ids, want, k);
      }
    }
  }

  /** A getter result filled up to position `k`: one entry per id, the wanted
      value at every position before `k`, None or the wanted value elsewhere. */
  ghost predicate Filling<V>(res: map<MoveId, Option<V>>, ids: seq<MoveId>, want: seq<Option<V>>, k: nat)
  {
    |want| == |ids| && k <= |ids| &&
    (forall i, j :: 0 <= i < |ids| && 0 <= j < |ids| && ids[i] == ids[j] ==> want[i] == want[j]) &&
    res.Keys == (set i | 0 <= i < |ids| :: ids[i]) &&
    (forall i :: 0 <= i < |ids| ==> res[ids[i]] == None || res[ids[i]] == want[i]) &&
    (forall i :: 0 <= i < k ==> res[ids[i]] == want[i])
  }

  /** Storing the wanted value of position `k` (or nothing, when it is None) fills one more position. */
  lemma FillStep<V>(res: map<MoveId, Option<V>>, ids: seq<MoveId>, want: seq<Option<V>>, k: nat)
    requires Filling(res, ids, want, k) && k < |ids|
    ensures want[k].None? ==> Filling(res, ids, want, k + 1)
    ensures Filling(res[ids[k] := want[k]], ids, want, k + 1)
  {
    var next := res[ids[k] := want[k]];
    assert ids[k] in res;
    assert next.Keys == res.Keys;
  }

  /** The lot domain `Move.__setup__` adds: on a draft move with a derived
      date, the lot must expire strictly after that date. */
  predicate LotDomainAccepts(state: string, lastExpiration: Option<Date>, lotExpiration: Option<Date>): (ok: bool)
    ensures state != "draft" ==> ok
    ensures lastExpiration.None? ==> ok
    ensures lotExpiration.None? ==> (ok <==> state != "draft" || lastExpiration.None?)
    ensures state == "draft" && lastExpiration.Some? && lotExpiration.Some? ==>
      (ok <==> lotExpiration.value > lastExpiration.value)
  {
    state == "draft" && lastExpiration.Some? ==>
      lotExpiration.Some? && lotExpiration.value > lastExpiration.value
  }

  /** On a draft inbound move with an active delay of d days, a lot is accepted
      exactly when its expiration date is later than d days before today. */
  lemma InboundShelfLife(cat: Catalog, config: Config, today: Date, move: Row, lotExpiration: Option<Date>)
    requires ProductKnown(cat, move) && TracksExpiration(cat, move)
    requires ShipmentModel(move) == Some(ShipmentInModel)
    requires Active(config.shelfLifeDelayShipmentIn)
    ensures LotDomainAccepts("draft", LastExpirationDate(cat, config, today, move), lotExpiration) <==>
      lotExpiration.Some? && lotExpiration.value + config.shelfLifeDelayShipmentIn.value.days > today
  {
  }

  // ---------------------------------------------------------------------
  // the move table the hooks guard

  /** A write value map keeps a stored move's references resolvable. */
  predicate ValuesStorable(cat: Catalog, values: Row)
  {
    LotKnown(cat, values) &&
    ("product" in values ==> ProductKnown(cat, values)) &&
    ("to_location" in values ==> DestinationKnown(cat, values))
  }

  /** The rows a write leaves behind are still stored moves. */
  lemma {:induction false} WritesKeepStored(cat: Catalog, rows: map<MoveId, Row>, batches: seq<(seq<MoveId>, Row)>)
    requires StoredRows(cat, rows)
    requires forall i :: 0 <= i < |batches| ==> ValuesStorable(cat, batches[i].1)
    ensures StoredRows(cat, ApplyWrites(rows, batches))
  {
    if batches != [] {
      var next := ApplyBatch(rows, batches[0].0, batches[0].1);
      BatchKeepsStored(cat, rows, batches[0].0, batches[0].1);
      assert forall i :: 1 <= i < |batches| ==> batches[i] == batches[1..][i - 1];
      WritesKeepStored(cat, next, batches[1..]);
    }
  }

  /** One batch of a write leaves stored moves stored. */
  lemma BatchKeepsStored(cat: Catalog, rows: map<MoveId, Row>, ids: seq<MoveId>, values: Row)
    requires StoredRows(cat, rows) && ValuesStorable(cat, values)
    ensures StoredRows(cat, ApplyBatch(rows, ids, values))
  {
    var next := ApplyBatch(rows, ids, values);
    forall id | id in next
      ensures LotKnown(cat, next[id]) && ProductKnown(cat, next[id]) && DestinationKnown(cat, next[id])
    {
      if id in ids {
        MergeKeepsStored(cat, rows[id], values);
      }
    }
  }

  /** Merging storable values into a stored move gives a stored move. */
  lemma MergeKeepsStored(cat: Catalog, move: Row, values: Row)
    requires Stored(cat, move) && ValuesStorable(cat, values)
    ensures Stored(cat, move + values)
  {
    var merged := move + values;
    assert RefOf(merged, "lot") == if "lot" in values then RefOf(values, "lot") else RefOf(move, "lot");
    assert RefOf(merged, "product") == if "product" in values then RefOf(values, "product") else RefOf(move, "product");
    assert RefOf(merged, "to_location") ==
      if "to_location" in values then RefOf(values, "to_location") else RefOf(move, "to_location");
  }

  /** Every row of the table is a stored move (`Stored` written out, as in
      `AllStored`). */
  predicate StoredRows(cat: Catalog, rows: map<MoveId, Row>)
  {
    forall id :: id in rows ==>
      LotKnown(cat, rows[id]) && ProductKnown(cat, rows[id]) && DestinationKnown(cat, rows[id])
  }

  /** The gate of a move write over the table's rows (the moves of each batch
      read back from the table). */
  function WriteGate(env: Env, cat: Catalog, rows: map<MoveId, Row>, batches: seq<(seq<MoveId>, Row)>): (r: Outcome<MoveError>)
    requires Installed(env) && StoredRows(cat, rows)
    requires forall i, id :: 0 <= i < |batches| && id in batches[i].0 ==> id in rows
    requires forall i :: 0 <= i < |batches| ==> ValuesStorable(cat, batches[i].1)
    ensures r == Pass <==>
      Authorized(env, ModifyHealthAlertLot) ||
      forall i :: 0 <= i < |batches| ==> LotKnown(cat, batches[i].1) && !AlertedLot(cat, batches[i].1)
    ensures r.Fail? ==> r.error.EditMoveHealthAlert?
  {
    BatchesReadable(cat, rows, batches);
    CheckWrite(env, cat, RowBatches(rows, batches))
  }

  lemma BatchesReadable(cat: Catalog, rows: map<MoveId, Row>, batches: seq<(seq<MoveId>, Row)>)
    requires StoredRows(cat, rows)
    requires forall i, id :: 0 <= i < |batches| && id in batches[i].0 ==> id in rows
    requires forall i :: 0 <= i < |batches| ==> ValuesStorable(cat, batches[i].1)
    ensures WriteReadable(cat, RowBatches(rows, batches))
  {
    var rb := RowBatches(rows, batches);
    forall i, j | 0 <= i < |rb| && 0 <= j < |rb[i].0| ensures ProductKnown(cat, rb[i].0[j]) {
      assert batches[i].0[j] in batches[i].0;
      assert rb[i].0[j] == rows[batches[i].0[j]];
    }
  }

  /** The validation a move write ends with: the moves it names, as the write left them. */
  function WriteValidation(cat: Catalog, rows: map<MoveId, Row>, batches: seq<(seq<MoveId>, Row)>): Outcome<MoveError>
    requires StoredRows(cat, rows)
    requires forall i, id :: 0 <= i < |batches| && id in batches[i].0 ==> id in rows
    requires forall i :: 0 <= i < |batches| ==> ValuesStorable(cat, batches[i].1)
  {
    var after := ApplyWrites(rows, batches);
    WritesKeepStored(cat, rows, batches);
    WrittenKnown(cat, rows, batches);
    Validate(cat, Written(after, Touched(batches)))
  }

  /** The moves a write names are stored, and their new rows still resolve. */
  lemma WrittenKnown(cat: Catalog, rows: map<MoveId, Row>, batches: seq<(seq<MoveId>, Row)>)
    requires forall i, id :: 0 <= i < |batches| && id in batches[i].0 ==> id in rows
    requires StoredRows(cat, ApplyWrites(rows, batches))
    ensures forall id :: id in Touched(batches) ==> id in ApplyWrites(rows, batches)
    ensures var ms := Written(ApplyWrites(rows, batches), Touched(batches));
      forall j :: 0 <= j < |ms| ==> LotKnown(cat, ms[j].1) && DestinationKnown(cat, ms[j].1)
  {
    var after := ApplyWrites(rows, batches);
    var ids := Touched(batches);
    forall id | id in ids ensures id in after {
      var i :| 0 <= i < |batches| && id in batches[i].0;
    }
    var ms := Written(after, ids);
    forall j | 0 <= j < |ms| ensures LotKnown(cat, ms[j].1) && DestinationKnown(cat, ms[j].1) {
      assert ms[j].1 == after[ids[j]];
    }
  }

  /** The validation at the end of a write passes exactly when every move the
      write names keeps the destination rule as the write left it; otherwise its
      error is that of the first offending move, in the order the write names them. */
  lemma WrittenAllowed(cat: Catalog, rows: map<MoveId, Row>, batches: seq<(seq<MoveId>, Row)>)
    requires StoredRows(cat, rows)
    requires forall i, id :: 0 <= i < |batches| && id in batches[i].0 ==> id in rows
    requires forall i :: 0 <= i < |batches| ==> ValuesStorable(cat, batches[i].1)
    ensures StoredRows(cat, ApplyWrites(rows, batches))
    ensures forall id :: id in Touched(batches) ==> id in ApplyWrites(rows, batches)
    ensures WriteValidation(cat, rows, batches) == Pass <==>
      forall id :: id in Touched(batches) ==> DestinationAllowed(cat, ApplyWrites(rows, batches)[id])
    ensures WriteValidation(cat, rows, batches).Fail? ==>
      var after, ids := ApplyWrites(rows, batches), Touched(batches);
      exists j :: 0 <= j < |ids| && WriteValidation(cat, rows, batches) == CheckDestination(cat, ids[j], after[ids[j]]) &&
        forall i :: 0 <= i < j ==> DestinationAllowed(cat, after[ids[i]])
  {
    var after := ApplyWrites(rows, batches);
    WritesKeepStored(cat, rows, batches);
    WrittenKnown(cat, rows, batches);
    ValidateWritten(cat, after, Touched(batches));
  }

  /** Validating the moves `ids` as stored in `after` passes exactly when each
      keeps the destination rule. */
  lemma ValidateWritten(cat: Catalog, after: map<MoveId, Row>, ids: seq<MoveId>)
    requires StoredRows(cat, after)
    requires forall id :: id in ids ==> id in after
    ensures Validate(cat, Written(after, ids)) == Pass <==>
      forall id :: id in ids ==> DestinationAllowed(cat, after[id])
    ensures Validate(cat, Written(after, ids)).Fail? ==>
      exists j :: 0 <= j < |ids| && Validate(cat, Written(after, ids)) == CheckDestination(cat, ids[j], after[ids[j]]) &&
        forall i :: 0 <= i < j ==> DestinationAllowed(cat, after[ids[i]])
  {
    var ms := Written(after, ids);
    if Validate(cat, ms) == Pass {
      forall id | id in ids ensures DestinationAllowed(cat, after[id]) {
        var j :| 0 <= j < |ids| && ids[j] == id;
        assert ms[j] == (id, after[id]);
      }
    } else {
      ValidateWrittenFails(cat, after, ids, ms);
    }
  }

  /** A failed validation of `ms`, the moves `ids` as stored in `after`, carries
      the error of the first move that breaks the destination rule. */
  lemma ValidateWrittenFails(cat: Catalog, after: map<MoveId, Row>, ids: seq<MoveId>, ms: seq<(MoveId, Row)>)
    requires StoredRows(cat, after)
    requires forall id :: id in ids ==> id in after
    requires |ms| == |ids| && forall j :: 0 <= j < |ids| ==> ms[j] == (ids[j], after[ids[j]])
    requires Validate(cat, ms).Fail?
    ensures exists j ::
      0 <= j < |ids| && !DestinationAllowed(cat, after[ids[j]]) &&
      Validate(cat, ms) == CheckDestination(cat, ids[j], after[ids[j]]) &&
      forall i :: 0 <= i < j ==> DestinationAllowed(cat, after[ids[i]])
  {
    var k :| 0 <= k < |ms| && CheckDestination(cat, ms[k].0, ms[k].1) == Validate(cat, ms) &&
      forall i :: 0 <= i < k ==> DestinationAllowed(cat, ms[i].1);
    assert ms[k] == (ids[k], after[ids[k]]);
    forall i | 0 <= i < k ensures DestinationAllowed(cat, after[ids[i]]) {
      assert ms[i] == (ids[i], after[ids[i]]);
    }
  }

  /** What `Move.create` decides for entries stored from id `first` on: the
      gate, then (as the ORM validates what it stores) the destination check. */
  function CreateOutcome(env: Env, cat: Catalog, first: nat, vlist: seq<Row>): (r: Outcome<MoveError>)
    requires Installed(env) && AllStored(cat, vlist)
    ensures CheckCreate(env, cat, vlist).Fail? ==> r == CheckCreate(env, cat, vlist)
    ensures r == Pass <==>
      CheckCreate(env, cat, vlist) == Pass && forall i :: 0 <= i < |vlist| ==> DestinationAllowed(cat, vlist[i])
  {
    var gate := CheckCreate(env, cat, vlist);
    if gate.Fail? then gate
    else
      var ms := Numbered(first, vlist);
      assert forall i :: 0 <= i < |vlist| ==> ms[i].1 == vlist[i];
      Validate(cat, ms)
  }

  /** What `Move.write` decides: the gate over every batch, then the destination
      check of the written moves as the write left them. */
  function WriteOutcome(env: Env, cat: Catalog, rows: map<MoveId, Row>, batches: seq<(seq<MoveId>, Row)>): (r: Outcome<MoveError>)
    requires Installed(env) && StoredRows(cat, rows)
    requires forall i, id :: 0 <= i < |batches| && id in batches[i].0 ==> id in rows
    requires forall i :: 0 <= i < |batches| ==> ValuesStorable(cat, batches[i].1)
    ensures StoredRows(cat, ApplyWrites(rows, batches))
    ensures forall id :: id in Touched(batches) ==> id in ApplyWrites(rows, batches)
    ensures WriteGate(env, cat, rows, batches).Fail? ==> r == WriteGate(env, cat, rows, batches)
    ensures r == Pass <==>
      WriteGate(env, cat, rows, batches) == Pass &&
      forall id :: id in Touched(batches) ==> DestinationAllowed(cat, ApplyWrites(rows, batches)[id])
    ensures WriteGate(env, cat, rows, batches) == Pass && r.Fail? ==>
      var after, ids := ApplyWrites(rows, batches), Touched(batches);
      exists j :: 0 <= j < |ids| && r == CheckDestination(cat, ids[j], after[ids[j]]) &&
        forall i :: 0 <= i < j ==> DestinationAllowed(cat, after[ids[i]])
  {
    WrittenAllowed(cat, rows, batches);
    var gate := WriteGate(env, cat, rows, batches);
    if gate.Fail? then gate else WriteValidation(cat, rows, batches)
  }

  /** Storing new moves next to stored ones keeps every row stored. */
  lemma InsertedStored(cat: Catalog, rows: map<MoveId, Row>, first: nat, vlist: seq<Row>)
    requires StoredRows(cat, rows) && AllStored(cat, vlist)
    ensures StoredRows(cat, rows + Inserted(first, vlist))
  {
    var m := Inserted(first, vlist);
    forall id | id in rows + m
      ensures LotKnown(cat, (rows + m)[id]) && ProductKnown(cat, (rows + m)[id]) && DestinationKnown(cat, (rows + m)[id])
    {
      if id in m {
        assert m[first + (id - first)] == vlist[id - first];
      }
    }
  }

  /** Each created entry paired with the id it is stored under. */
  function Numbered(first: nat, vlist: seq<Row>): (ms: seq<(MoveId, Row)>)
    ensures |ms| == |vlist|
    ensures forall i :: 0 <= i < |vlist| ==> ms[i] == (first + i, vlist[i])
  {
    seq(|vlist|, i requires 0 <= i < |vlist| => (first + i, vlist[i]))
  }

  /** The written moves with their new rows, in the order the write names them. */
  function Written(rows: map<MoveId, Row>, ids: seq<MoveId>): (ms: seq<(MoveId, Row)>)
    requires forall id :: id in ids ==> id in rows
    ensures |ms| == |ids|
    ensures forall j :: 0 <= j < |ids| ==> ms[j] == (ids[j], rows[ids[j]])
  {
    seq(|ids|, j requires 0 <= j < |ids| => (ids[j], rows[ids[j]]))
  }

  /** The `stock.move` records, keyed by id; `nextId` is the next id the store hands out. */
  class MoveTable {
    var rows: map<MoveId, Row>
    var nextId: MoveId

    ghost predicate Valid()
      reads this
    {
      forall id :: id in rows ==> id < nextId
    }

    /** Every stored move's references resolve in the catalog. */
    ghost predicate Consistent(cat: Catalog)
      reads this
    {
      StoredRows(cat, rows)
    }

    constructor ()
      ensures Valid() && rows == map[]
    {
      rows := map[];
      nextId := 1;
    }

    /** `Move.create`: the gate runs before anything is stored, and the new
        moves are then validated; a failure at either step stores nothing. */
    method Create(env: Env, cat: Catalog, vlist: seq<Row>) returns (r: Result<seq<MoveId>, MoveError>)
      requires Valid() && Installed(env) && Consistent(cat)
      requires AllStored(cat, vlist)
      modifies this
      ensures Valid() && Consistent(cat)
      ensures r.Err? <==> CreateOutcome(env, cat, old(nextId), vlist).Fail?
      ensures r.Err? ==> r.error == CreateOutcome(env, cat, old(nextId), vlist).error
      ensures r.Err? ==> rows == old(rows) && nextId == old(nextId)
      ensures r.Ok? ==> |r.value| == |vlist| && forall i :: 0 <= i < |vlist| ==> r.value[i] == old(nextId) + i
      ensures r.Ok? ==> rows == old(rows) + Inserted(old(nextId), vlist)
    {
      var outcome := CreateOutcome(env, cat, nextId, vlist);
      if outcome.Fail? {
        return Err(outcome.error);
      }
      var first := nextId;
      InsertedStored(cat, rows, first, vlist);
      rows := rows + Inserted(first, vlist);
      nextId := first + |vlist|;
      r := Ok(seq(|vlist|, i requires 0 <= i < |vlist| => first + i));
    }

    /** `Move.write`: the gate runs over every batch before anything is stored,
        and the written moves are then validated; a failure stores nothing. */
    method Write(env: Env, cat: Catalog, batches: seq<(seq<MoveId>, Row)>) returns (r: Outcome<MoveError>)
      requires Valid() && Installed(env) && Consistent(cat)
      requires forall i, id :: 0 <= i < |batches| && id in batches[i].0 ==> id in rows
      requires forall i :: 0 <= i < |batches| ==> ValuesStorable(cat, batches[i].1)
      modifies this
      ensures Valid() && Consistent(cat) && nextId == old(nextId)
      ensures r == WriteOutcome(env, cat, old(rows), batches)
      ensures r.Fail? ==> rows == old(rows)
      ensures r.Pass? ==> rows == ApplyWrites(old(rows), batches)
    {
      r := WriteOutcome(env, cat, rows, batches);
      if r.Pass? {
        rows := ApplyWrites(rows, batches);
      }
    }

    /** `Move.delete`: the whole set goes, or nothing does. */
    method Delete(env: Env, cat: Catalog, ids: seq<MoveId>) returns (r: Outcome<MoveError>)
      requires Valid() && Installed(env) && Consistent(cat)
      requires forall j :: 0 <= j < |ids| ==> ids[j] in rows
      modifies this
      ensures Valid() && Consistent(cat) && nextId == old(nextId)
      ensures r == CheckDelete(env, cat, Lookup(old(rows), ids))
      ensures r.Fail? ==> rows == old(rows)
      ensures r.Pass? ==> rows == old(rows) - set j | 0 <= j < |ids| :: ids[j]
    {
      r := CheckDelete(env, cat, Lookup(rows, ids));
      if r.Pass? {
        rows := rows - set j | 0 <= j < |ids| :: ids[j];
      }
    }
  }
}
