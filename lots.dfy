/** The health-alert policy of `stock.lot`: display name, create, write,
    delete and copy hooks, and the lot table they guard. */
module Lots {

  import opened Outcomes
  import opened Values
  import opened Groups
  import opened Records

  type LotId = nat

  /** One tag per message the lot hooks raise, with the message's parameters. */
  datatype LotError =
    | RemoveLot                           // msg_remove_lot
    | RemoveLotHealthAlert(lot: string)   // msg_remove_lot_health_alert
    | ModifyLotDenied                     // msg_modify_lot
    | EditLotHealthAlertTrue(lots: seq<string>)  // msg_edit_lot_health_alert_true
    | EditLotHealthAlert(lots: seq<string>)      // msg_edit_lot_health_alert
    | CreateLotHealthAlert                // msg_create_lot_health_alert

  const HealthAlertField: string := "health_alert"

  /** The stored `health_alert` flag; an unset boolean reads as false. */
  predicate HealthAlert(lot: Row)
  {
    Truthy(Get(lot, HealthAlertField, VBool(false)))
  }

  function Number(lot: Row): string
  {
    Text(lot, "number")
  }

  /** The lot numbers of a batch, in order, for the error messages. */
  function Numbers(lots: seq<Row>): (ns: seq<string>)
    ensures |ns| == |lots|
    ensures forall i :: 0 <= i < |lots| ==> ns[i] == Number(lots[i])
  {
    seq(|lots|, i requires 0 <= i < |lots| => Number(lots[i]))
  }

  /** `get_rec_name`: the number, followed by " (<marker>)" exactly when the lot
      is under health alert; `marker` is the translated "Health Alert" text. */
  function RecName(lot: Row, marker: string): (name: string)
    ensures |Number(lot)| <= |name| && name[..|Number(lot)|] == Number(lot)
    ensures HealthAlert(lot) <==> |name| > |Number(lot)|
    ensures HealthAlert(lot) ==> name[|Number(lot)|..] == " (" + marker + ")"
  {
    var name := Number(lot);
    if HealthAlert(lot) then name + " (" + marker + ")" else name
  }

  // ---------------------------------------------------------------------
  // delete

  /** Index of the first lot under health alert. */
  function FirstAlerted(lots: seq<Row>): (k: Option<nat>)
    ensures k.None? <==> forall i :: 0 <= i < |lots| ==> !HealthAlert(lots[i])
    ensures k.Some? ==> k.value < |lots| && HealthAlert(lots[k.value])
    ensures k.Some? ==> forall i :: 0 <= i < k.value ==> !HealthAlert(lots[i])
  {
    if lots == [] then None
    else if HealthAlert(lots[0]) then Some(0)
    else
      match FirstAlerted(lots[1..])
      case None => None
      case Some(j) => Some(j + 1)
  }

  /** The checks of `Lot.delete` before the records are removed. */
  function CheckDelete(env: Env, lots: seq<Row>): (r: Outcome<LotError>)
    requires Installed(env)
    ensures r == Fail(RemoveLot) <==> !Authorized(env, ModifyLot)
    ensures r == Pass <==>
      Authorized(env, ModifyLot) && forall i :: 0 <= i < |lots| ==> !HealthAlert(lots[i])
    ensures r.Fail? && r.error != RemoveLot ==>
      exists k :: 0 <= k < |lots| && HealthAlert(lots[k]) && r.error == RemoveLotHealthAlert(Number(lots[k])) &&
        forall i :: 0 <= i < k ==> !HealthAlert(lots[i])
  {
    if Authorized(env, ModifyLot) then
      match FirstAlerted(lots)
      case None => Pass
      case Some(k) => Fail(RemoveLotHealthAlert(Number(lots[k])))
    else Fail(RemoveLot)
  }

  /** Whatever the user's groups, a deletion that includes an alerted lot is rejected. */
  lemma AlertedLotNeverDeleted(env: Env, lots: seq<Row>, k: nat)
    requires Installed(env)
    requires k < |lots| && HealthAlert(lots[k])
    ensures CheckDelete(env, lots).Fail?
  {
  }

  // ---------------------------------------------------------------------
  // write

  /** The checks `Lot.write` makes of one `(lots, values)` batch. */
  function CheckWriteBatch(env: Env, lots: seq<Row>, values: Row): (r: Outcome<LotError>)
    requires Installed(env)
    ensures r.Fail? ==> r.error in {ModifyLotDenied, EditLotHealthAlertTrue(Numbers(lots)), EditLotHealthAlert(Numbers(lots))}
  {
    if HealthAlertField !in values && !Authorized(env, ModifyLot) then
      Fail(ModifyLotDenied)
    else if Truthy(Get(values, HealthAlertField, VBool(false))) &&
            (!Authorized(env, CheckHealthAlertTrue) ||
             (|values.Keys| > 1 && !Authorized(env, ModifyHealthAlertLot))) then
      Fail(EditLotHealthAlertTrue(Numbers(lots)))
    else if !Truthy(Get(values, HealthAlertField, VBool(true))) &&
            !Authorized(env, ModifyHealthAlertLot) then
      Fail(EditLotHealthAlert(Numbers(lots)))
    else Pass
  }

  /** The verdict on one batch, by what its values do to the flag. */
  lemma WriteBatchRules(env: Env, lots: seq<Row>, values: Row)
    requires Installed(env)
    // the batch leaves the flag alone: general lot-modify rights are needed
    ensures HealthAlertField !in values ==>
      var r := CheckWriteBatch(env, lots, values);
      (r == Pass <==> Authorized(env, ModifyLot)) && (r.Fail? ==> r.error == ModifyLotDenied)
    // the batch sets the flag: setting rights, and the higher tier when other fields change too
    ensures HealthAlertField in values && Truthy(values[HealthAlertField]) ==>
      var r := CheckWriteBatch(env, lots, values);
      (r == Pass <==>
        Authorized(env, CheckHealthAlertTrue) && (|values| == 1 || Authorized(env, ModifyHealthAlertLot))) &&
      (r.Fail? ==> r.error == EditLotHealthAlertTrue(Numbers(lots)))
    // the batch clears the flag: the higher tier is needed
    ensures HealthAlertField in values && !Truthy(values[HealthAlertField]) ==>
      var r := CheckWriteBatch(env, lots, values);
      (r == Pass <==> Authorized(env, ModifyHealthAlertLot)) &&
      (r.Fail? ==> r.error == EditLotHealthAlert(Numbers(lots)))
  {
  }

  /** A user who may set the flag but not otherwise change it can raise an alert
      on its own, but not together with any other field. */
  lemma SetAlertAloneOnly(env: Env, lots: seq<Row>, other: string, v: Value)
    requires Installed(env)
    requires Authorized(env, CheckHealthAlertTrue) && !Authorized(env, ModifyHealthAlertLot)
    requires other != HealthAlertField
    ensures CheckWriteBatch(env, lots, map[HealthAlertField := VBool(true)]) == Pass
    ensures CheckWriteBatch(env, lots, map[HealthAlertField := VBool(true)][other := v]) ==
      Fail(EditLotHealthAlertTrue(Numbers(lots)))
  {
    var alone := map[HealthAlertField := VBool(true)];
    assert HealthAlertField in alone && Truthy(alone[HealthAlertField]) && |alone| == 1;
    var both := alone[other := v];
    MoreThanOneKey(both, HealthAlertField, other);
    assert HealthAlertField in both && Truthy(both[HealthAlertField]);
    WriteBatchRules(env, lots, alone);
    WriteBatchRules(env, lots, both);
  }

  /** The verdict on each batch, in order. */
  function BatchVerdicts(env: Env, batches: seq<(seq<Row>, Row)>): (vs: seq<Outcome<LotError>>)
    requires Installed(env)
    ensures |vs| == |batches|
    ensures forall i :: 0 <= i < |batches| ==> vs[i] == CheckWriteBatch(env, batches[i].0, batches[i].1)
  {
    seq(|batches|, i requires 0 <= i < |batches| => CheckWriteBatch(env, batches[i].0, batches[i].1))
  }

  /** The checks of `Lot.write` over all batches: the first failing batch aborts the call. */
  function CheckWrite(env: Env, batches: seq<(seq<Row>, Row)>): (r: Outcome<LotError>)
    requires Installed(env)
    ensures r == Pass <==>
      forall i :: 0 <= i < |batches| ==> CheckWriteBatch(env, batches[i].0, batches[i].1) == Pass
    ensures r.Fail? ==>
      exists k :: 0 <= k < |batches| && CheckWriteBatch(env, batches[k].0, batches[k].1) == r &&
        forall i :: 0 <= i < k ==> CheckWriteBatch(env, batches[i].0, batches[i].1) == Pass
  {
    var vs := BatchVerdicts(env, batches);
    match FirstFailure(vs)
    case None => Pass
    case Some(k) => vs[k]
  }

  // ---------------------------------------------------------------------
  // create

  /** The checks of `Lot.create`: any entry that sets the flag needs setting rights. */
  function CheckCreate(env: Env, vlist: seq<Row>): (r: Outcome<LotError>)
    requires Installed(env)
    ensures r == Pass <==>
      Authorized(env, CheckHealthAlertTrue) || forall i :: 0 <= i < |vlist| ==> !HealthAlert(vlist[i])
    ensures r.Fail? ==> r.error == CreateLotHealthAlert
  {
    if vlist == [] then Pass
    else if HealthAlert(vlist[0]) && !Authorized(env, CheckHealthAlertTrue) then
      Fail(CreateLotHealthAlert)
    else
      var rest := CheckCreate(env, vlist[1..]);
      assert forall i :: 1 <= i < |vlist| ==> vlist[i] == vlist[1..][i - 1];
      rest
  }

  // ---------------------------------------------------------------------
  // copy

  /** The defaults `Lot.copy` passes on: a copy of the caller's, with
      `health_alert` false unless the caller already gave a value. */
  function CopyDefaults(default: Option<Row>): (d: Row)
    ensures HealthAlertField in d
    ensures default.None? ==> d == map[HealthAlertField := VBool(false)]
    ensures default.Some? ==> d.Keys == default.value.Keys + {HealthAlertField}
    ensures default.Some? ==> forall k :: k in default.value ==> d[k] == default.value[k]
    ensures default.Some? && HealthAlertField !in default.value ==> d[HealthAlertField] == VBool(false)
  {
    var given := if default.None? then map[] else default.value;
    SetDefault(given, HealthAlertField, VBool(false))
  }

  /** The values a duplicate of `lot` is created with. */
  function Duplicate(lot: Row, defaults: Row): Row
  {
    lot + defaults
  }

  /** A duplicate is under health alert only when the caller's defaults ask for it. */
  lemma CopyHealthAlert(lot: Row, default: Option<Row>)
    ensures HealthAlert(Duplicate(lot, CopyDefaults(default))) <==>
      default.Some? && HealthAlertField in default.value && Truthy(default.value[HealthAlertField])
  {
  }

  /** Without a truthy caller-supplied flag, the duplicates never trip the create check. */
  lemma {:induction false} CopyPassesCreate(env: Env, lots: seq<Row>, default: Option<Row>)
    requires Installed(env)
    requires default.Some? && HealthAlertField in default.value ==> !Truthy(default.value[HealthAlertField])
    ensures CheckCreate(env, Duplicates(lots, CopyDefaults(default))) == Pass
  {
    var dups := Duplicates(lots, CopyDefaults(default));
    forall i | 0 <= i < |dups| ensures !HealthAlert(dups[i]) {
      CopyHealthAlert(lots[i], default);
    }
  }

  function Duplicates(lots: seq<Row>, defaults: Row): (dups: seq<Row>)
    ensures |dups| == |lots|
    ensures forall i :: 0 <= i < |lots| ==> dups[i] == Duplicate(lots[i], defaults)
  {
    seq(|lots|, i requires 0 <= i < |lots| => Duplicate(lots[i], defaults))
  }

  // ---------------------------------------------------------------------
  // the lot table the hooks guard

  /** The `stock.lot` records, keyed by id; `nextId` is the next id the store hands out. */
  class LotTable {
    var rows: map<LotId, Row>
    var nextId: LotId

    ghost predicate Valid()
      reads this
    {
      forall id :: id in rows ==> id < nextId
    }

    constructor ()
      ensures Valid() && rows == map[]
    {
      rows := map[];
      nextId := 1;
    }

    /** `Lot.create`: every entry is checked before any record is stored. */
    method Create(env: Env, vlist: seq<Row>) returns (r: Result<seq<LotId>, LotError>)
      requires Valid() && Installed(env)
      modifies this
      ensures Valid()
      ensures r.Err? <==> CheckCreate(env, vlist).Fail?
      ensures r.Err? ==> r.error == CheckCreate(env, vlist).error
      ensures r.Err? ==> rows == old(rows) && nextId == old(nextId)
      ensures r.Ok? ==> |r.value| == |vlist|
      ensures r.Ok? ==> forall i :: 0 <= i < |vlist| ==>
        r.value[i] == old(nextId) + i && r.value[i] !in old(rows) && r.value[i] in rows && rows[r.value[i]] == vlist[i]
      ensures r.Ok? ==> rows == old(rows) + Inserted(old(nextId), vlist)
      ensures r.Ok? ==> forall id :: id in old(rows) ==> id in rows && rows[id] == old(rows)[id]
    {
      var check := CheckCreate(env, vlist);
      if check.Fail? {
        return Err(check.error);
      }
      var first := nextId;
      rows := rows + Inserted(first, vlist);
      nextId := first + |vlist|;
      r := Ok(seq(|vlist|, i requires 0 <= i < |vlist| => first + i));
    }

    /** `Lot.write`: every batch is checked before any value is stored. */
    method Write(env: Env, batches: seq<(seq<LotId>, Row)>) returns (r: Outcome<LotError>)
      requires Valid() && Installed(env)
      requires forall i, id :: 0 <= i < |batches| && id in batches[i].0 ==> id in rows
      modifies this
      ensures Valid() && nextId == old(nextId)
      ensures r == CheckWrite(env, RowBatches(old(rows), batches))
      ensures r.Fail? ==> rows == old(rows)
      ensures r.Pass? ==> rows == ApplyWrites(old(rows), batches)
    {
      r := CheckWrite(env, RowBatches(rows, batches));
      if r.Pass? {
        rows := ApplyWrites(rows, batches);
      }
    }

    /** `Lot.delete`: the whole set goes, or nothing does. */
    method Delete(env: Env, ids: seq<LotId>) returns (r: Outcome<LotError>)
      requires Valid() && Installed(env)
      requires forall j :: 0 <= j < |ids| ==> ids[j] in rows
      modifies this
      ensures Valid() && nextId == old(nextId)
      ensures r == CheckDelete(env, Lookup(old(rows), ids))
      ensures r.Fail? ==> rows == old(rows)
      ensures r.Pass? ==> rows == old(rows) - set j | 0 <= j < |ids| :: ids[j]
    {
      r := CheckDelete(env, Lookup(rows, ids));
      if r.Pass? {
        rows := rows - set j | 0 <= j < |ids| :: ids[j];
      }
    }

    /** `Lot.copy`: the duplicates go through `create` with the copied defaults. */
    method Copy(env: Env, ids: seq<LotId>, default: Option<Row>) returns (r: Result<seq<LotId>, LotError>)
      requires Valid() && Installed(env)
      requires forall j :: 0 <= j < |ids| ==> ids[j] in rows
      modifies this
      ensures Valid()
      ensures r.Err? ==> rows == old(rows) && nextId == old(nextId)
      ensures r.Err? <==> CheckCreate(env, Duplicates(Lookup(old(rows), ids), CopyDefaults(default))).Fail?
      ensures r.Err? ==> r.error == CreateLotHealthAlert
      ensures (default.None? || HealthAlertField !in default.value || !Truthy(default.value[HealthAlertField])) ==> r.Ok?
      ensures r.Ok? ==> |r.value| == |ids|
      ensures r.Ok? ==> forall j :: 0 <= j < |ids| ==>
        r.value[j] !in old(rows) && r.value[j] in rows &&
        rows[r.value[j]] == Duplicate(old(rows)[ids[j]], CopyDefaults(default))
      ensures r.Ok? ==> forall j :: 0 <= j < |ids| ==>
        r.value[j] in rows && (HealthAlert(rows[r.value[j]]) <==>
          default.Some? && HealthAlertField in default.value && Truthy(default.value[HealthAlertField]))
      ensures r.Ok? ==> forall id :: id in old(rows) ==> id in rows && rows[id] == old(rows)[id]
      ensures r.Ok? ==> rows == old(rows) + Inserted(old(nextId), Duplicates(Lookup(old(rows), ids), CopyDefaults(default)))
    {
      var defaults := CopyDefaults(default);
      var dups := Duplicates(Lookup(rows, ids), defaults);
      if default.None? || HealthAlertField !in default.value || !Truthy(default.value[HealthAlertField]) {
        CopyPassesCreate(env, Lookup(rows, ids), default);
      }
      r := Create(env, dups);
      if r.Ok? {
        forall j | 0 <= j < |ids|
          ensures HealthAlert(rows[r.value[j]]) <==>
            default.Some? && HealthAlertField in default.value && Truthy(default.value[HealthAlertField])
        {
          CopyHealthAlert(old(rows)[ids[j]], default);
        }
      }
    }
  }
}
