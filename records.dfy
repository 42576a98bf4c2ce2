/** How the ORM stores records: create under fresh consecutive ids, write
    batches in order, read rows back by id. The policy hooks run before these. */
module Records {

  import opened Values

  /** One write batch as the ORM applies it: every listed record takes the values. */
  function ApplyBatch(rows: map<nat, Row>, ids: seq<nat>, values: Row): (r: map<nat, Row>)
    ensures r.Keys == rows.Keys
  {
    map id | id in rows :: if id in ids then rows[id] + values else rows[id]
  }

  /** The batches of a write applied in order. */
  function ApplyWrites(rows: map<nat, Row>, batches: seq<(seq<nat>, Row)>): (r: map<nat, Row>)
    ensures r.Keys == rows.Keys
  {
    if batches == [] then rows
    else ApplyWrites(ApplyBatch(rows, batches[0].0, batches[0].1), batches[1..])
  }

  /** A record that no batch names keeps its stored row. */
  lemma {:induction false} UntouchedUnchanged(rows: map<nat, Row>, batches: seq<(seq<nat>, Row)>, id: nat)
    requires id in rows
    requires forall i :: 0 <= i < |batches| ==> id !in batches[i].0
    ensures ApplyWrites(rows, batches)[id] == rows[id]
  {
    if batches != [] {
      assert forall i :: 1 <= i < |batches| ==> batches[1..][i - 1] == batches[i];
      UntouchedUnchanged(ApplyBatch(rows, batches[0].0, batches[0].1), batches[1..], id);
    }
  }

  /** The stored rows of the given ids, in order. */
  function Lookup(rows: map<nat, Row>, ids: seq<nat>): (rs: seq<Row>)
    requires forall j :: 0 <= j < |ids| ==> ids[j] in rows
    ensures |rs| == |ids|
    ensures forall j :: 0 <= j < |ids| ==> rs[j] == rows[ids[j]]
  {
    seq(|ids|, j requires 0 <= j < |ids| => rows[ids[j]])
  }

  /** The records `create` stores for `vlist`, under consecutive ids from `first`. */
  function Inserted(first: nat, vlist: seq<Row>): (m: map<nat, Row>)
    ensures forall id :: id in m <==> first <= id < first + |vlist|
    ensures forall i :: 0 <= i < |vlist| ==> m[first + i] == vlist[i]
    decreases |vlist|
  {
    if vlist == [] then map[]
    else
      var rest := Inserted(first + 1, vlist[1..]);
      assert forall i :: 1 <= i < |vlist| ==> vlist[i] == vlist[1..][i - 1] && first + i == (first + 1) + (i - 1);
      rest[first := vlist[0]]
  }

  /** The stored rows of each batch, paired with the batch's values. */
  function RowBatches(rows: map<nat, Row>, batches: seq<(seq<nat>, Row)>): (rb: seq<(seq<Row>, Row)>)
    requires forall i, id :: 0 <= i < |batches| && id in batches[i].0 ==> id in rows
    ensures |rb| == |batches|
    ensures forall i :: 0 <= i < |batches| ==> rb[i] == (Lookup(rows, batches[i].0), batches[i].1)
  {
    seq(|batches|, i requires 0 <= i < |batches| => (Lookup(rows, batches[i].0), batches[i].1))
  }

  /** The ids a write names, batch after batch, in order. */
  function Touched(batches: seq<(seq<nat>, Row)>): (ids: seq<nat>)
    ensures forall id :: id in ids <==> exists i :: 0 <= i < |batches| && id in batches[i].0
  {
    if batches == [] then []
    else
      assert forall i :: 1 <= i < |batches| ==> batches[i] == batches[1..][i - 1];
      batches[0].0 + Touched(batches[1..])
  }
}
