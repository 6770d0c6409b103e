/** The in-memory "shows" collection that the handlers call through
    `db.create`, `db.get`, `db.getById`, `db.updateById` and
    `db.deleteById`. Only the behaviour the handlers rely on is modelled:
    a fresh id on create, `None` for an absent id, replacement of the
    fields on update (the id is kept), removal on delete, and listing in
    insertion order. */
module MockDb {
  import opened Json

  predicate Distinct(ids: seq<int>)
  {
    forall i, j :: 0 <= i < j < |ids| ==> ids[i] != ids[j]
  }

  /** `ids` with every occurrence of `id` removed; `WithoutKeepsOrder`
      shows that the rest keep their order. */
  function Without(ids: seq<int>, id: int): (r: seq<int>)
    ensures forall x :: x in r <==> x in ids && x != id
    ensures Distinct(ids) ==> Distinct(r)
    ensures Distinct(ids) && id in ids ==> |r| == |ids| - 1
    ensures id !in ids ==> r == ids
  {
    if ids == [] then []
    else
      var init := ids[..|ids| - 1];
      var last := ids[|ids| - 1];
      assert Distinct(ids) ==> Distinct(init) && last !in init;
      assert ids == init + [last];
      if last == id then Without(init, id) else Without(init, id) + [last]
  }

  /** `r` is `ids` restricted to the positions `idx`, taken in increasing
      order, and `idx` holds exactly the positions that do not hold `id`.
      The same shape as `Shows.SelectsAtLeast`, with "does not hold `id`"
      as the selection test. */
  ghost predicate SelectsOthers(r: seq<int>, ids: seq<int>, id: int, idx: seq<int>)
  {
    && |idx| == |r|
    && (forall k :: 0 <= k < |idx| ==> 0 <= idx[k] < |ids| && r[k] == ids[idx[k]])
    && (forall k, l :: 0 <= k < l < |idx| ==> idx[k] < idx[l])
    && (forall j :: 0 <= j < |ids| ==> (j in idx <==> ids[j] != id))
  }

  /** One step of the selection: the last position is selected exactly
      when it does not hold `id`. */
  lemma ExtendSelection(r: seq<int>, ids: seq<int>, id: int, prev: seq<int>)
    requires |ids| > 0
    requires SelectsOthers(r, ids[..|ids| - 1], id, prev)
    ensures ids[|ids| - 1] == id ==> SelectsOthers(r, ids, id, prev)
    ensures ids[|ids| - 1] != id ==> SelectsOthers(r + [ids[|ids| - 1]], ids, id, prev + [|ids| - 1])
  {
    var n := |ids| - 1;
    assert forall j :: 0 <= j < n ==> ids[..n][j] == ids[j];
    assert n !in prev;
    if ids[n] != id {
      var idx := prev + [n];
      forall j | 0 <= j < |ids| ensures j in idx <==> ids[j] != id {
        assert j in idx <==> j in prev || j == n;
      }
    }
  }

  lemma {:induction false} WithoutIndices(ids: seq<int>, id: int) returns (idx: seq<int>)
    ensures SelectsOthers(Without(ids, id), ids, id, idx)
    decreases |ids|
  {
    if ids == [] {
      idx := [];
    } else {
      var n := |ids| - 1;
      var prev := WithoutIndices(ids[..n], id);
      ExtendSelection(Without(ids[..n], id), ids, id, prev);
      idx := if ids[n] == id then prev else prev + [n];
    }
  }

  /** Deleting an id keeps every other id, in its original relative order:
      the result is an order-preserving selection of exactly the positions
      that do not hold `id`. */
  lemma WithoutKeepsOrder(ids: seq<int>, id: int)
    ensures exists idx :: SelectsOthers(Without(ids, id), ids, id, idx)
  {
    var idx := WithoutIndices(ids, id);
  }

  /** The records stored under `ids`, in the order of `ids`. */
  function Project(ids: seq<int>, m: map<int, Record>): seq<Record>
    requires forall k :: 0 <= k < |ids| ==> ids[k] in m
  {
    seq(|ids|, k requires 0 <= k < |ids| => m[ids[k]])
  }

  class ShowStore {
    /** The stored records, by id. */
    var records: map<int, Record>
    /** The ids in insertion order: the order `db.get` lists them in. */
    var order: seq<int>
    /** The id the next `create` assigns. */
    var nextId: int

    /** Each stored id is listed once, is below `nextId`, and is the
        record's own `id` field. */
    ghost predicate Valid()
      reads this
    {
      && Distinct(order)
      && (forall id :: id in order <==> id in records)
      && (forall id :: id in records ==> id < nextId && "id" in records[id] && records[id]["id"] == Int(id))
    }

    constructor ()
      ensures Valid()
      ensures records == map[] && order == [] && nextId == 1
    {
      records := map[];
      order := [];
      nextId := 1;
    }

    /** `db.get("shows")`: every stored record once, in insertion order. */
    function All(): (shows: seq<Record>)
      reads this
      requires Valid()
      ensures |shows| == |order|
      ensures forall k :: 0 <= k < |order| ==> order[k] in records && shows[k] == records[order[k]]
    {
      assert forall k :: 0 <= k < |order| ==> order[k] in records by {
        forall k | 0 <= k < |order| ensures order[k] in records {
          var id := order[k];
          assert id in order;
        }
      }
      Project(order, records)
    }

    /** Every stored record appears in the listing. */
    lemma AllListsEveryRecord()
      requires Valid()
      ensures forall id :: id in records ==> records[id] in All()
    {
      forall id | id in records ensures records[id] in All() {
        assert id in order;
        var k :| 0 <= k < |order| && order[k] == id;
        assert All()[k] == records[id];
      }
    }

    /** `db.getById("shows", id)`: the record, or `None` when absent. */
    function GetById(id: int): (found: Option<Record>)
      reads this
      ensures found.Some? <==> id in records
      ensures found.Some? ==> found.value == records[id]
    {
      if id in records then Some(records[id]) else None
    }

    /** `db.create("shows", payload)`: stores the payload under a fresh id,
        written into its `id` field, and returns the stored record. */
    method Create(payload: Record) returns (created: Record)
      requires Valid()
      modifies this
      ensures Valid()
      ensures old(nextId) !in old(records)
      ensures created == payload["id" := Int(old(nextId))]
      ensures records == old(records)[old(nextId) := created]
      ensures order == old(order) + [old(nextId)]
      ensures nextId == old(nextId) + 1
      ensures All() == old(All()) + [created]
    {
      var id := nextId;
      created := payload["id" := Int(id)];
      records := records[id := created];
      order := order + [id];
      nextId := id + 1;
    }

    /** `db.updateById("shows", id, update)`: the record becomes `update`
        with its id kept; the caller has checked that `id` exists. */
    method UpdateById(id: int, update: Record) returns (updated: Record)
      requires Valid() && id in records
      modifies this
      ensures Valid()
      ensures updated == update["id" := Int(id)]
      ensures records == old(records)[id := updated]
      ensures order == old(order) && nextId == old(nextId)
      ensures |All()| == |old(All())|
      ensures forall k :: 0 <= k < |order| ==> All()[k] == if order[k] == id then updated else old(All())[k]
    {
      updated := update["id" := Int(id)];
      records := records[id := updated];
    }

    /** `db.deleteById("shows", id)`: removes the record; the caller has
        checked that `id` exists. */
    method DeleteById(id: int)
      requires Valid() && id in records
      modifies this
      ensures Valid()
      ensures records == old(records) - {id}
      ensures order == Without(old(order), id)
      ensures nextId == old(nextId)
    {
      records := records - {id};
      order := Without(order, id);
    }
  }
}
