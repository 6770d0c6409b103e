/** The request handlers of the shows API. Each takes the store it works
    on; request bodies are JSON objects and the `minEpisodes` query
    parameter is an optional integer. */
module Api {
  import opened Json
  import opened Envelope
  import opened Shows
  import opened MockDb

  /** What the handlers keep true of the store: every record is a show with
      a `name` and an integer `episodes_seen`. */
  ghost predicate StoredShows(db: ShowStore)
    reads db
  {
    forall id :: id in db.records ==> IsShow(db.records[id])
  }

  /** Every show the store lists has an integer `episodes_seen`, so the
      `minEpisodes` comparison never fails on a store the handlers built. */
  lemma StoredShowsHaveEpisodes(db: ShowStore)
    requires db.Valid() && StoredShows(db)
    ensures AllHaveEpisodes(db.All())
  {
    var shows := db.All();
    forall k | 0 <= k < |shows| ensures HasEpisodes(shows[k]) {
      var id := db.order[k];
      assert IsShow(db.records[id]);
    }
  }

  /** The `shows` payload: `{"shows": [record, ...]}`. */
  function ShowList(shows: seq<Record>): Value
  {
    Object(map["shows" := List(Objects(shows))])
  }

  /** `DELETE /shows/<id>`: 404 and no change for an unknown id; otherwise
      the record is removed, every other record is left alone, and the
      reply is 200 "Show deleted" with no data. */
  method DeleteShow(db: ShowStore, id: int) returns (response: Response)
    requires db.Valid() && StoredShows(db)
    modifies db
    ensures db.Valid() && StoredShows(db)
    ensures id !in old(db.records) ==>
      && Answers(response, Null, 404, "No show with this id exists")
      && unchanged(db)
    ensures id in old(db.records) ==>
      && Answers(response, Null, 200, "Show deleted")
      && db.records == old(db.records) - {id}
      && db.order == Without(old(db.order), id)
      && db.nextId == old(db.nextId)
  {
    if db.GetById(id).None? {
      response := CreateResponse(status := 404, message := "No show with this id exists").response;
      return;
    }
    db.DeleteById(id);
    response := CreateResponse(message := "Show deleted").response;
  }

  /** `GET /shows/<id>`: the stored record itself with 200, or 404 when the
      id is unknown. */
  method GetAShow(db: ShowStore, id: int) returns (response: Response)
    ensures id !in db.records ==>
      Answers(response, Null, 404, "Sorry show with this ID Does not exist, yet.")
    ensures id in db.records ==>
      Answers(response, Object(db.records[id]), 200, "")
  {
    if db.GetById(id).None? {
      response := CreateResponse(status := 404, message := "Sorry show with this ID Does not exist, yet.").response;
    } else {
      response := CreateResponse(Object(db.GetById(id).value)).response;
    }
  }

  /** `POST /shows`: `name` is checked before `episodes_seen`, each failure
      is a 422 that leaves the store alone; otherwise the body, with
      `episodes_seen` made an integer, is stored under a fresh id and
      returned with 201. */
  method PostAShow(db: ShowStore, body: Record) returns (response: Response)
    requires db.Valid() && StoredShows(db)
    requires "name" in body && "episodes_seen" in body ==> IntCoercible(body["episodes_seen"])
    modifies db
    ensures db.Valid() && StoredShows(db)
    ensures "name" !in body ==>
      && Answers(response, Null, 422, "name not provided in POST request body")
      && unchanged(db)
    ensures "name" in body && "episodes_seen" !in body ==>
      && Answers(response, Null, 422, "episodes_seen not provided in POST request body")
      && unchanged(db)
    ensures "name" in body && "episodes_seen" in body ==>
      var id := old(db.nextId);
      var stored := body["episodes_seen" := Int(ToInt(body["episodes_seen"]))]["id" := Int(id)];
      && id !in old(db.records)
      && IsShow(stored) && stored["name"] == body["name"]
      && db.records == old(db.records)[id := stored]
      && db.order == old(db.order) + [id]
      && db.nextId == id + 1
      && db.All() == old(db.All()) + [stored]
      && Answers(response, Object(stored), 201, "Successfully inputted show")
  {
    if "name" !in body {
      response := CreateResponse(status := 422, message := "name not provided in POST request body").response;
      return;
    } else if "episodes_seen" !in body {
      response := CreateResponse(status := 422, message := "episodes_seen not provided in POST request body").response;
      return;
    }
    var payload := body["episodes_seen" := Int(ToInt(body["episodes_seen"]))];
    var created := db.Create(payload);
    response := CreateResponse(Object(created), status := 201, message := "Successfully inputted show").response;
  }

  /** `PUT /shows/<id>`: existence is checked first (404 whatever the
      body), then `name`, then `episodes_seen` (422); every failure leaves
      the store alone. On success the record becomes exactly `name`,
      integer `episodes_seen` and its id; the reply is 201. */
  method UpdateAShow(db: ShowStore, id: int, body: Record) returns (response: Response)
    requires db.Valid() && StoredShows(db)
    requires id in db.records && "name" in body && "episodes_seen" in body ==> IntCoercible(body["episodes_seen"])
    modifies db
    ensures db.Valid() && StoredShows(db)
    ensures id !in old(db.records) ==>
      && Answers(response, Null, 404, "show with provided id not found")
      && unchanged(db)
    ensures id in old(db.records) && "name" !in body ==>
      && Answers(response, Null, 422, "name not provided in request body")
      && unchanged(db)
    ensures id in old(db.records) && "name" in body && "episodes_seen" !in body ==>
      && Answers(response, Null, 422, "episodes_seen not provided in request body")
      && unchanged(db)
    ensures id in old(db.records) && "name" in body && "episodes_seen" in body ==>
      var stored := map["name" := body["name"], "episodes_seen" := Int(ToInt(body["episodes_seen"])), "id" := Int(id)];
      && stored.Keys == {"name", "episodes_seen", "id"}
      && IsShow(stored)
      && db.records == old(db.records)[id := stored]
      && db.order == old(db.order) && db.nextId == old(db.nextId)
      && Answers(response, Object(stored), 201, "Successfully updated show")
  {
    if db.GetById(id).None? {
      response := CreateResponse(status := 404, message := "show with provided id not found").response;
      return;
    }
    if "name" !in body {
      response := CreateResponse(status := 422, message := "name not provided in request body").response;
      return;
    } else if "episodes_seen" !in body {
      response := CreateResponse(status := 422, message := "episodes_seen not provided in request body").response;
      return;
    }
    var update := map["name" := body["name"], "episodes_seen" := Int(ToInt(body["episodes_seen"]))];
    assert IsShow(update["id" := Int(id)]);
    var updated := db.UpdateById(id, update);
    assert updated.Keys == {"name", "episodes_seen", "id"};
    response := CreateResponse(Object(updated), status := 201, message := "Successfully updated show").response;
  }

  /** `GET /shows` without a query: every stored show, in insertion
      order, with 200. */
  method GetAllShows(db: ShowStore) returns (response: Response)
    requires db.Valid()
    ensures Answers(response, ShowList(db.All()), 200, "")
  {
    response := CreateResponse(ShowList(db.All())).response;
  }

  /** `GET /shows?minEpisodes=N`: walks the stored shows in order and
      keeps those with `episodes_seen >= N`; the reply is 201. */
  method GetShowsWithMinEpisodes(db: ShowStore, minEpisodes: int) returns (response: Response)
    requires db.Valid() && StoredShows(db)
    ensures AllHaveEpisodes(db.All())
    ensures Answers(response, ShowList(KeepAtLeast(db.All(), minEpisodes)), 201, "Successfully retrieved shows")
  {
    var allShows := db.All();
    StoredShowsHaveEpisodes(db);
    var kept: seq<Record> := [];
    for i := 0 to |allShows|
      invariant kept == KeepAtLeast(allShows[..i], minEpisodes)
    {
      var show := allShows[i];
      assert allShows[..i + 1][..i] == allShows[..i];
      if Episodes(show) >= minEpisodes {
        kept := kept + [show];
      }
    }
    assert allShows[..|allShows|] == allShows;
    response := CreateResponse(ShowList(kept), status := 201, message := "Successfully retrieved shows").response;
  }

  /** `GET /shows`: the filtered list when `minEpisodes` is given, the whole
      list otherwise. */
  method Hello(db: ShowStore, minEpisodes: Option<int>) returns (response: Response)
    requires db.Valid()
    requires minEpisodes.Some? ==> StoredShows(db)
    ensures minEpisodes.Some? ==> AllHaveEpisodes(db.All())
    ensures minEpisodes.Some? ==>
      Answers(response, ShowList(KeepAtLeast(db.All(), minEpisodes.value)), 201, "Successfully retrieved shows")
    ensures minEpisodes.None? ==>
      Answers(response, ShowList(db.All()), 200, "")
  {
    if minEpisodes.Some? {
      response := GetShowsWithMinEpisodes(db, minEpisodes.value);
    } else {
      response := GetAllShows(db);
    }
  }

  /** A valid POST followed by a GET on the id it assigned returns the record
      just created, whose `episodes_seen` is the integer sent. */
  method PostThenGet(db: ShowStore, body: Record) returns (posted: Response, fetched: Response)
    requires db.Valid() && StoredShows(db)
    requires "name" in body && "episodes_seen" in body && IntCoercible(body["episodes_seen"])
    modifies db
    ensures db.Valid() && StoredShows(db)
    ensures posted.status == 201 && posted.body.success && posted.body.result.Object?
    ensures fetched.status == 200 && fetched.body.result == posted.body.result
    ensures IsShow(fetched.body.result.fields)
    ensures fetched.body.result.fields["name"] == body["name"]
    ensures Episodes(fetched.body.result.fields) == ToInt(body["episodes_seen"])
  {
    posted := PostAShow(db, body);
    var id := posted.body.result.fields["id"].i;
    fetched := GetAShow(db, id);
  }

  /** After a DELETE on an id, whether or not it existed, a GET on that id
      is a 404. */
  method DeleteThenGet(db: ShowStore, id: int) returns (deleted: Response, fetched: Response)
    requires db.Valid() && StoredShows(db)
    modifies db
    ensures db.Valid() && StoredShows(db)
    ensures deleted.status == (if id in old(db.records) then 200 else 404)
    ensures Answers(fetched, Null, 404, "Sorry show with this ID Does not exist, yet.")
  {
    deleted := DeleteShow(db, id);
    fetched := GetAShow(db, id);
  }
}
