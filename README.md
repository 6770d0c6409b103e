# Shows CRUD API — Dafny model

A model of the request-handling core of a small Flask API over one
collection, "shows". Each show is a JSON record with an integer `id`, a
`name` and an integer `episodes_seen`. The model covers:

- the response envelope `create_response`: every reply is
  `{code, success, message, result}` with `success` exactly the 2xx class of
  section 15.3 of RFC 9110, and a `TypeError` for data that is neither a
  dict nor `None`;
- the handlers `get_a_show`, `post_a_show`, `update_a_show`, `delete_show`,
  `get_all_shows`, `get_shows_with_minEpisodes` and the dispatcher `hello`;
- the in-memory store they call (`mockdb`), whose implementation is not
  part of this model: `MockDb.ShowStore` holds the records by id, the ids
  in insertion order and the next id, and gives `create`, `get`, `getById`,
  `updateById` and `deleteById` the behaviour the handlers rely on.

Layout: `json.dfy` (JSON values, records), `envelope.dfy`
(`create_response`), `shows.dfy` (show records and the reference
definition of the `minEpisodes` filter with its lemmas), `mockdb.dfy` (the
store class), `api.dfy` (the handlers, as methods taking the store they
modify, plus two request sequences stated as methods).

The handlers are methods taking the store; `DeleteShow`, `PostAShow` and
`UpdateAShow` change it (`modifies db`), the GET handlers only read it. Each
states the reply it returns
(as the `create_response` call that produces it, `Envelope.Answers`), the
order of its checks, and the store afterwards: unchanged on every error
path, and exactly the intended change on success. The handlers also keep
the invariant `Api.StoredShows`: every stored record has a `name` and an
integer `episodes_seen`.

`GET /shows/<id>` answers with the record itself as `result`
(backend/app.py:72), not wrapped in `{"shows": ...}` like the list
endpoints. The 201 status
of the filtered `GET /shows` and of `PUT` is kept as written.

## Model

| member | source | states |
|---|---|---|
| `Envelope.CreateResponse` | backend/app.py:9-36 | `TypeError` exactly when the data is neither a dict nor null; otherwise the HTTP status and `code` are `status`, `message` and `result` are passed through unchanged, and `success` holds iff `200 <= status < 300` |
| `Envelope.EnvelopeRoundTrip` | backend/app.py:30-35 | every well-formed envelope is produced by exactly one `create_response` call, the one whose arguments are its `result`, `code` and `message` |
| `Envelope.CreateResponseDefaults` | backend/app.py:9-10 | `status` defaults to 200 and `message` to "", so `create_response(data)` is a successful 200 reply and `create_response()` has a null result |
| `Shows.KeepAtLeastIsExactSelection` | backend/app.py:117-126 | the filtered list is the stored list restricted to an increasing set of positions, and a position is selected iff its show has `episodes_seen >= minEpisodes` |
| `Shows.KeepAtLeastMembers` | backend/app.py:123-125 | every kept show is stored and reaches the minimum; every stored show that reaches it is kept |
| `Shows.KeepAtLeastKeepsAll` | backend/app.py:123-125 | when every show reaches the minimum the whole list comes back |
| `Shows.KeepAtLeastDropsAll` | backend/app.py:123-125 | when the minimum exceeds every count the result is empty |
| `MockDb.Without` | backend/app.py:59 | deleting an id from the insertion order removes exactly that id, keeps the others duplicate-free, and shortens the list by one when the id was there |
| `MockDb.WithoutKeepsOrder` | backend/app.py:59 | after a delete the remaining ids keep their insertion order: the result is an order-preserving selection of exactly the positions not holding the deleted id |
| `MockDb.ShowStore.All` | backend/app.py:119 | `db.get("shows")` lists the records in insertion order: its k-th entry is the record stored under the k-th inserted id |
| `MockDb.ShowStore.AllListsEveryRecord` | backend/app.py:119 | every stored record appears in the `db.get("shows")` listing |
| `MockDb.ShowStore.GetById` | backend/app.py:57 | `db.getById` returns the record when the id is stored and `None` otherwise |
| `MockDb.ShowStore.Create` | backend/app.py:84 | `db.create` stores the payload under a fresh id written into its `id` field, appends it to the listing and returns it |
| `MockDb.ShowStore.UpdateById` | backend/app.py:104 | `db.updateById` replaces the record's fields with the update plus the same id; the listing keeps its order and changes only at that id |
| `MockDb.ShowStore.DeleteById` | backend/app.py:59 | `db.deleteById` removes exactly that id and keeps the rest |
| `Api.StoredShowsHaveEpisodes` | backend/app.py:123-124 | on a store built by the handlers every listed show has an integer `episodes_seen`, so the comparison in the filter never fails |
| `Api.DeleteShow` | backend/app.py:55-60 | unknown id: 404 "No show with this id exists" and the store unchanged; otherwise the record is removed, every other record is left alone, and the reply is 200 "Show deleted" with no data |
| `Api.GetAShow` | backend/app.py:67-72 | unknown id: 404 with its message; otherwise the stored record is the result, with 200 |
| `Api.PostAShow` | backend/app.py:74-85 | `name` is checked before `episodes_seen`; each missing field gives its own 422 with the store unchanged; otherwise the body with `episodes_seen` made an integer is stored under a fresh id, appended to the listing, and returned with 201 |
| `Api.UpdateAShow` | backend/app.py:89-105 | existence first (404 whatever the body), then `name`, then `episodes_seen` (422), each failure leaving the store unchanged; on success the record is exactly `{name, episodes_seen, id}`, so no other old field survives, and the reply is 201 |
| `Api.GetAllShows` | backend/app.py:114-115 | the reply is 200 with `{"shows": ...}` holding every stored show in insertion order |
| `Api.GetShowsWithMinEpisodes` | backend/app.py:117-126 | the loop's result equals the reference filter on the stored list, replied with 201 "Successfully retrieved shows" |
| `Api.Hello` | backend/app.py:107-112 | with a `minEpisodes` parameter the reply is the filtered list, without one the full list (the integer `episodes_seen` invariant is needed only on the filtered path) |
| `Api.PostThenGet` | backend/app.py:67-85 | a valid POST answers 201, and a GET on the id it assigned returns the same record, with its `name` and the integer `episodes_seen` sent |
| `Api.DeleteThenGet` | backend/app.py:55-72 | after a DELETE on an id (200 if it existed, 404 otherwise) a GET on that id is a 404 |

## Left out

- Flask routing, `jsonify`, reading `request.json` and `request.args`, and `app.run`: request bodies are `map<string, Value>` and the `minEpisodes` query parameter is an `Option<int>`.
- `hello_world` and `mirror` (backend/app.py:44-52): constant or echo replies built by `create_response`, which is modelled.
- The store's implementation (`mockdb.mockdb_interface`) is not part of this model. `MockDb.ShowStore` fixes assumed behaviour: its constructor starts the store empty with next id 1 (backend/app.py does not say what the store initially holds, and it may be seeded; the handler contracts hold for any store satisfying `ShowStore.Valid` and `Api.StoredShows`), ids grow by one, `updateById` replaces the fields and keeps the id, `get` lists in insertion order. `updateById` and `deleteById` require an existing id, as every handler checks that first.
- Api.PostAShow: on the success path only (both `name` and `episodes_seen` present), requires `episodes_seen` to be a JSON integer or boolean; parsing a numeric string with `int(...)` (and the unhandled `ValueError` for other text) is not modelled. The 422 paths accept any body.
- Api.UpdateAShow: on the success path only (id present, both fields present), requires `episodes_seen` to be a JSON integer or boolean, for the same reason. The 404 and 422 paths accept any body.
- Path ids are taken as already-parsed integers; `int(id)` on a non-numeric path segment is not modelled.
- The filter requires stored shows to carry an integer `episodes_seen` (the invariant `Api.StoredShows`); a seeded record without one would make the source raise, which is not modelled.
- The in-place mutation of the request body by `post_a_show` is not modelled, nor is whatever the store's `create` does to the caller's dict; the model works on copies.
- Floating-point JSON numbers, and `bool` counting as an integer in the filter's comparison, are not modelled.
- Concurrent requests against the shared store: the source has no locking.
