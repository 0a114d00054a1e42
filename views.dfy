/**
 The name API: one resource, five handlers, over two shared maps: the cache
 (a key-value store with a timeout per entry) and the persistent store of
 person records keyed by their unique name. The third-party nationality API
 is an oracle from a URL to a status and a payload.

 Every access to the cache, the store or the third-party API is appended to
 the ghost `trace`, so that contracts can say which sources a request
 consulted and in which order.
 */
module Views {
  import opened Wrappers
  import opened Models
  import opened Serializers

  const ExternalApiUrl := "https://api.nationalize.io/?name="

  /** `NameService.CACHE_TIMEOUT`: one hour, in seconds. */
  const CacheTimeout: nat := 60 * 60

  const StatusOk := 200
  const StatusCreated := 201
  const StatusNoContent := 204
  const StatusBadRequest := 400
  const StatusNotFound := 404
  const StatusServerError := 500

  /** What the third-party API answers for a URL. */
  datatype Upstream = Upstream(status: int, payload: Person)

  datatype Error = NameRequired | NotFound | InvalidBody | SaveFailed | UpstreamFailed

  datatype Body =
    | Record(person: Person)        // a record of the store (possibly via the cache)
    | Passthrough(payload: Person)  // the third-party API's payload, returned as is
    | Failure(error: Error)
    | Deleted

  datatype Response = Response(status: int, body: Body)

  /** One access to a collaborator. */
  datatype Access =
    | CacheGet(key: string)
    | CacheSet(key: string, value: Person, timeout: nat)
    | CacheDelete(key: string)
    | StoreGet(name: string)
    | StoreSave(record: Person)
    | StoreDelete(name: string)
    | ExternalGet(url: string)

  class NameApiView {
    var cache: map<string, Person>
    var store: map<string, Person>
    ghost var trace: seq<Access>

    /** Every record is stored under its own name, and the cache holds only
        copies of stored records: a cached entry is never stale. */
    ghost predicate Valid()
      reads this
    {
      && (forall k :: k in store ==> store[k].name == k)
      && (forall k :: k in cache ==> k in store && cache[k] == store[k])
    }

    constructor (initial: map<string, Person>)
      requires forall k :: k in initial ==> initial[k].name == k
      ensures Valid()
      ensures store == initial && cache == map[] && trace == []
    {
      store := initial;
      cache := map[];
      trace := [];
    }

    /** `NameService.get_data_from_db`: the stored record, cached for an hour. */
    method GetDataFromDb(name: string) returns (data: Option<Person>)
      requires Valid()
      modifies this
      ensures Valid()
      ensures store == old(store)
      ensures data == if name in store then Some(store[name]) else None
      ensures name in store ==>
                && cache == old(cache)[name := store[name]]
                && trace == old(trace) + [StoreGet(name), CacheSet(name, store[name], CacheTimeout)]
      ensures name !in store ==> cache == old(cache) && trace == old(trace) + [StoreGet(name)]
    {
      trace := trace + [StoreGet(name)];
      if name in store {
        var entry := store[name];
        var found := Person(entry.name, entry.count, entry.country);
        cache := cache[name := found];
        trace := trace + [CacheSet(name, found, CacheTimeout)];
        data := Some(found);
      } else {
        data := None;
      }
    }

    /** `NameService.get_data_from_external_api`: the payload on status 200,
        nothing otherwise. Neither cache nor store is touched. */
    method GetDataFromExternalApi(name: string, api: string -> Upstream) returns (data: Option<Person>)
      modifies this
      ensures cache == old(cache) && store == old(store)
      ensures trace == old(trace) + [ExternalGet(ExternalApiUrl + name)]
      ensures data == if api(ExternalApiUrl + name).status == StatusOk
                      then Some(api(ExternalApiUrl + name).payload) else None
    {
      var url := ExternalApiUrl + name;
      trace := trace + [ExternalGet(url)];
      var response := api(url);
      if response.status == StatusOk {
        data := Some(response.payload);
      } else {
        data := None;
      }
    }

    /** GET: cache, then store (caching the record), then the third-party API
        (caching nothing). */
    method Get(name: string, api: string -> Upstream) returns (resp: Response)
      requires Valid()
      modifies this
      ensures Valid()
      ensures store == old(store)
      ensures name == "" ==>
                resp == Response(StatusBadRequest, Failure(NameRequired))
                && cache == old(cache) && trace == old(trace)
      ensures name != "" && name in old(cache) ==>
                resp == Response(StatusOk, Record(old(cache)[name]))
                && cache == old(cache) && trace == old(trace) + [CacheGet(name)]
      ensures name != "" && name !in old(cache) && name in store ==>
                resp == Response(StatusOk, Record(store[name]))
                && cache == old(cache)[name := store[name]]
                && trace == old(trace) + [CacheGet(name), StoreGet(name), CacheSet(name, store[name], CacheTimeout)]
      ensures name != "" && name !in old(cache) && name !in store ==>
                var upstream := api(ExternalApiUrl + name);
                && cache == old(cache)
                && trace == old(trace) + [CacheGet(name), StoreGet(name), ExternalGet(ExternalApiUrl + name)]
                && resp == if upstream.status != StatusOk
                           then Response(upstream.status, Failure(UpstreamFailed))
                           else Response(StatusOk, Passthrough(upstream.payload))
      // Whatever source served it, a record answer is the stored record.
      ensures resp.body.Record? ==> name in store && resp.body.person == store[name]
    {
      if name == "" {
        return Response(StatusBadRequest, Failure(NameRequired));
      }

      trace := trace + [CacheGet(name)];
      if name in cache {
        return Response(StatusOk, Record(cache[name]));
      }

      trace := trace + [StoreGet(name)];
      if name in store {
        var entry := store[name];
        var data := Person(entry.name, entry.count, entry.country);
        cache := cache[name := data];
        trace := trace + [CacheSet(name, data, CacheTimeout)];
        return Response(StatusOk, Record(data));
      }

      var url := ExternalApiUrl + name;
      trace := trace + [ExternalGet(url)];
      var response := api(url);
      if response.status != StatusOk {
        return Response(response.status, Failure(UpstreamFailed));
      }
      resp := Response(StatusOk, Passthrough(response.payload));
    }

    /** POST: validate (which includes the uniqueness of `name`), then save.
        `saveFails` says whether the database refuses the insert. The cache is
        never touched. */
    method Post(req: Request, saveFails: bool) returns (resp: Response)
      requires Valid()
      modifies this
      ensures Valid()
      ensures cache == old(cache)
      ensures !(IsValid(req, false) && req.name !in old(store)) ==>
                resp == Response(StatusBadRequest, Failure(InvalidBody))
                && store == old(store) && trace == old(trace)
      ensures IsValid(req, false) && req.name !in old(store) && saveFails ==>
                resp == Response(StatusServerError, Failure(SaveFailed))
                && store == old(store) && trace == old(trace)
      ensures IsValid(req, false) && req.name !in old(store) && !saveFails ==>
                resp == Response(StatusCreated, Record(Created(req)))
                && store == old(store)[req.name := Created(req)]
                && trace == old(trace) + [StoreSave(Created(req))]
    {
      if IsValid(req, false) && req.name !in store {
        if saveFails {
          return Response(StatusServerError, Failure(SaveFailed));
        }
        var record := Created(req);
        store := store[req.name := record];
        trace := trace + [StoreSave(record)];
        return Response(StatusCreated, Record(record));
      }
      resp := Response(StatusBadRequest, Failure(InvalidBody));
    }

    /** The common tail of PUT and PATCH once the record is found: validate,
        save the updated record, evict its cache entry, then cache it again.
        `saveFails` says whether the save raises (a database error, or an
        exception inside `update`). It is not caught, so the framework answers
        500. Because the save comes first, the cache is then left untouched. */
    method SaveUpdate(req: Request, partial: bool, saveFails: bool) returns (resp: Response)
      requires Valid()
      requires req.name in store
      modifies this
      ensures Valid()
      ensures !IsValid(req, partial) ==>
                resp == Response(StatusBadRequest, Failure(InvalidBody))
                && cache == old(cache) && store == old(store) && trace == old(trace)
      ensures IsValid(req, partial) && saveFails ==>
                resp == Response(StatusServerError, Failure(SaveFailed))
                && cache == old(cache) && store == old(store) && trace == old(trace)
      ensures IsValid(req, partial) && !saveFails ==>
                var updated := Updated(old(store)[req.name], Validated(req));
                && resp == Response(StatusOk, Record(updated))
                && store == old(store)[req.name := updated]
                && cache == old(cache)[req.name := updated]
                && trace == old(trace) + [StoreSave(updated), CacheDelete(req.name), CacheSet(req.name, updated, CacheTimeout)]
    {
      var name := req.name;
      if !IsValid(req, partial) {
        return Response(StatusBadRequest, Failure(InvalidBody));
      }
      if saveFails {
        return Response(StatusServerError, Failure(SaveFailed));
      }
      var updated := Update(store[name], Validated(req));
      store := store[name := updated];
      trace := trace + [StoreSave(updated)];
      cache := cache - {name};
      trace := trace + [CacheDelete(name)];
      var cached := Person(updated.name, updated.count, updated.country);
      cache := cache[name := cached];
      trace := trace + [CacheSet(name, cached, CacheTimeout)];
      resp := Response(StatusOk, Record(updated));
    }

    /** PUT: every field required; the country list is merged like PATCH's. */
    method Put(req: Request, saveFails: bool) returns (resp: Response)
      requires Valid()
      modifies this
      ensures Valid()
      ensures req.name == "" ==>
                resp == Response(StatusBadRequest, Failure(NameRequired))
                && cache == old(cache) && store == old(store) && trace == old(trace)
      ensures req.name != "" && req.name !in old(store) ==>
                resp == Response(StatusNotFound, Failure(NotFound))
                && cache == old(cache) && store == old(store) && trace == old(trace) + [StoreGet(req.name)]
      ensures req.name != "" && req.name in old(store) && !IsValid(req, false) ==>
                resp == Response(StatusBadRequest, Failure(InvalidBody))
                && cache == old(cache) && store == old(store) && trace == old(trace) + [StoreGet(req.name)]
      ensures req.name != "" && req.name in old(store) && IsValid(req, false) && saveFails ==>
                resp == Response(StatusServerError, Failure(SaveFailed))
                && cache == old(cache) && store == old(store) && trace == old(trace) + [StoreGet(req.name)]
      ensures req.name != "" && req.name in old(store) && IsValid(req, false) && !saveFails ==>
                var updated := Updated(old(store)[req.name], Validated(req));
                && resp == Response(StatusOk, Record(updated))
                && store == old(store)[req.name := updated]
                && cache == old(cache)[req.name := updated]
                && trace == old(trace) + [StoreGet(req.name), StoreSave(updated), CacheDelete(req.name), CacheSet(req.name, updated, CacheTimeout)]
    {
      var name := req.name;
      if name == "" {
        return Response(StatusBadRequest, Failure(NameRequired));
      }
      trace := trace + [StoreGet(name)];
      if name !in store {
        return Response(StatusNotFound, Failure(NotFound));
      }
      resp := SaveUpdate(req, false, saveFails);
    }

    /** PATCH: only `name` required; supplied fields are merged or overwritten. */
    method Patch(req: Request, saveFails: bool) returns (resp: Response)
      requires Valid()
      modifies this
      ensures Valid()
      ensures req.name == "" ==>
                resp == Response(StatusBadRequest, Failure(NameRequired))
                && cache == old(cache) && store == old(store) && trace == old(trace)
      ensures req.name != "" && req.name !in old(store) ==>
                resp == Response(StatusNotFound, Failure(NotFound))
                && cache == old(cache) && store == old(store) && trace == old(trace) + [StoreGet(req.name)]
      ensures req.name != "" && req.name in old(store) && !IsValid(req, true) ==>
                resp == Response(StatusBadRequest, Failure(InvalidBody))
                && cache == old(cache) && store == old(store) && trace == old(trace) + [StoreGet(req.name)]
      ensures req.name != "" && req.name in old(store) && IsValid(req, true) && saveFails ==>
                resp == Response(StatusServerError, Failure(SaveFailed))
                && cache == old(cache) && store == old(store) && trace == old(trace) + [StoreGet(req.name)]
      ensures req.name != "" && req.name in old(store) && IsValid(req, true) && !saveFails ==>
                var updated := Updated(old(store)[req.name], Validated(req));
                && resp == Response(StatusOk, Record(updated))
                && store == old(store)[req.name := updated]
                && cache == old(cache)[req.name := updated]
                && trace == old(trace) + [StoreGet(req.name), StoreSave(updated), CacheDelete(req.name), CacheSet(req.name, updated, CacheTimeout)]
      // A body without `country` keeps the stored country list; only the
      // supplied count is overwritten.
      ensures req.name != "" && req.name in old(store) && IsValid(req, true) && !saveFails && req.country.None? ==>
                && req.name in store
                && store[req.name].country == old(store)[req.name].country
                && store[req.name].count == if req.count.Some? then req.count.value else old(store)[req.name].count
    {
      var name := req.name;
      if name == "" {
        return Response(StatusBadRequest, Failure(NameRequired));
      }
      trace := trace + [StoreGet(name)];
      if name !in store {
        return Response(StatusNotFound, Failure(NotFound));
      }
      resp := SaveUpdate(req, true, saveFails);
    }

    /** DELETE: evict the cache entry first, whether or not a record exists,
        then remove the record. */
    method Delete(name: string) returns (resp: Response)
      requires Valid()
      modifies this
      ensures Valid()
      ensures name == "" ==>
                resp == Response(StatusBadRequest, Failure(NameRequired))
                && cache == old(cache) && store == old(store) && trace == old(trace)
      ensures name != "" ==> cache == old(cache) - {name} && store == old(store) - {name}
      ensures name != "" && name in old(store) ==>
                resp == Response(StatusNoContent, Deleted)
                && trace == old(trace) + [CacheDelete(name), StoreGet(name), StoreDelete(name)]
      ensures name != "" && name !in old(store) ==>
                resp == Response(StatusNotFound, Failure(NotFound))
                && trace == old(trace) + [CacheDelete(name), StoreGet(name)]
    {
      if name == "" {
        return Response(StatusBadRequest, Failure(NameRequired));
      }
      cache := cache - {name};
      trace := trace + [CacheDelete(name)];
      trace := trace + [StoreGet(name)];
      if name !in store {
        return Response(StatusNotFound, Failure(NotFound));
      }
      store := store - {name};
      trace := trace + [StoreDelete(name)];
      resp := Response(StatusNoContent, Deleted);
    }
  }

  // -----------------------------------------------------------------------
  // Sequences of requests

  /** Deleting a name twice: the second request always answers 404, and the
      first answered 204 exactly when the record existed. */
  method DeleteTwice(view: NameApiView, name: string) returns (first: Response, second: Response)
    requires view.Valid() && name != ""
    modifies view
    ensures view.Valid()
    ensures first.status == StatusNoContent <==> name in old(view.store)
    ensures second == Response(StatusNotFound, Failure(NotFound))
    ensures name !in view.store && name !in view.cache
  {
    first := view.Delete(name);
    second := view.Delete(name);
  }

  /** Creating a record and reading it back returns exactly the record sent.
      A name that is not stored has no cache entry (`Valid()`), so the read
      goes to the store and then caches the record. */
  method CreateThenGet(view: NameApiView, req: Request, api: string -> Upstream) returns (created: Response, read: Response)
    requires view.Valid()
    requires IsValid(req, false) && req.name !in view.store
    modifies view
    ensures view.Valid()
    ensures created.status == StatusCreated
    ensures read == Response(StatusOk, Record(Person(req.name, req.count.value, req.country.value)))
    ensures view.cache == old(view.cache)[req.name := Created(req)]
  {
    created := view.Post(req, false);
    read := view.Get(req.name, api);
  }

  /** After a successful update, a read is a cache hit that returns the updated
      record without consulting the store or the third-party API. */
  method PatchThenGet(view: NameApiView, req: Request, api: string -> Upstream) returns (patched: Response, read: Response)
    requires view.Valid()
    requires IsValid(req, true) && req.name in view.store
    modifies view
    ensures view.Valid()
    ensures patched.status == StatusOk
    ensures read == Response(StatusOk, Record(Updated(old(view.store)[req.name], Validated(req))))
    ensures var updated := Updated(old(view.store)[req.name], Validated(req));
            view.trace == old(view.trace) + [StoreGet(req.name), StoreSave(updated), CacheDelete(req.name),
                                             CacheSet(req.name, updated, CacheTimeout), CacheGet(req.name)]
  {
    patched := view.Patch(req, false);
    read := view.Get(req.name, api);
  }

}
