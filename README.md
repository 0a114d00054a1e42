# Nationalize name API: a Dafny model

This project models the core of a small proxy-and-cache service. Given a person's
name, the service returns how likely each country is as that name's origin. It answers
a read from the cache first, then from the database of person records, and
last from the third-party nationalize.io API. It also offers create, replace,
partial update and delete over the stored records. Replace and update merge
the incoming country list into the stored one by `country_id`.

Modules, one per source file or concern:

- `Wrappers` (`wrappers.dfy`): `Option`.
- `Models` (`models.dfy`): the `Person` record (`name`, `count`, `country`) and
  its `Country` entries (`id` for `country_id`, `probability`).
- `CountryMap` (`country_map.dfy`): an insertion-ordered dictionary keyed by
  `country_id`, stored as the sequence of its values. It has `IndexOf`, `Upsert`
  (assign one key), `UpsertAll` and `Merge`. Reference definitions sit beside
  them: `LastProb` (the last entry's probability for an id) and `Fresh`/`Dedup`
  (first-occurrence order). The laws of the merge are proved against them.
- `Serializers` (`serializers.dfy`): request validation, kept abstract. It also
  holds `Update`, the serializer's `update` as a method with its two loops,
  proved equal to the specification function `Updated`.
- `Views` (`views.dfy`): class `NameApiView`. Its fields `cache` and `store` are
  the process-wide cache and the person table. It has one method per handler and
  one per `NameService` helper. A ghost `trace` records every cache, store and
  third-party access in order. The class invariant `Valid()` says each record is
  stored under its own name and every cached entry equals the stored record.
  So a read never returns a stale cached record.

Two places where the code does something other than its own docstrings
describe. The model follows the code:

- PUT is documented as a full update of the record (`api_nationalize/views.py:147`).
  It calls the same serializer `update` as PATCH, though. So PUT merges the country
  list just as PATCH does; it does not replace it verbatim. `FullUpdateKeepsUnlisted`
  shows the difference: `[RU, US]` updated by a PUT carrying `[DE]` becomes
  `[RU, US, DE]`.
- GET is documented to answer 500 when the third-party request fails
  (`api_nationalize/views.py:84`). It forwards whatever non-200 status the
  third-party API returned.

Duplicate names on POST: the model serializer turns the column's `unique=True`
(`api_nationalize/models.py:6`) into a uniqueness check during validation. In
sequential use, a duplicate name is therefore rejected with 400. The 500 branch
covers a failing save, for example the database's own constraint tripping. The
input `saveFails` of `Post` decides it.

## Model

| member | source | states |
|---|---|---|
| `CountryMap.IndexOf` | api_nationalize/serializers.py:29 | the key test `country_id in country_map`: the result is the first position holding the id, or the length when no entry holds it |
| `CountryMap.UpsertAllUnique` | api_nationalize/serializers.py:27-32 | assigning any entries into a map without duplicate ids keeps it free of duplicates |
| `CountryMap.UpsertAllIds` | api_nationalize/serializers.py:27-32 | assigning entries keeps the map's keys in place and appends the new keys, each once, in first-occurrence order |
| `CountryMap.UpsertAllLookup` | api_nationalize/serializers.py:27-32 | after the assignments, an id carries the probability of its last assigned entry; an id not assigned keeps its old value |
| `CountryMap.UpsertAllOfUnique` | api_nationalize/serializers.py:24 | building the dictionary from a list without duplicate ids gives back that list unchanged |
| `CountryMap.UpsertAllTwice` | api_nationalize/serializers.py:27-32 | assigning the same entries a second time leaves the map unchanged |
| `CountryMap.FreshOrder` | api_nationalize/serializers.py:32 | the appended ids are ordered by their first occurrence in the incoming list |
| `CountryMap.MergeUnique` | api_nationalize/serializers.py:24-34 | after the merge, no two entries share a `country_id`, whatever the existing list held |
| `CountryMap.MergeIdSet` | api_nationalize/serializers.py:24-34 | the merged ids are exactly the existing ids united with the incoming ids |
| `CountryMap.MergeLookup` | api_nationalize/serializers.py:24-32 | an incoming id carries its last incoming probability (last write wins); any other id keeps the probability it had, and a duplicate in the existing list keeps its last value |
| `CountryMap.MergeOrder` | api_nationalize/serializers.py:24-34 | the merged ids are the existing ids deduplicated in first-occurrence order, then the ids new to the record in first-occurrence order |
| `CountryMap.MergeInPlace` | api_nationalize/serializers.py:26-32 | for an existing list without duplicate ids, every existing entry keeps its position; it is left unchanged unless the incoming list carries its id, and then it takes the last such probability |
| `CountryMap.MergeIdempotent` | api_nationalize/serializers.py:27-34 | merging the same incoming list twice gives the same list as merging it once |
| `Serializers.Update` | api_nationalize/serializers.py:17-36 | the loop over the existing list builds the dictionary; the loop over the incoming list assigns into it; the result is the merged list plus the supplied scalar fields, equal to `Updated` |
| `Serializers.UpdateWithoutCountry` | api_nationalize/serializers.py:19-36 | an update without `country` keeps the country list and overwrites only the supplied name and count |
| `Serializers.UpdateIdempotent` | api_nationalize/serializers.py:17-36 | applying the same update twice gives the same record as applying it once |
| `Serializers.UpdateMergeExample` | api_nationalize/serializers.py:24-34 | `[RU a, US b]` merged with `[RU c, FR d]` is `[RU c, US b, FR d]` |
| `Serializers.FullUpdateKeepsUnlisted` | api_nationalize/views.py:173-175 | a valid PUT body still merges: `[RU a, US b]` with `[DE c]` becomes `[RU a, US b, DE c]` |
| `Views.NameApiView.GetDataFromDb` | api_nationalize/views.py:26-43 | a stored name returns its record and caches it for `CacheTimeout` (3600 s); an unknown name returns nothing and caches nothing; the store is unchanged |
| `Views.NameApiView.GetDataFromExternalApi` | api_nationalize/views.py:46-56 | one call to the third-party URL for the name; the payload on status 200, nothing otherwise; cache and store untouched |
| `Views.NameApiView.Get` | api_nationalize/views.py:72-111 | empty name: 400 and no access at all. Cache hit: the cached record, with one cache read and no store or third-party access. Store hit: the record, written to the cache. Otherwise one third-party call and nothing written; a non-200 status is forwarded, a 200 returns the payload. A record answer always equals the stored record |
| `Views.NameApiView.Post` | api_nationalize/views.py:115-142 | invalid body or taken name: 400. Failed save: 500. Either way the store is unchanged. Otherwise 201 and the record is added exactly as sent. The cache is never touched |
| `Views.NameApiView.SaveUpdate` | api_nationalize/views.py:173-184 | invalid body: 400 with cache and store unchanged. A failing save (`saveFails`, uncaught, so the framework's 500): store, cache and trace unchanged, because the save precedes any cache change. Otherwise the merged record is saved, its cache entry evicted and then set to the saved record, in that order |
| `Views.NameApiView.Put` | api_nationalize/views.py:145-184 | missing name: 400 with nothing touched. Unknown name: 404 after one store read. Otherwise validated with every field required; a failing save answers 500 with nothing changed; on success, store and cache hold the merged record |
| `Views.NameApiView.Patch` | api_nationalize/views.py:187-226 | like PUT, but only `name` is required; supplied fields are merged or overwritten; a body without `country` leaves the stored country list as it was and overwrites only a supplied count |
| `Views.NameApiView.Delete` | api_nationalize/views.py:229-254 | missing name: 400 with nothing touched. Otherwise the cache entry is evicted first, whether or not a record exists; then the record is removed with 204, or 404 when there is none |
| `Views.DeleteTwice` | api_nationalize/views.py:243-254 | a second DELETE of the same name always answers 404; the first answered 204 exactly when the record existed |
| `Views.CreateThenGet` | api_nationalize/views.py:134-138 | a created record read back is exactly the record sent; an unstored name has no cache entry (`Valid()`), so the read goes to the store and then caches the record |
| `Views.PatchThenGet` | api_nationalize/views.py:214-224 | after a successful PATCH, the next GET is a cache hit that returns the merged record with no store or third-party access |

## Left out

- The HTTP call to nationalize.io is a function from the URL to a status and a payload. Timeouts, connection errors and invalid JSON in a 200 response are not modelled.
- Cache expiry: `CacheTimeout` (3600 s) is recorded on each cache write, but no clock exists, so entries never expire in the model. An expired entry would only remove a key from `cache`, which keeps `Valid()`.
- Field validation (string, integer and float parsing, the 255-character limit on `name`, whitespace trimming) is the abstract flag `Request.wellFormed`. The model takes the validated name to be the name the handler looked up.
- The uniqueness check that validation runs against the store is not recorded in `trace`.
- Probabilities are `real` values that the model only copies and compares. Float semantics are not modelled.
- Views.NameApiView.Patch: incoming country entries are assumed complete, with both `country_id` and `probability`. A partial update also lets validation skip a missing field inside an entry. An entry without `probability` would then keep the old probability, or be appended without one. An entry without `country_id` raises during the save; the model covers this only as a failing save (`saveFails`, 500). Modelling this would need optional fields in every stored entry and a second merge rule.
- Country entries are exactly `{country_id, probability}`. Extra keys a stored JSON entry might carry, which the in-place `update` would keep, are not modelled.
- The merge rebuilds the list as a value. Changing the old list's dictionaries in place is not observable afterwards, because `instance.country` is reassigned.
- A missing `name` and an empty `name` are the same input `""`, as the source's `if not name` treats them. A non-string `name` in a JSON body is not modelled.
- Requests are atomic and sequential. Concurrent requests, such as racing PATCHes on one record, are not modelled.
- The index page, the OpenAPI decorators and schemas, admin registration and URL routing are framework configuration with no logic.
- Other writers to the database, such as the admin site, are not modelled. They could leave a cached entry stale, which `Valid()` excludes.
