/**
 The person serializer: request validation (abstracted), record creation,
 and `update`, which merges the incoming country list into the stored one
 by `country_id` and then overwrites the scalar fields that were supplied.
 */
module Serializers {
  import opened Wrappers
  import opened Models
  import opened CountryMap

  /** A request body. A missing or empty `name` is `""`; `wellFormed` stands for
      the per-field parsing (string, integer, list of `{country_id, probability}`
      objects, length limits), which is not modelled. */
  datatype Request = Request(name: string, count: Option<int>, country: Option<seq<Country>>, wellFormed: bool)

  /** The fields a valid body supplies, after validation. */
  datatype ValidatedData = ValidatedData(name: Option<string>, count: Option<int>, country: Option<seq<Country>>)

  /** Field validation: a non-blank name, well-formed fields, and, unless the
      update is partial, every field present. */
  predicate IsValid(req: Request, partial: bool)
  {
    && req.wellFormed
    && req.name != ""
    && (partial || (req.count.Some? && req.country.Some?))
  }

  function Validated(req: Request): ValidatedData
  {
    ValidatedData(Some(req.name), req.count, req.country)
  }

  /** The record a valid creation body describes; its country list is stored as sent. */
  function Created(req: Request): Person
    requires IsValid(req, false)
  {
    Person(req.name, req.count.value, req.country.value)
  }

  /** What `update` makes of a stored record: the country list merged when one is
      supplied, the other supplied fields overwritten. */
  function Updated(instance: Person, data: ValidatedData): Person
  {
    Person(
      if data.name.Some? then data.name.value else instance.name,
      if data.count.Some? then data.count.value else instance.count,
      if data.country.Some? then Merge(instance.country, data.country.value) else instance.country)
  }

  /** `PersonSerializer.update`. */
  method Update(instance: Person, data: ValidatedData) returns (updated: Person)
    ensures updated == Updated(instance, data)
  {
    var country := instance.country;
    if data.country.Some? {
      var newCountries := data.country.value;
      var existing := instance.country;

      // The dictionary built from the existing list, keyed by `country_id`.
      var countryMap: seq<Country> := [];
      for i := 0 to |existing|
        invariant countryMap == UpsertAll([], existing[..i])
      {
        var c := existing[i];
        var k := IndexOf(countryMap, c.id);
        if k < |countryMap| {
          countryMap := countryMap[k := c];
        } else {
          countryMap := countryMap + [c];
        }
        assert existing[..i + 1][..i] == existing[..i];
      }
      assert existing[..|existing|] == existing;

      for j := 0 to |newCountries|
        invariant countryMap == UpsertAll(UpsertAll([], existing), newCountries[..j])
      {
        var newCountry := newCountries[j];
        var k := IndexOf(countryMap, newCountry.id);
        if k < |countryMap| {
          // The matching entry is updated in place from the incoming one.
          countryMap := countryMap[k := Country(countryMap[k].id, newCountry.probability)];
        } else {
          countryMap := countryMap + [newCountry];
        }
        assert newCountries[..j + 1][..j] == newCountries[..j];
      }
      assert newCountries[..|newCountries|] == newCountries;
      country := countryMap;
    }
    var name := if data.name.Some? then data.name.value else instance.name;
    var count := if data.count.Some? then data.count.value else instance.count;
    updated := Person(name, count, country);
  }

  // ---------------------------------------------------------------------
  // Laws of `update`

  /** Without a country list, the stored list is kept and only the supplied
      scalar fields change. */
  lemma UpdateWithoutCountry(instance: Person, data: ValidatedData)
    requires data.country.None?
    ensures Updated(instance, data).country == instance.country
    ensures Updated(instance, data).name == if data.name.Some? then data.name.value else instance.name
    ensures Updated(instance, data).count == if data.count.Some? then data.count.value else instance.count
  {
  }

  /** Applying the same update twice gives the same record as applying it once. */
  lemma UpdateIdempotent(instance: Person, data: ValidatedData)
    ensures Updated(Updated(instance, data), data) == Updated(instance, data)
  {
    if data.country.Some? {
      MergeIdempotent(instance.country, data.country.value);
    }
  }

  /** The worked merge example: `[RU a, US b]` updated with `[RU c, FR d]` becomes
      `[RU c, US b, FR d]`, the existing order kept, RU overwritten in place, FR
      appended. */
  lemma UpdateMergeExample(instance: Person, a: Prob, b: Prob, c: Prob, d: Prob)
    requires instance.country == [Country("RU", a), Country("US", b)]
    ensures Updated(instance, ValidatedData(None, None, Some([Country("RU", c), Country("FR", d)]))).country
         == [Country("RU", c), Country("US", b), Country("FR", d)]
  {
    var incoming := [Country("RU", c), Country("FR", d)];
    var existing := instance.country;
    assert UpsertAll([], existing[..1]) == [Country("RU", a)];
    assert UpsertAll([], existing) == existing;
    assert UpsertAll(existing, incoming[..1]) == [Country("RU", c), Country("US", b)];
  }

  /** A full update (all fields supplied, as a PUT body must) still merges: an
      existing entry the body does not list survives. `[RU a, US b]` updated with
      `[DE c]` becomes `[RU a, US b, DE c]`, not `[DE c]`. */
  lemma FullUpdateKeepsUnlisted(instance: Person, req: Request, a: Prob, b: Prob, c: Prob)
    requires IsValid(req, false)
    requires instance.country == [Country("RU", a), Country("US", b)]
    requires req.country == Some([Country("DE", c)])
    ensures Updated(instance, Validated(req)).country == [Country("RU", a), Country("US", b), Country("DE", c)]
  {
    var existing := instance.country;
    var incoming := [Country("DE", c)];
    assert UpsertAll([], existing[..1]) == [Country("RU", a)];
    assert UpsertAll([], existing) == existing;
    assert incoming[..0] == [];
    assert IndexOf(existing, "DE") == 2;
    assert UpsertAll(existing, incoming) == existing + incoming;
  }

}
