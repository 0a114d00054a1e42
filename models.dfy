/**
 The stored entity: a person record with a mention count and a list of
 country probabilities (a Django model whose `name` column is unique).
 */
module Models {

  /** A probability as the service receives it (a float). The model only copies
      and compares probabilities; it never computes with them. */
  type Prob = real

  /** One `{country_id, probability}` entry of a record's country list. */
  datatype Country = Country(id: string, probability: Prob)

  /** A stored record; `name` is the unique lookup key. */
  datatype Person = Person(name: string, count: int, country: seq<Country>)

}
