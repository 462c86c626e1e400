/** Static reference data per symbol (circulating supply and a stored market
    capitalisation), read from the supply table and indexed by symbol. */
module Supply {
  import opened Wrappers
  import opened Series

  /** A numeric reference field as it arrives from the table: SQL NULL (or any
      other falsy value), a value `float()` accepts, or one it rejects. */
  datatype Field = Null | Number(v: real) | Malformed

  /** One row of the supply table, keyed by its symbol in the registry. */
  datatype SupplyRecord = SupplyRecord(circulatingSupply: Field, marketCap: Field)

  /** Parse-or-absent: the number a field denotes, or None when it is unset or
      unparseable. */
  function Parse(f: Field): (r: Option<real>)
    ensures r.Some? <==> f.Number?
    ensures r.Some? ==> r.value == f.v
  {
    match f
    case Number(v) => Some(v)
    case _ => None
  }

  /** The registry entry of `sym`, if the supply table had one (`dict.get`). */
  function Lookup(registry: map<Symbol, SupplyRecord>, sym: Symbol): (r: Option<SupplyRecord>)
    ensures r.Some? <==> sym in registry
    ensures r.Some? ==> r.value == registry[sym]
  {
    if sym in registry then Some(registry[sym]) else None
  }

  /** The circulating supply used by the ranking: 0 when there is no record or
      the field is absent. */
  function SupplyOf(info: Option<SupplyRecord>): real
  {
    match info
    case None => 0.0
    case Some(rec) => Parse(rec.circulatingSupply).GetOr(0.0)
  }

  /** The stored market capitalisation used by the ranking: 0 when there is no
      record or the field is absent. */
  function StoredCapOf(info: Option<SupplyRecord>): real
  {
    match info
    case None => 0.0
    case Some(rec) => Parse(rec.marketCap).GetOr(0.0)
  }

  /** Where the market capitalisation of a symbol comes from: the priority
      chain over the reference record. */
  datatype Capitalisation =
    | Dynamic(supply: real)   // positive circulating supply: cap = supply * price
    | Stored(cap: real)       // no usable supply, positive stored cap
    | Unknown                 // neither is usable

  /** Applies the priority chain: a positive supply wins over a positive stored
      cap, which wins over nothing. */
  function Capitalise(info: Option<SupplyRecord>): (c: Capitalisation)
    ensures c.Dynamic? ==> c.supply > 0.0
    ensures c.Stored? ==> c.cap > 0.0
  {
    var supply := SupplyOf(info);
    var stored := StoredCapOf(info);
    if supply > 0.0 then Dynamic(supply)
    else if stored > 0.0 then Stored(stored)
    else Unknown
  }
}
