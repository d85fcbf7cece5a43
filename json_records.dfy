/** JSON values as the nodes send them and as the backend and the dashboard
    read them back: objects whose values are numbers or `null`. */
module JsonRecords {

  datatype Option<+T> = None | Some(value: T)

  /** A scalar field of a sensor record. */
  datatype Json = Null | Num(n: real)

  /** A JSON object, a Python dict or a JavaScript object with scalar values.
      A key that is absent is simply not in the map. */
  type Record = map<string, Json>

  /** Python `d.get(key, default) or default`, JavaScript `d.key || default`:
      an absent key, `null` and the number 0 (all falsy) give the default. */
  function NumberOr(r: Record, key: string, default: real): (v: real)
    ensures (key in r && r[key].Num? && r[key].n != 0.0) ==> v == r[key].n
    ensures (key !in r || r[key] == Null || r[key] == Num(0.0)) ==> v == default
    ensures v == 0.0 ==> default == 0.0
  {
    if key in r && r[key].Num? && r[key].n != 0.0 then r[key].n else default
  }

  /** JavaScript `obj?.key || default`, where the object itself may be missing. */
  function MaybeNumberOr(r: Option<Record>, key: string, default: real): real
  {
    match r
    case None => default
    case Some(rec) => NumberOr(rec, key, default)
  }

  /** Python `d.get(key)`: an absent key reads as `None`, which is JSON `null`. */
  function Lookup(r: Record, key: string): Json
  {
    if key in r then r[key] else Null
  }

  /** A Python `Optional[float]` written into a JSON payload. */
  function FromOption(o: Option<real>): Json
  {
    match o
    case None => Null
    case Some(v) => Num(v)
  }
}
