/** The JSON values that `to_dict` builds and `from_dict` takes apart (Python dicts, lists, strings, None). */
module Json {
  import opened Wrappers
  import opened Time

  datatype Json = Null | Str(s: string) | Arr(items: seq<Json>) | Obj(fields: map<string, Json>)

  /** What `from_dict` raises: a key missing from the dict (KeyError), or a value whose shape the
      decoder cannot use (Python's TypeError / ValueError). */
  datatype DecodeError = NotAnObject | MissingKey(key: string) | WrongType(key: string)

  /** `data[key]`. */
  function Field(data: Json, key: string): Result<Json, DecodeError>
  {
    if !data.Obj? then Err(NotAnObject)
    else if key !in data.fields then Err(MissingKey(key))
    else Ok(data.fields[key])
  }

  function GetString(data: Json, key: string): Result<string, DecodeError>
  {
    match Field(data, key)
    case Err(e) => Err(e)
    case Ok(Str(s)) => Ok(s)
    case Ok(_) => Err(WrongType(key))
  }

  /** A value that is a string or `None`. */
  function GetOptString(data: Json, key: string): Result<Option<string>, DecodeError>
  {
    match Field(data, key)
    case Err(e) => Err(e)
    case Ok(Null) => Ok(None)
    case Ok(Str(s)) => Ok(Some(s))
    case Ok(_) => Err(WrongType(key))
  }

  /** `datetime.fromisoformat(data[key])`. */
  function GetTimestamp(data: Json, key: string): Result<Timestamp, DecodeError>
  {
    match GetString(data, key)
    case Err(e) => Err(e)
    case Ok(s) =>
      match FromIsoFormat(s)
      case None => Err(WrongType(key))
      case Some(t) => Ok(t)
  }

  function OptString(o: Option<string>): Json
  {
    match o
    case None => Null
    case Some(s) => Str(s)
  }

  /** A list of strings as a JSON array. */
  function Strings(ss: seq<string>): (items: seq<Json>)
    ensures |items| == |ss|
  {
    if ss == [] then [] else [Str(ss[0])] + Strings(ss[1..])
  }

  /** The strings of a JSON array, or None when some item is not a string. */
  function StringsOf(items: seq<Json>): (r: Option<seq<string>>)
    ensures r.Some? <==> forall i :: 0 <= i < |items| ==> items[i].Str?
    ensures r.Some? ==> |r.value| == |items| && forall i :: 0 <= i < |items| ==> r.value[i] == items[i].s
  {
    if items == [] then Some([])
    else if !items[0].Str? then None
    else match StringsOf(items[1..])
      case None => None
      case Some(rest) => Some([items[0].s] + rest)
  }

  function GetStrings(data: Json, key: string): Result<seq<string>, DecodeError>
  {
    match Field(data, key)
    case Err(e) => Err(e)
    case Ok(Arr(items)) =>
      (match StringsOf(items)
       case None => Err(WrongType(key))
       case Some(ss) => Ok(ss))
    case Ok(_) => Err(WrongType(key))
  }

  /** A dict whose values are encoded one by one. */
  function EncodeMap<V>(vs: map<string, V>, enc: V -> Json): (d: Json)
    ensures d.Obj? && d.fields.Keys == vs.Keys
  {
    Obj(map k | k in vs :: enc(vs[k]))
  }

  /** A dict whose every value must decode; otherwise the whole dict is rejected under `key`. */
  function DecodeMap<V>(m: map<string, Json>, dec: Json -> Result<V, DecodeError>, key: string): Result<map<string, V>, DecodeError>
  {
    if forall k :: k in m ==> dec(m[k]).Ok?
    then Ok(map k | k in m :: dec(m[k]).value)
    else Err(WrongType(key))
  }

  /** A decoded dict has the keys of the raw one, each value being its decoded raw value; a dict
      is rejected only for a value that does not decode. */
  lemma DecodeMapValues<V>(m: map<string, Json>, dec: Json -> Result<V, DecodeError>, key: string)
    ensures var r := DecodeMap(m, dec, key);
      && (r.Ok? ==> r.value.Keys == m.Keys && forall k :: k in m ==> dec(m[k]) == Ok(r.value[k]))
      && (r.Err? ==> r == Err(WrongType(key)) && exists k :: k in m && dec(m[k]).Err?)
  {
  }

  /** A value decoder that inverts its encoder inverts it on whole dicts too. */
  lemma MapRoundTrip<V>(vs: map<string, V>, enc: V -> Json, dec: Json -> Result<V, DecodeError>, key: string)
    requires forall v :: dec(enc(v)) == Ok(v)
    ensures DecodeMap(EncodeMap(vs, enc).fields, dec, key) == Ok(vs)
  {
    var m := EncodeMap(vs, enc).fields;
    assert forall k :: k in m ==> dec(m[k]) == Ok(vs[k]);
    assert (map k | k in m :: dec(m[k]).value) == vs;
  }

  /** `None` or a string, as a JSON value. */
  function OptStringOf(j: Json, key: string): Result<Option<string>, DecodeError>
  {
    match j
    case Null => Ok(None)
    case Str(s) => Ok(Some(s))
    case _ => Err(WrongType(key))
  }

  /** Strings read out of an array are the ones that array holds. */
  lemma {:induction false} StringsOfInverse(items: seq<Json>)
    requires StringsOf(items).Some?
    ensures Strings(StringsOf(items).value) == items
  {
    if items != [] {
      StringsOfInverse(items[1..]);
      assert [items[0]] + items[1..] == items;
    }
  }

  /** A list read by `GetStrings` is the array stored under its key. */
  lemma GetStringsInverse(data: Json, key: string)
    requires GetStrings(data, key).Ok?
    ensures data.Obj? && key in data.fields && data.fields[key] == Arr(Strings(GetStrings(data, key).value))
  {
    StringsOfInverse(data.fields[key].items);
  }

  lemma {:induction false} StringsRoundTrip(ss: seq<string>)
    ensures StringsOf(Strings(ss)) == Some(ss)
  {
    if ss != [] {
      StringsRoundTrip(ss[1..]);
      assert [ss[0]] + ss[1..] == ss;
    }
  }
}
