/** Points in time (`datetime`), kept opaque: only their ISO-8601 rendering and its parse matter. */
module Time {
  import opened Wrappers
  import Text

  /** A `datetime` as an opaque tick count. */
  datatype Timestamp = Timestamp(ticks: nat)

  /** `datetime.isoformat()`: a text that is never empty. */
  function IsoFormat(t: Timestamp): (s: string)
    ensures |s| > 0
  {
    Text.NatToString(t.ticks)
  }

  /** `datetime.fromisoformat(s)`: None is Python's ValueError for a text that is no rendering. */
  function FromIsoFormat(s: string): Option<Timestamp>
  {
    match Text.ParseNat(s)
    case None => None
    case Some(n) => Some(Timestamp(n))
  }

  lemma IsoRoundTrip(t: Timestamp)
    ensures FromIsoFormat(IsoFormat(t)) == Some(t)
  {
    Text.ParseRendered(t.ticks);
  }
}
