/** The expiry colour of the sweet card, taken against a fixed reference
    date (midnight of 2025-08-08 at offset -03:00) rather than the clock, so
    it depends on the date text alone. */
module SweetCard {
  import opened Text
  import opened CardFormat

  const MS_PER_DAY := 1000 * 60 * 60 * 24

  /** `new Date('2025-08-08T00:00:00-03:00')` in milliseconds since the epoch. */
  const REFERENCE_MS := 1754622000000

  /** `Math.ceil(x / d)` for a positive divisor. */
  function CeilDiv(x: int, d: int): (q: int)
    requires d > 0
    ensures (q - 1) * d < x <= q * d
  {
    -((-x) / d)
  }

  /** `getExpiryStatusClass(dateString)`. `instantOf` is the engine's parse
      of `` `${dateString}T00:00:00-03:00` `` in milliseconds, `None` for an
      invalid date. */
  function ExpiryStatusClass(dateString: string, instantOf: string -> Option<int>): string {
    if dateString == "" then ExpiryClass(NoDate)
    else
      var days := match instantOf(dateString)
        case None => None
        case Some(t) => Some(CeilDiv(t - REFERENCE_MS, MS_PER_DAY));
      ExpiryClass(ExpiryOfDays(days))
  }

  /** Dates at least a day before the reference are red; those after that
      up to seven days past it are yellow; later ones, or an unparsable
      date, are green. For a date-only text the instants are whole days
      apart, so: before 2025-08-08 red, 2025-08-08 to 2025-08-15 yellow,
      later green. */
  lemma ExpiryStatusBands(dateString: string, instantOf: string -> Option<int>)
    requires dateString != ""
    ensures var t := instantOf(dateString);
      && (ExpiryStatusClass(dateString, instantOf) == "text-red-600 font-bold"
          <==> t.Some? && t.value <= REFERENCE_MS - MS_PER_DAY)
      && (ExpiryStatusClass(dateString, instantOf) == "text-yellow-600 font-semibold"
          <==> t.Some? && REFERENCE_MS - MS_PER_DAY < t.value <= REFERENCE_MS + 7 * MS_PER_DAY)
      && (ExpiryStatusClass(dateString, instantOf) == "text-green-600"
          <==> t.None? || t.value > REFERENCE_MS + 7 * MS_PER_DAY)
  {
    var t := instantOf(dateString);
    var days := if t.None? then None else Some(CeilDiv(t.value - REFERENCE_MS, MS_PER_DAY));
    ExpiryClassInjective(ExpiryOfDays(days), Expired);
    ExpiryClassInjective(ExpiryOfDays(days), Soon);
    ExpiryClassInjective(ExpiryOfDays(days), Fresh);
    if t.Some? {
      var q := CeilDiv(t.value - REFERENCE_MS, MS_PER_DAY);
      assert q < 0 <==> t.value <= REFERENCE_MS - MS_PER_DAY;
      assert q <= 7 <==> t.value <= REFERENCE_MS + 7 * MS_PER_DAY;
    }
  }

  /** The reference day itself and the seventh day after it are yellow. */
  lemma ExpiryAroundReference(instantOf: string -> Option<int>)
    requires instantOf("2025-08-08") == Some(REFERENCE_MS)
    requires instantOf("2025-08-15") == Some(REFERENCE_MS + 7 * MS_PER_DAY)
    requires instantOf("2025-08-07") == Some(REFERENCE_MS - MS_PER_DAY)
    ensures ExpiryStatusClass("2025-08-08", instantOf) == "text-yellow-600 font-semibold"
    ensures ExpiryStatusClass("2025-08-15", instantOf) == "text-yellow-600 font-semibold"
    ensures ExpiryStatusClass("2025-08-07", instantOf) == "text-red-600 font-bold"
  {
    ExpiryStatusBands("2025-08-08", instantOf);
    ExpiryStatusBands("2025-08-15", instantOf);
    ExpiryStatusBands("2025-08-07", instantOf);
  }
}
