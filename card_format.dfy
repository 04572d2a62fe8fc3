/** The display helpers the ingredient and sweet cards share (each card
    file carries its own copy of `formatDateForDisplay`, and both map a
    number of days to an expiry colour the same way). */
module CardFormat {
  import opened Text

  /** `formatDateForDisplay(dateString)`: `'N/A'` for an empty date, the
      text itself unless it splits on `-` into exactly three parts, and
      otherwise the parts in reverse order joined by `/`. */
  function FormatDateForDisplay(dateString: string): string {
    if dateString == "" then "N/A"
    else
      var parts := Split(dateString, '-');
      if |parts| != 3 then dateString else parts[2] + "/" + parts[1] + "/" + parts[0]
  }

  /** A date `Y-M-D` with no `/` in it is shown as `D/M/Y`: splitting the
      display on `/` gives the three parts reversed, and joining those
      back in the original order with `-` gives the date again. */
  lemma {:induction false} DisplayedDateReadsBack(dateString: string)
    requires dateString != "" && |Split(dateString, '-')| == 3 && '/' !in dateString
    ensures var parts := Split(dateString, '-');
      Split(FormatDateForDisplay(dateString), '/') == [parts[2], parts[1], parts[0]]
    ensures var shown := Split(FormatDateForDisplay(dateString), '/');
      Join([shown[2], shown[1], shown[0]], "-") == dateString
  {
    var parts := Split(dateString, '-');
    SplitPiecesFrom(dateString, '-', '/');
    var rev := [parts[2], parts[1], parts[0]];
    Join3(parts[2], parts[1], parts[0], "/");
    SplitJoin(rev, '/');
    JoinSplit(dateString, '-');
    assert parts == [parts[0], parts[1], parts[2]];
    Join3(parts[0], parts[1], parts[2], "-");
  }

  /** A date that is not made of three `-`-separated parts is shown as it is. */
  lemma OtherDatesShownAsGiven(dateString: string)
    requires dateString != "" && CountChar(dateString, '-') != 2
    ensures FormatDateForDisplay(dateString) == dateString
  {
    SplitPieces(dateString, '-');
  }

  // ------------------------------------------------------------ expiry colour

  /** The four expiry states a card shows. */
  datatype Expiry = NoDate | Expired | Soon | Fresh

  /** The class name of each state. */
  function ExpiryClass(e: Expiry): string {
    match e
    case NoDate => "text-gray-500"
    case Expired => "text-red-600 font-bold"
    case Soon => "text-yellow-600 font-semibold"
    case Fresh => "text-green-600"
  }

  /** The state for a whole number of days until the expiry date; `None`
      stands for the `NaN` of an unparsable date, which fails both
      comparisons and so shows as fresh. */
  function ExpiryOfDays(diffDays: Option<int>): Expiry {
    match diffDays
    case None => Fresh
    case Some(d) => if d < 0 then Expired else if d <= 7 then Soon else Fresh
  }

  /** How urgent a state is. */
  function Urgency(e: Expiry): nat {
    match e
    case NoDate => 0
    case Fresh => 0
    case Soon => 1
    case Expired => 2
  }

  /** A later expiry date is never more urgent, and the thresholds sit at
      0 and 7 days, both ends belonging to "soon". */
  lemma ExpiryMonotone(a: int, b: int)
    requires a <= b
    ensures Urgency(ExpiryOfDays(Some(b))) <= Urgency(ExpiryOfDays(Some(a)))
    ensures ExpiryOfDays(Some(-1)) == Expired && ExpiryOfDays(Some(0)) == Soon
    ensures ExpiryOfDays(Some(7)) == Soon && ExpiryOfDays(Some(8)) == Fresh
  {
  }

  /** The class names tell the states apart. */
  lemma ExpiryClassInjective(e: Expiry, f: Expiry)
    ensures ExpiryClass(e) == ExpiryClass(f) <==> e == f
  {
  }
}
