/**
 * The display helpers: the empty guard of date formatting, the expiration
 * date with its "no expiration" sentinel, and text truncation with an ellipsis.
 */
module Formatters {
  import opened Wrappers
  import opened Api

  // ---------------------------------------------------------------------------
  // formatDate and formatExpirationDate
  // ---------------------------------------------------------------------------

  /**
   * `formatDate`: an empty string stays empty; anything else goes to the date
   * library, here the parameter `render`, which yields `None` when the text
   * is no valid date (or parsing throws), and then the text is shown as it is.
   */
  function FormatDate(dateString: string, render: string -> Option<string>): (r: string)
    ensures dateString == "" ==> r == ""
    ensures dateString != "" && render(dateString).None? ==> r == dateString
    ensures dateString != "" && render(dateString).Some? ==> r == render(dateString).value
  {
    if dateString == "" then ""
    else
      match render(dateString)
      case None => dateString
      case Some(text) => text
  }

  /** A renderer that never produces the empty string. */
  ghost predicate NeverEmpty(render: string -> Option<string>) {
    forall s :: render(s).Some? ==> render(s).value != ""
  }

  /** With such a renderer the formatted date is empty exactly when the input was. */
  lemma FormatDateEmptyIff(dateString: string, render: string -> Option<string>)
    requires NeverEmpty(render)
    ensures FormatDate(dateString, render) == "" <==> dateString == ""
  {
  }

  /** The stored expiration date that stands for "no expiration date". */
  const NoExpirationSentinel: string := "2999-01-01"

  /** The text shown for a product without an expiration date. */
  const NoExpirationLabel: string := "СГ отсутствует"

  function FormatExpirationDate(dateString: Option<string>, render: string -> Option<string>): (r: string)
    ensures dateString.None? || dateString == Some("") || dateString == Some(NoExpirationSentinel) ==>
      r == NoExpirationLabel
    ensures dateString.Some? && dateString.value != "" && dateString.value != NoExpirationSentinel ==>
      r == FormatDate(dateString.value, render)
  {
    match dateString
    case None => NoExpirationLabel
    case Some(s) => if s == "" || s == NoExpirationSentinel then NoExpirationLabel else FormatDate(s, render)
  }

  /** The label is shown exactly for the three "no date" cases, given a renderer that never prints it. */
  lemma ExpirationLabelIff(dateString: Option<string>, render: string -> Option<string>)
    requires forall s :: render(s).Some? ==> render(s).value != NoExpirationLabel
    requires dateString.Some? ==> dateString.value != NoExpirationLabel
    ensures FormatExpirationDate(dateString, render) == NoExpirationLabel <==>
      dateString.None? || dateString == Some("") || dateString == Some(NoExpirationSentinel)
  {
  }

  /**
   * The normalizer keeps the sentinel verbatim, so a record that arrives with
   * it, or with no expiration date at all, is shown as having none.
   */
  lemma SentinelSurvivesNormalization(raw: RawItem, render: string -> Option<string>)
    requires raw.expirationDate.None? || raw.expirationDate == Some(NoExpirationSentinel)
    ensures FormatExpirationDate(TransformItem(raw).expiration_date, render) == NoExpirationLabel
  {
  }

  // ---------------------------------------------------------------------------
  // truncateText
  // ---------------------------------------------------------------------------

  /** The `maxLength` used when none is given. */
  const DefaultMaxLength: int := 50

  /**
   * `truncateText`: a text within the limit is kept; a longer one is cut and
   * ends in "...". `substring(0, maxLength - 3)` clamps a negative end to 0.
   */
  function TruncateText(text: string, maxLength: int): (r: string)
    ensures |text| <= maxLength ==> r == text
    ensures |text| > maxLength ==>
      && |r| == (if maxLength >= 3 then maxLength else 3)
      && r[..|r| - 3] <= text
      && r[|r| - 3..] == "..."
  {
    if |text| <= maxLength then text
    else text[..if maxLength - 3 > 0 then maxLength - 3 else 0] + "..."
  }

  /** `truncateText(text)` with the default limit never yields more than 50 characters. */
  function TruncateTextDefault(text: string): (r: string)
    ensures |r| <= DefaultMaxLength
    ensures |text| <= DefaultMaxLength ==> r == text
  {
    TruncateText(text, DefaultMaxLength)
  }

  /** With a limit of at least 3 the result fits the limit, and truncating again changes nothing. */
  lemma TruncateTextIdempotent(text: string, maxLength: int)
    requires maxLength >= 3
    ensures |TruncateText(text, maxLength)| <= maxLength
    ensures TruncateText(TruncateText(text, maxLength), maxLength) == TruncateText(text, maxLength)
  {
  }

  /** Below 3 the ellipsis alone exceeds the limit: a long text becomes "..." whatever it was. */
  lemma TruncateTextTinyLimit(text: string, maxLength: int)
    requires maxLength < 3 && |text| > maxLength
    ensures TruncateText(text, maxLength) == "..."
  {
  }
}
