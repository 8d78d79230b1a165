/**
 * The status line under the grid: one message chosen by a priority ladder
 * (error, loading, active search, last refresh, idle) and up to three chips.
 */
module StatusBar {
  import opened Wrappers
  import opened Text
  import opened Items
  import opened Filters
  import opened TableStats

  /** JavaScript truthiness of an optional string: present and not empty. */
  predicate Truthy(s: Option<string>) {
    s.Some? && s.value != ""
  }

  /**
   * The inputs of the status line. `lastUpdated` is the refresh time already
   * rendered as `HH:mm:ss`; a `Date` object is always truthy, so only its
   * presence decides.
   */
  datatype StatusProps = StatusProps(
    totalItems: nat,
    filteredItems: nat,
    isLoading: bool,
    error: Option<string>,
    lastUpdated: Option<string>,
    searchTerm: Option<string>
  )

  const ErrorPrefix: string := "Ошибка: "
  const LoadingMessage: string := "Загрузка данных..."
  const FoundPrefix: string := "Найдено "
  const FoundMiddle: string := " товаров • Фильтр: \""
  const LoadedPrefix: string := "Загружено "
  const LoadedMiddle: string := " товаров • Последнее обновление: "
  const ReadyMessage: string := "Готово"

  /** The rungs of the ladder, from the most to the least urgent. */
  datatype Status = ErrorStatus | LoadingStatus | FoundStatus | LoadedStatus | ReadyStatus

  /** A search that hides some records. */
  predicate SearchNarrows(p: StatusProps) {
    Truthy(p.searchTerm) && p.filteredItems != p.totalItems
  }

  /** The first rung whose condition holds. */
  function StatusOf(p: StatusProps): Status {
    if Truthy(p.error) then ErrorStatus
    else if p.isLoading then LoadingStatus
    else if SearchNarrows(p) then FoundStatus
    else if p.lastUpdated.Some? then LoadedStatus
    else ReadyStatus
  }

  /** `getStatusMessage`: the text of the rung that answers. */
  function GetStatusMessage(p: StatusProps): (msg: string)
    ensures StatusOf(p) == ErrorStatus ==> msg == ErrorPrefix + p.error.value
    ensures StatusOf(p) == LoadingStatus ==> msg == LoadingMessage
    ensures StatusOf(p) == FoundStatus ==>
      msg == FoundPrefix + NatToString(p.filteredItems) + FoundMiddle + p.searchTerm.value + "\""
    ensures StatusOf(p) == LoadedStatus ==>
      msg == LoadedPrefix + NatToString(p.totalItems) + LoadedMiddle + p.lastUpdated.value
    ensures StatusOf(p) == ReadyStatus ==> msg == ReadyMessage
  {
    match StatusOf(p)
    case ErrorStatus => ErrorPrefix + p.error.value
    case LoadingStatus => LoadingMessage
    case FoundStatus => FoundPrefix + NatToString(p.filteredItems) + FoundMiddle + p.searchTerm.value + "\""
    case LoadedStatus => LoadedPrefix + NatToString(p.totalItems) + LoadedMiddle + p.lastUpdated.value
    case ReadyStatus => ReadyMessage
  }

  /** An error outranks everything: the other inputs do not change the message. */
  lemma ErrorWins(p: StatusProps, q: StatusProps)
    requires Truthy(p.error) && q.error == p.error
    ensures GetStatusMessage(q) == GetStatusMessage(p) == ErrorPrefix + p.error.value
  {
  }

  // ---------------------------------------------------------------------------
  // Reading a message back
  // ---------------------------------------------------------------------------

  /** Which rung a message comes from, judged by its fixed text alone. */
  function ReadStatus(msg: string): Status {
    if ErrorPrefix <= msg then ErrorStatus
    else if msg == LoadingMessage then LoadingStatus
    else if FoundPrefix <= msg then FoundStatus
    else if LoadedPrefix <= msg then LoadedStatus
    else ReadyStatus
  }

  /** Two strings that differ at some position below both lengths are not prefixes of each other. */
  lemma DifferAt(u: string, v: string, msg: string, k: nat)
    requires k < |u| && k < |v| && u[k] != v[k] && v <= msg
    ensures !(u <= msg)
  {
  }

  lemma OtherMessagesAreNoErrors(status: Status, msg: string)
    requires status != ErrorStatus
    requires status == LoadingStatus ==> msg == LoadingMessage
    requires status == FoundStatus ==> FoundPrefix <= msg
    requires status == LoadedStatus ==> LoadedPrefix <= msg
    requires status == ReadyStatus ==> msg == ReadyMessage
    ensures !(ErrorPrefix <= msg)
  {
    assert ErrorPrefix[0] == 'О';
    match status
    case LoadingStatus => DifferAt(ErrorPrefix, LoadingMessage, msg, 0);
    case FoundStatus => DifferAt(ErrorPrefix, FoundPrefix, msg, 0);
    case LoadedStatus => DifferAt(ErrorPrefix, LoadedPrefix, msg, 0);
    case ReadyStatus => DifferAt(ErrorPrefix, ReadyMessage, msg, 0);
  }

  lemma LoadedMessagesAreNoOthers(msg: string)
    requires LoadedPrefix <= msg
    ensures msg != LoadingMessage && !(FoundPrefix <= msg)
  {
    DifferAt(LoadingMessage, LoadedPrefix, msg, 6);
    DifferAt(FoundPrefix, LoadedPrefix, msg, 0);
  }

  lemma FoundMessagesAreNotLoading(msg: string)
    requires FoundPrefix <= msg
    ensures msg != LoadingMessage
  {
    DifferAt(LoadingMessage, FoundPrefix, msg, 0);
  }

  lemma ReadyIsNoOther()
    ensures ReadyMessage != LoadingMessage && !(FoundPrefix <= ReadyMessage) && !(LoadedPrefix <= ReadyMessage)
  {
    assert ReadyMessage[0] != LoadingMessage[0];
    DifferAt(FoundPrefix, ReadyMessage, ReadyMessage, 0);
    DifferAt(LoadedPrefix, ReadyMessage, ReadyMessage, 0);
  }

  /**
   * The five kinds of message cannot be mistaken for each other: the rung
   * can be read back from the message, whatever the error or search text.
   */
  lemma MessageRevealsStatus(p: StatusProps)
    ensures ReadStatus(GetStatusMessage(p)) == StatusOf(p)
  {
    var msg := GetStatusMessage(p);
    var status := StatusOf(p);
    match status
    case ErrorStatus =>
    case LoadingStatus =>
      OtherMessagesAreNoErrors(status, msg);
    case FoundStatus =>
      OtherMessagesAreNoErrors(status, msg);
      FoundMessagesAreNotLoading(msg);
    case LoadedStatus =>
      OtherMessagesAreNoErrors(status, msg);
      LoadedMessagesAreNoOthers(msg);
    case ReadyStatus =>
      OtherMessagesAreNoErrors(status, msg);
      ReadyIsNoOther();
  }

  /** The longest run of digits a string starts with. */
  function LeadingDigits(s: string): (d: string)
    ensures d <= s
    ensures forall i :: 0 <= i < |d| ==> IsDigit(d[i])
    ensures |d| == |s| || !IsDigit(s[|d|])
  {
    if s != [] && IsDigit(s[0]) then [s[0]] + LeadingDigits(s[1..]) else []
  }

  lemma {:induction false} LeadingDigitsOfNumeral(d: string, rest: string)
    requires forall i :: 0 <= i < |d| ==> IsDigit(d[i])
    requires rest == [] || !IsDigit(rest[0])
    ensures LeadingDigits(d + rest) == d
  {
    if d == [] {
      assert d + rest == rest;
    } else {
      assert (d + rest)[0] == d[0] && (d + rest)[1..] == d[1..] + rest;
      LeadingDigitsOfNumeral(d[1..], rest);
    }
  }

  /** The number a message shows right after its prefix. */
  function ShownCount(msg: string, prefix: string): nat
    requires prefix <= msg
  {
    DigitsValue(LeadingDigits(msg[|prefix|..]))
  }

  /** The "Найдено" message shows the number of filtered records. */
  lemma FoundMessageShowsCount(p: StatusProps)
    requires StatusOf(p) == FoundStatus
    ensures FoundPrefix <= GetStatusMessage(p)
    ensures ShownCount(GetStatusMessage(p), FoundPrefix) == p.filteredItems
  {
    var msg := GetStatusMessage(p);
    var digits := NatToString(p.filteredItems);
    var rest := FoundMiddle + p.searchTerm.value + "\"";
    assert msg == FoundPrefix + (digits + rest);
    assert msg[|FoundPrefix|..] == digits + rest;
    LeadingDigitsOfNumeral(digits, rest);
    NatToStringRoundTrip(p.filteredItems);
  }

  /** The "Загружено" message shows the number of all records. */
  lemma LoadedMessageShowsCount(p: StatusProps)
    requires StatusOf(p) == LoadedStatus
    ensures LoadedPrefix <= GetStatusMessage(p)
    ensures ShownCount(GetStatusMessage(p), LoadedPrefix) == p.totalItems
  {
    var msg := GetStatusMessage(p);
    var digits := NatToString(p.totalItems);
    var rest := LoadedMiddle + p.lastUpdated.value;
    assert msg == LoadedPrefix + (digits + rest);
    assert msg[|LoadedPrefix|..] == digits + rest;
    LeadingDigitsOfNumeral(digits, rest);
    NatToStringRoundTrip(p.totalItems);
  }

  // ---------------------------------------------------------------------------
  // Chips
  // ---------------------------------------------------------------------------

  datatype Chips = Chips(errorChip: bool, loadingChip: bool, filterChip: bool)

  function ChipsOf(p: StatusProps): Chips {
    Chips(Truthy(p.error), p.isLoading, SearchNarrows(p))
  }

  /**
   * The chips agree with the ladder: the error chip is shown exactly when the
   * message is the error, and when no error or loading outranks it the filter
   * chip is shown exactly when the message is the "Найдено" one.
   */
  lemma ChipsAgreeWithMessage(p: StatusProps)
    ensures ChipsOf(p).errorChip <==> ReadStatus(GetStatusMessage(p)) == ErrorStatus
    ensures !ChipsOf(p).errorChip ==> (ChipsOf(p).loadingChip <==> ReadStatus(GetStatusMessage(p)) == LoadingStatus)
    ensures !ChipsOf(p).errorChip && !ChipsOf(p).loadingChip ==>
      (ChipsOf(p).filterChip <==> ReadStatus(GetStatusMessage(p)) == FoundStatus)
  {
    MessageRevealsStatus(p);
  }

  /** The status line as the storage page wires it: counts and search taken from the filter. */
  function PageStatus(items: seq<Item>, filters: FilterOptions, isLoading: bool,
                      error: Option<string>, lastUpdated: Option<string>): StatusProps
  {
    StatusProps(|items|, |FilterItems(items, filters)|, isLoading, error, lastUpdated, Some(filters.search))
  }

  /**
   * On the page, the status line's filter chip and the panel's "filter active"
   * chip are shown together or not at all, and never for a blank search.
   */
  lemma FilterChipsAgree(items: seq<Item>, filters: FilterOptions, isLoading: bool,
                         error: Option<string>, lastUpdated: Option<string>)
    ensures ChipsOf(PageStatus(items, filters, isLoading, error, lastUpdated)).filterChip <==>
      ComputeStats(items, FilterItems(items, filters)).filterActive
    ensures IsBlank(filters.search) ==> !ChipsOf(PageStatus(items, filters, isLoading, error, lastUpdated)).filterChip
  {
    if filters.search == "" {
      assert IsBlank(filters.search);
    }
  }
}
