/** The resolver that turns the four optional paging query parameters
    (`page`, `size`, `field`, `direction`) into typed values, falling back to
    the configured defaults when a parameter is absent or blank.
 */
module PageUtils {
  import opened Results
  import opened Text

  /** The `page.default.*` properties injected at start-up. */
  datatype Config = Config(
    pageNumber: int32,
    pageSize: int32,
    sortField: string,
    ascending: bool)

  const PageNumberMessage: string := "Некорректный параметр \"Номер страницы\""

  /** The message of the `NumberFormatException` that `Integer.parseInt`
      throws for a decimal string. */
  function NumberFormatMessage(s: string): string {
    "For input string: \"" + s + "\""
  }

  /** `getPageNumber`: a malformed number is reported as BAD_REQUEST. */
  function PageNumber(cfg: Config, param: Option<string>): (r: Result<int32>)
    ensures !HasText(param) ==> r == Ok(cfg.pageNumber)
    ensures HasText(param) ==> (r.Ok? <==> ParseInt(param.value).Some?)
    ensures HasText(param) && r.Ok? ==> r.value == ParseInt(param.value).value
    ensures r.Err? ==> r.failure == Failure(BadRequest, PageNumberMessage)
  {
    if HasText(param) then
      match ParseInt(param.value)
      case Some(n) => Ok(n)
      case None => Err(Failure(BadRequest, PageNumberMessage))
    else
      Ok(cfg.pageNumber)
  }

  /** `getPageSize`: the same shape, except that nothing catches the parse
      failure, so it escapes as an unhandled `NumberFormatException`. */
  function PageSize(cfg: Config, param: Option<string>): (r: Result<int32>)
    ensures !HasText(param) ==> r == Ok(cfg.pageSize)
    ensures HasText(param) ==> (r.Ok? <==> ParseInt(param.value).Some?)
    ensures HasText(param) && r.Ok? ==> r.value == ParseInt(param.value).value
    ensures r.Err? ==> r.failure == Failure(Unhandled, NumberFormatMessage(param.value))
  {
    if HasText(param) then
      match ParseInt(param.value)
      case Some(n) => Ok(n)
      case None => Err(Failure(Unhandled, NumberFormatMessage(param.value)))
    else
      Ok(cfg.pageSize)
  }

  /** `getPageSortField`: passed through unchecked, no whitelist. */
  function SortField(cfg: Config, param: Option<string>): (r: string)
    ensures HasText(param) ==> r == param.value
    ensures !HasText(param) ==> r == cfg.sortField
  {
    if HasText(param) then param.value else cfg.sortField
  }

  /** `getPageSortDirection`: true exactly for "true" in any letter case. */
  function SortDirection(cfg: Config, param: Option<string>): (r: bool)
    ensures HasText(param) ==> (r <==> ParseBoolean(param.value))
    ensures !HasText(param) ==> r == cfg.ascending
  {
    if HasText(param) then ParseBoolean(param.value) else cfg.ascending
  }

  /** Any `int` written in decimal comes back as itself: there is no range
      check, so 0 and negative page numbers pass the resolver. */
  lemma PageNumberAcceptsEveryInt(cfg: Config, n: int32)
    ensures PageNumber(cfg, Some(Show(n as int))) == Ok(n)
  {
    ParseIntShow(n);
    assert !IsWhitespace(Show(n as int)[|Show(n as int)| - 1]);
  }

  /** The same holds of the page size: 0 and negative sizes are returned as
      they are and only fail later, in the paging library. */
  lemma PageSizeAcceptsEveryInt(cfg: Config, n: int32)
    ensures PageSize(cfg, Some(Show(n as int))) == Ok(n)
  {
    ParseIntShow(n);
    assert !IsWhitespace(Show(n as int)[|Show(n as int)| - 1]);
  }

  /** A non-blank page number with a non-digit in it is a BAD_REQUEST,
      while the same page size escapes unhandled. */
  lemma MalformedNumbers(cfg: Config, s: string, i: nat)
    requires !IsBlank(s)
    requires i < |s| && !IsDigit(s[i])
    requires i > 0 || (s[0] != '-' && s[0] != '+')
    ensures PageNumber(cfg, Some(s)) == Err(Failure(BadRequest, PageNumberMessage))
    ensures PageSize(cfg, Some(s)) == Err(Failure(Unhandled, NumberFormatMessage(s)))
  {
    ParseIntRejectsNonDigit(s, i);
  }

  /** Each resolver is total on a missing or blank parameter. */
  lemma BlankParametersUseDefaults(cfg: Config, param: Option<string>)
    requires param.None? || IsBlank(param.value)
    ensures PageNumber(cfg, param) == Ok(cfg.pageNumber)
    ensures PageSize(cfg, param) == Ok(cfg.pageSize)
    ensures SortField(cfg, param) == cfg.sortField
    ensures SortDirection(cfg, param) == cfg.ascending
  {
  }

  /** Parsing the direction only ever looks for "true": any other non-blank
      word, "false", "yes" or "1" alike, sorts descending. */
  lemma DirectionExamples(cfg: Config)
    ensures SortDirection(cfg, Some("TrUe"))
    ensures !SortDirection(cfg, Some("false"))
    ensures !SortDirection(cfg, Some("yes"))
    ensures !SortDirection(cfg, Some(" true"))
  {
    assert !IsWhitespace("TrUe"[0]) && !IsWhitespace("false"[0]) && !IsWhitespace("yes"[0]);
    assert !IsWhitespace(" true"[1]);
  }

  /** A direction given as text is ascending exactly when the text, folded
      to lower case letter by letter, is "true": `equalsIgnoreCase` with no
      trimming. */
  lemma DirectionIgnoresCase(cfg: Config, s: string)
    ensures HasText(Some(s)) ==>
      (SortDirection(cfg, Some(s)) <==> |s| == 4 && forall i | 0 <= i < 4 :: LowerAscii(s[i]) == "true"[i])
  {
  }

  /** The parser neither trims nor reads beyond 32 bits. */
  lemma PageNumberExamples(cfg: Config)
    ensures PageNumber(cfg, Some("0")) == Ok(0)
    ensures PageNumber(cfg, Some("-3")) == Ok(-3)
    ensures PageNumber(cfg, Some(" 2")).Err?
    ensures PageNumber(cfg, Some(Show(IntMax + 1))).Err?
    ensures PageNumber(cfg, Some("   ")) == Ok(cfg.pageNumber)
  {
    PageNumberAcceptsEveryInt(cfg, 0);
    PageNumberAcceptsEveryInt(cfg, -3);
    assert Show(0) == "0";
    assert Show(-3) == "-3";
    assert !IsWhitespace(" 2"[1]);
    MalformedNumbers(cfg, " 2", 0);
    var big := Show(IntMax + 1);
    assert !IsWhitespace(big[0]);
    ParseIntRejectsOutOfRange(IntMax + 1);
  }
}
