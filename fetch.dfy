/**
  * `fetchSheetData` without the network: the configuration checks made before any request,
  * the message built for a non-success HTTP status, the reading of the `values` field, and the
  * rule that decides whether a caught error is rethrown as it is or wrapped.
  * The configuration and what the request returned are parameters.
  */
module SheetFetch {
  import opened Wrappers
  import opened Text
  import opened Sheet

  /** The spreadsheet identifier and the API key the page is configured with. */
  datatype Config = Config(spreadsheetId: string, apiKey: string)

  const SpreadsheetIdPlaceholder := "YOUR_SPREADSHEET_ID"
  const ApiKeyPlaceholder := "YOUR_GOOGLE_SHEETS_API_KEY"
  const ClientSecretPrefix := "GOCSPX-"
  const CriticalPrefix := "CRITICAL:"
  const StatusErrorMarker := "Could not fetch data"
  const WrappedPrefix := "Failed to fetch or process data for sheet"
  const OriginalErrorLabel := "Original error: "

  predicate IdUnset(cfg: Config)
  {
    cfg.spreadsheetId == SpreadsheetIdPlaceholder || cfg.spreadsheetId == ""
  }

  predicate KeyUnset(cfg: Config)
  {
    cfg.apiKey == ApiKeyPlaceholder || cfg.apiKey == ""
  }

  predicate KeyIsClientSecret(cfg: Config)
  {
    StartsWith(cfg.apiKey, ClientSecretPrefix)
  }

  const IdMessageHead := " The Spreadsheet ID ('"
  const IdMessageTail := "') is a placeholder or empty. Please update SPREADSHEET_ID in index.tsx with your actual value."
  const KeyMessageHead := " The Google Sheets API Key ('"
  const KeyMessageTail := "') is a placeholder or empty. This will not work. Please update GOOGLE_SHEETS_API_KEY in index.tsx with a *valid* Google Sheets API Key."
  const ClientSecretTail := " The configured GOOGLE_SHEETS_API_KEY looks like a Client Secret, not an API Key. This will not work. Please use a valid Google Sheets API Key."

  function IdMessage(cfg: Config): (m: string)
    ensures StartsWith(m, CriticalPrefix)
  {
    var tail := IdMessageHead + cfg.spreadsheetId + IdMessageTail;
    StartsWithOwnPrefix(CriticalPrefix, tail);
    CriticalPrefix + tail
  }

  function KeyMessage(cfg: Config): (m: string)
    ensures StartsWith(m, CriticalPrefix)
  {
    var tail := KeyMessageHead + cfg.apiKey + KeyMessageTail;
    StartsWithOwnPrefix(CriticalPrefix, tail);
    CriticalPrefix + tail
  }

  function ClientSecretMessage(): (m: string)
    ensures StartsWith(m, CriticalPrefix)
  {
    StartsWithOwnPrefix(CriticalPrefix, ClientSecretTail);
    CriticalPrefix + ClientSecretTail
  }

  const SheetsApiBase := "https://sheets.googleapis.com/v4/spreadsheets/"

  /** The request URL for a sheet tab. */
  function SheetUrl(cfg: Config, sheetName: string): string
  {
    SheetsApiBase + cfg.spreadsheetId + "/values/" + sheetName + "?key=" + cfg.apiKey
  }

  /**
    * The checks made before any request, in order: the spreadsheet identifier, then the key,
    * then the client-secret prefix. Either the first failing check's message or the URL to fetch.
    */
  function Request(cfg: Config, sheetName: string): (r: Result<string>)
    ensures r.Err? ==> StartsWith(r.error, CriticalPrefix)
    ensures r.Ok? <==> !IdUnset(cfg) && !KeyUnset(cfg) && !KeyIsClientSecret(cfg)
    ensures IdUnset(cfg) ==> r == Err(IdMessage(cfg))
    ensures !IdUnset(cfg) && KeyUnset(cfg) ==> r == Err(KeyMessage(cfg))
    ensures !IdUnset(cfg) && !KeyUnset(cfg) && KeyIsClientSecret(cfg) ==> r == Err(ClientSecretMessage())
    ensures r.Ok? ==> r.value == SheetUrl(cfg, sheetName)
  {
    if IdUnset(cfg) then Err(IdMessage(cfg))
    else if KeyUnset(cfg) then Err(KeyMessage(cfg))
    else if KeyIsClientSecret(cfg) then Err(ClientSecretMessage())
    else Ok(SheetUrl(cfg, sheetName))
  }

  const ForbiddenHelp := "This often means the Google Sheets API is not enabled for your project, the API key is invalid/restricted, or the sheet is not public ('Anyone with the link can view')."
  const BadRequestHelp := "This often indicates an 'API key not valid' error or a problem with the request itself. Double-check your API Key."

  function NotFoundHelp(sheetName: string, cfg: Config): string
  {
    "The spreadsheet (ID: \"" + cfg.spreadsheetId + "\") or the sheet tab named \"" + sheetName + "\" might not be found. Check the ID and sheet name."
  }

  /** The help appended for the statuses the page recognises; nothing for any other status. */
  function Guidance(status: nat, sheetName: string, cfg: Config): (g: string)
    ensures g != "" <==> status == 403 || status == 400 || status == 404
  {
    if status == 403 then ForbiddenHelp
    else if status == 400 then BadRequestHelp
    else if status == 404 then NotFoundHelp(sheetName, cfg)
    else ""
  }

  predicate EndsWith(s: string, suffix: string)
  {
    |suffix| <= |s| && s[|s| - |suffix|..] == suffix
  }

  /** The part of the status message before the status code. */
  function StatusHead(sheetName: string): string
  {
    " for sheet \"" + sheetName + "\". Status: "
  }

  /** The part of the status message after the status code, before any guidance; it ends with `. `. */
  function StatusTail(statusText: string, body: string): (t: string)
    ensures EndsWith(t, ". ")
  {
    var t := " " + statusText + ". Response: " + body + ". ";
    assert t[|t| - 2..] == ". ";
    t
  }

  /** The message thrown for a non-success status: it names the sheet, status and body, then the guidance. */
  function StatusError(sheetName: string, status: nat, statusText: string, body: string, cfg: Config): (m: string)
    ensures StartsWith(m, StatusErrorMarker)
    ensures EndsWith(m, Guidance(status, sheetName, cfg))
  {
    var tail := StatusHead(sheetName) + Decimal(status) + StatusTail(statusText, body);
    var g := Guidance(status, sheetName, cfg);
    StartsWithOwnPrefix(StatusErrorMarker, tail);
    StartsWithAppend(StatusErrorMarker, StatusErrorMarker + tail, g);
    var m := StatusErrorMarker + tail + g;
    assert m[|m| - |g|..] == g;
    m
  }

  /** The JSON body of a successful response, as far as the page reads it. */
  datatype Payload = Values(rows: Table) | NoValues | Unparseable(error: string)

  /** What `fetch(url)` gave: a rejection, or a response with its status, status text, body and payload. */
  datatype Response =
    | Unreachable(error: string)
    | Received(status: nat, statusText: string, body: string, payload: Payload)

  /** `response.ok`. */
  predicate IsOk(status: nat)
  {
    200 <= status <= 299
  }

  /** The `try` block: the table, or the message of the error it throws. */
  function Attempt(cfg: Config, sheetName: string, response: Response): (r: Result<Table>)
    ensures r.Ok? ==> response.Received? && IsOk(response.status)
    ensures response.Unreachable? ==> r == Err(response.error)
    ensures response.Received? && IsOk(response.status) && response.payload.Values? ==>
              r == Ok(response.payload.rows)
    ensures response.Received? && IsOk(response.status) && response.payload.Unparseable? ==>
              r == Err(response.payload.error)
  {
    match response
    case Unreachable(e) => Err(e)
    case Received(status, statusText, body, payload) =>
      if !IsOk(status) then Err(StatusError(sheetName, status, statusText, body, cfg))
      else
        match payload
        case Values(rows) => Ok(rows)
        case NoValues => Ok([])
        case Unparseable(e) => Err(e)
  }

  /** The `catch` block: detailed errors pass through unchanged, any other is wrapped. */
  function Rethrown(sheetName: string, message: string): (m: string)
    ensures m == message <==> StartsWith(message, CriticalPrefix) || Contains(message, StatusErrorMarker)
    ensures m != message ==> StartsWith(m, WrappedPrefix)
    ensures m != message ==> EndsWith(m, OriginalErrorLabel + message)
  {
    if StartsWith(message, CriticalPrefix) || Contains(message, StatusErrorMarker) then message
    else
      var tail := " \"" + sheetName + "\". " + OriginalErrorLabel + message;
      StartsWithOwnPrefix(WrappedPrefix, tail);
      var m := WrappedPrefix + tail;
      assert m == WrappedPrefix + " \"" + sheetName + "\". " + (OriginalErrorLabel + message);
      m
  }

  /** `fetchSheetData`: the pre-flight checks, then the request's outcome through the catch rule. */
  function FetchSheetData(cfg: Config, sheetName: string, response: Response): Result<Table>
  {
    match Request(cfg, sheetName)
    case Err(m) => Err(m)
    case Ok(_) =>
      match Attempt(cfg, sheetName, response)
      case Ok(rows) => Ok(rows)
      case Err(m) => Err(Rethrown(sheetName, m))
  }

  /** A failed check fails the call whatever the network would have answered: no request is made. */
  lemma PreFlightBeforeRequest(cfg: Config, sheetName: string, r1: Response, r2: Response)
    requires IdUnset(cfg) || KeyUnset(cfg) || KeyIsClientSecret(cfg)
    ensures FetchSheetData(cfg, sheetName, r1) == FetchSheetData(cfg, sheetName, r2)
    ensures FetchSheetData(cfg, sheetName, r1).Err? && StartsWith(FetchSheetData(cfg, sheetName, r1).error, CriticalPrefix)
  {
  }

  /** Every failure carries a message of one of three recognisable kinds. */
  lemma FetchErrorsClassified(cfg: Config, sheetName: string, response: Response)
    ensures FetchSheetData(cfg, sheetName, response).Err? ==>
              var m := FetchSheetData(cfg, sheetName, response).error;
              StartsWith(m, CriticalPrefix) || Contains(m, StatusErrorMarker) || StartsWith(m, WrappedPrefix)
  {
  }

  /** A non-success status fails with the status message, passed through the catch unchanged. */
  lemma StatusErrorPassesThrough(cfg: Config, sheetName: string, status: nat, statusText: string, body: string, payload: Payload)
    requires !IdUnset(cfg) && !KeyUnset(cfg) && !KeyIsClientSecret(cfg)
    requires !IsOk(status)
    ensures FetchSheetData(cfg, sheetName, Received(status, statusText, body, payload)) ==
            Err(StatusError(sheetName, status, statusText, body, cfg))
  {
    var m := StatusError(sheetName, status, statusText, body, cfg);
    assert Contains(m, StatusErrorMarker);
  }

  /** The status message carries the status code written in decimal. */
  lemma StatusErrorNamesStatus(sheetName: string, status: nat, statusText: string, body: string, cfg: Config)
    ensures Contains(StatusError(sheetName, status, statusText, body, cfg), Decimal(status))
  {
    var front, d, back := StatusHead(sheetName), Decimal(status), StatusTail(statusText, body);
    var g := Guidance(status, sheetName, cfg);
    assert StatusError(sheetName, status, statusText, body, cfg) == StatusErrorMarker + (front + d + back) + g;
    Regroup(StatusErrorMarker, front, d, back, g);
    ContainsMiddle(StatusErrorMarker + front, d, back + g);
  }

  lemma Regroup(a: string, b: string, c: string, d: string, e: string)
    ensures a + (b + c + d) + e == (a + b) + c + (d + e)
  {
  }

  /** A rejected request, with a configuration that passes the checks, fails with its message wrapped. */
  lemma UnreachableWrapped(cfg: Config, sheetName: string, error: string)
    requires !IdUnset(cfg) && !KeyUnset(cfg) && !KeyIsClientSecret(cfg)
    ensures FetchSheetData(cfg, sheetName, Unreachable(error)) == Err(Rethrown(sheetName, error))
  {
  }

  /** A 2xx body that does not parse, with a configuration that passes the checks, fails with the parse error wrapped. */
  lemma UnparseableWrapped(cfg: Config, sheetName: string, status: nat, statusText: string, body: string, error: string)
    requires !IdUnset(cfg) && !KeyUnset(cfg) && !KeyIsClientSecret(cfg)
    requires IsOk(status)
    ensures FetchSheetData(cfg, sheetName, Received(status, statusText, body, Unparseable(error))) ==
              Err(Rethrown(sheetName, error))
  {
  }

  /** A successful response with a `values` field gives exactly those rows. */
  lemma ValuesReturned(cfg: Config, sheetName: string, status: nat, statusText: string, body: string, rows: Table)
    requires !IdUnset(cfg) && !KeyUnset(cfg) && !KeyIsClientSecret(cfg)
    requires IsOk(status)
    ensures FetchSheetData(cfg, sheetName, Received(status, statusText, body, Values(rows))) == Ok(rows)
  {
  }

  /** Each recognised status gets its own help text at the end of the message; any other gets none. */
  lemma StatusErrorHelp(sheetName: string, status: nat, statusText: string, body: string, cfg: Config)
    ensures status == 403 ==> EndsWith(StatusError(sheetName, status, statusText, body, cfg), ForbiddenHelp)
    ensures status == 400 ==> EndsWith(StatusError(sheetName, status, statusText, body, cfg), BadRequestHelp)
    ensures status == 404 ==>
              EndsWith(StatusError(sheetName, status, statusText, body, cfg), NotFoundHelp(sheetName, cfg))
    ensures status != 403 && status != 400 && status != 404 ==>
              EndsWith(StatusError(sheetName, status, statusText, body, cfg), ". ")
  {
    if status != 403 && status != 400 && status != 404 {
      var t := StatusTail(statusText, body);
      assert StatusError(sheetName, status, statusText, body, cfg) ==
             StatusErrorMarker + StatusHead(sheetName) + Decimal(status) + t;
      EndsWithAfter(StatusErrorMarker + StatusHead(sheetName) + Decimal(status), t, ". ");
    }
  }

  lemma EndsWithAfter(a: string, t: string, suffix: string)
    requires EndsWith(t, suffix)
    ensures EndsWith(a + t, suffix)
  {
    assert (a + t)[|a + t| - |suffix|..] == t[|t| - |suffix|..];
  }

  /** The request URL names the spreadsheet and the sheet, and carries the key as its only query parameter. */
  lemma SheetUrlParts(cfg: Config, sheetName: string)
    ensures StartsWith(SheetUrl(cfg, sheetName), SheetsApiBase + cfg.spreadsheetId + "/values/" + sheetName + "?key=")
    ensures EndsWith(SheetUrl(cfg, sheetName), "?key=" + cfg.apiKey)
  {
    var head := SheetsApiBase + cfg.spreadsheetId + "/values/" + sheetName + "?key=";
    assert SheetUrl(cfg, sheetName) == head + cfg.apiKey;
    StartsWithOwnPrefix(head, cfg.apiKey);
    var u := SheetUrl(cfg, sheetName);
    assert u[|u| - |"?key=" + cfg.apiKey|..] == "?key=" + cfg.apiKey;
  }

  /** A successful response without a `values` field is an empty table. */
  lemma MissingValuesIsEmpty(cfg: Config, sheetName: string, status: nat, statusText: string, body: string)
    requires !IdUnset(cfg) && !KeyUnset(cfg) && !KeyIsClientSecret(cfg)
    requires IsOk(status)
    ensures FetchSheetData(cfg, sheetName, Received(status, statusText, body, NoValues)) == Ok([])
  {
  }

  /** A table comes back only from a usable configuration and a 2xx response. */
  lemma FetchSucceedsOnlyOnOk(cfg: Config, sheetName: string, response: Response)
    requires FetchSheetData(cfg, sheetName, response).Ok?
    ensures !IdUnset(cfg) && !KeyUnset(cfg) && !KeyIsClientSecret(cfg)
    ensures response.Received? && IsOk(response.status)
  {
  }
}
