/** The `POST /` handler of the summary router: classify the text, fetch and
    extract a page when it is a URL, resolve the style, ask the chat backend
    and shape the one response. The page fetch and the backend call are
    parameters; the handler also returns the external calls it made, in
    order, so that what reached the network can be stated. */
module Route {
  import opened Optional
  import opened JsText
  import opened Classifier
  import opened Extractor
  import opened Styles

  /** `req.body.text`: a string, or any other value (missing, null, a number,
      an object) on which `text.trim()` throws. */
  datatype TextField = Text(value: string) | NotText

  /** The request body; `style` is `None` when absent or not a string. */
  datatype Request = Request(text: TextField, style: Option<string>)

  /** What `axios.get(text)` gives the handler: the page's paragraphs as
      cheerio would select them, or a rejection of any kind. */
  datatype Page = Fetched(doc: seq<Para>) | FetchFailed

  datatype Role = System | User
  datatype Message = Message(role: Role, content: string)

  /** `completion?.choices?.[0]?.message?.content`: missing when any link of
      the chain is null or undefined, a string, or some other value, whose
      `trim` is not a function and so throws. */
  datatype Content = Missing | Str(s: string) | NonString

  /** The settled `openai.chat.completions.create` call: rejected, or a
      completion whose first choice holds `first`. */
  datatype Completion = Rejected | Completed(first: Content)

  /** An external call the handler makes. */
  datatype Call = FetchCall(url: string) | ChatCall(messages: seq<Message>)

  /** The JSON response. `suggestManual` false stands for the field being
      left out of the body. */
  datatype Response =
    | Ok(summary: string)
    | BadRequest(error: string, suggestManual: bool)
    | ServerError(error: string)
  {
    function Status(): int {
      match this
      case Ok(_) => 200
      case BadRequest(_, _) => 400
      case ServerError(_) => 500
    }
  }

  const FetchFailedMsg := "Failed to fetch URL. Try another link."
  const ManualPasteMsg := "Couldn't extract readable content from this website. Please copy the text manually from the site and paste it here."
  const SummarizeFailedMsg := "Failed to summarize content. Try again later."
  const NoSummary := "No summary generated."

  lemma NoSummaryTrimmed()
    ensures NoSummary != "" && Trim(NoSummary) == NoSummary
  {
    TrimFixed(NoSummary);
  }

  /** The response built from the backend's completion: the trimmed first
      choice, the placeholder when that is missing or trims to "" (the `||`
      fallback), and the catch-all 500 when the call rejected or `trim`
      threw. */
  function Respond(c: Completion): (r: Response)
    ensures r.Ok? || r == ServerError(SummarizeFailedMsg)
    ensures r.Ok? <==> c.Completed? && !c.first.NonString?
    ensures r.Ok? ==> r.summary != "" && Trim(r.summary) == r.summary
    ensures r.Ok? && c.first.Str? && Trim(c.first.s) != "" ==> r.summary == Trim(c.first.s)
    ensures r.Ok? && !(c.first.Str? && Trim(c.first.s) != "") ==> r.summary == NoSummary
  {
    match c
    case Rejected => ServerError(SummarizeFailedMsg)
    case Completed(Missing) => NoSummaryTrimmed(); Ok(NoSummary)
    case Completed(NonString) => ServerError(SummarizeFailedMsg)
    case Completed(Str(s)) =>
      var t := Trim(s);
      TrimIdempotent(s);
      NoSummaryTrimmed();
      if t != "" then Ok(t) else Ok(NoSummary)
  }

  /** The handler, statement by statement: `content` starts as the raw text
      and is replaced by the bounded page text on the URL path; a failed
      fetch and an unreadable page return early with 400. */
  method Handle(req: Request, fetch: string -> Page, complete: seq<Message> -> Completion)
    returns (resp: Response, calls: seq<Call>)
    // a missing or non-string text throws at `text.trim()`: 500, nothing called
    ensures req.text.NotText? ==> resp == ServerError(SummarizeFailedMsg) && calls == []
    // raw text reaches the backend unchanged and untruncated, after the style instruction
    ensures req.text.Text? && !IsUrl(Trim(req.text.value)) ==>
      var messages := [Message(System, StylePrompt(req.style)), Message(User, req.text.value)];
      calls == [ChatCall(messages)] && resp == Respond(complete(messages))
    // a URL is fetched as written, untrimmed; then each failure stops the handler
    ensures req.text.Text? && IsUrl(Trim(req.text.value)) ==>
      var url := req.text.value;
      if fetch(url).FetchFailed? then
        resp == BadRequest(FetchFailedMsg, false) && calls == [FetchCall(url)]
      else if ExtractionFails(fetch(url).doc) then
        resp == BadRequest(ManualPasteMsg, true) && calls == [FetchCall(url)]
      else
        var messages := [Message(System, StylePrompt(req.style)),
                         Message(User, Bound(ExtractedText(fetch(url).doc)))];
        calls == [FetchCall(url), ChatCall(messages)] && resp == Respond(complete(messages))
    // every outcome is one of the three shapes, with its fixed message; a 400
    // never reached the backend
    ensures resp.Ok? ==> resp.summary != ""
    ensures resp.BadRequest? ==> calls == [FetchCall(req.text.value)]
    ensures resp.BadRequest? ==>
      resp == BadRequest(FetchFailedMsg, false) || resp == BadRequest(ManualPasteMsg, true)
    ensures resp.ServerError? ==> resp == ServerError(SummarizeFailedMsg)
    // the status is 400 exactly for a URL whose fetch fails or whose page is unreadable
    ensures resp.Status() == 400 <==>
      req.text.Text? && IsUrl(Trim(req.text.value))
      && (fetch(req.text.value).FetchFailed? || ExtractionFails(fetch(req.text.value).doc))
  {
    if req.text.NotText? {
      return ServerError(SummarizeFailedMsg), [];
    }
    var text := req.text.value;
    var content := text;
    var isUrl := IsUrl(Trim(text));
    if isUrl {
      var page := fetch(text);
      if page.FetchFailed? {
        return BadRequest(FetchFailedMsg, false), [FetchCall(text)];
      }
      var articleText := ExtractedText(page.doc);
      if Trim(articleText) == "" {
        return BadRequest(ManualPasteMsg, true), [FetchCall(text)];
      }
      content := Bound(articleText);
    }
    var stylePrompt := StylePrompt(req.style);
    var messages := [Message(System, stylePrompt), Message(User, content)];
    calls := if isUrl then [FetchCall(text), ChatCall(messages)] else [ChatCall(messages)];
    resp := Respond(complete(messages));
  }
}
