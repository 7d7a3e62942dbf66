/** The page-level state machine (app/page.tsx; App.tsx is an earlier copy
    of the same component and behaves identically). The page is in one of
    four states and holds the menu list and an error message; handling a
    photo moves it to PROCESSING and, once the file read and the AI call
    have settled, to RESULTS or ERROR; resetting brings it back HOME. */
module HomePage {
  import opened Js
  import GeminiService

  datatype AppState = Home | Processing | Results | Error

  /** The page's three state slots. The list is whatever array the service
      parsed: the service's `as MenuItem[]` cast checks nothing. */
  datatype Session = Session(appState: AppState, menuData: seq<Json>, errorMessage: string)

  const INITIAL: Session := Session(Home, [], "")

  const UNKNOWN_ERROR := "An unknown error occurred. Please try again."

  /** How `FileReader.readAsDataURL` ends: `onload` with the reader's
      result, or `onerror`, whose argument is an event and not an `Error`. */
  datatype ReadResult = Loaded(dataUrl: string) | ReadFailed

  /** The AI step as the page sees it: from the stripped payload and the
      file's media type to the way `processMenuImage` settles. */
  type Interpreter = (Option<string>, string) -> Outcome<seq<Json>>

  // ---------------------------------------------------------------------
  // fileToBase64
  // ---------------------------------------------------------------------

  /** `result.split(",")[1]`: the text between the first comma and the
      next comma (or the end); `None` stands for `undefined`, which is what
      a result without a comma gives. */
  function StripDataUrlPrefix(dataUrl: string): (payload: Option<string>)
    ensures payload.None? <==> ',' !in dataUrl
    ensures payload.Some? ==> ',' !in payload.value
  {
    var pieces := Split(dataUrl, ',');
    SplitShape(dataUrl);
    if |pieces| > 1 then
      var rest := if |pieces| > 2 then "," + Join(pieces[2..], ',') else "";
      assert dataUrl == pieces[0] + "," + pieces[1] + rest;
      assert dataUrl[|pieces[0]|] == ',';
      assert ',' !in pieces[0] && ',' !in pieces[1];
      Some(pieces[1])
    else
      assert ',' !in pieces[0];
      None
  }

  /** How a string is made of its first pieces. */
  lemma SplitShape(s: string)
    ensures var p := Split(s, ','); |p| == 1 ==> p[0] == s
    ensures var p := Split(s, ',');
            |p| > 1 ==> s == p[0] + "," + p[1] + (if |p| > 2 then "," + Join(p[2..], ',') else "")
  {
    var p := Split(s, ',');
    if |p| > 2 {
      assert p[1..][1..] == p[2..];
      assert Join(p[1..], ',') == p[1] + "," + Join(p[2..], ',');
    }
  }

  /** `payload` sits right after the first comma of `dataUrl`, at index
      `i`, and runs up to the end or to the next comma. */
  predicate PayloadAfterFirstComma(dataUrl: string, i: int, payload: string) {
    && 0 <= i && i + 1 + |payload| <= |dataUrl|
    && ',' !in dataUrl[..i] && dataUrl[i] == ','
    && dataUrl[i + 1..i + 1 + |payload|] == payload
    && (i + 1 + |payload| == |dataUrl| || dataUrl[i + 1 + |payload|] == ',')
  }

  lemma CommaLayout(header: string, payload: string, rest: string)
    requires ',' !in header && (rest == [] || rest[0] == ',')
    ensures PayloadAfterFirstComma(header + "," + payload + rest, |header|, payload)
  {
    var s := header + "," + payload + rest;
    assert s[..|header|] == header;
    assert s[|header| + 1..|header| + 1 + |payload|] == payload;
    if rest != [] {
      assert s[|header| + 1 + |payload|] == rest[0];
    }
  }

  /** When there is a payload, it is the text after the first comma of the
      data URL, up to the end or to the next comma. */
  lemma StripDataUrlPrefixShape(dataUrl: string)
    requires StripDataUrlPrefix(dataUrl).Some?
    ensures exists i :: PayloadAfterFirstComma(dataUrl, i, StripDataUrlPrefix(dataUrl).value)
  {
    var pieces := Split(dataUrl, ',');
    SplitShape(dataUrl);
    var rest := if |pieces| > 2 then "," + Join(pieces[2..], ',') else "";
    CommaLayout(pieces[0], pieces[1], rest);
  }

  /** For a data URL `<header>,<payload>` with no comma in either part,
      the payload comes back exactly. */
  lemma StripHeaderAndPayload(header: string, payload: string)
    requires ',' !in header && ',' !in payload
    ensures StripDataUrlPrefix(header + "," + payload) == Some(payload)
  {
    SplitJoin([header, payload], ',');
    assert Join([header, payload], ',') == header + "," + payload;
  }

  /** `fileToBase64(file)`: the stripped reader result, or a rejection with
      the reader's error event. */
  function FileToBase64(read: ReadResult): (r: Outcome<Option<string>>)
    ensures r.Ok? <==> read.Loaded?
    ensures r.Ok? ==> r.value == StripDataUrlPrefix(read.dataUrl)
    ensures r.Err? ==> r.thrown == NonError
  {
    match read
    case Loaded(dataUrl) => Ok(StripDataUrlPrefix(dataUrl))
    case ReadFailed => Err(NonError)
  }

  // ---------------------------------------------------------------------
  // The handlers, as functions of the session
  // ---------------------------------------------------------------------

  /** `error instanceof Error ? error.message : <fallback>`. */
  function ErrorMessageOf(t: Thrown): string {
    if t.ErrorObject? then t.message else UNKNOWN_ERROR
  }

  /** The first two lines of `handleMenuProcess`, before its first await. */
  function Begun(s: Session): Session {
    s.(appState := Processing, errorMessage := "")
  }

  /** The rest of `handleMenuProcess`, once the read and the AI call have
      settled: the result list and RESULTS, or the message and ERROR. */
  function Settled(s: Session, file: File, read: ReadResult, interpret: Interpreter): Session {
    match FileToBase64(read)
    case Err(t) => s.(appState := Error, errorMessage := ErrorMessageOf(t))
    case Ok(base64Image) =>
      match interpret(base64Image, file.mimeType)
      case Ok(result) => s.(appState := Results, menuData := result)
      case Err(t) => s.(appState := Error, errorMessage := ErrorMessageOf(t))
  }

  /** Handling a photo from any session ends in one of exactly two ways:
      RESULTS holding the interpreter's list unchanged (same length, same
      order) with no message, when the read and the call both succeed; or
      ERROR with the old list untouched and the message of what was
      thrown. */
  lemma {:induction false} MenuProcessOutcome(s: Session, file: File, read: ReadResult, interpret: Interpreter)
    ensures var t := Settled(Begun(s), file, read, interpret);
            t.appState == Results || t.appState == Error
    ensures var t := Settled(Begun(s), file, read, interpret);
            t.appState == Results <==>
              read.Loaded? && interpret(StripDataUrlPrefix(read.dataUrl), file.mimeType).Ok?
    ensures var t := Settled(Begun(s), file, read, interpret);
            t.appState == Results ==>
              t.menuData == interpret(StripDataUrlPrefix(read.dataUrl), file.mimeType).value &&
              t.errorMessage == ""
    ensures var t := Settled(Begun(s), file, read, interpret);
            t.appState == Error ==>
              t.menuData == s.menuData &&
              t.errorMessage ==
                (if read.ReadFailed? then UNKNOWN_ERROR
                 else ErrorMessageOf(interpret(StripDataUrlPrefix(read.dataUrl), file.mimeType).thrown))
  {
  }

  /** A failed file read always shows the fallback message. */
  lemma ReadFailureShowsFallback(s: Session, file: File, interpret: Interpreter)
    ensures Settled(Begun(s), file, ReadFailed, interpret) == Session(Error, s.menuData, UNKNOWN_ERROR)
  {
  }

  /** `processMenuImage` as the page calls it, with the hosted model as
      `generate` and `JSON.parse` as `parse`. */
  function GeminiInterpreter(generate: GeminiService.MenuRequest -> Outcome<Option<string>>,
                             parse: string -> Option<Json>): Interpreter
  {
    (b, m) => GeminiService.ProcessMenuImage(b, m, generate, parse)
  }

  /** With the real `processMenuImage` behind it, a photo ends in RESULTS
      exactly when the file was read and the model's trimmed reply parses to
      an array, and the list is then that array; otherwise the ERROR screen
      shows one of two fixed, non-empty messages: the fallback for a read
      failure, the service's own message for anything else. */
  lemma WithGeminiService(s: Session, file: File, read: ReadResult,
                          generate: GeminiService.MenuRequest -> Outcome<Option<string>>,
                          parse: string -> Option<Json>)
    ensures var t := Settled(Begun(s), file, read, GeminiInterpreter(generate, parse));
            var reply := generate(GeminiService.MenuRequestFor(FileToBase64(read).GetOr(None), file.mimeType));
            && (t.appState == Results <==>
                  read.Loaded? && reply.Ok? && reply.value.Some? &&
                  parse(Trim(reply.value.value)).Some? && parse(Trim(reply.value.value)).value.JArray?)
            && (t.appState == Results ==> t.menuData == parse(Trim(reply.value.value)).value.elems)
            && (t.appState != Results ==>
                  t.appState == Error && t.menuData == s.menuData &&
                  t.errorMessage == (if read.ReadFailed? then UNKNOWN_ERROR else GeminiService.MENU_FAILURE) &&
                  t.errorMessage != "")
  {
    var interpret := GeminiInterpreter(generate, parse);
    MenuProcessOutcome(s, file, read, interpret);
    if read.Loaded? {
      var b64 := StripDataUrlPrefix(read.dataUrl);
      var reply := generate(GeminiService.MenuRequestFor(b64, file.mimeType));
      assert interpret(b64, file.mimeType) == GeminiService.NormalizeMenuReply(reply, parse);
    }
  }

  // ---------------------------------------------------------------------
  // What the page renders
  // ---------------------------------------------------------------------

  /** The blocks the page can show under the hero. */
  datatype View =
    | Uploader
    | Analyzing(caption: string)
    | ResultsList(items: seq<Json>)
    | ErrorPanel(heading: string, message: string)

  const ANALYZING_CAPTION := "Analyzing your menu... This might take a moment."
  const ERROR_HEADING := "Oops! Something went wrong."

  /** The four guarded blocks of the page, each rendered when its own test
      of the state holds. Exactly one of them renders; the uploader only in
      HOME, the list only in RESULTS, the message only in ERROR. */
  function RenderedViews(s: Session): (views: seq<View>)
    ensures |views| == 1
    ensures views[0] == Uploader <==> s.appState == Home
    ensures views[0].Analyzing? <==> s.appState == Processing
    ensures views[0].ResultsList? <==> s.appState == Results
    ensures views[0].ErrorPanel? <==> s.appState == Error
    ensures views[0].ResultsList? ==> views[0].items == s.menuData
    ensures views[0].ErrorPanel? ==> views[0].message == s.errorMessage
  {
    (if s.appState == Home then [Uploader] else [])
    + (if s.appState == Processing then [Analyzing(ANALYZING_CAPTION)] else [])
    + (if s.appState == Results then [ResultsList(s.menuData)] else [])
    + (if s.appState == Error then [ErrorPanel(ERROR_HEADING, s.errorMessage)] else [])
  }

  // ---------------------------------------------------------------------
  // The component, with its three state slots as fields
  // ---------------------------------------------------------------------

  class Page {
    var appState: AppState
    var menuData: seq<Json>
    var errorMessage: string

    function Snapshot(): Session
      reads this
    {
      Session(appState, menuData, errorMessage)
    }

    /** The initial `useState` values. */
    constructor ()
      ensures Snapshot() == INITIAL
    {
      appState := Home;
      menuData := [];
      errorMessage := "";
    }

    /** `handleReset`: from any state, back to the session the page starts
      with (HOME, no list, no message); since the new state does not
      depend on the old one, resetting twice is resetting once. */
    method HandleReset()
      modifies this
      ensures Snapshot() == INITIAL
      ensures appState == Home && menuData == [] && errorMessage == ""
    {
      menuData := [];
      errorMessage := "";
      appState := Home;
    }

    /** `handleMenuProcess` up to its first await. */
    method BeginMenuProcess()
      modifies this
      ensures appState == Processing && errorMessage == "" && menuData == old(menuData)
      ensures Snapshot() == Begun(old(Snapshot()))
    {
      appState := Processing;
      errorMessage := "";
    }

    /** `handleMenuProcess` after its awaits: the `try` block when the read
      and the AI call succeed, the `catch` block otherwise. */
    method SettleMenuProcess(file: File, read: ReadResult, interpret: Interpreter)
      modifies this
      ensures Snapshot() == Settled(old(Snapshot()), file, read, interpret)
    {
      var base64Image := FileToBase64(read);
      if base64Image.Err? {
        errorMessage := ErrorMessageOf(base64Image.thrown);
        appState := Error;
        return;
      }
      var result := interpret(base64Image.value, file.mimeType);
      if result.Err? {
        errorMessage := ErrorMessageOf(result.thrown);
        appState := Error;
        return;
      }
      menuData := result.value;
      appState := Results;
    }

    /** `handleMenuProcess(file)` from start to end. */
    method HandleMenuProcess(file: File, read: ReadResult, interpret: Interpreter)
      modifies this
      ensures Snapshot() == Settled(Begun(old(Snapshot())), file, read, interpret)
    {
      BeginMenuProcess();
      SettleMenuProcess(file, read, interpret);
    }

    /** The page renders exactly one block: the uploader in HOME, the
        analysing caption in PROCESSING, the list of `menuData` in RESULTS
        and the panel with `errorMessage` in ERROR. */
    function Views(): (views: seq<View>)
      reads this
      ensures |views| == 1
      ensures views[0] == Uploader <==> appState == Home
      ensures views[0] == Analyzing(ANALYZING_CAPTION) <==> appState == Processing
      ensures views[0] == ResultsList(menuData) <==> appState == Results
      ensures views[0] == ErrorPanel(ERROR_HEADING, errorMessage) <==> appState == Error
    {
      RenderedViews(Snapshot())
    }
  }
}
