/**
 * The upload page: its state, the four handlers that move it (file selection, the
 * outcome of the local parse, password submission, extraction), the two input
 * setters, and the conditions under which each panel of the page is shown.
 */
module Upload {
  import opened Wrappers
  import opened JsString
  import opened Sheets
  import opened ImageSource
  import opened Unlock

  /** The selected file: its name and its bytes. */
  datatype SpreadsheetFile = SpreadsheetFile(name: string, bytes: seq<bv8>)

  /** The multipart body of the unlock POST: fields `file` and `password`. */
  datatype UnlockRequest = UnlockRequest(file: SpreadsheetFile, password: string)

  /** What loading the file's bytes into a workbook gave: the workbook, or an exception. */
  datatype ParseOutcome = Loaded(workbook: Workbook) | LoadFailed

  /** A sheet of the summary handed to the next page; an image may be `undefined`. */
  datatype ExportedSheet = ExportedSheet(name: string, rows: seq<seq<string>>, images: seq<Option<string>>)

  /** A navigation with the summary as its state. */
  datatype Navigation = Navigation(route: string, summary: seq<ExportedSheet>)

  const XlsxSuffix := ".xlsx"
  const NoFileMessage := "Please choose a file first."
  const NoPasswordMessage := "Please enter a password."
  const ExtractedInfoRoute := "/extracted-info"

  /** The checks made before any request: a file must be chosen and the password must not be blank. */
  function ValidationError(file: Option<SpreadsheetFile>, password: string): Option<string>
  {
    if file.None? then Some(NoFileMessage)
    else if Trim(password) == "" then Some(NoPasswordMessage)
    else None
  }

  /**
   * Without a file the error is "Please choose a file first."; with a file, a password
   * made only of whitespace (or empty) gives "Please enter a password.", and any
   * other password passes, untrimmed.
   */
  lemma ValidationCases(file: Option<SpreadsheetFile>, password: string)
    ensures file.None? ==> ValidationError(file, password) == Some(NoFileMessage)
    ensures file.Some? ==> (ValidationError(file, password) == Some(NoPasswordMessage) <==> AllWhitespace(password))
    ensures file.Some? ==> (ValidationError(file, password).None? <==> !AllWhitespace(password))
  {
    TrimEmptyIffBlank(password);
  }

  function ExportSheet(e: Entry): ExportedSheet
  {
    var images := e.content.images;
    ExportedSheet(e.name, e.content.rows, seq(|images|, j requires 0 <= j < |images| => StripImage(images[j])))
  }

  /** The summary `handleExtract` builds: one sheet per key, in key order, images stripped. */
  function ExportSummary(s: Sheets): seq<ExportedSheet>
  {
    seq(|s|, i requires 0 <= i < |s| => ExportSheet(s[i]))
  }

  /** Images that are not `data:` URLs, such as object URLs, reach the next page as they are. */
  lemma ExportKeepsOtherSources(s: Sheets)
    requires forall i, j :: 0 <= i < |s| && 0 <= j < |s[i].content.images| ==> !StartsWith(s[i].content.images[j], DataScheme)
    ensures |ExportSummary(s)| == |s|
    ensures forall i :: 0 <= i < |s| ==>
              && ExportSummary(s)[i].name == s[i].name
              && ExportSummary(s)[i].rows == s[i].content.rows
              && |ExportSummary(s)[i].images| == |s[i].content.images|
              && forall j :: 0 <= j < |s[i].content.images| ==> ExportSummary(s)[i].images[j] == Some(s[i].content.images[j])
  {
    forall i, j | 0 <= i < |s| && 0 <= j < |s[i].content.images|
      ensures ExportSummary(s)[i].images[j] == Some(s[i].content.images[j])
    {
      StripKeepsOtherSources(s[i].content.images[j]);
    }
  }

  /**
   * Extracting right after an unlock hands on the summary the service returned:
   * with distinct sheet names and raw comma-free base64 images, each exported sheet
   * has the returned name, the returned rows (none when they were missing) and the
   * image payloads (none when they were missing).
   */
  lemma ExportRestoresServerSummary(ss: seq<ServerSheet>)
    requires forall i, j :: 0 <= i < j < |ss| ==> ss[i].name != ss[j].name
    requires forall i, j :: 0 <= i < |ss| && 0 <= j < |ss[i].images.GetOr([])| ==>
               ',' !in ss[i].images.GetOr([])[j] && !StartsWith(ss[i].images.GetOr([])[j], DataScheme)
    ensures |ExportSummary(Collect(ServerEntries(ss)))| == |ss|
    ensures forall i :: 0 <= i < |ss| ==>
              && ExportSummary(Collect(ServerEntries(ss)))[i].name == ss[i].name
              && ExportSummary(Collect(ServerEntries(ss)))[i].rows == ss[i].rows.GetOr([])
              && |ExportSummary(Collect(ServerEntries(ss)))[i].images| == |ss[i].images.GetOr([])|
              && forall j :: 0 <= j < |ss[i].images.GetOr([])| ==>
                   ExportSummary(Collect(ServerEntries(ss)))[i].images[j] == Some(ss[i].images.GetOr([])[j])
  {
    var es := ServerEntries(ss);
    CollectDistinct(es);
    forall i, j | 0 <= i < |ss| && 0 <= j < |ss[i].images.GetOr([])|
      ensures ExportSummary(Collect(es))[i].images[j] == Some(ss[i].images.GetOr([])[j])
    {
      StripAfterNormalise(ss[i].images.GetOr([])[j]);
    }
  }

  class UploadPage {
    var file: Option<SpreadsheetFile>
    var excelSheets: Sheets
    var selectedSheet: string
    var needsPassword: bool
    var password: string
    var unlocked: bool
    var loading: bool
    var error: string

    /** The sheet collection is keyed: no two sheets share a name. */
    ghost predicate Valid()
      reads this
    {
      UniqueNames(excelSheets)
    }

    constructor ()
      ensures Valid()
      ensures file == None && excelSheets == [] && selectedSheet == "" && !needsPassword
      ensures password == "" && !unlocked && !loading && error == ""
    {
      file := None;
      excelSheets := [];
      selectedSheet := "";
      needsPassword := false;
      password := "";
      unlocked := false;
      loading := false;
      error := "";
    }

    /** The password form is shown. */
    predicate PasswordFormVisible()
      reads this
    {
      file.Some? && needsPassword && !unlocked
    }

    /** The sheet picker is shown. */
    predicate SheetPickerVisible()
      reads this
    {
      unlocked && |excelSheets| > 0
    }

    /** The row and image preview of the selected sheet is shown. */
    predicate PreviewVisible()
      reads this
    {
      selectedSheet != "" && Lookup(excelSheets, selectedSheet).Some?
    }

    /**
     * A new file (or none) is selected: everything derived from the previous file is
     * reset, and a local parse starts only for a file whose name ends in `.xlsx`.
     */
    method HandleFileChange(selected: Option<SpreadsheetFile>) returns (parseStarted: bool)
      modifies this`file, this`excelSheets, this`selectedSheet, this`needsPassword, this`unlocked, this`error
      ensures Valid()
      ensures file == selected && excelSheets == [] && selectedSheet == ""
      ensures !needsPassword && !unlocked && error == ""
      ensures parseStarted <==> selected.Some? && EndsWith(selected.value.name, XlsxSuffix)
      ensures !PasswordFormVisible() && !SheetPickerVisible() && !PreviewVisible()
    {
      file := selected;
      excelSheets := [];
      selectedSheet := "";
      needsPassword := false;
      unlocked := false;
      error := "";
      parseStarted := selected.Some? && EndsWith(selected.value.name, XlsxSuffix);
    }

    /**
     * The local parse completes. A workbook unlocks the page and replaces the sheets;
     * an exception is taken to mean a password is needed and leaves the sheets as
     * they were. The selected sheet is never touched.
     */
    method FinishLocalParse(outcome: ParseOutcome, objectUrl: Media -> string)
      requires Valid()
      modifies this`excelSheets, this`needsPassword, this`unlocked
      ensures Valid()
      ensures outcome.Loaded? ==>
                && !needsPassword && unlocked
                && excelSheets == Collect(LocalEntries(outcome.workbook, objectUrl))
      ensures outcome.LoadFailed? ==>
                && needsPassword && !unlocked
                && excelSheets == old(excelSheets)
      ensures outcome.LoadFailed? ==> (PasswordFormVisible() <==> file.Some?)
    {
      match outcome {
        case Loaded(workbook) =>
          needsPassword := false;
          unlocked := true;
          var sheetsData := LoadWorkbook(workbook, objectUrl);
          excelSheets := sheetsData;
        case LoadFailed =>
          needsPassword := true;
          unlocked := false;
      }
    }

    /** The password input changes. */
    method EnterPassword(text: string)
      requires Valid()
      modifies this`password
      ensures Valid()
      ensures password == text
    {
      password := text;
    }

    /** A sheet is chosen in the picker ("" is the placeholder option). */
    method SelectSheet(name: string)
      requires Valid()
      modifies this`selectedSheet
      ensures Valid()
      ensures selectedSheet == name
    {
      selectedSheet := name;
    }

    /**
     * The password is submitted. When `ValidationError` finds no file or a blank
     * password, only that error is set and no request is made. Otherwise the file and
     * the password as typed (untrimmed) are sent once; `reply` is what came back.
     */
    method SubmitPassword(reply: Reply) returns (request: Option<UnlockRequest>)
      requires Valid()
      modifies this`error, this`loading, this`excelSheets, this`unlocked, this`needsPassword, this`selectedSheet
      ensures Valid()
      ensures ValidationError(old(file), old(password)).Some? ==>
                && request.None? && error == ValidationError(old(file), old(password)).value
                && loading == old(loading) && excelSheets == old(excelSheets) && unlocked == old(unlocked)
                && needsPassword == old(needsPassword) && selectedSheet == old(selectedSheet)
      ensures ValidationError(old(file), old(password)).None? ==>
                && request == Some(UnlockRequest(old(file).value, old(password))) && !loading
                && (Interpret(reply).Unlocked? ==>
                      && excelSheets == Interpret(reply).sheets && unlocked && !needsPassword
                      && selectedSheet == FirstName(excelSheets) && error == "")
                && (Interpret(reply).Failed? ==>
                      && error == Interpret(reply).message && !unlocked
                      && excelSheets == old(excelSheets) && needsPassword == old(needsPassword)
                      && selectedSheet == old(selectedSheet))
    {
      error := "";
      if file.None? {
        error := NoFileMessage;
        return None;
      }
      if Trim(password) == "" {
        error := NoPasswordMessage;
        return None;
      }
      loading := true;
      request := Some(UnlockRequest(file.value, password));
      ReceiveReply(reply);
      loading := false;
    }

    /**
     * The reply to the unlock request is folded into the page: an accepted summary
     * replaces the sheets, unlocks the page and selects the first sheet; any failure
     * sets its message and locks the page, leaving the sheets and the selection.
     */
    method ReceiveReply(reply: Reply)
      requires Valid() && error == ""
      modifies this`error, this`excelSheets, this`unlocked, this`needsPassword, this`selectedSheet
      ensures Valid()
      ensures Interpret(reply).Unlocked? ==>
                && excelSheets == Interpret(reply).sheets && unlocked && !needsPassword
                && selectedSheet == FirstName(excelSheets) && error == ""
      ensures Interpret(reply).Failed? ==>
                && error == Interpret(reply).message && !unlocked
                && excelSheets == old(excelSheets) && needsPassword == old(needsPassword)
                && selectedSheet == old(selectedSheet)
      ensures Interpret(reply).Failed? ==> (PasswordFormVisible() <==> file.Some? && needsPassword)
    {
      match reply {
        case Thrown(m) =>
          error := ThrownMessage(m);
          unlocked := false;
        case NotOk(status, body) =>
          error := NotOkMessage(status, body);
          unlocked := false;
        case Ok(result) =>
          if Accepted(result) {
            var sheetsData := ConvertSheets(SummarySheets(result.summary.value));
            excelSheets := sheetsData;
            unlocked := true;
            needsPassword := false;
            selectedSheet := FirstName(sheetsData);
          } else {
            error := RejectionMessage(result.message);
            unlocked := false;
          }
      }
    }

    /** "Extract Information": navigate to the next page with the exported summary. */
    method Extract() returns (nav: Navigation)
      requires Valid()
      ensures nav.route == ExtractedInfoRoute
      ensures nav.summary == ExportSummary(excelSheets)
      ensures |nav.summary| == |excelSheets|
      ensures forall i :: 0 <= i < |excelSheets| ==>
                var name := Names(excelSheets)[i];
                && nav.summary[i].name == name
                && Lookup(excelSheets, name).Some?
                && nav.summary[i].rows == Lookup(excelSheets, name).value.rows
    {
      nav := Navigation(ExtractedInfoRoute, ExportSummary(excelSheets));
      forall i | 0 <= i < |excelSheets|
        ensures Lookup(excelSheets, Names(excelSheets)[i]) == Some(excelSheets[i].content)
      {
        LookupEntry(excelSheets, i);
      }
    }
  }

  /**
   * A workbook "report.xlsx" with sheets "Summary" (3 rows of 2 cells) and "Attachments"
   * (1 cell and one image whose media exists) parses locally into those two keys in
   * order, with one image on "Attachments"; no sheet is selected by this path.
   */
  method LocalReportScenario()
  {
    var page := new UploadPage();
    var started := page.HandleFileChange(Some(SpreadsheetFile("report.xlsx", [])));
    assert "report.xlsx"[|"report.xlsx"| - |XlsxSuffix|..] == XlsxSuffix;
    assert started;
    var cell := Cell("x", Missing);
    var summary := Worksheet("Summary", [[cell, cell], [cell, cell], [cell, cell]], []);
    var attachments := Worksheet("Attachments", [[cell]], [ImageAnchor(1)]);
    var wb := Workbook([summary, attachments], [Media(1, [], "image/png")]);
    var objectUrl := (m: Media) => "blob:report";
    page.FinishLocalParse(Loaded(wb), objectUrl);
    LocalSheetPerWorksheet(wb, objectUrl);
    assert page.excelSheets[0].name == "Summary" && page.excelSheets[1].name == "Attachments";
    assert |page.excelSheets| == 2;
    ResolvedImagesInOrder(attachments.images, wb.media, objectUrl);
    assert |page.excelSheets[1].content.images| == 1;
    assert page.unlocked && !page.needsPassword && page.selectedSheet == "";
  }

  /**
   * A file the library cannot open asks for a password, and an empty password is
   * refused without a request.
   */
  method BlankPasswordScenario()
  {
    var page := new UploadPage();
    var file := SpreadsheetFile("locked.xlsx", []);
    var _ := page.HandleFileChange(Some(file));
    page.FinishLocalParse(LoadFailed, (m: Media) => "");
    assert page.PasswordFormVisible();
    assert page.file == Some(file) && page.password == "";
    ValidationCases(page.file, page.password);
    var request := page.SubmitPassword(Thrown(""));
    assert request.None? && page.error == NoPasswordMessage && !page.loading;
  }

  /**
   * Password "abc" answered by status 404 shows the status and the raw body, whatever
   * the body holds: a body `{"message":"bad password"}` is shown as it is, not as
   * "bad password". The page stays locked with its password form.
   */
  method NotFoundScenario(body: string)
  {
    var page := new UploadPage();
    var file := SpreadsheetFile("locked.xlsx", []);
    var _ := page.HandleFileChange(Some(file));
    page.FinishLocalParse(LoadFailed, (m: Media) => "");
    page.EnterPassword("abc");
    assert !IsWhitespace("abc"[0]);
    ValidationCases(page.file, "abc");
    var request := page.SubmitPassword(NotOk(404, body));
    assert request == Some(UnlockRequest(file, "abc"));
    assert Decimal(404) == "404" by {
      assert Decimal(4) == "4" && Decimal(40) == "40";
    }
    assert page.error == "Server returned 404: " + body;
    assert !page.unlocked && !page.loading && page.PasswordFormVisible();
  }
}
