/**
 * The password unlock reply of the upload page: what the remote service can answer,
 * how each answer becomes either a sheet collection or a displayed error message,
 * and the loop that turns the returned summary into the preview's sheet collection.
 */
module Unlock {
  import opened Wrappers
  import opened JsString
  import opened Sheets
  import opened ImageSource

  /** A sheet of the returned summary; `rows` and `images` may be absent. */
  datatype ServerSheet = ServerSheet(name: string, rows: Option<seq<seq<string>>>, images: Option<seq<string>>)

  /** The returned `summary`; `sheets` may be absent. */
  datatype ServerSummary = ServerSummary(sheets: Option<seq<ServerSheet>>)

  /** The parsed JSON body of an ok reply; every field may be absent. */
  datatype UnlockResponse = UnlockResponse(status: Option<string>, summary: Option<ServerSummary>, message: Option<string>)

  /**
   * The outcome of the single POST: an exception raised while sending it or reading
   * its JSON body (with the exception's message), a reply whose HTTP status is not ok
   * (with its status and its body text), or an ok reply with its parsed body.
   */
  datatype Reply =
    | Thrown(message: string)
    | NotOk(status: nat, body: string)
    | Ok(result: UnlockResponse)

  /** What the page makes of a reply: a new sheet collection, or the message to display. */
  datatype UnlockResult = Unlocked(sheets: Sheets) | Failed(message: string)

  const SuccessStatus := "success"
  const NetworkFallback := "Network or server error."
  const RejectedFallback := "Unable to unlock file with provided password."
  const NotOkPrefix := "Server returned "

  /** A returned sheet in preview shape: rows default to none, images are made displayable. */
  function ServerContent(sheet: ServerSheet): (r: SheetContent)
    ensures r.rows == sheet.rows.GetOr([])
    ensures |r.images| == |sheet.images.GetOr([])|
    ensures forall i :: 0 <= i < |r.images| ==> StartsWith(r.images[i], DataScheme)
  {
    var images := sheet.images.GetOr([]);
    SheetContent(sheet.rows.GetOr([]), seq(|images|, i requires 0 <= i < |images| => NormaliseImage(images[i])))
  }

  /** One assignment per returned sheet, in the order returned. */
  function ServerEntries(sheets: seq<ServerSheet>): (r: seq<Entry>)
    ensures |r| == |sheets|
  {
    seq(|sheets|, i requires 0 <= i < |sheets| => Entry(sheets[i].name, ServerContent(sheets[i])))
  }

  /** The loop over `summary.sheets`: one collection assignment per returned sheet. */
  method ConvertSheets(sheets: seq<ServerSheet>) returns (sheetsData: Sheets)
    ensures sheetsData == Collect(ServerEntries(sheets))
    ensures UniqueNames(sheetsData)
  {
    var entries := ServerEntries(sheets);
    sheetsData := [];
    for k := 0 to |sheets|
      invariant sheetsData == Collect(entries[..k])
    {
      var sheet := sheets[k];
      var imgs := sheet.images.GetOr([]);
      var images := seq(|imgs|, i requires 0 <= i < |imgs| => NormaliseImage(imgs[i]));
      CollectStep(entries, k);
      sheetsData := Put(sheetsData, Entry(sheet.name, SheetContent(sheet.rows.GetOr([]), images)));
    }
    assert entries[..|sheets|] == entries;
    CollectUnique(entries);
  }

  /**
   * The message of a reply that is not ok. The JSON error body is parsed, but the
   * error thrown from it is caught by the surrounding handler, so the message is
   * always the status and the raw body text.
   */
  function NotOkMessage(status: nat, body: string): (r: string)
    ensures StartsWith(r, NotOkPrefix) && EndsWith(r, body)
    ensures |r| == |NotOkPrefix| + |Decimal(status)| + 2 + |body|
  {
    NotOkPrefix + Decimal(status) + ": " + body
  }

  /** In digits followed by a colon, the first colon comes right after the digits. */
  lemma ColonAfterDigits(d: string, x: string)
    requires AllDigits(d) && x != [] && x[0] == ':'
    ensures IndexOf(d + x, ':') == Some(|d|)
  {
    var s := d + x;
    assert s[|d|] == ':';
    assert s[..|d|] == d;
  }

  /** The displayed message of a not-ok reply determines its status and its body. */
  lemma NotOkMessageInjective(s1: nat, b1: string, s2: nat, b2: string)
    requires NotOkMessage(s1, b1) == NotOkMessage(s2, b2)
    ensures s1 == s2 && b1 == b2
  {
    var m := NotOkMessage(s1, b1);
    var x1 := ": " + b1;
    var x2 := ": " + b2;
    assert m == NotOkPrefix + (Decimal(s1) + x1);
    assert m == NotOkPrefix + (Decimal(s2) + x2);
    assert Decimal(s1) + x1 == m[|NotOkPrefix|..] == Decimal(s2) + x2;
    ColonAfterDigits(Decimal(s1), x1);
    ColonAfterDigits(Decimal(s2), x2);
    assert Decimal(s1) == (Decimal(s1) + x1)[..|Decimal(s1)|];
    assert Decimal(s2) == (Decimal(s2) + x2)[..|Decimal(s2)|];
    assert x1 == (Decimal(s1) + x1)[|Decimal(s1)|..];
    assert x2 == (Decimal(s2) + x2)[|Decimal(s2)|..];
    DecimalInjective(s1, s2);
    assert b1 == x1[2..] && b2 == x2[2..];
  }

  /** `result.status === "success" && result.summary` */
  predicate Accepted(result: UnlockResponse)
  {
    result.status == Some(SuccessStatus) && result.summary.Some?
  }

  /** `result.message || "Unable to unlock file with provided password."` */
  function RejectionMessage(message: Option<string>): (r: string)
    ensures r != ""
    ensures r == RejectedFallback <==> message.None? || message.value in {"", RejectedFallback}
    ensures message.Some? && message.value != "" ==> r == message.value
  {
    match message
    case Some(m) => if m != "" then m else RejectedFallback
    case None => RejectedFallback
  }

  /** `err.message || "Network or server error."` */
  function ThrownMessage(message: string): (r: string)
    ensures r != ""
    ensures message != "" ==> r == message
    ensures message == "" ==> r == NetworkFallback
  {
    if message != "" then message else NetworkFallback
  }

  /** The returned sheets, `summary.sheets || []`. */
  function SummarySheets(summary: ServerSummary): seq<ServerSheet>
  {
    summary.sheets.GetOr([])
  }

  /** What the page makes of a reply once the request has been sent. */
  function Interpret(reply: Reply): UnlockResult
  {
    match reply
    case Thrown(m) => Failed(ThrownMessage(m))
    case NotOk(status, body) => Failed(NotOkMessage(status, body))
    case Ok(result) =>
      if Accepted(result) then Unlocked(Collect(ServerEntries(SummarySheets(result.summary.value))))
      else Failed(RejectionMessage(result.message))
  }

  /** Every failed unlock leaves a non-empty message, so the password form shows it while it stays open. */
  lemma FailureIsShown(reply: Reply)
    ensures Interpret(reply).Failed? ==> Interpret(reply).message != ""
  {
  }

  /**
   * A reply unlocks exactly when it is ok and accepted; the new collection then has
   * unique names and its first key is the first returned sheet's name ("" when none).
   */
  lemma UnlockedIffAccepted(reply: Reply)
    ensures Interpret(reply).Unlocked? <==> reply.Ok? && Accepted(reply.result)
    ensures Interpret(reply).Unlocked? ==>
              var sheets := SummarySheets(reply.result.summary.value);
              && UniqueNames(Interpret(reply).sheets)
              && FirstName(Interpret(reply).sheets) == (if sheets == [] then "" else sheets[0].name)
  {
    if Interpret(reply).Unlocked? {
      var sheets := SummarySheets(reply.result.summary.value);
      CollectUnique(ServerEntries(sheets));
      if sheets != [] {
        CollectFirst(ServerEntries(sheets));
      }
    }
  }

  /** A not-ok reply always shows its status and body, whatever the body says. */
  lemma NotOkIgnoresJsonMessage(status: nat, body: string)
    ensures Interpret(NotOk(status, body)) == Failed(NotOkPrefix + Decimal(status) + ": " + body)
  {
  }
}
