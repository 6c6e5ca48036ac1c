/**
 * The in-memory sheet model of the upload page, and the local parse that fills it
 * from a workbook: cell stringification, date formatting, image resolution, and the
 * sheet collection, an insertion-ordered list of named sheets in which assigning an
 * existing name overwrites that entry where it stands (a JavaScript object's keys).
 */
module Sheets {
  import opened Wrappers
  import opened JsString

  // ---------------------------------------------------------------- dates

  type Month = m: int | 1 <= m <= 12 witness 1
  type DayOfMonth = d: int | 1 <= d <= 31 witness 1

  /** A calendar date as a cell holds it (time of day and time zone are not modelled). */
  datatype Date = Date(year: int, month: Month, day: DayOfMonth)

  /** Two decimal digits with a leading zero (date-fns `addLeadingZeros(n, 2)`). */
  function Pad2(n: nat): (r: string)
    requires n < 100
    ensures |r| == 2 && IsDigit(r[0]) && IsDigit(r[1])
  {
    [DigitChar(n / 10), DigitChar(n % 10)]
  }

  /** The year date-fns prints: years before 1 are counted backwards from 1 BC. */
  function YearOfEra(y: int): nat
  {
    if y > 0 then y else 1 - y
  }

  /** `format(date, "dd-MM-yy")`. */
  function FormatDdMmYy(d: Date): (r: string)
    ensures |r| == 8 && r[2] == '-' && r[5] == '-'
  {
    Pad2(d.day) + "-" + Pad2(d.month) + "-" + Pad2(YearOfEra(d.year) % 100)
  }

  /** Reads a `dd-MM-yy` string back as (day, month, two-digit year). */
  function ParseDdMmYy(s: string): Option<(nat, nat, nat)>
  {
    if |s| == 8 && s[2] == '-' && s[5] == '-'
       && IsDigit(s[0]) && IsDigit(s[1]) && IsDigit(s[3]) && IsDigit(s[4])
       && IsDigit(s[6]) && IsDigit(s[7])
    then Some((DigitValue(s[0]) * 10 + DigitValue(s[1]),
               DigitValue(s[3]) * 10 + DigitValue(s[4]),
               DigitValue(s[6]) * 10 + DigitValue(s[7])))
    else None
  }

  lemma Pad2Value(n: nat)
    requires n < 100
    ensures DigitValue(Pad2(n)[0]) * 10 + DigitValue(Pad2(n)[1]) == n
  {
  }

  /** A formatted date names its day, its month and the last two digits of its year. */
  lemma FormatDdMmYyRoundTrip(d: Date)
    ensures ParseDdMmYy(FormatDdMmYy(d)) == Some((d.day as nat, d.month as nat, YearOfEra(d.year) % 100))
  {
    var s := FormatDdMmYy(d);
    Pad2Value(d.day);
    Pad2Value(d.month);
    Pad2Value(YearOfEra(d.year) % 100);
    assert s[0..2] == Pad2(d.day) && s[3..5] == Pad2(d.month) && s[6..8] == Pad2(YearOfEra(d.year) % 100);
  }

  // ---------------------------------------------------------------- cells

  /** The raw value of a cell: null or undefined, a Date, or anything else by its `String(value)` text. */
  datatype CellValue = Missing | DateValue(date: Date) | Scalar(rendered: string)

  /** A cell as the row enumerates it: its display text (`cell.text`) and its raw value. */
  datatype Cell = Cell(text: string, value: CellValue)

  /** The cells of a row as enumerated with empty cells included. */
  type Row = seq<Cell>

  /**
   * The string a cell contributes to the preview: non-empty display text, else a date
   * as `dd-MM-yy`, else the stringified value, else "".
   */
  function CellText(c: Cell): (r: string)
    ensures c.text != "" ==> r == c.text
    ensures c.text == "" && c.value.DateValue? ==>
              ParseDdMmYy(r) == Some((c.value.date.day as nat, c.value.date.month as nat, YearOfEra(c.value.date.year) % 100))
    ensures c.text == "" && c.value.Scalar? ==> r == c.value.rendered
    ensures r == "" <==> c.text == "" && (c.value.Missing? || c.value == Scalar(""))
  {
    if c.text != "" then c.text
    else match c.value
      case DateValue(d) => FormatDdMmYyRoundTrip(d); FormatDdMmYy(d)
      case Scalar(v) => v
      case Missing => ""
  }

  /** The strings of every row, one per enumerated cell. */
  function RowStrings(rows: seq<Row>): seq<seq<string>>
  {
    seq(|rows|, i requires 0 <= i < |rows| =>
      seq(|rows[i]|, j requires 0 <= j < |rows[i]| => CellText(rows[i][j])))
  }

  // ---------------------------------------------------------------- images

  /** An entry of the workbook's media: its index, its bytes and its MIME type. */
  datatype Media = Media(index: int, buffer: seq<bv8>, mediaType: string)

  /** An image anchored to a sheet, naming its media by index. */
  datatype ImageAnchor = ImageAnchor(imageId: int)

  /** `media.find(m => m.index === id)`: the first media with that index. */
  function FindMedia(media: seq<Media>, id: int): (r: Option<Media>)
    ensures r.None? <==> forall k :: 0 <= k < |media| ==> media[k].index != id
    ensures r.Some? ==> exists k :: 0 <= k < |media| && media[k] == r.value
                          && r.value.index == id && forall k' :: 0 <= k' < k ==> media[k'].index != id
  {
    if media == [] then None
    else if media[0].index == id then Some(media[0])
    else
      var r := FindMedia(media[1..], id);
      if r.Some? then
        var k :| 0 <= k < |media[1..]| && media[1..][k] == r.value
                 && r.value.index == id && forall k' :: 0 <= k' < k ==> media[1..][k'].index != id;
        assert media[k + 1] == r.value;
        r
      else r
  }

  /** The display source an anchor maps to: an object URL for its media, or null when none matches. */
  function MediaSource(a: ImageAnchor, media: seq<Media>, objectUrl: Media -> string): Option<string>
  {
    match FindMedia(media, a.imageId)
    case Some(m) => Some(objectUrl(m))
    case None => None
  }

  /** `.filter(Boolean)` on the mapped sources: drops null and "". */
  function KeepTruthy(xs: seq<Option<string>>): (r: seq<string>)
    ensures |r| <= |xs|
    ensures forall u :: u in r <==> u != "" && Some(u) in xs
  {
    if xs == [] then []
    else
      var rest := KeepTruthy(xs[1..]);
      assert forall x :: x in xs <==> x == xs[0] || x in xs[1..];
      if xs[0].Some? && xs[0].value != "" then [xs[0].value] + rest else rest
  }

  lemma {:induction false} KeepTruthyAppend(xs: seq<Option<string>>, ys: seq<Option<string>>)
    ensures KeepTruthy(xs + ys) == KeepTruthy(xs) + KeepTruthy(ys)
  {
    if xs != [] {
      assert (xs + ys)[1..] == xs[1..] + ys;
      KeepTruthyAppend(xs[1..], ys);
    } else {
      assert xs + ys == ys;
    }
  }

  function MediaSources(anchors: seq<ImageAnchor>, media: seq<Media>, objectUrl: Media -> string): (r: seq<Option<string>>)
    ensures |r| == |anchors|
  {
    seq(|anchors|, i requires 0 <= i < |anchors| => MediaSource(anchors[i], media, objectUrl))
  }

  /** The display sources of a sheet's images, in anchor order. */
  function SheetImages(anchors: seq<ImageAnchor>, media: seq<Media>, objectUrl: Media -> string): (r: seq<string>)
    ensures |r| <= |anchors|
  {
    KeepTruthy(MediaSources(anchors, media, objectUrl))
  }

  /**
   * An anchor whose image id matches no media is dropped without trace: it leaves
   * the images of the anchors around it exactly as they would be without it.
   */
  lemma UnresolvedImageDropped(before: seq<ImageAnchor>, x: ImageAnchor, after: seq<ImageAnchor>,
                               media: seq<Media>, objectUrl: Media -> string)
    requires forall k :: 0 <= k < |media| ==> media[k].index != x.imageId
    ensures SheetImages(before + [x] + after, media, objectUrl)
            == SheetImages(before, media, objectUrl) + SheetImages(after, media, objectUrl)
    ensures SheetImages(before + [x] + after, media, objectUrl) == SheetImages(before + after, media, objectUrl)
  {
    assert MediaSources(before + [x] + after, media, objectUrl)
           == MediaSources(before, media, objectUrl) + [None] + MediaSources(after, media, objectUrl);
    assert MediaSources(before + after, media, objectUrl)
           == MediaSources(before, media, objectUrl) + MediaSources(after, media, objectUrl);
    KeepTruthyAppend(MediaSources(before, media, objectUrl) + [None], MediaSources(after, media, objectUrl));
    KeepTruthyAppend(MediaSources(before, media, objectUrl), [None]);
    KeepTruthyAppend(MediaSources(before, media, objectUrl), MediaSources(after, media, objectUrl));
  }

  /** Filtering a list whose every source is present and non-empty keeps all of them, in order. */
  lemma {:induction false} KeepTruthyAllPresent(xs: seq<Option<string>>)
    requires forall i :: 0 <= i < |xs| ==> xs[i].Some? && xs[i].value != ""
    ensures |KeepTruthy(xs)| == |xs|
    ensures forall i :: 0 <= i < |xs| ==> KeepTruthy(xs)[i] == xs[i].value
  {
    if xs != [] {
      KeepTruthyAllPresent(xs[1..]);
    }
  }

  /**
   * When every anchor resolves and object URLs are never empty, there is one image
   * per anchor, in anchor order, each the URL of that anchor's media.
   */
  lemma ResolvedImagesInOrder(anchors: seq<ImageAnchor>, media: seq<Media>, objectUrl: Media -> string)
    requires forall m :: objectUrl(m) != ""
    requires forall i :: 0 <= i < |anchors| ==> FindMedia(media, anchors[i].imageId).Some?
    ensures |SheetImages(anchors, media, objectUrl)| == |anchors|
    ensures forall i :: 0 <= i < |anchors| ==>
              SheetImages(anchors, media, objectUrl)[i] == objectUrl(FindMedia(media, anchors[i].imageId).value)
  {
    var xs := MediaSources(anchors, media, objectUrl);
    assert forall i :: 0 <= i < |xs| ==> xs[i] == Some(objectUrl(FindMedia(media, anchors[i].imageId).value));
    KeepTruthyAllPresent(xs);
  }

  // ---------------------------------------------------------------- sheet collection

  /** What the preview shows of one sheet. */
  datatype SheetContent = SheetContent(rows: seq<seq<string>>, images: seq<string>)

  datatype Entry = Entry(name: string, content: SheetContent)

  /** The sheet collection, in key order. */
  type Sheets = seq<Entry>

  function Names(s: Sheets): (r: seq<string>)
    ensures |r| == |s| && forall i :: 0 <= i < |s| ==> r[i] == s[i].name
  {
    if s == [] then [] else [s[0].name] + Names(s[1..])
  }

  predicate UniqueNames(s: Sheets)
  {
    forall i, j :: 0 <= i < j < |s| ==> s[i].name != s[j].name
  }

  /** `sheets[name]`, or None when no sheet has that name. */
  function Lookup(s: Sheets, name: string): (r: Option<SheetContent>)
    ensures r.None? <==> name !in Names(s)
  {
    if s == [] then None
    else if s[0].name == name then Some(s[0].content)
    else Lookup(s[1..], name)
  }

  /** In a collection with unique names, looking up an entry's name finds that entry's content. */
  lemma {:induction false} LookupEntry(s: Sheets, i: nat)
    requires UniqueNames(s) && i < |s|
    ensures Lookup(s, s[i].name) == Some(s[i].content)
  {
    if i > 0 {
      LookupEntry(s[1..], i - 1);
    }
  }

  /** `sheets[e.name] = e.content`: overwrite in place when the name exists, append otherwise. */
  function Put(s: Sheets, e: Entry): Sheets
  {
    if s == [] then [e]
    else if s[0].name == e.name then [e] + s[1..]
    else [s[0]] + Put(s[1..], e)
  }

  /** Assigning under an existing name keeps the key order; a new name goes last. */
  lemma {:induction false} PutNames(s: Sheets, e: Entry)
    ensures Names(Put(s, e)) == if e.name in Names(s) then Names(s) else Names(s) + [e.name]
  {
    if s != [] && s[0].name != e.name {
      PutNames(s[1..], e);
      assert Names(Put(s, e)) == [s[0].name] + Names(Put(s[1..], e));
    }
  }

  /** After the assignment the name holds the new content and every other name what it held before. */
  lemma {:induction false} PutLookup(s: Sheets, e: Entry, n: string)
    ensures Lookup(Put(s, e), n) == if n == e.name then Some(e.content) else Lookup(s, n)
  {
    if s != [] && s[0].name != e.name {
      PutLookup(s[1..], e, n);
    }
  }

  /** Assignment keeps the names unique. */
  lemma PutUnique(s: Sheets, e: Entry)
    requires UniqueNames(s)
    ensures UniqueNames(Put(s, e))
  {
    PutNames(s, e);
    var r := Put(s, e);
    forall i, j | 0 <= i < j < |r| ensures r[i].name != r[j].name {
      assert Names(r)[i] == r[i].name && Names(r)[j] == r[j].name;
      if e.name !in Names(s) && j == |s| {
        assert Names(s)[i] == r[i].name;
      } else {
        assert Names(s)[i] == r[i].name && Names(s)[j] == r[j].name;
      }
    }
  }

  /** The collection a sequence of assignments `sheets[e.name] = e.content` builds from `{}`. */
  function Collect(es: seq<Entry>): Sheets
  {
    if es == [] then [] else Put(Collect(es[..|es| - 1]), es[|es| - 1])
  }

  /** Assignment by assignment: the step a loop over the entries takes. */
  lemma CollectStep(es: seq<Entry>, k: nat)
    requires k < |es|
    ensures Collect(es[..k + 1]) == Put(Collect(es[..k]), es[k])
  {
    assert es[..k + 1][..k] == es[..k];
  }

  lemma {:induction false} CollectUnique(es: seq<Entry>)
    ensures UniqueNames(Collect(es))
  {
    if es != [] {
      CollectUnique(es[..|es| - 1]);
      PutUnique(Collect(es[..|es| - 1]), es[|es| - 1]);
    }
  }

  /** A name is a key of the collection exactly when some entry carries it. */
  lemma {:induction false} CollectNames(es: seq<Entry>, n: string)
    ensures n in Names(Collect(es)) <==> exists i :: 0 <= i < |es| && es[i].name == n
  {
    if es != [] {
      var init := es[..|es| - 1];
      CollectNames(init, n);
      PutNames(Collect(init), es[|es| - 1]);
      if exists i :: 0 <= i < |init| && init[i].name == n {
        var i :| 0 <= i < |init| && init[i].name == n;
        assert es[i].name == n;
      }
      if exists i :: 0 <= i < |es| && es[i].name == n {
        var i :| 0 <= i < |es| && es[i].name == n;
        if i < |init| { assert init[i].name == n; }
      }
    }
  }

  /** The value under a name is the content of the LAST entry with that name. */
  lemma {:induction false} CollectLast(es: seq<Entry>, j: nat)
    requires j < |es|
    requires forall k :: j < k < |es| ==> es[k].name != es[j].name
    ensures Lookup(Collect(es), es[j].name) == Some(es[j].content)
  {
    var init := es[..|es| - 1];
    PutLookup(Collect(init), es[|es| - 1], es[j].name);
    if j < |es| - 1 {
      assert init[j] == es[j];
      CollectLast(init, j);
    }
  }

  /** Put never moves the first key. */
  lemma PutKeepsHead(s: Sheets, e: Entry)
    requires s != []
    ensures Put(s, e) != [] && Put(s, e)[0].name == s[0].name
  {
  }

  /** The first key of the collection is the first entry's name. */
  lemma {:induction false} CollectFirst(es: seq<Entry>)
    requires es != []
    ensures Collect(es) != [] && Collect(es)[0].name == es[0].name
  {
    var init := es[..|es| - 1];
    if init != [] {
      CollectFirst(init);
      assert init[0] == es[0];
      PutKeepsHead(Collect(init), es[|es| - 1]);
    }
  }

  /** With pairwise distinct names, the collection is exactly the entries, in order. */
  lemma {:induction false} CollectDistinct(es: seq<Entry>)
    requires UniqueNames(es)
    ensures Collect(es) == es
  {
    if es != [] {
      var init := es[..|es| - 1];
      CollectDistinct(init);
      var last := es[|es| - 1];
      assert last.name !in Names(init);
      PutAppends(init, last);
      assert init + [last] == es;
    }
  }

  lemma {:induction false} PutAppends(s: Sheets, e: Entry)
    requires e.name !in Names(s)
    ensures Put(s, e) == s + [e]
  {
    if s != [] {
      PutAppends(s[1..], e);
      assert [s[0]] + (s[1..] + [e]) == s + [e];
    }
  }

  /** The key `sheets` defaults to: `Object.keys(sheets)[0] || ""`. */
  function FirstName(s: Sheets): string
  {
    if s == [] then "" else s[0].name
  }

  // ---------------------------------------------------------------- local parse

  /** A worksheet as the workbook enumerates it: its name, its rows, its image anchors. */
  datatype Worksheet = Worksheet(name: string, rows: seq<Row>, images: seq<ImageAnchor>)

  /** A workbook the spreadsheet library opened: its sheets in order and its media. */
  datatype Workbook = Workbook(sheets: seq<Worksheet>, media: seq<Media>)

  function LocalContent(ws: Worksheet, media: seq<Media>, objectUrl: Media -> string): SheetContent
  {
    SheetContent(RowStrings(ws.rows), SheetImages(ws.images, media, objectUrl))
  }

  /** One assignment per worksheet, in workbook order. */
  function LocalEntries(wb: Workbook, objectUrl: Media -> string): (r: seq<Entry>)
    ensures |r| == |wb.sheets|
  {
    seq(|wb.sheets|, i requires 0 <= i < |wb.sheets| =>
      Entry(wb.sheets[i].name, LocalContent(wb.sheets[i], wb.media, objectUrl)))
  }

  /**
   * The row loop of the local parse: every enumerated cell, empty or not, pushes
   * exactly one string, so each row keeps its cell count and column alignment.
   */
  method FormatRows(ws: Worksheet) returns (rows: seq<seq<string>>)
    ensures |rows| == |ws.rows|
    ensures forall i :: 0 <= i < |rows| ==> |rows[i]| == |ws.rows[i]|
    ensures forall i, j :: 0 <= i < |rows| && 0 <= j < |rows[i]| ==> rows[i][j] == CellText(ws.rows[i][j])
  {
    rows := [];
    for r := 0 to |ws.rows|
      invariant |rows| == r
      invariant forall i :: 0 <= i < r ==> |rows[i]| == |ws.rows[i]|
      invariant forall i, j :: 0 <= i < r && 0 <= j < |rows[i]| ==> rows[i][j] == CellText(ws.rows[i][j])
    {
      var formattedRow := [];
      for k := 0 to |ws.rows[r]|
        invariant |formattedRow| == k
        invariant forall j :: 0 <= j < k ==> formattedRow[j] == CellText(ws.rows[r][j])
      {
        formattedRow := formattedRow + [CellText(ws.rows[r][k])];
      }
      rows := rows + [formattedRow];
    }
  }

  /** The sheet loop of the local parse: one collection assignment per worksheet. */
  method LoadWorkbook(wb: Workbook, objectUrl: Media -> string) returns (sheetsData: Sheets)
    ensures sheetsData == Collect(LocalEntries(wb, objectUrl))
    ensures UniqueNames(sheetsData)
  {
    var entries := LocalEntries(wb, objectUrl);
    sheetsData := [];
    for k := 0 to |wb.sheets|
      invariant sheetsData == Collect(entries[..k])
    {
      var worksheet := wb.sheets[k];
      var rows := FormatRows(worksheet);
      forall i | 0 <= i < |rows| ensures rows[i] == RowStrings(worksheet.rows)[i] {
        assert |rows[i]| == |RowStrings(worksheet.rows)[i]|;
      }
      assert rows == RowStrings(worksheet.rows);
      var images := SheetImages(worksheet.images, wb.media, objectUrl);
      CollectStep(entries, k);
      sheetsData := Put(sheetsData, Entry(worksheet.name, SheetContent(rows, images)));
    }
    assert entries[..|wb.sheets|] == entries;
    CollectUnique(entries);
  }

  /** A workbook's sheets (whose names are distinct) give one collection entry each, in workbook order. */
  lemma LocalSheetPerWorksheet(wb: Workbook, objectUrl: Media -> string)
    requires forall i, j :: 0 <= i < j < |wb.sheets| ==> wb.sheets[i].name != wb.sheets[j].name
    ensures |Collect(LocalEntries(wb, objectUrl))| == |wb.sheets|
    ensures forall i :: 0 <= i < |wb.sheets| ==>
              Collect(LocalEntries(wb, objectUrl))[i] == Entry(wb.sheets[i].name, LocalContent(wb.sheets[i], wb.media, objectUrl))
  {
    CollectDistinct(LocalEntries(wb, objectUrl));
  }
}
