/**
 * The report endpoint: normalise the plot image's file name, derive the PDF's
 * file name from it, and lay out the image and the numbered tables of maxima
 * and minima. The document is modelled as the sequence of items it receives.
 *
 * Decoding the JSON query strings and the file-system check for the image
 * are collaborators: their outcomes arrive as parameters.
 */
module PdfGenerator {
  import opened Wrappers
  import Upload
  import FunctionalGroups

  // ----- File names -----

  /** ASCII lower-casing of one character. */
  function ToLower(c: char): char {
    if 'A' <= c <= 'Z' then (c as int + 32) as char else c
  }

  function Lower(s: string): (r: string)
    ensures |r| == |s|
    ensures forall i :: 0 <= i < |s| ==> r[i] == ToLower(s[i])
  {
    seq(|s|, i requires 0 <= i < |s| => ToLower(s[i]))
  }

  predicate EndsWith(s: string, suffix: string) {
    |suffix| <= |s| && s[|s| - |suffix|..] == suffix
  }

  /** The name ends, ignoring ASCII case, in ".png", ".jpg" or ".jpeg". */
  predicate HasImageExtension(name: string) {
    var lower := Lower(name);
    EndsWith(lower, ".png") || EndsWith(lower, ".jpg") || EndsWith(lower, ".jpeg")
  }

  lemma LowerPngSuffix(name: string)
    ensures EndsWith(Lower(name + ".png"), ".png")
  {
  }

  /** The image name the report looks up: unchanged when it has an image extension, else with ".png" added. */
  function NormalizeImageFilename(name: string): (r: string)
    ensures HasImageExtension(r)
    ensures r == name <==> HasImageExtension(name)
    ensures name <= r && |r| <= |name| + 4
    ensures r == name || r == name + ".png"
  {
    if HasImageExtension(name) then name
    else
      LowerPngSuffix(name);
      name + ".png"
  }

  /** Normalising twice is normalising once. */
  lemma NormalizeIdempotent(name: string)
    ensures NormalizeImageFilename(NormalizeImageFilename(name)) == NormalizeImageFilename(name)
  {
  }

  /** The part of s before its first '.', or all of s when it has none. */
  function StemBeforeDot(s: string): (r: string)
    ensures r <= s
    ensures '.' !in r
    ensures |r| < |s| ==> s[|r|] == '.'
  {
    if s == [] || s[0] == '.' then []
    else [s[0]] + StemBeforeDot(s[1..])
  }

  const PDF_PREFIX: string := "FTIR_Report_"
  const PDF_SUFFIX: string := ".pdf"

  /** The report's file name: the prefix, the image name up to its first '.', and ".pdf". */
  function PdfFilename(imageFilename: string): (r: string)
    ensures PDF_PREFIX <= r && EndsWith(r, PDF_SUFFIX)
    ensures multiset(r)['.'] == 1
  {
    var stem := StemBeforeDot(imageFilename);
    assert '.' !in PDF_PREFIX;
    assert PDF_SUFFIX == ['.'] + "pdf";
    assert (PDF_PREFIX + stem + PDF_SUFFIX)[|PDF_PREFIX + stem|..] == PDF_SUFFIX;
    PDF_PREFIX + stem + PDF_SUFFIX
  }

  /**
   * A normalised image name always holds a '.', so its stem is a proper prefix,
   * and the report name carries that stem between its prefix and ".pdf".
   */
  lemma PdfFilenameOfNormalized(name: string)
    ensures var image := NormalizeImageFilename(name);
      var pdf := PdfFilename(image);
      var stem := pdf[|PDF_PREFIX|..|pdf| - |PDF_SUFFIX|];
      stem < image && image[|stem|] == '.' && '.' !in stem
  {
    var image := NormalizeImageFilename(name);
    var lower := Lower(image);
    assert lower[|lower| - 4] == '.' || lower[|lower| - 5] == '.';
    assert '.' in image;
    var stem := StemBeforeDot(image);
    assert |stem| < |image|;
    var pdf := PdfFilename(image);
    assert pdf == PDF_PREFIX + stem + PDF_SUFFIX;
    assert pdf[|PDF_PREFIX|..|pdf| - |PDF_SUFFIX|] == stem;
  }

  /** An upper-case extension counts: "scan.PNG" is kept as it is. */
  lemma UpperCaseExtensionKept()
    ensures NormalizeImageFilename("scan.PNG") == "scan.PNG"
  {
    assert Lower("scan.PNG")[4..] == ".png";
  }

  /** Any other extension gets ".png" added: "scan.gif" becomes "scan.gif.png". */
  lemma OtherExtensionExtended()
    ensures NormalizeImageFilename("scan.gif") == "scan.gif.png"
  {
    var l := Lower("scan.gif");
    assert l[4..] == ".gif";
    assert l[3..] == "n.gif";
  }

  // ----- Tables -----

  /** A JSON scalar as decoded from the query string. */
  datatype Value = Str(s: string) | Num(r: real) | Int(i: int)

  /** One decoded point: a JSON object. */
  type Entry = map<string, Value>

  /** What a cell shows for a missing key. */
  const NA: Value := Str("N/A")

  /** The entry's value for key, or "N/A" when the key is missing. */
  function Get(e: Entry, key: string): Value {
    if key in e then e[key] else NA
  }

  /** One numbered table row: number, wavenumber, absorbance, functional group and type. */
  datatype Row = Row(number: nat, wavenumber: Value, absorbance: Value, functionalGroup: Value, kind: Value)

  function RowOf(number: nat, e: Entry): Row {
    Row(number, Get(e, "wavenumber"), Get(e, "absorbance"), Get(e, "functional_group"), Get(e, "type"))
  }

  /** The table rows of a list of entries, numbered from 1. */
  function TableRows(entries: seq<Entry>): (rows: seq<Row>)
    ensures |rows| == |entries|
    ensures forall k :: 0 <= k < |rows| ==> rows[k].number == k + 1
    ensures forall k :: 0 <= k < |rows| ==> rows[k] == RowOf(k + 1, entries[k])
  {
    if entries == [] then []
    else TableRows(entries[..|entries| - 1]) + [RowOf(|entries|, entries[|entries| - 1])]
  }

  /** A cell shows "N/A" exactly when its key is missing or holds "N/A" itself. */
  lemma CellShowsNA(entries: seq<Entry>, k: nat)
    requires k < |entries|
    ensures TableRows(entries)[k].wavenumber == NA <==> "wavenumber" !in entries[k] || entries[k]["wavenumber"] == NA
    ensures TableRows(entries)[k].absorbance == NA <==> "absorbance" !in entries[k] || entries[k]["absorbance"] == NA
    ensures TableRows(entries)[k].functionalGroup == NA <==> "functional_group" !in entries[k] || entries[k]["functional_group"] == NA
    ensures TableRows(entries)[k].kind == NA <==> "type" !in entries[k] || entries[k]["type"] == NA
  {
  }

  /** What the document receives, in order. */
  datatype Item = Cell(content: Value) | LineBreak | Picture(filename: string)

  function RowItems(r: Row): seq<Item> {
    [Cell(Int(r.number)), Cell(r.wavenumber), Cell(r.absorbance), Cell(r.functionalGroup), Cell(r.kind), LineBreak]
  }

  /** The items of consecutive rows, each row's six items after the previous row's. */
  function RowsItems(rows: seq<Row>): (items: seq<Item>)
    ensures |items| == 6 * |rows|
  {
    if rows == [] then []
    else RowsItems(rows[..|rows| - 1]) + RowItems(rows[|rows| - 1])
  }

  /** Row k of a table occupies items 6k to 6k+5. */
  lemma {:induction false} RowsItemsAt(rows: seq<Row>, k: nat)
    requires k < |rows|
    ensures RowsItems(rows)[6 * k..6 * k + 6] == RowItems(rows[k])
  {
    var n := |rows| - 1;
    var prefix := RowsItems(rows[..n]);
    assert RowsItems(rows) == prefix + RowItems(rows[n]);
    if k < n {
      RowsItemsAt(rows[..n], k);
      assert RowsItems(rows)[6 * k..6 * k + 6] == prefix[6 * k..6 * k + 6];
    } else {
      assert RowsItems(rows)[6 * k..] == RowItems(rows[n]);
    }
  }

  /** A table's title line and its header row. */
  function TableHeading(title: string): seq<Item> {
    [Cell(Str(title)), LineBreak,
     Cell(Str("No.")), Cell(Str("Wavenumber")), Cell(Str("Absorbance")), Cell(Str("Functional Group")), Cell(Str("Type")), LineBreak]
  }

  /** The document being written. */
  class PdfReport {
    var items: seq<Item>

    constructor ()
      ensures items == []
    {
      items := [];
    }

    method AddCell(content: Value)
      modifies this
      ensures items == old(items) + [Cell(content)]
    {
      items := items + [Cell(content)];
    }

    method Ln()
      modifies this
      ensures items == old(items) + [LineBreak]
    {
      items := items + [LineBreak];
    }

    method AddImage(filename: string)
      modifies this
      ensures items == old(items) + [Picture(filename)]
    {
      items := items + [Picture(filename)];
    }
  }

  lemma RowsOfOneMoreEntry(entries: seq<Entry>, n: nat)
    requires n < |entries|
    ensures RowsItems(TableRows(entries[..n + 1])) == RowsItems(TableRows(entries[..n])) + RowItems(RowOf(n + 1, entries[n]))
  {
    var rows := TableRows(entries[..n + 1]);
    assert entries[..n + 1][..n] == entries[..n];
    assert rows[..n] == TableRows(entries[..n]);
  }

  /** Writes a table's title line and header row. */
  method AddTableHeading(pdf: PdfReport, title: string)
    modifies pdf
    ensures pdf.items == old(pdf.items) + TableHeading(title)
  {
    pdf.AddCell(Str(title));
    pdf.Ln();
    pdf.AddCell(Str("No."));
    pdf.AddCell(Str("Wavenumber"));
    pdf.AddCell(Str("Absorbance"));
    pdf.AddCell(Str("Functional Group"));
    pdf.AddCell(Str("Type"));
    pdf.Ln();
  }

  /** Writes one numbered row; a missing key shows "N/A". */
  method AddEntryRow(pdf: PdfReport, number: nat, entry: Entry)
    modifies pdf
    ensures pdf.items == old(pdf.items) + RowItems(RowOf(number, entry))
  {
    pdf.AddCell(Int(number));
    pdf.AddCell(Get(entry, "wavenumber"));
    pdf.AddCell(Get(entry, "absorbance"));
    pdf.AddCell(Get(entry, "functional_group"));
    pdf.AddCell(Get(entry, "type"));
    pdf.Ln();
  }

  /** Writes a titled table with one numbered row per entry, in list order. */
  method AddEntryTable(pdf: PdfReport, title: string, entries: seq<Entry>)
    modifies pdf
    ensures pdf.items == old(pdf.items) + TableHeading(title) + RowsItems(TableRows(entries))
  {
    AddTableHeading(pdf, title);
    ghost var start := pdf.items;
    var idx := 0;
    while idx < |entries|
      invariant idx <= |entries|
      invariant pdf.items == start + RowsItems(TableRows(entries[..idx]))
    {
      AddEntryRow(pdf, idx + 1, entries[idx]);
      RowsOfOneMoreEntry(entries, idx);
      idx := idx + 1;
    }
    assert entries[..idx] == entries;
  }

  const INVALID_JSON: string := "Invalid JSON data for maxima or minima"
  const IMAGE_NOT_FOUND: string := "Spectrum image not found."
  const MAXIMA_TITLE: string := "Detected Peaks (Maxima):"
  const MINIMA_TITLE: string := "Detected Minima:"

  /** The report endpoint's answer: the PDF's name and contents, or a JSON error. */
  datatype PdfResponse = PdfFile(filename: string, items: seq<Item>) | JsonError(error: string)

  /** The image, or a notice when the image file is missing. */
  function ImageSection(image: string, imageExists: bool): seq<Item> {
    if imageExists then [Picture(image), LineBreak] else [Cell(Str(IMAGE_NOT_FOUND)), LineBreak]
  }

  /** Places the image, or the notice that it is missing. */
  method AddImageSection(pdf: PdfReport, image: string, imageExists: bool)
    modifies pdf
    ensures pdf.items == old(pdf.items) + ImageSection(image, imageExists)
  {
    if imageExists {
      pdf.AddImage(image);
      pdf.Ln();
    } else {
      pdf.AddCell(Str(IMAGE_NOT_FOUND));
      pdf.Ln();
    }
  }

  /**
   * The report endpoint. `maxima` and `minima` are the decoded query strings
   * (None when decoding failed); `imageExists` says whether the normalised
   * image name names a file in the image folder.
   */
  method DownloadPdf(imageFilename: string, maxima: Option<seq<Entry>>, minima: Option<seq<Entry>>, imageExists: bool)
    returns (r: PdfResponse)
    ensures maxima.None? || minima.None? ==> r == JsonError(INVALID_JSON)
    ensures maxima.Some? && minima.Some? ==>
      var image := NormalizeImageFilename(imageFilename);
      r.PdfFile? && r.filename == PdfFilename(image) &&
      r.items == ImageSection(image, imageExists)
                 + TableHeading(MAXIMA_TITLE) + RowsItems(TableRows(maxima.value))
                 + [LineBreak]
                 + TableHeading(MINIMA_TITLE) + RowsItems(TableRows(minima.value))
  {
    if maxima.None? || minima.None? {
      return JsonError(INVALID_JSON);
    }
    var image := NormalizeImageFilename(imageFilename);
    var pdf := new PdfReport();
    AddImageSection(pdf, image, imageExists);
    assert pdf.items == ImageSection(image, imageExists);
    AddEntryTable(pdf, MAXIMA_TITLE, maxima.value);
    pdf.Ln();
    AddEntryTable(pdf, MINIMA_TITLE, minima.value);
    return PdfFile(PdfFilename(image), pdf.items);
  }

  // ----- Points from the upload endpoint -----

  /** A labelled point as the upload endpoint's JSON object. */
  function EntryOf(p: Upload.LabeledPoint): Entry {
    map["wavenumber" := Num(p.wavenumber), "absorbance" := Num(p.absorbance),
        "type" := Str(p.kind.Name()), "functional_group" := Str(p.functionalGroup)]
  }

  /**
   * Points produced by the upload endpoint fill every cell of their row with
   * their own values; no cell shows "N/A".
   */
  lemma UploadedPointsFillEveryCell(points: seq<Upload.LabeledPoint>, wavenumbers: seq<real>, absorbance: seq<real>, indices: seq<nat>, kind: Upload.Kind)
    requires Upload.LabelsIndices(points, wavenumbers, absorbance, indices, kind)
    ensures var rows := TableRows(seq(|points|, k requires 0 <= k < |points| => EntryOf(points[k])));
      |rows| == |points| &&
      forall k :: 0 <= k < |points| ==>
        rows[k] == Row(k + 1, Num(points[k].wavenumber), Num(points[k].absorbance), Str(points[k].functionalGroup), Str(kind.Name())) &&
        rows[k].functionalGroup != NA && rows[k].kind != NA
  {
  }
}
