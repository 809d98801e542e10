# FTIR feature extraction and reporting, modelled in Dafny

The server accepts an FTIR spectrum as a table of wavenumber and absorbance columns. It finds the local maxima (peaks) and local minima (valleys) of the absorbance series. It labels each extremum with the functional group of its wavenumber and returns the labelled points. A second endpoint turns those points into a PDF report: the spectrum image plus two numbered tables.

This project models that logic:

- `functional_groups.dfy` (module `FunctionalGroups`):
  - the band classifier, a first-match chain over five closed wavenumber bands;
  - an explicit band table and a table-driven first-match reference;
  - the loop that labels every row of a table;
  - the loop that picks the rows a plot annotates.
- `peak_detection.dfy` (module `PeakDetection`):
  - maxima are the peaks of the series; minima are the peaks of the negated series;
  - `StrictMaxima` is the reference definition: interior samples strictly above both neighbours;
  - `FindPeaks` models the peak scan of SciPy's `find_peaks`. The scan is library code, so its plateau rule is an **assumption**: a flat run bordered by lower samples is one peak, reported at its midpoint, rounded down;
  - `FindPeaks` is proved equal to `StrictMaxima` whenever no two adjacent samples are equal.
- `main.dfy` (module `Upload`): the upload endpoint. Each extremum index becomes a point record, with the maxima and minima handled in two independent passes. Any failure replaces the whole answer with one error.
- `pdf_generator.dfy` (module `PdfGenerator`):
  - case-insensitive normalisation of the image name;
  - derivation of the PDF name;
  - the numbered table rows with "N/A" for missing keys;
  - the document, modelled as a `PdfReport` object that collects the items it is given.
- `wrappers.dfy` (module `Wrappers`): `Option` and `Result`.

Collaborators whose outcomes arrive as parameters:

- reading the uploaded table (`ingested` of `UploadFtir`, `csv` of `ProcessCsvAndIdentifyGroups`);
- the clock (`timestamp`);
- the plotting library (`plotFailure`);
- JSON decoding of the query strings (`maxima`, `minima` of `DownloadPdf`, `None` for invalid JSON);
- the file-system check for the image (`imageExists`).

The code does not reject NaN or infinite values, and the model adds no such check. Wavenumbers and absorbances are `real`, so they are always finite.

## Model

| member | source | states |
|---|---|---|
| `FunctionalGroups.IdentifyFunctionalGroup` | app/functional_groups.py:4-21 | the result is always one of the six labels |
| `FunctionalGroups.ClassifierMatchesBandTable` | app/functional_groups.py:10-21 | for each of the five closed bands, the result is that band's label exactly when the band contains w, both ends included; "Unknown" exactly when no band contains w, zero and negatives included |
| `FunctionalGroups.BandTableDisjoint` | app/functional_groups.py:10-19 | no two of the five bands share a wavenumber |
| `FunctionalGroups.IdentifyIsFirstMatch` | app/functional_groups.py:10-21 | the if/elif chain equals first-match lookup in the band table |
| `FunctionalGroups.BranchOrderIrrelevant` | app/functional_groups.py:10-19 | any table with the same bands, in any order, classifies every wavenumber the same way |
| `FunctionalGroups.BandBoundaries` | app/functional_groups.py:10-21 | both ends of every band belong to it; 3199.999, 3601, 0 and -3400 are "Unknown" |
| `FunctionalGroups.ProcessCsvAndIdentifyGroups` | app/functional_groups.py:23-53 | a read failure or a missing Wavenumber/Absorbance column yields only an error prefixed "Error processing CSV file: "; otherwise one record per row, in row order, copying both values and labelling the wavenumber |
| `FunctionalGroups.KnownRowsBelow` | app/functional_groups.py:73-78 | the rows kept for annotation are row indices of the table |
| `FunctionalGroups.KnownRowsAscending` | app/functional_groups.py:73-78 | the kept rows are in ascending row order |
| `FunctionalGroups.KnownRowsAreExactlyTheKnown` | app/functional_groups.py:73-78 | a row is kept exactly when its label is not "Unknown" |
| `FunctionalGroups.KnownPoints` | app/functional_groups.py:73-78 | one record per kept row, in row order, holding that row's wavenumber, absorbance and functional group |
| `FunctionalGroups.AnnotatedPoints` | app/functional_groups.py:61-78 | missing columns yield the error; otherwise the annotated points are exactly the rows with a known label, in row order |
| `PeakDetection.StrictMaximaFromExact` | app/peak_detection.py:5 | reference scan: ascending, and an index is included exactly when it is a strict interior local maximum |
| `PeakDetection.ScanPeaks` | app/peak_detection.py:5 | every reported index is interior |
| `PeakDetection.ScanPeaksSpaced` | app/peak_detection.py:5 | reported indices are ascending and at least two apart |
| `PeakDetection.FindPeaks` | app/peak_detection.py:5 | strictly increasing; index 0 and index n-1 never appear |
| `PeakDetection.DetectPeaks` | app/peak_detection.py:3-11 | both index sequences are strictly increasing and hold only interior indices |
| `PeakDetection.ScanReportsFlatPeaks` | app/peak_detection.py:5 | every reported peak lies on a run of equal samples bordered on both sides by lower samples |
| `PeakDetection.ScanReportsStrictMaxima` | app/peak_detection.py:5 | every strict local maximum is reported, however close to another peak; there is no threshold or distance filter |
| `PeakDetection.ScanIsStrictScan` | app/peak_detection.py:5 | with no equal adjacent samples, the library scan from any index equals the reference scan |
| `PeakDetection.FindPeaksIsStrictMaxima` | app/peak_detection.py:5 | with no equal adjacent samples, the peaks are exactly the strict local maxima, in order |
| `PeakDetection.ShortSeriesHasNoExtrema` | app/peak_detection.py:3-11 | a series shorter than 3, the empty one included, yields two empty sequences |
| `PeakDetection.StrictExtremaReported` | app/peak_detection.py:5-9 | on any series, every strict local maximum is a maximum and every strict local minimum is a minimum |
| `PeakDetection.ExtremaExact` | app/peak_detection.py:5-9 | with no equal adjacent samples: maximum iff x[i-1] < x[i] > x[i+1], minimum iff x[i-1] > x[i] < x[i+1] |
| `PeakDetection.FlatPeakIsNotFlatValley` | app/peak_detection.py:5-9 | a sample on a flat peak of the series is never on a flat peak of the negated series |
| `PeakDetection.ExtremaDisjoint` | app/peak_detection.py:5-9 | no index is both a maximum and a minimum, on any series |
| `PeakDetection.NegationSwapsExtrema` | app/peak_detection.py:8-9 | negating the series swaps maxima and minima |
| `PeakDetection.WorkedExample` | app/peak_detection.py:3-11 | [0.1, 0.2, 0.9, 0.3, 0.05, 0.4, 0.15] gives maxima [2, 5] and minima [4] |
| `PeakDetection.AdjacentExtremaKept` | app/peak_detection.py:5-9 | [0, 1, 0, 1, 0] gives maxima [1, 3] and minima [2]: peaks two samples apart are both kept |
| `Upload.LabelExtrema` | app/main.py:39-64 | one record per index, same order, with that index's wavenumber and absorbance, the given type and the wavenumber's functional group; an index past either column's end yields only the error for the first such index |
| `Upload.UploadFtir` | app/main.py:25-119 | an ingestion error is returned as is. Otherwise both lists are returned exactly when every extremum index is in range and plotting succeeds. Maxima records are "peak", minima records are "valley", and each list is built from its own indices. Equal column lengths and a successful plot always give both lists. Errors come in source order: the first out-of-range maximum index, else the first out-of-range minimum index, else the plot error; never a partial answer |
| `Upload.DetectedPointsAreStrictExtrema` | app/main.py:32-64 | with no equal adjacent absorbances, each peak record's absorbance is at a sample above both neighbours, and each valley record's is below both |
| `PdfGenerator.NormalizeImageFilename` | app/pdf_generator.py:42-43 | the result always ends in .png/.jpg/.jpeg, ignoring ASCII case; it equals the input exactly when the input already did; otherwise the result is the input with ".png" appended, whatever other extension the input carries |
| `PdfGenerator.NormalizeIdempotent` | app/pdf_generator.py:42-43 | normalising twice equals normalising once |
| `PdfGenerator.UpperCaseExtensionKept` | app/pdf_generator.py:42 | "scan.PNG" is left unchanged |
| `PdfGenerator.OtherExtensionExtended` | app/pdf_generator.py:42-43 | "scan.gif" becomes "scan.gif.png" |
| `PdfGenerator.StemBeforeDot` | app/pdf_generator.py:105 | the result is the longest dot-free prefix: a prefix, without '.', followed by '.' or the end |
| `PdfGenerator.PdfFilename` | app/pdf_generator.py:105 | starts with "FTIR_Report_", ends with ".pdf", contains exactly one '.' |
| `PdfGenerator.PdfFilenameOfNormalized` | app/pdf_generator.py:105 | the text between prefix and ".pdf" is a proper prefix of the normalised image name, followed there by its first '.' |
| `PdfGenerator.TableRows` | app/pdf_generator.py:75-81 | one row per entry, in list order, numbered 1..n; every cell is the entry's value or "N/A" |
| `PdfGenerator.CellShowsNA` | app/pdf_generator.py:77-80 | a cell shows "N/A" exactly when its key is missing or holds "N/A" itself |
| `PdfGenerator.RowsItemsAt` | app/pdf_generator.py:75-81 | row k of a table fills document items 6k to 6k+5 |
| `PdfGenerator.AddTableHeading` | app/pdf_generator.py:65-73 | appends the title line and the five header cells |
| `PdfGenerator.AddEntryRow` | app/pdf_generator.py:76-81 | appends the row number, four cells with "N/A" defaults, and a line break |
| `PdfGenerator.AddEntryTable` | app/pdf_generator.py:64-102 | appends the title, the header and then every entry's row, numbered from 1, in list order (used for both tables) |
| `PdfGenerator.AddImageSection` | app/pdf_generator.py:49-62 | appends the image, or the "Spectrum image not found." notice |
| `PdfGenerator.DownloadPdf` | app/pdf_generator.py:27-109 | invalid JSON for either list yields only the JSON error. Otherwise the PDF is named from the normalised image name, and it holds the image section, the maxima table, a gap and the minima table |
| `PdfGenerator.UploadedPointsFillEveryCell` | app/pdf_generator.py:75-81 | the upload endpoint's points fill every cell of their rows with their own values, and no label or type cell shows "N/A" |

## Left out

- Reading and decoding the uploaded CSV (app/data_processing.py, `pd.read_csv`) is I/O over a library. Its outcome is a `Result` parameter.
- HTTP routing, the CORS setup, `FileResponse` and the image download endpoint are server plumbing.
- Plot rendering is a library. This covers figures, scatter points, legends, annotation text and placement, the `int(...)` truncation in labels, `savefig` and the returned `output_file`. Only the choice of which points get annotated is modelled, plus the possibility that plotting fails.
- The timestamp comes from a non-deterministic clock. It is a parameter, and `ImageFilename` builds the name from it.
- File-system access is I/O: `os.path.exists`, `os.makedirs` and `pdf.output`. Existence of the image is a parameter.
- JSON decoding of the query strings is a library. Decoded entries are maps from keys to scalar values (`Value`). Non-list JSON and nested values are not modelled.
- A decoded list whose elements are not JSON objects (such as `[1, 2]`) is not modelled. In the code, `.get` on such an element raises outside any error handler, so the report endpoint fails; the model's entries are always maps.
- JSON `null` and boolean values are not modelled: `Value` has no case for them. In the code, a wavenumber or absorbance key holding `null` shows "None" rather than "N/A", and a boolean shows "True" or "False". In the label and type cells the value goes to FPDF without formatting.
- PIL image sizing, the resize ratio and line heights are floating-point layout. FPDF fonts, cell widths, borders, and the page header and footer are not modelled either. The document records only which cells, line breaks and images it receives.
- Python's rendering of numbers as cell text is not modelled; cells hold abstract values.
- Error messages from numpy (index errors) and from the plotting library are kept as structured `Failure` values, not as the text `str(e)` would produce.
- NaN and infinities cannot be expressed with `real`. Non-numeric column values are not modelled.
- `.lower()` is modelled for ASCII letters only.
- FindPeaks: models SciPy's plateau rule (midpoint of a flat run bordered by lower samples), which is library behaviour and an assumption here. All exact characterisations are stated for series without equal adjacent samples. Interior indices, ascending order, disjointness and the reporting of every strict extremum are proved for every series.
- The `distance=1` filter of `find_peaks` is not modelled as a separate step. It only removes peaks closer than one sample, and `ScanPeaksSpaced` proves that reported peaks are always at least two samples apart, so the filter removes nothing.
- The frontend that passes the upload endpoint's points back to the report endpoint is not part of this model. `EntryOf` assumes it returns each point's four keys unchanged.
