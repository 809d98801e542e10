/**
 * The upload endpoint's feature extraction: detect the extrema of the
 * absorbance series, then turn each extremum index into a labelled point.
 * Any failure replaces the whole answer with an error.
 *
 * Reading the uploaded table, the clock that names the plot image and the
 * plotting library are collaborators: their outcomes arrive as parameters.
 */
module Upload {
  import opened Wrappers
  import FunctionalGroups
  import PeakDetection

  /** Whether a point is a peak (local maximum) or a valley (local minimum). */
  datatype Kind = Peak | Valley
  {
    /** The text stored under the point's "type" key. */
    function Name(): string {
      match this
      case Peak => "peak"
      case Valley => "valley"
    }
  }

  /** One detected extremum, as the endpoint reports it. */
  datatype LabeledPoint = LabeledPoint(wavenumber: real, absorbance: real, kind: Kind, functionalGroup: string)

  /** Why the endpoint answered with an error. */
  datatype Failure =
    | IngestFailure(message: string)           // the table could not be read or lacks a column
    | IndexOutOfRange(index: nat, size: nat)   // an extremum index past the end of a column
    | PlotFailure(message: string)             // drawing or saving the plot failed

  /** The endpoint's answer: both point lists and the image name, or only an error. */
  datatype Response =
    | Detected(detectedMaxima: seq<LabeledPoint>, detectedMinima: seq<LabeledPoint>, imageFilename: string)
    | ErrorResponse(error: Failure)

  predicate InBounds(indices: seq<nat>, size: nat) {
    forall k :: 0 <= k < |indices| ==> indices[k] < size
  }

  /**
   * points holds one record per index, in the same order: the sample's
   * wavenumber and absorbance, the kind, and the wavenumber's functional group.
   */
  predicate LabelsIndices(points: seq<LabeledPoint>, wavenumbers: seq<real>, absorbance: seq<real>, indices: seq<nat>, kind: Kind) {
    |points| == |indices| &&
    forall k :: 0 <= k < |indices| ==>
      indices[k] < |wavenumbers| && indices[k] < |absorbance| &&
      points[k] == LabeledPoint(wavenumbers[indices[k]], absorbance[indices[k]], kind,
                                FunctionalGroups.IdentifyFunctionalGroup(wavenumbers[indices[k]]))
  }

  /** The error raised by the first index that is past the end of a column. */
  function IndexError(wavenumbers: seq<real>, absorbance: seq<real>, i: nat): Failure {
    if i >= |wavenumbers| then IndexOutOfRange(i, |wavenumbers|) else IndexOutOfRange(i, |absorbance|)
  }

  /**
   * e is the error for the first index of `indices` that is past the end of a
   * column: every index before it is in range for both.
   */
  predicate FirstIndexError(wavenumbers: seq<real>, absorbance: seq<real>, indices: seq<nat>, e: Failure) {
    exists k :: (0 <= k < |indices| &&
      InBounds(indices[..k], |wavenumbers|) && InBounds(indices[..k], |absorbance|) &&
      !(indices[k] < |wavenumbers| && indices[k] < |absorbance|) &&
      e == IndexError(wavenumbers, absorbance, indices[k]))
  }

  /** Labels the extrema at `indices`; an index past the end of either column aborts the whole list. */
  method LabelExtrema(wavenumbers: seq<real>, absorbance: seq<real>, indices: seq<nat>, kind: Kind)
    returns (r: Result<seq<LabeledPoint>, Failure>)
    ensures r.Ok? <==> InBounds(indices, |wavenumbers|) && InBounds(indices, |absorbance|)
    ensures r.Ok? ==> LabelsIndices(r.value, wavenumbers, absorbance, indices, kind)
    ensures r.Err? ==> FirstIndexError(wavenumbers, absorbance, indices, r.error)
  {
    var points: seq<LabeledPoint> := [];
    var j := 0;
    while j < |indices|
      invariant j <= |indices|
      invariant InBounds(indices[..j], |wavenumbers|) && InBounds(indices[..j], |absorbance|)
      invariant LabelsIndices(points, wavenumbers, absorbance, indices[..j], kind)
    {
      var i := indices[j];
      if i >= |wavenumbers| || i >= |absorbance| {
        return Err(IndexError(wavenumbers, absorbance, i));
      }
      var wavenumber := wavenumbers[i];
      points := points + [LabeledPoint(wavenumber, absorbance[i], kind, FunctionalGroups.IdentifyFunctionalGroup(wavenumber))];
      assert indices[..j + 1] == indices[..j] + [i];
      j := j + 1;
    }
    assert indices[..j] == indices;
    return Ok(points);
  }

  /** The plot image's name for a given "YYYYmmdd_HHMMSS" timestamp. */
  function ImageFilename(timestamp: string): string {
    "ftir_spectrum_" + timestamp + ".png"
  }

  /**
   * The upload endpoint. `ingested` is the outcome of reading the table into
   * its wavenumber and absorbance columns, `timestamp` the formatted clock
   * reading, and `plotFailure` the error, if any, raised while plotting.
   */
  method UploadFtir(ingested: Result<(seq<real>, seq<real>), string>, timestamp: string, plotFailure: Option<string>)
    returns (response: Response)
    ensures ingested.Err? ==> response == ErrorResponse(IngestFailure(ingested.error))
    ensures ingested.Ok? ==>
      var (wavenumbers, absorbance) := ingested.value;
      var extrema := PeakDetection.DetectPeaks(absorbance);
      (response.Detected? <==> plotFailure.None? && InBounds(extrema.maxima, |wavenumbers|) && InBounds(extrema.minima, |wavenumbers|)) &&
      (response.Detected? ==>
        LabelsIndices(response.detectedMaxima, wavenumbers, absorbance, extrema.maxima, Peak) &&
        LabelsIndices(response.detectedMinima, wavenumbers, absorbance, extrema.minima, Valley) &&
        response.imageFilename == ImageFilename(timestamp))
    ensures ingested.Ok? && response.ErrorResponse? ==>
      response.error.IndexOutOfRange? || (plotFailure.Some? && response.error == PlotFailure(plotFailure.value))
    ensures ingested.Ok? ==>
      var (wavenumbers, absorbance) := ingested.value;
      var extrema := PeakDetection.DetectPeaks(absorbance);
      (!InBounds(extrema.maxima, |wavenumbers|) ==>
        response.ErrorResponse? && FirstIndexError(wavenumbers, absorbance, extrema.maxima, response.error)) &&
      (InBounds(extrema.maxima, |wavenumbers|) && !InBounds(extrema.minima, |wavenumbers|) ==>
        response.ErrorResponse? && FirstIndexError(wavenumbers, absorbance, extrema.minima, response.error)) &&
      (InBounds(extrema.maxima, |wavenumbers|) && InBounds(extrema.minima, |wavenumbers|) && plotFailure.Some? ==>
        response == ErrorResponse(PlotFailure(plotFailure.value)))
    ensures ingested.Ok? && |ingested.value.0| == |ingested.value.1| && plotFailure.None? ==> response.Detected?
  {
    if ingested.Err? {
      return ErrorResponse(IngestFailure(ingested.error));
    }
    var (wavenumbers, absorbance) := ingested.value;
    var extrema := PeakDetection.DetectPeaks(absorbance);
    var maxima := LabelExtrema(wavenumbers, absorbance, extrema.maxima, Peak);
    if maxima.Err? {
      return ErrorResponse(maxima.error);
    }
    var minima := LabelExtrema(wavenumbers, absorbance, extrema.minima, Valley);
    if minima.Err? {
      return ErrorResponse(minima.error);
    }
    if plotFailure.Some? {
      return ErrorResponse(PlotFailure(plotFailure.value));
    }
    return Detected(maxima.value, minima.value, ImageFilename(timestamp));
  }

  /**
   * Without equal adjacent absorbance samples, every peak record sits on a
   * sample above both neighbours and every valley record on one below both.
   */
  lemma DetectedPointsAreStrictExtrema(wavenumbers: seq<real>, absorbance: seq<real>, maxima: seq<LabeledPoint>, minima: seq<LabeledPoint>)
    requires PeakDetection.NoEqualNeighbours(absorbance)
    requires LabelsIndices(maxima, wavenumbers, absorbance, PeakDetection.DetectPeaks(absorbance).maxima, Peak)
    requires LabelsIndices(minima, wavenumbers, absorbance, PeakDetection.DetectPeaks(absorbance).minima, Valley)
    ensures forall k :: 0 <= k < |maxima| ==>
      var i := PeakDetection.DetectPeaks(absorbance).maxima[k];
      maxima[k].absorbance == absorbance[i] && PeakDetection.IsLocalMax(absorbance, i)
    ensures forall k :: 0 <= k < |minima| ==>
      var i := PeakDetection.DetectPeaks(absorbance).minima[k];
      minima[k].absorbance == absorbance[i] && PeakDetection.IsLocalMin(absorbance, i)
  {
    var extrema := PeakDetection.DetectPeaks(absorbance);
    forall k | 0 <= k < |maxima|
      ensures PeakDetection.IsLocalMax(absorbance, extrema.maxima[k])
    {
      PeakDetection.ExtremaExact(absorbance, extrema.maxima[k]);
    }
    forall k | 0 <= k < |minima|
      ensures PeakDetection.IsLocalMin(absorbance, extrema.minima[k])
    {
      PeakDetection.ExtremaExact(absorbance, extrema.minima[k]);
    }
  }
}
