/** The batch run behind the "start" button: read the settings form once,
    then process the queued photos one at a time, adding each encoded photo
    to the zip under its new name and counting every photo, failed or not. */
module Batch {
  import opened Wrappers
  import opened Geometry
  import opened Naming

  /** The four radio buttons of the mode selector. */
  datatype Mode = Percentage | Print | Purpose | Quality

  /** The percent dropdown: a preset (as parseInt read it) or "custom". */
  datatype PercentChoice = Preset(parsed: Option<int>) | Custom

  /** The settings form as the batch reads it. Every number is the value
      parseInt or parseFloat returned for the control, None standing for NaN. */
  datatype Form = Form(
    mode: Mode,
    percentSelect: PercentChoice,
    percentCustom: Option<int>,
    printSelect: PrintSize,
    purposeSelect: int,
    qualityVal: Option<real>)

  /** Quality used when the parsed quality is falsy (NaN or 0). */
  const FallbackQuality: real := 0.7

  /** The percent the form asks for: the custom field when "custom" is chosen. */
  function PercentOf(form: Form): (r: Option<int>)
    ensures form.percentSelect.Custom? ==> r == form.percentCustom
    ensures form.percentSelect.Preset? ==> r == form.percentSelect.parsed
  {
    match form.percentSelect
    case Preset(p) => p
    case Custom => form.percentCustom
  }

  /** `if (!settings.quality) settings.quality = 0.7`. */
  function EffectiveQuality(parsed: Option<real>): (q: real)
    ensures q != 0.0
    ensures q == FallbackQuality <==> parsed in {None, Some(0.0), Some(FallbackQuality)}
    ensures parsed.Some? && parsed.value != 0.0 ==> q == parsed.value
  {
    match parsed
    case None => FallbackQuality
    case Some(v) => if v == 0.0 then FallbackQuality else v
  }

  /** The settings of one batch, or None when percentage mode has a percent
      that is NaN or not positive. Print keys always exist in the table and
      the purpose size is taken as parsed, without a check. */
  function ReadSettings(form: Form): (r: Option<Settings>)
    ensures r.None? <==> form.mode == Percentage && (PercentOf(form).None? || PercentOf(form).value <= 0)
    ensures r.Some? && form.mode == Percentage ==> r.value == PercentageSettings(PercentOf(form).value) && r.value.percent > 0
    ensures r.Some? && form.mode == Print ==> r.value == PrintSettings(form.printSelect)
    ensures r.Some? && form.mode == Purpose ==> r.value == PurposeSettings(form.purposeSelect)
    ensures r.Some? && form.mode == Quality ==> r.value == QualitySettings(EffectiveQuality(form.qualityVal))
  {
    match form.mode
    case Percentage =>
      var p := PercentOf(form);
      if p.None? || p.value <= 0 then None else Some(PercentageSettings(p.value))
    case Print => Some(PrintSettings(form.printSelect))
    case Purpose => Some(PurposeSettings(form.purposeSelect))
    case Quality => Some(QualitySettings(EffectiveQuality(form.qualityVal)))
  }

  type Blob = seq<bv8>

  /** A decoded photo. */
  datatype Image = Image(width: Pos, height: Pos, pixels: seq<bv8>)

  /** A queued file: its name and the decoded image, None when decoding fails. */
  datatype Item = Item(name: string, image: Option<Image>)

  /** Drawing onto the canvas and JPEG encoding: None when no blob comes back. */
  type Codec = (Image, Plan) -> Option<Blob>

  /** One zip.file(name, blob) call. */
  datatype Entry = Entry(name: string, blob: Blob)

  /** processOneImage: decode, plan, draw and encode; None when it rejects. */
  function ProcessOneImage(item: Item, settings: Settings, codec: Codec): (r: Option<Blob>)
    ensures item.image.None? ==> r.None?
    ensures item.image.Some? ==>
      r == codec(item.image.value, PlanFor(item.image.value.width, item.image.value.height, settings))
  {
    match item.image
    case None => None
    case Some(img) => codec(img, PlanFor(img.width, img.height, settings))
  }

  /** The zip entry one item contributes: none when processing fails. */
  function EntryOf(item: Item, settings: Settings, codec: Codec): (r: seq<Entry>)
    ensures |r| <= 1
    ensures |r| == 1 <==> ProcessOneImage(item, settings, codec).Some?
    ensures |r| == 1 ==> r[0] == Entry(NewFileName(item.name), ProcessOneImage(item, settings, codec).value)
  {
    match ProcessOneImage(item, settings, codec)
    case None => []
    case Some(blob) => [Entry(NewFileName(item.name), blob)]
  }

  /** The zip.file calls of a whole batch, in input order. */
  function ZipLog(items: seq<Item>, settings: Settings, codec: Codec): (r: seq<Entry>)
    ensures |r| <= |items|
  {
    if |items| == 0 then []
    else ZipLog(items[..|items| - 1], settings, codec) + EntryOf(items[|items| - 1], settings, codec)
  }

  /** How many items of a batch fail. */
  function Failures(items: seq<Item>, settings: Settings, codec: Codec): (n: nat)
    ensures n <= |items|
  {
    if |items| == 0 then 0
    else
      Failures(items[..|items| - 1], settings, codec)
      + (if ProcessOneImage(items[|items| - 1], settings, codec).None? then 1 else 0)
  }

  /** The values processedCount takes, one after each item: 1, 2, ..., n. */
  function Progress(n: nat): (r: seq<nat>)
    ensures |r| == n
    ensures forall k :: 0 <= k < n ==> r[k] == k + 1
  {
    if n == 0 then [] else Progress(n - 1) + [n]
  }

  /** The batch over a + b is the batch over a followed by the batch over b. */
  lemma {:induction false} ZipLogAppend(a: seq<Item>, b: seq<Item>, settings: Settings, codec: Codec)
    ensures ZipLog(a + b, settings, codec) == ZipLog(a, settings, codec) + ZipLog(b, settings, codec)
  {
    if |b| > 0 {
      var b' := b[..|b| - 1];
      assert (a + b)[..|a + b| - 1] == a + b';
      assert (a + b)[|a + b| - 1] == b[|b| - 1];
      ZipLogAppend(a, b', settings, codec);
    } else {
      assert a + b == a;
    }
  }

  /** One entry per item that succeeds: the zip holds exactly the items that
      did not fail. */
  lemma {:induction false} ZipLogCount(items: seq<Item>, settings: Settings, codec: Codec)
    ensures |ZipLog(items, settings, codec)| + Failures(items, settings, codec) == |items|
  {
    if |items| > 0 {
      ZipLogCount(items[..|items| - 1], settings, codec);
    }
  }

  /** A failing item leaves no trace: the items around it are zipped as if it
      were not there. */
  lemma SkipsFailure(before: seq<Item>, bad: Item, after: seq<Item>, settings: Settings, codec: Codec)
    requires ProcessOneImage(bad, settings, codec).None?
    ensures ZipLog(before + [bad] + after, settings, codec)
         == ZipLog(before, settings, codec) + ZipLog(after, settings, codec)
  {
    ZipLogAppend(before + [bad], after, settings, codec);
    assert (before + [bad])[..|before + [bad]| - 1] == before;
  }

  /** When every item succeeds, entry i is item i under its new name. */
  lemma {:induction false} ZipLogAllSucceed(items: seq<Item>, settings: Settings, codec: Codec)
    requires forall i :: 0 <= i < |items| ==> ProcessOneImage(items[i], settings, codec).Some?
    ensures |ZipLog(items, settings, codec)| == |items|
    ensures forall i :: 0 <= i < |items| ==>
      ZipLog(items, settings, codec)[i] == Entry(NewFileName(items[i].name), ProcessOneImage(items[i], settings, codec).value)
  {
    if |items| > 0 {
      var init := items[..|items| - 1];
      assert forall i :: 0 <= i < |init| ==> init[i] == items[i];
      ZipLogAllSucceed(init, settings, codec);
    }
  }

  /** The archive JSZip keeps for a sequence of zip.file calls: one file per
      name, the later call with a name replacing the earlier one. */
  function Archive(log: seq<Entry>): (m: map<string, Blob>)
    ensures forall e :: e in log ==> e.name in m
  {
    if |log| == 0 then map[]
    else
      var last := log[|log| - 1];
      var m := Archive(log[..|log| - 1]);
      assert forall e :: e in log ==> e in log[..|log| - 1] || e == last;
      m[last.name := last.blob]
  }

  /** Every name in the archive comes from some call, and a call that no later
      call overrides has its blob in the archive. */
  lemma {:induction false} ArchiveLastWins(log: seq<Entry>, i: nat)
    requires i < |log|
    requires forall j :: i < j < |log| ==> log[j].name != log[i].name
    ensures Archive(log)[log[i].name] == log[i].blob
  {
    if i < |log| - 1 {
      var init := log[..|log| - 1];
      assert forall j :: i < j < |init| ==> init[j] == log[j];
      ArchiveLastWins(init, i);
    }
  }

  lemma {:induction false} ArchiveNamesFromLog(log: seq<Entry>, name: string)
    requires name in Archive(log)
    ensures exists e :: e in log && e.name == name
  {
    var last := log[|log| - 1];
    if name != last.name {
      ArchiveNamesFromLog(log[..|log| - 1], name);
      var e :| e in log[..|log| - 1] && e.name == name;
      assert e in log;
    } else {
      assert last in log;
    }
  }

  /** What a press of the start button ended in. */
  datatype Outcome =
    | NoFiles                      // alert: no photos queued
    | Busy                         // a batch is already running
    | InvalidPercent               // alert: percent is NaN or not positive
    | Done(zip: seq<Entry>)        // the zip was generated and saved

  /** The page's module-level state: the queue of photos and the busy flag. */
  class Resizer {
    var files: seq<Item>
    var isProcessing: bool

    constructor (queued: seq<Item>)
      ensures files == queued && !isProcessing
    {
      files := queued;
      isProcessing := false;
    }

    /** startProcessing. Returns how the run ended and the successive values
        of processedCount (what the progress bar shows). */
    method StartProcessing(form: Form, codec: Codec) returns (outcome: Outcome, progress: seq<nat>)
      modifies this`isProcessing
      ensures files == [] ==> outcome == NoFiles && progress == [] && isProcessing == old(isProcessing)
      ensures files != [] && old(isProcessing) ==> outcome == Busy && progress == [] && isProcessing
      ensures files != [] && !old(isProcessing) ==> !isProcessing
      ensures files != [] && !old(isProcessing) && ReadSettings(form).None? ==>
        outcome == InvalidPercent && progress == []
      ensures files != [] && !old(isProcessing) && ReadSettings(form).Some? ==>
        outcome == Done(ZipLog(files, ReadSettings(form).value, codec)) && progress == Progress(|files|)
    {
      progress := [];
      if |files| == 0 {
        return NoFiles, progress;
      }
      if isProcessing {
        return Busy, progress;
      }
      isProcessing := true;

      var read := ReadSettings(form);
      if read.None? {
        isProcessing := false;
        return InvalidPercent, progress;
      }
      var settings := read.value;

      var zip: seq<Entry> := [];
      var processedCount: nat := 0;
      for i := 0 to |files|
        invariant isProcessing
        invariant zip == ZipLog(files[..i], settings, codec)
        invariant processedCount == i
        invariant progress == Progress(i)
      {
        var item := files[i];
        var blob := ProcessOneImage(item, settings, codec);
        if blob.Some? {
          var newName := NewFileName(item.name);
          zip := zip + [Entry(newName, blob.value)];
        }
        processedCount := processedCount + 1;
        progress := progress + [processedCount];
        assert files[..i + 1][..i] == files[..i];
      }
      assert files[..|files|] == files;

      isProcessing := false;
      outcome := Done(zip);
    }
  }
}
