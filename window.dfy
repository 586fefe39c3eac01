/** The state the window keeps between events: the form's variables, the `downloading` flag
    and the simulated progress bar. */
module Window {
  import opened Validation
  import opened Arguments

  /** The simulated progress never goes past this value on its own. */
  const ProgressCeiling: int := 90

  /** One tick of `monitor_progress` while a download runs: one step up, until the ceiling. */
  function Tick(p: int): (r: int)
    ensures p <= r <= p + 1
    ensures p <= ProgressCeiling ==> r <= ProgressCeiling
    ensures r == p <==> p >= ProgressCeiling
  {
    if p < ProgressCeiling then p + 1 else p
  }

  /** `n` ticks in a row. */
  function Ticks(p: int, n: nat): int
    decreases n
  {
    if n == 0 then p else Ticks(Tick(p), n - 1)
  }

  /** From any value up to the ceiling, `n` ticks climb by `n` and stop at the ceiling. */
  lemma {:induction false} TicksClimbToCeiling(p: int, n: nat)
    requires p <= ProgressCeiling
    ensures Ticks(p, n) == if p + n < ProgressCeiling then p + n else ProgressCeiling
    decreases n
  {
    if n > 0 {
      TicksClimbToCeiling(Tick(p), n - 1);
    }
  }

  /** More ticks never show less progress. */
  lemma TicksMonotone(p: int, m: nat, n: nat)
    requires p <= ProgressCeiling && m <= n
    ensures Ticks(p, m) <= Ticks(p, n) <= ProgressCeiling
  {
    TicksClimbToCeiling(p, m);
    TicksClimbToCeiling(p, n);
  }

  /** What a press of the download button leads to: nothing while a download runs, the
      validation error of a rejected form, or the command list of a started download. */
  datatype StartOutcome = AlreadyRunning | Refused(error: FormError) | Started(cmd: seq<string>)

  class DownloaderWindow {
    // The form's variables.
    var url: string
    var start: string
    var end: string
    var latest: bool
    var outDir: string
    var outputFormat: string
    var imageFormat: string
    var quality: int
    var exportMetadata: bool
    var exportFormat: string
    // Whether a download is running.
    var downloading: bool
    // The progress bar's value.
    var progress: int

    ghost predicate Valid()
      reads this
    {
      0 <= progress <= ProgressCeiling
    }

    /** The form as `validate_inputs` and `run_download` read it. */
    function CurrentForm(): Form
      reads this
    {
      Form(url, start, end, latest, outDir, outputFormat, imageFormat, quality,
           exportMetadata, exportFormat)
    }

    /** A fresh window: empty URL and range, output to `downloads` (the user's Downloads
        folder), images in jpg at quality 80, no metadata, idle and at zero progress. */
    constructor (downloads: string)
      ensures Valid()
      ensures CurrentForm() == Form("", "", "", false, downloads, "images", "jpg", 80, false, "json")
      ensures !downloading && progress == 0
    {
      url, start, end, latest := "", "", "", false;
      outDir, outputFormat, imageFormat, quality := downloads, "images", "jpg", 80;
      exportMetadata, exportFormat := false, "json";
      downloading, progress := false, 0;
    }

    /** `toggle_chapter_range`, run after the "latest" box changed: ticking it empties both
        bounds, unticking it leaves them as they are. */
    method ToggleChapterRange()
      requires Valid()
      modifies this`start, this`end
      ensures Valid()
      ensures latest ==> start == "" && end == ""
      ensures !latest ==> start == old(start) && end == old(end)
    {
      start := if latest then "" else start;
      end := if latest then "" else end;
    }

    /** `start_download`: nothing happens while a download runs or when the form is rejected
        (the rejection carries the error whose message box the source shows); otherwise the
        window is marked as downloading, the progress restarts (and gets its first tick at
        once), and the command list that `run_download` hands to `subprocess.Popen` is
        returned. */
    method StartDownload(python: string) returns (outcome: StartOutcome)
      requires Valid()
      modifies this`downloading, this`progress
      ensures Valid()
      ensures old(downloading) ==>
        outcome == AlreadyRunning && downloading && progress == old(progress)
      ensures !old(downloading) && !ValidateInputs(CurrentForm()) ==>
        && outcome == Refused(Validate(CurrentForm()).error)
        && !downloading && progress == old(progress)
      ensures !old(downloading) && ValidateInputs(CurrentForm()) ==>
        && downloading && progress == Tick(0)
        && outcome == Started(Command(python, Serialize(CurrentForm())))
    {
      if downloading {
        return AlreadyRunning;
      }
      var verdict := Validate(CurrentForm());
      if verdict.Rejected? {
        return Refused(verdict.error);
      }
      downloading := true;
      progress := 0;
      var args := BuildArgs(CurrentForm());
      outcome := Started(Command(python, args));
      MonitorProgress();
    }

    /** One run of `monitor_progress`: a tick while a download runs, nothing otherwise. */
    method MonitorProgress()
      requires Valid()
      modifies this`progress
      ensures Valid()
      ensures progress == if downloading then Tick(old(progress)) else old(progress)
    {
      if downloading {
        var current := progress;
        if current < ProgressCeiling {
          progress := current + 1;
        }
      }
    }

    /** The end of a download, failed or not: the flag is cleared and the progress stays. */
    method DownloadFinished()
      requires Valid()
      modifies this`downloading
      ensures Valid()
      ensures !downloading
    {
      downloading := false;
    }
  }
}
