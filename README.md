# Webtoon Downloader — the graphical front end's form logic

Webtoon Downloader fetches the chapters of a webtoon and saves them as image folders or CBZ
archives. Its graphical front end (`webtoon_downloader/gui.py`) collects the user's choices in a
Tk window, checks them, turns them into a command list, hands that list to `subprocess.Popen` to
start a child process, and shows a simulated progress bar while it runs.

This project models the parts of that front end that carry logic, in Dafny:

- `text.dfy` (module `Text`): the bits of Python's string handling the form relies on —
  `str.strip()` (with Python's whitespace set), `str.isdigit()`, `int()` on a digit string and
  `str()` of an integer — with their characterising lemmas.
- `validation.dfy` (module `Validation`): the form as a record (`Form`) and `validate_inputs` as a
  function returning either `Accepted` or the error whose message box the source would show.
- `arguments.dfy` (module `Arguments`): the argument list built in `run_download`, as a method
  (`BuildArgs`) that appends group by group and is proved equal to a function (`Serialize`); the
  command list passed to `subprocess.Popen`; and a reference reading of an argument list (first token the URL, then options
  by name, a valued option taking the next token) against which the list's promises are proved:
  it always reads back, the URL comes first as typed, the option groups keep a fixed order so no
  option repeats, `--latest` never comes with `--start`/`--end`, `--save-as cbz` never comes with
  `--image-format`/`--quality`, and `--export-format` comes exactly with `--export-metadata`.
- `spawn.dfy` (module `Spawn`): how the command list reaches the child process — as written,
  through `/bin/sh -c` on a POSIX system, and as evidently intended, directly (see Findings).
- `window.dfy` (module `Window`): the window's mutable state as a class — the form's variables,
  the `downloading` flag and the progress value — with `toggle_chapter_range`,
  `start_download` (which reports the validation error of a refused form), `monitor_progress`
  and the end of a download as methods.
- `wrappers.dfy`: the `Option` datatype.

The exclusions are stated on the options as read back from the list rather than on plain
membership of a string in the list: the URL and the output folder are free-text entries, so either may itself be a string such as `--start`, and it is then a value, not an
option. The output format comes from two radio buttons (`images`/`cbz`, gui.py:239-251), the
image format and the metadata format from read-only lists (`jpg`/`png`, gui.py:260-263;
`json`/`text`/`all`, gui.py:305-309); the model takes all three as any string, which covers those
choices.

Two behaviours of the program are easy to misread from its window. The quality label says
"40-100, múltiplos de 10" (gui.py:269), but the slider behind it (gui.py:274-281) lets any integer
from 40 to 100 through and nothing rounds or checks it, so the model passes `quality` on unchecked.
And a started download shows progress 1, not 0: `start_download` resets the bar (gui.py:419) and
then runs the first `monitor_progress` tick itself (gui.py:426).

## Model

| member | source | states |
|---|---|---|
| Text.StripLeftSpec | webtoon_downloader/gui.py:387-388 | the left strip keeps the suffix starting at the first non-space character; everything dropped is whitespace |
| Text.StripRightSpec | webtoon_downloader/gui.py:387-388 | the right strip keeps the prefix ending at the last non-space character; everything dropped is whitespace |
| Text.StripSpec | webtoon_downloader/gui.py:387-388 | `strip()` returns the slice of the input between its leading and trailing whitespace, and that slice neither starts nor ends with whitespace |
| Text.StripEmptyIffBlank | webtoon_downloader/gui.py:381 | `not s.strip()` holds exactly when the string is empty or all whitespace |
| Text.StripKeepsDigits | webtoon_downloader/gui.py:438-441 | a digit string passes through `strip()` unchanged |
| Text.Decimal | webtoon_downloader/gui.py:451 | `str()` of a natural number is a digit string with no leading zero that reads back as the number |
| Text.IntToStringRoundTrip | webtoon_downloader/gui.py:451 | the quality text passed on the command line reads back as the slider's integer, negative values included |
| Validation.Validate | webtoon_downloader/gui.py:379-406 | a blank URL is rejected first and is the only cause of that error; with "latest" set the range is ignored and the form is accepted exactly when the URL is not blank; otherwise each outcome holds exactly when its cause does: a non-numeric stripped start, else a non-numeric stripped end, else two numeric bounds with start > end, and acceptance exactly when none of these holds |
| Validation.LatestIgnoresRange | webtoon_downloader/gui.py:385 | with "latest" set, changing the start and end fields never changes the verdict |
| Validation.OpenAndSingleRangesAccepted | webtoon_downloader/gui.py:387-400 | a range with start == end, or open at either end or both, is accepted |
| Validation.RejectionHasCause | webtoon_downloader/gui.py:387-400 | every rejection of a form with a URL and no "latest" comes from a non-numeric bound or a start above the end |
| Validation.NumericComparison | webtoon_downloader/gui.py:398 | bounds are compared as integers: 9–10 is accepted, 010–9 is rejected as inverted |
| Arguments.BuildArgs | webtoon_downloader/gui.py:432-456 | the list grown append by append equals the serialised form, and starts with the URL as typed |
| Arguments.Command | webtoon_downloader/gui.py:470 | the command is the interpreter, `-m`, `webtoon_downloader`, then exactly the argument list |
| Arguments.NameOfSpelling | webtoon_downloader/gui.py:436-456 | each option string the front end writes is recognised as that option |
| Arguments.ReadOptionsAppend | webtoon_downloader/gui.py:432-456 | reading the option groups one after another is reading the whole list |
| Arguments.ReadSerialized | webtoon_downloader/gui.py:432-456 | the list reads back as the URL followed by exactly the options the form chose, group by group |
| Arguments.ChapterSelectionSerialized | webtoon_downloader/gui.py:435-441 | `--latest` is passed exactly when the flag is set and then neither bound is; otherwise a bound is passed, stripped, exactly when its field is not blank |
| Arguments.OutputFormatSerialized | webtoon_downloader/gui.py:444-451 | `--out` carries the folder as typed; `--save-as cbz` is passed exactly in archive mode and then neither `--image-format` nor `--quality`; otherwise both are, the quality reading back as the integer |
| Arguments.MetadataSerialized | webtoon_downloader/gui.py:454-456 | `--export-metadata` is passed exactly when the box is ticked, `--export-format` exactly alongside it with the chosen format, and the two close the list in that order |
| Arguments.SerializedInCanonicalOrder | webtoon_downloader/gui.py:432-456 | the list always reads back with the URL first, its options in the fixed group order (chapters, output folder, format, metadata), so no option, `--out` included, appears twice |
| Arguments.ValidationMeansWellFormedRange | webtoon_downloader/gui.py:385-441 | a form is accepted exactly when its URL is not blank and the range on its command line is absent or numeric with start ≤ end |
| Spawn.ShellSpawnDropsArguments | webtoon_downloader/gui.py:470-488 | as written, `Popen(cmd, shell=True)` on a POSIX system gives the child the interpreter path alone: the list of at least 8 items shrinks to one, and `-m webtoon_downloader`, the URL and every option stay behind as the shell's own parameters |
| Spawn.DirectSpawnDeliversArguments | webtoon_downloader/gui.py:470-488 | spawned without a shell, the child runs the downloader's module and its arguments read back as the URL followed by exactly the options the form chose |
| Window.Tick | webtoon_downloader/gui.py:542-544 | one tick never lowers the progress, raises it by one below 90 and keeps it at most 90 |
| Window.TicksClimbToCeiling | webtoon_downloader/gui.py:537-546 | from a value at most 90, n ticks give the value plus n, capped at 90 |
| Window.TicksMonotone | webtoon_downloader/gui.py:537-546 | more ticks never show less progress, and never more than 90 |
| Window.DownloaderWindow.constructor | webtoon_downloader/gui.py:31-40 | a new window has an empty form with the source's defaults (Downloads folder, images, jpg, quality 80, json), is idle and at progress 0; the `images` default is set at gui.py:237 and the progress variable, a Tk double starting at 0, at gui.py:328 |
| Window.DownloaderWindow.ToggleChapterRange | webtoon_downloader/gui.py:363-367 | with "latest" set both bounds become empty; otherwise they are unchanged; the progress stays within 0..90 |
| Window.DownloaderWindow.StartDownload | webtoon_downloader/gui.py:408-426 | no effect while a download runs; no effect when validation fails, and the error reported is the one `validate_inputs` shows; otherwise downloading is set, progress restarts and is ticked once, and the returned command list is the serialised form behind the interpreter prefix |
| Window.DownloaderWindow.MonitorProgress | webtoon_downloader/gui.py:537-546 | while downloading the progress takes one tick, otherwise it is unchanged; it stays within 0..90 |
| Window.DownloaderWindow.DownloadFinished | webtoon_downloader/gui.py:516-518 | when the child process ends, successfully or not, the downloading flag is cleared; the progress stays within 0..90 |

## Left out

- Validation.Validate: `str.isdigit()` and `int()` are modelled on the ASCII digits `0`–`9`. Python's `isdigit` and `int` also accept other Unicode decimal digits (a full-width "３", say), which the source accepts and the model rejects as a non-numeric bound; and `isdigit` accepts digits such as superscripts that `int()` then refuses with `ValueError`.
- Validation.Validate: the `ValueError` branch of `validate_inputs` (gui.py:402-404) is not modelled. Besides the superscripts above, it is reached on Python 3.11 and later when both bounds are present and one has more than 4300 digits, since `int()` refuses such strings there (gui.py:398). The source then shows "Error al validar los capítulos" in every such case; the model accepts when the start is not above the end, and otherwise reports `StartAfterEnd`.
- The message boxes of `validate_inputs` are modelled as the error tag of the verdict; their wording and display are not.
- The downloader itself (`webtoon_downloader.cmd.cli`) and its exceptions are not part of this model; the reading of the argument list is a reference reading written for the proofs, not the downloader's own option parser.
- The properties proved in `Arguments` and `Window` hold of the command list built at gui.py:470, not of the argument vector the child process receives: `Popen` is called with `shell=True` (gui.py:479-488), so on a POSIX system only the list's first item reaches `/bin/sh -c` (see Findings), and on Windows the list is joined by `subprocess.list2cmdline` into one `cmd.exe` command line. That joining puts double quotes around an item containing a space or tab, and `cmd.exe` takes `&`, `|`, `^`, `<` and `>` literally inside quotes; in an item without spaces or tabs (a URL ending in `?title_no=95&page=2`, say) those characters are read by the shell, and `%VAR%` is expanded in any item, quoted or not. The Windows joining and `cmd.exe`'s parsing are not modelled.
- `run_download` runs on its own thread and reads the form's variables when it gets to run; the model builds the list from the form as it is when `start_download` accepts it.
- Spawn.ShellSpawnArgv: the POSIX shell's reading of its script is modelled only for a script that is one plain word (an interpreter path without spaces or shell characters); other paths are outside its precondition.
- Running the child process, relaying its output to the status line, and reporting its exit status are process I/O and are not modelled; only the command list is.
- `root.after` scheduling: each `MonitorProgress` call is one scheduled tick; overlapping tick chains after a quick restart are not modelled.
- The progress bar's variable is a Tk double; the model keeps it as an integer, which is all the values `start_download` and `monitor_progress` ever store.
- The quality slider's behaviour (a Tk integer variable fed by a scale from 40 to 100) is not modelled; `quality` is any integer and is passed through unchecked, as the source does.
- Window layout, theme, widget enabling in `toggle_chapter_range` (gui.py:369-371), the download button's state, the status label, the folder dialog (`browse_output_dir`), the close handler, `main` and the command-line/graphical dispatch in `__main__.py` are presentation or process start-up and are not modelled.

## Findings

| source | as written | input that shows it | evidently intended | confidence | as-written member | corrected member |
|---|---|---|---|---|---|---|
| webtoon_downloader/gui.py:470-488 | the command list is passed to `subprocess.Popen` with `shell=True`, which on a POSIX system runs `/bin/sh -c` on the list's first item only and leaves the rest as the shell's positional parameters | any accepted form with interpreter `/usr/bin/python3` on Linux: the child is `/usr/bin/python3` with no arguments, so `-m webtoon_downloader`, the URL and the options never reach it | the child receives the whole list (`Popen(cmd)` without a shell) | not executed; follows from the documented behaviour of `Popen` with a sequence and `shell=True` | Spawn.ShellSpawnDropsArguments | Spawn.DirectSpawnDeliversArguments |
