/** The command line that the graphical front end builds: the argument list that `run_download`
    grows step by step, and the command list it passes to `subprocess.Popen`. How that list
    reaches the child process is the subject of module `Spawn`. */
module Arguments {
  import opened Wrappers
  import opened Text
  import opened Validation

  // ---------------------------------------------------------------------------
  // The argument list, as a function of the form (one group of options at a time)
  // ---------------------------------------------------------------------------

  /** Chapter options: `--latest` alone, or a `--start`/`--end` pair for each bound that is
      not blank, carrying the stripped value. */
  function ChapterArgs(f: Form): seq<string> {
    if f.latest then ["--latest"]
    else
      (if Strip(f.start) != [] then ["--start", Strip(f.start)] else [])
      + (if Strip(f.end) != [] then ["--end", Strip(f.end)] else [])
  }

  /** Output format options: an archive (`cbz`) takes `--save-as cbz`, anything else the image
      format and the quality. */
  function FormatArgs(f: Form): seq<string> {
    if f.outputFormat == "cbz" then ["--save-as", "cbz"]
    else ["--image-format", f.imageFormat, "--quality", IntToString(f.quality)]
  }

  /** Metadata options: `--export-metadata` followed at once by the `--export-format` pair. */
  function MetadataArgs(f: Form): seq<string> {
    if f.exportMetadata then ["--export-metadata", "--export-format", f.exportFormat] else []
  }

  /** The argument list: the URL as typed, then the chapter, output directory, output format
      and metadata groups in that order. */
  function Serialize(f: Form): seq<string> {
    [f.url] + ChapterArgs(f) + ["--out", f.outDir] + FormatArgs(f) + MetadataArgs(f)
  }

  /** `run_download`'s construction of `args`, appending group by group. */
  method BuildArgs(f: Form) returns (args: seq<string>)
    ensures args == Serialize(f)
    ensures |args| > 0 && args[0] == f.url
  {
    args := [f.url];
    if f.latest {
      args := args + ["--latest"];
    } else {
      var start := Strip(f.start);
      var end := Strip(f.end);
      ghost var startArgs: seq<string> := if start != [] then ["--start", start] else [];
      ghost var endArgs: seq<string> := if end != [] then ["--end", end] else [];
      if start != [] {
        args := args + ["--start", start];
      }
      assert args == [f.url] + startArgs;
      if end != [] {
        args := args + ["--end", end];
      }
      assert args == [f.url] + startArgs + endArgs;
      ConcatAssociative([f.url], startArgs, endArgs);
    }
    assert args == [f.url] + ChapterArgs(f);
    args := args + ["--out", f.outDir];
    ghost var prefix := args;
    if f.outputFormat == "cbz" {
      args := args + ["--save-as", "cbz"];
    } else {
      args := args + ["--image-format", f.imageFormat];
      args := args + ["--quality", IntToString(f.quality)];
      ConcatAssociative(prefix, ["--image-format", f.imageFormat], ["--quality", IntToString(f.quality)]);
    }
    assert args == prefix + FormatArgs(f);
    prefix := args;
    if f.exportMetadata {
      args := args + ["--export-metadata"];
      args := args + ["--export-format", f.exportFormat];
      ConcatAssociative(prefix, ["--export-metadata"], ["--export-format", f.exportFormat]);
    }
    assert args == prefix + MetadataArgs(f);
  }

  lemma ConcatAssociative<T>(a: seq<T>, b: seq<T>, c: seq<T>)
    ensures a + (b + c) == a + b + c
  {
  }

  /** The command list `run_download` passes to `subprocess.Popen`: the running interpreter,
      `-m webtoon_downloader`, then the argument list. */
  function Command(python: string, args: seq<string>): (cmd: seq<string>)
    ensures |cmd| == |args| + 3
    ensures cmd[..3] == [python, "-m", "webtoon_downloader"] && cmd[3..] == args
  {
    [python, "-m", "webtoon_downloader"] + args
  }

  // ---------------------------------------------------------------------------
  // A reference reading of an argument list
  // ---------------------------------------------------------------------------

  /** The options the front end can pass, in the fixed order of their groups. */
  datatype OptionName =
    | Latest | Start | End | Out | SaveAs | ImageFormat | Quality | ExportMetadata | ExportFormat
  {
    function Spelling(): string {
      match this
      case Latest => "--latest"
      case Start => "--start"
      case End => "--end"
      case Out => "--out"
      case SaveAs => "--save-as"
      case ImageFormat => "--image-format"
      case Quality => "--quality"
      case ExportMetadata => "--export-metadata"
      case ExportFormat => "--export-format"
    }

    /** The options that take no value. */
    predicate IsFlag() {
      this == Latest || this == ExportMetadata
    }

    /** The position of the option's group in the list. */
    function Rank(): nat {
      match this
      case Latest => 0
      case Start => 1
      case End => 2
      case Out => 3
      case SaveAs => 4
      case ImageFormat => 5
      case Quality => 6
      case ExportMetadata => 7
      case ExportFormat => 8
    }
  }

  /** Recognises an option token. */
  function NameOf(token: string): (r: Option<OptionName>)
    ensures r.Some? ==> r.value.Spelling() == token
  {
    if token == "--latest" then Some(Latest)
    else if token == "--start" then Some(Start)
    else if token == "--end" then Some(End)
    else if token == "--out" then Some(Out)
    else if token == "--save-as" then Some(SaveAs)
    else if token == "--image-format" then Some(ImageFormat)
    else if token == "--quality" then Some(Quality)
    else if token == "--export-metadata" then Some(ExportMetadata)
    else if token == "--export-format" then Some(ExportFormat)
    else None
  }

  /** Every option's spelling is recognised as that option. */
  lemma NameOfSpelling(n: OptionName)
    ensures NameOf(n.Spelling()) == Some(n)
  {
  }

  /** One option as read off the list: its name, and the value that follows it unless the
      option is a flag. */
  datatype Opt = Opt(name: OptionName, value: Option<string>)

  datatype Invocation = Invocation(url: string, opts: seq<Opt>)

  /** Reads the tokens after the URL as options; `None` when a token is not a known option
      or a valued option has no value after it. */
  function ReadOptions(tokens: seq<string>): Option<seq<Opt>>
    decreases |tokens|
  {
    if tokens == [] then Some([])
    else
      match NameOf(tokens[0])
      case None => None
      case Some(n) =>
        if n.IsFlag() then
          match ReadOptions(tokens[1..])
          case Some(rest) => Some([Opt(n, None)] + rest)
          case None => None
        else if |tokens| >= 2 then
          match ReadOptions(tokens[2..])
          case Some(rest) => Some([Opt(n, Some(tokens[1]))] + rest)
          case None => None
        else None
  }

  /** Reads a whole argument list: the first token is the URL, the rest are options. */
  function Read(args: seq<string>): Option<Invocation> {
    if args == [] then None
    else
      match ReadOptions(args[1..])
      case Some(opts) => Some(Invocation(args[0], opts))
      case None => None
  }

  /** The first occurrence of an option: `None` if it is absent, otherwise its value
      (`Some(None)` for a flag). */
  function Lookup(opts: seq<Opt>, name: OptionName): Option<Option<string>> {
    if opts == [] then None
    else if opts[0].name == name then Some(opts[0].value)
    else Lookup(opts[1..], name)
  }

  predicate Has(opts: seq<Opt>, name: OptionName) {
    Lookup(opts, name).Some?
  }

  /** Every option comes strictly after the options of lower rank: so no option is given twice
      and the groups keep their order. */
  predicate InCanonicalOrder(opts: seq<Opt>) {
    forall i, j :: 0 <= i < j < |opts| ==> opts[i].name.Rank() < opts[j].name.Rank()
  }

  /** The options read off the serialised form (empty if the list could not be read). */
  function SerializedOptions(f: Form): seq<Opt> {
    match Read(Serialize(f))
    case Some(inv) => inv.opts
    case None => []
  }

  // ---------------------------------------------------------------------------
  // Reading the serialised form back
  // ---------------------------------------------------------------------------

  /** The options each group of the list stands for. */
  function ChapterOptions(f: Form): seq<Opt> {
    if f.latest then [Opt(Latest, None)]
    else
      (if Strip(f.start) != [] then [Opt(Start, Some(Strip(f.start)))] else [])
      + (if Strip(f.end) != [] then [Opt(End, Some(Strip(f.end)))] else [])
  }

  function FormatOptions(f: Form): seq<Opt> {
    if f.outputFormat == "cbz" then [Opt(SaveAs, Some("cbz"))]
    else [Opt(ImageFormat, Some(f.imageFormat)), Opt(Quality, Some(IntToString(f.quality)))]
  }

  function MetadataOptions(f: Form): seq<Opt> {
    if f.exportMetadata then [Opt(ExportMetadata, None), Opt(ExportFormat, Some(f.exportFormat))]
    else []
  }

  function IntendedOptions(f: Form): seq<Opt> {
    ChapterOptions(f) + [Opt(Out, Some(f.outDir))] + FormatOptions(f) + MetadataOptions(f)
  }

  /** Reading two lists one after the other is reading their concatenation. */
  lemma {:induction false} ReadOptionsAppend(a: seq<string>, b: seq<string>)
    requires ReadOptions(a).Some? && ReadOptions(b).Some?
    ensures ReadOptions(a + b) == Some(ReadOptions(a).value + ReadOptions(b).value)
    decreases |a|
  {
    if a == [] {
      assert a + b == b;
      assert ReadOptions(a).value == [];
      assert [] + ReadOptions(b).value == ReadOptions(b).value;
    } else {
      var n := NameOf(a[0]).value;
      assert (a + b)[0] == a[0];
      if n.IsFlag() {
        var head := Opt(n, None);
        assert ReadOptions(a).value == [head] + ReadOptions(a[1..]).value;
        assert (a + b)[1..] == a[1..] + b;
        ReadOptionsAppend(a[1..], b);
        ConcatAssociative([head], ReadOptions(a[1..]).value, ReadOptions(b).value);
      } else {
        var head := Opt(n, Some(a[1]));
        assert ReadOptions(a).value == [head] + ReadOptions(a[2..]).value;
        assert (a + b)[1] == a[1];
        assert (a + b)[2..] == a[2..] + b;
        ReadOptionsAppend(a[2..], b);
        ConcatAssociative([head], ReadOptions(a[2..]).value, ReadOptions(b).value);
      }
    }
  }

  /** The lookup in a concatenation finds the first part's occurrence if there is one. */
  lemma {:induction false} LookupAppend(a: seq<Opt>, b: seq<Opt>, name: OptionName)
    ensures Lookup(a + b, name) == if Has(a, name) then Lookup(a, name) else Lookup(b, name)
    decreases |a|
  {
    if a == [] {
      assert a + b == b;
    } else if a[0].name != name {
      assert (a + b)[1..] == a[1..] + b;
      LookupAppend(a[1..], b, name);
    }
  }

  /** A flag on its own reads as that flag. */
  lemma ReadFlag(n: OptionName)
    requires n.IsFlag()
    ensures ReadOptions([n.Spelling()]) == Some([Opt(n, None)])
  {
    var tokens := [n.Spelling()];
    NameOfSpelling(n);
    assert tokens[1..] == [];
    assert ReadOptions(tokens[1..]) == Some([]);
    assert [Opt(n, None)] + [] == [Opt(n, None)];
  }

  /** A valued option and its value read as one option. */
  lemma ReadPair(n: OptionName, value: string)
    requires !n.IsFlag()
    ensures ReadOptions([n.Spelling(), value]) == Some([Opt(n, Some(value))])
  {
    var tokens := [n.Spelling(), value];
    NameOfSpelling(n);
    assert tokens[2..] == [];
    assert ReadOptions(tokens[2..]) == Some([]);
    assert [Opt(n, Some(value))] + [] == [Opt(n, Some(value))];
  }

  lemma ReadChapterArgs(f: Form)
    ensures ReadOptions(ChapterArgs(f)) == Some(ChapterOptions(f))
  {
    if f.latest {
      ReadFlag(Latest);
    } else {
      var s: seq<string> := if Strip(f.start) != [] then ["--start", Strip(f.start)] else [];
      var e: seq<string> := if Strip(f.end) != [] then ["--end", Strip(f.end)] else [];
      if Strip(f.start) != [] { ReadPair(Start, Strip(f.start)); }
      if Strip(f.end) != [] { ReadPair(End, Strip(f.end)); }
      ReadOptionsAppend(s, e);
    }
  }

  lemma ReadFormatArgs(f: Form)
    ensures ReadOptions(FormatArgs(f)) == Some(FormatOptions(f))
  {
    if f.outputFormat == "cbz" {
      ReadPair(SaveAs, "cbz");
    } else {
      var q := IntToString(f.quality);
      ReadPair(ImageFormat, f.imageFormat);
      ReadPair(Quality, q);
      ReadOptionsAppend(["--image-format", f.imageFormat], ["--quality", q]);
      assert ["--image-format", f.imageFormat] + ["--quality", q] == FormatArgs(f);
      assert [Opt(ImageFormat, Some(f.imageFormat))] + [Opt(Quality, Some(q))] == FormatOptions(f);
    }
  }

  lemma ReadMetadataArgs(f: Form)
    ensures ReadOptions(MetadataArgs(f)) == Some(MetadataOptions(f))
  {
    if f.exportMetadata {
      ReadFlag(ExportMetadata);
      ReadPair(ExportFormat, f.exportFormat);
      ReadOptionsAppend(["--export-metadata"], ["--export-format", f.exportFormat]);
      assert ["--export-metadata"] + ["--export-format", f.exportFormat] == MetadataArgs(f);
      assert [Opt(ExportMetadata, None)] + [Opt(ExportFormat, Some(f.exportFormat))]
        == MetadataOptions(f);
    } else {
      assert ReadOptions([]) == Some([]);
    }
  }

  /** Reading the serialised form gives back the URL as typed and exactly the options the
      form chose, group by group. */
  lemma ReadSerialized(f: Form)
    ensures Read(Serialize(f)) == Some(Invocation(f.url, IntendedOptions(f)))
    ensures SerializedOptions(f) == IntendedOptions(f)
  {
    var c, o, fm, m := ChapterArgs(f), ["--out", f.outDir], FormatArgs(f), MetadataArgs(f);
    assert Serialize(f) == [f.url] + (c + o + fm + m);
    assert Serialize(f)[1..] == c + o + fm + m;
    ReadChapterArgs(f);
    ReadPair(Out, f.outDir);
    ReadFormatArgs(f);
    ReadMetadataArgs(f);
    ReadOptionsAppend(c, o);
    ReadOptionsAppend(c + o, fm);
    ReadOptionsAppend(c + o + fm, m);
  }

  lemma LookupPair(a: Opt, b: Opt, name: OptionName)
    ensures Lookup([a], name) == if a.name == name then Some(a.value) else None
    ensures Lookup([a, b], name) ==
      if a.name == name then Some(a.value) else if b.name == name then Some(b.value) else None
  {
    assert [a][1..] == [];
    assert [a, b][1..] == [b];
    assert [b][1..] == [];
  }

  /** The chapter group holds `--latest` alone, or the bounds that are not blank. */
  lemma LookupChapterOptions(f: Form, name: OptionName)
    ensures Lookup(ChapterOptions(f), name) ==
      if name == Latest && f.latest then Some(None)
      else if name == Start && !f.latest && Strip(f.start) != [] then Some(Some(Strip(f.start)))
      else if name == End && !f.latest && Strip(f.end) != [] then Some(Some(Strip(f.end)))
      else None
  {
    var s: seq<Opt> := if Strip(f.start) != [] then [Opt(Start, Some(Strip(f.start)))] else [];
    var e: seq<Opt> := if Strip(f.end) != [] then [Opt(End, Some(Strip(f.end)))] else [];
    var dummy := Opt(Out, None);
    LookupPair(Opt(Latest, None), dummy, name);
    LookupPair(Opt(Start, Some(Strip(f.start))), dummy, name);
    LookupPair(Opt(End, Some(Strip(f.end))), dummy, name);
    LookupAppend(s, e, name);
  }

  lemma LookupFormatOptions(f: Form, name: OptionName)
    ensures Lookup(FormatOptions(f), name) ==
      if name == SaveAs && f.outputFormat == "cbz" then Some(Some("cbz"))
      else if name == ImageFormat && f.outputFormat != "cbz" then Some(Some(f.imageFormat))
      else if name == Quality && f.outputFormat != "cbz" then Some(Some(IntToString(f.quality)))
      else None
  {
    LookupPair(Opt(SaveAs, Some("cbz")), Opt(SaveAs, Some("cbz")), name);
    LookupPair(Opt(ImageFormat, Some(f.imageFormat)), Opt(Quality, Some(IntToString(f.quality))), name);
  }

  lemma LookupMetadataOptions(f: Form, name: OptionName)
    ensures Lookup(MetadataOptions(f), name) ==
      if name == ExportMetadata && f.exportMetadata then Some(None)
      else if name == ExportFormat && f.exportMetadata then Some(Some(f.exportFormat))
      else None
  {
    LookupPair(Opt(ExportMetadata, None), Opt(ExportFormat, Some(f.exportFormat)), name);
  }

  /** Looking an option up in the read-back list: the value the form chose for it, if any. */
  lemma LookupSerialized(f: Form, name: OptionName)
    ensures Lookup(SerializedOptions(f), name) ==
      if name == Out then Some(Some(f.outDir))
      else if name.Rank() < 3 then Lookup(ChapterOptions(f), name)
      else if name.Rank() < 7 then Lookup(FormatOptions(f), name)
      else Lookup(MetadataOptions(f), name)
  {
    ReadSerialized(f);
    var c, o, fm, m := ChapterOptions(f), [Opt(Out, Some(f.outDir))], FormatOptions(f), MetadataOptions(f);
    LookupAppend(c + o + fm, m, name);
    LookupAppend(c + o, fm, name);
    LookupAppend(c, o, name);
    LookupPair(Opt(Out, Some(f.outDir)), Opt(Out, Some(f.outDir)), name);
    LookupChapterOptions(f, name);
    LookupFormatOptions(f, name);
    LookupMetadataOptions(f, name);
  }

  // ---------------------------------------------------------------------------
  // What the serialised list promises
  // ---------------------------------------------------------------------------

  /** The chapter group: `--latest` exactly when the flag is set, and then neither bound;
      otherwise a bound is passed exactly when its field is not blank, stripped. */
  lemma ChapterSelectionSerialized(f: Form)
    ensures var opts := SerializedOptions(f);
      && (Has(opts, Latest) <==> f.latest)
      && (Has(opts, Latest) ==> !Has(opts, Start) && !Has(opts, End))
      && Lookup(opts, Start) ==
           (if !f.latest && !IsBlank(f.start) then Some(Some(Strip(f.start))) else None)
      && Lookup(opts, End) ==
           (if !f.latest && !IsBlank(f.end) then Some(Some(Strip(f.end))) else None)
  {
    StripEmptyIffBlank(f.start);
    StripEmptyIffBlank(f.end);
    LookupSerialized(f, Latest);
    LookupSerialized(f, Start);
    LookupSerialized(f, End);
    LookupChapterOptions(f, Latest);
    LookupChapterOptions(f, Start);
    LookupChapterOptions(f, End);
  }

  /** The output group: `--out` with the directory as typed; `--save-as cbz` exactly when the
      archive format is chosen, and then neither the image format nor the quality; otherwise
      both of those, the quality reading back as the slider's integer. */
  lemma OutputFormatSerialized(f: Form)
    ensures var opts := SerializedOptions(f);
      && Lookup(opts, Out) == Some(Some(f.outDir))
      && (Has(opts, SaveAs) <==> f.outputFormat == "cbz")
      && (Has(opts, SaveAs) ==>
            Lookup(opts, SaveAs) == Some(Some("cbz")) && !Has(opts, ImageFormat) && !Has(opts, Quality))
      && (!Has(opts, SaveAs) ==>
            && Lookup(opts, ImageFormat) == Some(Some(f.imageFormat))
            && Lookup(opts, Quality).Some? && Lookup(opts, Quality).value.Some?
            && ParseInteger(Lookup(opts, Quality).value.value) == Some(f.quality))
  {
    LookupSerialized(f, Out);
    LookupSerialized(f, SaveAs);
    LookupSerialized(f, ImageFormat);
    LookupSerialized(f, Quality);
    LookupFormatOptions(f, SaveAs);
    LookupFormatOptions(f, ImageFormat);
    LookupFormatOptions(f, Quality);
    IntToStringRoundTrip(f.quality);
  }

  /** The metadata group: `--export-metadata` exactly when the box is ticked, and
      `--export-format` with the chosen format exactly alongside it, as the last two options
      of the list. */
  lemma MetadataSerialized(f: Form)
    ensures var opts := SerializedOptions(f);
      && (Has(opts, ExportMetadata) <==> f.exportMetadata)
      && (Has(opts, ExportFormat) <==> Has(opts, ExportMetadata))
      && (f.exportMetadata ==>
            Lookup(opts, ExportMetadata) == Some(None)
            && Lookup(opts, ExportFormat) == Some(Some(f.exportFormat)))
    ensures f.exportMetadata ==>
      var args := Serialize(f);
      |args| >= 3 && args[|args| - 3..] == ["--export-metadata", "--export-format", f.exportFormat]
  {
    LookupSerialized(f, ExportMetadata);
    LookupSerialized(f, ExportFormat);
    LookupMetadataOptions(f, ExportMetadata);
    LookupMetadataOptions(f, ExportFormat);
  }

  /** Every option of `a` ranks below every option of `b`. */
  predicate RanksBefore(a: seq<Opt>, b: seq<Opt>) {
    forall i, j :: 0 <= i < |a| && 0 <= j < |b| ==> a[i].name.Rank() < b[j].name.Rank()
  }

  lemma OrderedAppend(a: seq<Opt>, b: seq<Opt>)
    requires InCanonicalOrder(a) && InCanonicalOrder(b) && RanksBefore(a, b)
    ensures InCanonicalOrder(a + b)
  {
    var ab := a + b;
    forall i, j | 0 <= i < j < |ab| ensures ab[i].name.Rank() < ab[j].name.Rank() {
      if j < |a| {
        assert ab[i] == a[i] && ab[j] == a[j];
      } else if i < |a| {
        assert ab[i] == a[i] && ab[j] == b[j - |a|];
      } else {
        assert ab[i] == b[i - |a|] && ab[j] == b[j - |a|];
      }
    }
  }

  /** Every option of `opts` has a rank in `[lo, hi)`. */
  predicate RanksWithin(opts: seq<Opt>, lo: nat, hi: nat) {
    forall i :: 0 <= i < |opts| ==> lo <= opts[i].name.Rank() < hi
  }

  lemma GroupsOrdered(f: Form)
    ensures InCanonicalOrder(ChapterOptions(f)) && RanksWithin(ChapterOptions(f), 0, 3)
    ensures InCanonicalOrder(FormatOptions(f)) && RanksWithin(FormatOptions(f), 4, 7)
    ensures InCanonicalOrder(MetadataOptions(f)) && RanksWithin(MetadataOptions(f), 7, 9)
  {
    if !f.latest {
      var s: seq<Opt> := if Strip(f.start) != [] then [Opt(Start, Some(Strip(f.start)))] else [];
      var e: seq<Opt> := if Strip(f.end) != [] then [Opt(End, Some(Strip(f.end)))] else [];
      OrderedAppend(s, e);
    }
  }

  lemma WithinAppend(a: seq<Opt>, b: seq<Opt>, lo: nat, mid: nat, hi: nat)
    requires lo <= mid <= hi
    requires InCanonicalOrder(a) && InCanonicalOrder(b)
    requires RanksWithin(a, lo, mid) && RanksWithin(b, mid, hi)
    ensures InCanonicalOrder(a + b) && RanksWithin(a + b, lo, hi)
  {
    OrderedAppend(a, b);
    var ab := a + b;
    forall i | 0 <= i < |ab| ensures lo <= ab[i].name.Rank() < hi {
      if i < |a| { assert ab[i] == a[i]; } else { assert ab[i] == b[i - |a|]; }
    }
  }

  /** The serialised list always reads back, its first token is the URL as typed, and its
      options keep the fixed group order, so none of them is given twice. */
  lemma SerializedInCanonicalOrder(f: Form)
    ensures Read(Serialize(f)).Some? && Read(Serialize(f)).value.url == f.url
    ensures InCanonicalOrder(SerializedOptions(f))
    ensures var opts := SerializedOptions(f);
      forall i, j :: 0 <= i < j < |opts| ==> opts[i].name != opts[j].name
  {
    ReadSerialized(f);
    GroupsOrdered(f);
    var c, o, fm, m := ChapterOptions(f), [Opt(Out, Some(f.outDir))], FormatOptions(f), MetadataOptions(f);
    WithinAppend(c, o, 0, 3, 4);
    WithinAppend(c + o, fm, 0, 4, 7);
    WithinAppend(c + o + fm, m, 0, 7, 9);
  }

  /** A chapter bound as read off the list: absent, or a number. */
  predicate NumericBound(b: Option<Option<string>>) {
    b.None? || (b.value.Some? && IsDigits(b.value.value))
  }

  /** The range on the list is well formed: each bound absent or a number, and the start not
      above the end. */
  predicate WellFormedRange(opts: seq<Opt>) {
    var s, e := Lookup(opts, Start), Lookup(opts, End);
    && NumericBound(s) && NumericBound(e)
    && (s.Some? && e.Some? ==> DigitsValue(s.value.value) <= DigitsValue(e.value.value))
  }

  /** What validation buys: a form is accepted exactly when its URL is not blank and the
      list built from it carries a well-formed chapter range (or none). */
  lemma ValidationMeansWellFormedRange(f: Form)
    ensures ValidateInputs(f) <==> !IsBlank(f.url) && WellFormedRange(SerializedOptions(f))
  {
    ChapterSelectionSerialized(f);
    StripEmptyIffBlank(f.start);
    StripEmptyIffBlank(f.end);
  }
}
