/** The download form of the graphical front end and its `validate_inputs` check. */
module Validation {
  import opened Text

  /** The values of the form's variables, exactly as the widgets hold them (unstripped). */
  datatype Form = Form(
    url: string,
    start: string,          // "Desde capítulo"
    end: string,            // "Hasta capítulo"
    latest: bool,           // "Descargar solo el último capítulo"
    outDir: string,
    outputFormat: string,   // "images" or "cbz" from the radio buttons
    imageFormat: string,    // "jpg" or "png"
    quality: int,           // the quality slider's integer variable
    exportMetadata: bool,
    exportFormat: string    // "json", "text" or "all"
  )

  /** The error message boxes of `validate_inputs`, one tag per message. */
  datatype FormError =
    | MissingUrl        // "Por favor ingresa la URL del webtoon"
    | StartNotNumber    // "El capítulo inicial debe ser un número"
    | EndNotNumber      // "El capítulo final debe ser un número"
    | StartAfterEnd     // "El capítulo inicial no puede ser mayor al final"

  datatype Verdict = Accepted | Rejected(error: FormError)

  /** `validate_inputs`: the URL must not be blank; unless "latest" is ticked, each chapter
      bound, once stripped, is either empty (an open end) or a number, and the start is not
      above the end. The checks run in that order and the first failure is reported. */
  function Validate(f: Form): (r: Verdict)
    // A blank URL is reported before anything else, and only a blank URL is reported so.
    ensures r == Rejected(MissingUrl) <==> IsBlank(f.url)
    // With "latest" ticked the range is never looked at.
    ensures f.latest ==> (r == Accepted <==> !IsBlank(f.url))
    // Otherwise each outcome has exactly its own cause: the start bound is checked first,
    // then the end bound, then their order, and a form passing all three is accepted.
    ensures !IsBlank(f.url) && !f.latest ==>
      var s, e := Strip(f.start), Strip(f.end);
      && (r == Rejected(StartNotNumber) <==> s != [] && !IsDigits(s))
      && (r == Rejected(EndNotNumber) <==> (s == [] || IsDigits(s)) && e != [] && !IsDigits(e))
      && (r == Rejected(StartAfterEnd) <==>
            IsDigits(s) && IsDigits(e) && DigitsValue(s) > DigitsValue(e))
      && (r == Accepted <==>
            && (s == [] || IsDigits(s))
            && (e == [] || IsDigits(e))
            && (s != [] && e != [] ==> DigitsValue(s) <= DigitsValue(e)))
  {
    StripEmptyIffBlank(f.url);
    if Strip(f.url) == [] then Rejected(MissingUrl)
    else if f.latest then Accepted
    else
      var s, e := Strip(f.start), Strip(f.end);
      if s != [] && !IsDigits(s) then Rejected(StartNotNumber)
      else if e != [] && !IsDigits(e) then Rejected(EndNotNumber)
      else if s != [] && e != [] && DigitsValue(s) > DigitsValue(e) then Rejected(StartAfterEnd)
      else Accepted
  }

  /** `validate_inputs()` as the boolean the source returns. */
  predicate ValidateInputs(f: Form) {
    Validate(f) == Accepted
  }

  /** With "latest" ticked, whatever is typed in the range fields makes no difference. */
  lemma LatestIgnoresRange(f: Form, start: string, end: string)
    requires f.latest
    ensures Validate(f.(start := start, end := end)) == Validate(f)
  {
  }

  /** A single-chapter range (`start == end`) is accepted, and so is a range open at either
      end or both. */
  lemma OpenAndSingleRangesAccepted(f: Form)
    requires !IsBlank(f.url) && !f.latest
    requires var s, e := Strip(f.start), Strip(f.end);
      || (s == e && IsDigits(s))
      || (s == [] && (e == [] || IsDigits(e)))
      || (e == [] && IsDigits(s))
    ensures Validate(f) == Accepted
  {
  }

  /** Every rejection of a non-blank, non-"latest" form comes from a bound: one that is
      neither empty nor a number, or a start above the end. */
  lemma RejectionHasCause(f: Form)
    requires !IsBlank(f.url) && !f.latest && Validate(f) != Accepted
    ensures var s, e := Strip(f.start), Strip(f.end);
      || (s != [] && !IsDigits(s))
      || (e != [] && !IsDigits(e))
      || (IsDigits(s) && IsDigits(e) && DigitsValue(s) > DigitsValue(e))
  {
  }

  /** Bounds are compared as numbers, not as text: "9" to "10" is a valid range and
      "010" to "9" is not. */
  lemma NumericComparison(f: Form)
    requires !IsBlank(f.url) && !f.latest
    ensures Validate(f.(start := "9", end := "10")) == Accepted
    ensures Validate(f.(start := "010", end := "9")) == Rejected(StartAfterEnd)
  {
    StripEmptyIffBlank(f.url);
    StripNumerals();
    ValueNumerals();
  }

  lemma ValueNumerals()
    ensures DigitsValue("9") == 9 && DigitsValue("10") == 10 && DigitsValue("010") == 10
  {
    assert "9"[..0] == "";
    assert "10"[..1] == "1" && "1"[..0] == "";
    assert "010"[..2] == "01" && "01"[..1] == "0" && "0"[..0] == "";
  }

  lemma StripNumerals()
    ensures IsDigits("9") && IsDigits("10") && IsDigits("010")
    ensures Strip("9") == "9" && Strip("10") == "10" && Strip("010") == "010"
  {
    assert IsDigits("9") && IsDigits("10") && IsDigits("010");
    StripKeepsDigits("9");
    StripKeepsDigits("10");
    StripKeepsDigits("010");
  }
}
