/** The record-keeping rules of the desktop application: the placeholder analyser, the
    add-source form with its save validation and stored image name, the view filter and
    the statistics tally. The sqlite table is the sequence of rows as `get_all_sources`
    lists them, newest first. */
module Desktop {
  import opened Common
  import opened PyText

  // ---------------------------------------------------------------------------
  // The placeholder analyser
  // ---------------------------------------------------------------------------

  /** The three results `WaterAnalyzer.analyze_water` can return. */
  predicate IsQuality(s: string)
  {
    s == "Clean" || s == "Muddy" || s == "Contaminated"
  }

  const AnalyzerOutcomes: seq<string> := ["Clean", "Muddy", "Contaminated"]
  const AnalyzerWeights: seq<real> := [0.5, 0.3, 0.2]

  /** The sum of a sequence of weights. */
  function Sum(ws: seq<real>): real
  {
    if |ws| == 0 then 0.0 else ws[0] + Sum(ws[1..])
  }

  /** `itertools.accumulate(weights)`, started from `acc`: entry `i` is `acc` plus the
      first `i + 1` weights. */
  function Accumulate(acc: real, weights: seq<real>): (cum: seq<real>)
    ensures |cum| == |weights|
    ensures forall i :: 0 <= i < |cum| ==> cum[i] == acc + Sum(weights[..i + 1])
    ensures (forall i :: 0 <= i < |weights| ==> weights[i] >= 0.0) ==>
              forall i, j :: 0 <= i <= j < |cum| ==> acc <= cum[i] <= cum[j]
    decreases |weights|
  {
    if |weights| == 0 then []
    else
      var rest := Accumulate(acc + weights[0], weights[1..]);
      forall j | 0 <= j < |rest|
        ensures rest[j] == acc + Sum(weights[..j + 2])
      {
        assert weights[..j + 2][1..] == weights[1..][..j + 1];
      }
      [acc + weights[0]] + rest
  }

  /** `bisect.bisect_right(a, x, lo, hi)`: the first position in [lo, hi) whose entry
      exceeds `x`, or `hi`. For a sorted `a` this is the position binary search finds. */
  function BisectRight(a: seq<real>, x: real, lo: nat, hi: nat): (pos: nat)
    requires lo <= hi <= |a|
    ensures lo <= pos <= hi
    ensures forall k :: lo <= k < pos ==> a[k] <= x
    ensures pos < hi ==> x < a[pos]
    decreases hi - lo
  {
    if lo == hi then lo
    else if x < a[lo] then lo
    else BisectRight(a, x, lo + 1, hi)
  }

  /** The position `random.choices` picks for the uniform sample `u` in [0, 1) given the
      running totals `cum`: bisecting them with `u * total`, never past the last position. */
  function ChoiceIndex(cum: seq<real>, u: real): (pos: nat)
    requires |cum| > 0
    ensures pos < |cum|
    ensures forall k :: 0 <= k < pos ==> cum[k] <= u * cum[|cum| - 1]
    ensures pos < |cum| - 1 ==> u * cum[|cum| - 1] < cum[pos]
  {
    BisectRight(cum, u * cum[|cum| - 1], 0, |cum| - 1)
  }

  /** One draw of `random.choices(population, weights)` for the uniform sample `u`; the
      library refuses weights whose total is not positive. */
  function WeightedChoice(population: seq<string>, weights: seq<real>, u: real): (r: string)
    requires |population| == |weights| > 0
    requires forall i :: 0 <= i < |weights| ==> weights[i] >= 0.0
    requires Accumulate(0.0, weights)[|weights| - 1] > 0.0
    requires 0.0 <= u < 1.0
    ensures r in population
  {
    population[ChoiceIndex(Accumulate(0.0, weights), u)]
  }

  /** `WaterAnalyzer.analyze_water`: the outcome for the random sample `u`. The result is
      always one of the three qualities; with weights 0.5, 0.3 and 0.2 the samples below
      0.5 give "Clean", those in [0.5, 0.8) "Muddy" and the rest "Contaminated". */
  function AnalyzeWater(u: real): (r: string)
    requires 0.0 <= u < 1.0
    ensures IsQuality(r)
    ensures r == "Clean" <==> u < 0.5
    ensures r == "Muddy" <==> 0.5 <= u < 0.8
    ensures r == "Contaminated" <==> 0.8 <= u
  {
    AnalyzerTotals();
    var pos := ChoiceIndex([0.5, 0.8, 1.0], u);
    ChoiceIndexOfAnalyzerTotals(u);
    assert WeightedChoice(AnalyzerOutcomes, AnalyzerWeights, u) == AnalyzerOutcomes[pos];
    WeightedChoice(AnalyzerOutcomes, AnalyzerWeights, u)
  }

  /** The running totals of the analyser's weights. */
  lemma AnalyzerTotals()
    ensures Accumulate(0.0, AnalyzerWeights) == [0.5, 0.8, 1.0]
  {
    assert Accumulate(0.8, [0.2]) == [1.0];
    assert Accumulate(0.5, [0.3, 0.2]) == [0.8, 1.0];
  }

  /** Bisecting the analyser's running totals: below 0.5 picks position 0, below 0.8
      position 1, anything else position 2. */
  lemma ChoiceIndexOfAnalyzerTotals(u: real)
    ensures ChoiceIndex([0.5, 0.8, 1.0], u) == if u < 0.5 then 0 else if u < 0.8 then 1 else 2
  {
    var cum := [0.5, 0.8, 1.0];
    var pos := ChoiceIndex(cum, u);
    assert u * cum[2] == u;
    if pos == 0 {
      assert u < cum[0];
    } else if pos == 1 {
      assert cum[0] <= u < cum[1];
    } else {
      assert cum[0] <= u && cum[1] <= u;
    }
  }

  // ---------------------------------------------------------------------------
  // The timestamp in stored image names
  // ---------------------------------------------------------------------------

  /** A local date and time as `datetime.now()` returns it. */
  datatype DateTime = DateTime(year: nat, month: nat, day: nat, hour: nat, minute: nat, second: nat)

  predicate ValidDateTime(t: DateTime)
  {
    1000 <= t.year <= 9999 && 1 <= t.month <= 12 && 1 <= t.day <= 31
    && t.hour < 24 && t.minute < 60 && t.second < 60
  }

  function Pow10(n: nat): nat
  {
    if n == 0 then 1 else 10 * Pow10(n - 1)
  }

  predicate IsDigit(c: char)
  {
    '0' <= c <= '9'
  }

  /** `n` written with exactly `width` decimal digits, zero-padded on the left. */
  function Digits(n: nat, width: nat): (s: string)
    requires n < Pow10(width)
    ensures |s| == width
    ensures forall i :: 0 <= i < |s| ==> IsDigit(s[i])
  {
    if width == 0 then []
    else Digits(n / 10, width - 1) + [('0' as int + n % 10) as char]
  }

  function DigitValue(c: char): (d: nat)
    requires IsDigit(c)
    ensures d < 10
  {
    (c as int - '0' as int) as nat
  }

  /** The value of a string of decimal digits. */
  function DigitsValue(s: string): nat
    requires forall i :: 0 <= i < |s| ==> IsDigit(s[i])
  {
    if |s| == 0 then 0
    else 10 * DigitsValue(s[..|s| - 1]) + DigitValue(s[|s| - 1])
  }

  /** Reading back a zero-padded number gives the number. */
  lemma {:induction false} DigitsRoundTrip(n: nat, width: nat)
    requires n < Pow10(width)
    ensures DigitsValue(Digits(n, width)) == n
  {
    if width > 0 {
      var s := Digits(n, width);
      assert s[..|s| - 1] == Digits(n / 10, width - 1);
      DigitsRoundTrip(n / 10, width - 1);
    }
  }

  /** `%Y%m%d`: eight digits. */
  function DatePart(t: DateTime): (s: string)
    requires ValidDateTime(t)
    ensures |s| == 8 && forall i :: 0 <= i < 8 ==> IsDigit(s[i])
  {
    Digits(t.year, 4) + Digits(t.month, 2) + Digits(t.day, 2)
  }

  /** `%H%M%S`: six digits. */
  function TimePart(t: DateTime): (s: string)
    requires ValidDateTime(t)
    ensures |s| == 6 && forall i :: 0 <= i < 6 ==> IsDigit(s[i])
  {
    Digits(t.hour, 2) + Digits(t.minute, 2) + Digits(t.second, 2)
  }

  /** `strftime("%Y%m%d_%H%M%S")`: fifteen characters, an underscore at position 8 and
      digits everywhere else. */
  function Stamp(t: DateTime): (s: string)
    requires ValidDateTime(t)
    ensures |s| == 15 && s[8] == '_'
    ensures forall i :: 0 <= i < 15 && i != 8 ==> IsDigit(s[i])
  {
    DatePart(t) + "_" + TimePart(t)
  }

  /** Reads the date and time back out of a stamp. */
  function ParseStamp(s: string): DateTime
    requires |s| == 15
    requires forall i :: 0 <= i < 15 && i != 8 ==> IsDigit(s[i])
  {
    DateTime(DigitsValue(s[0..4]), DigitsValue(s[4..6]), DigitsValue(s[6..8]),
             DigitsValue(s[9..11]), DigitsValue(s[11..13]), DigitsValue(s[13..15]))
  }

  /** The stamp determines the moment it was taken: no two valid moments share a stamp. */
  lemma StampRoundTrip(t: DateTime)
    requires ValidDateTime(t)
    ensures ParseStamp(Stamp(t)) == t
  {
    var s := Stamp(t);
    var date := DatePart(t);
    var time := TimePart(t);
    assert s[..8] == date && s[9..] == time;
    assert date[0..4] == Digits(t.year, 4);
    assert date[4..6] == Digits(t.month, 2);
    assert date[6..8] == Digits(t.day, 2);
    assert time[0..2] == Digits(t.hour, 2);
    assert time[2..4] == Digits(t.minute, 2);
    assert time[4..6] == Digits(t.second, 2);
    assert s[0..4] == date[0..4] && s[4..6] == date[4..6] && s[6..8] == date[6..8];
    assert s[9..11] == time[0..2] && s[11..13] == time[2..4] && s[13..15] == time[4..6];
    DigitsRoundTrip(t.year, 4);
    DigitsRoundTrip(t.month, 2);
    DigitsRoundTrip(t.day, 2);
    DigitsRoundTrip(t.hour, 2);
    DigitsRoundTrip(t.minute, 2);
    DigitsRoundTrip(t.second, 2);
  }

  /** The name under which a selected image is copied: stamp, underscore, the source name
      with spaces replaced by underscores, then the extension of the selected file. */
  function ImageFileName(now: DateTime, name: string, ext: string): (f: string)
    requires ValidDateTime(now)
    ensures |f| == 16 + |name| + |ext|
    ensures f[15] == '_' && f[16 + |name|..] == ext
    ensures forall i :: 0 <= i < |name| ==> f[16 + i] == (if name[i] == ' ' then '_' else name[i])
  {
    Stamp(now) + "_" + Underscored(name) + ext
  }

  /** The parts of a stored image name can be read back: the moment of saving, the name
      segment (the name with no spaces, same length), and the extension. */
  lemma ImageFileNameParts(now: DateTime, name: string, ext: string)
    requires ValidDateTime(now)
    ensures var f := ImageFileName(now, name, ext);
            && |f| == 16 + |name| + |ext|
            && ParseStamp(f[..15]) == now
            && f[15] == '_'
            && f[16..16 + |name|] == Underscored(name)
            && ' ' !in f[16..16 + |name|]
            && f[16 + |name|..] == ext
  {
    var f := ImageFileName(now, name, ext);
    assert f[..15] == Stamp(now);
    assert f[16..16 + |name|] == Underscored(name);
    StampRoundTrip(now);
  }

  // ---------------------------------------------------------------------------
  // The add-source form and saving
  // ---------------------------------------------------------------------------

  /** The contents of the add-source form: the text of each entry, the selected image path
      ("" when none) and the stored analysis result (absent until an image is analysed). */
  datatype Form = Form(
    nameText: string,
    sourceType: string,
    latText: string,
    lonText: string,
    notesText: string,
    imagePath: string,
    waterQuality: Option<string>)

  /** The form as the window opens it: coordinates "0.0", the first source type selected. */
  const InitialForm: Form := Form([], "Well", "0.0", "0.0", [], [], None)

  /** A row of the `water_sources` table (id and creation time are left to the database). */
  datatype Row = Row(
    name: string,
    sourceType: string,
    latitude: real,
    longitude: real,
    cleanliness: string,
    notes: string,
    imagePath: string)

  /** The application state the rules act on: the form and the stored rows, newest first. */
  datatype App = App(form: Form, sources: seq<Row>)

  /** Why `save_water_source` refuses, in the order it checks. */
  datatype SaveError = MissingName | InvalidCoordinates | NotAnalysed

  /** `clear_form`: every entry returns to its initial text and the analysis result is
      dropped; the source type keeps its current selection, which `clear_form` leaves alone. */
  function ClearForm(form: Form): (c: Form)
    ensures c == InitialForm.(sourceType := form.sourceType)
  {
    Form([], form.sourceType, "0.0", "0.0", [], [], None)
  }

  /** `upload_image`: a cancelled dialog (empty file name) changes nothing; otherwise the
      path is recorded and the placeholder analyser's result for sample `u` is stored. */
  function UploadImage(form: Form, fileName: string, u: real): (f: Form)
    requires 0.0 <= u < 1.0
    ensures fileName == [] ==> f == form
    ensures fileName != [] ==> f.imagePath == fileName && f.waterQuality.Some?
                               && IsQuality(f.waterQuality.value)
    ensures fileName != [] ==> f == form.(imagePath := fileName, waterQuality := f.waterQuality)
    ensures f.nameText == form.nameText && f.notesText == form.notesText
  {
    if fileName == [] then form
    else form.(imagePath := fileName, waterQuality := Some(AnalyzeWater(u)))
  }

  /** Typing into the entries and choosing a source type. */
  function EditFields(form: Form, name: string, sourceType: string, lat: string, lon: string, notes: string): Form
  {
    form.(nameText := name, sourceType := sourceType, latText := lat, lonText := lon, notesText := notes)
  }

  /** The `image_path` column: `str(image_filename)`, so the text "None" when no image was
      selected. */
  function StoredImagePath(imagePath: string, name: string, now: DateTime): (p: string)
    requires ValidDateTime(now)
    ensures imagePath == [] ==> p == "None"
    ensures imagePath != [] ==> p == ImageFileName(now, name, Extension(imagePath)) && |p| >= 16
  {
    if imagePath == [] then "None"
    else ImageFileName(now, name, Extension(imagePath))
  }

  /** `save_water_source`: the trimmed name must be non-empty, both coordinates must parse
      (`parse` stands for `float()`), and an analysis result must exist, checked in that
      order. On success the row is put in front of the listing and the form is cleared. */
  function SaveWaterSource(app: App, now: DateTime, parse: string -> Option<real>): (r: Result<App, SaveError>)
    requires ValidDateTime(now)
    ensures Strip(app.form.nameText) == [] ==> r == Err(MissingName)
    ensures (Strip(app.form.nameText) != []
             && (parse(app.form.latText).None? || parse(app.form.lonText).None?))
            ==> r == Err(InvalidCoordinates)
    ensures (Strip(app.form.nameText) != [] && parse(app.form.latText).Some?
             && parse(app.form.lonText).Some? && app.form.waterQuality.None?)
            ==> r == Err(NotAnalysed)
    ensures r.Ok? <==> (Strip(app.form.nameText) != [] && parse(app.form.latText).Some?
                        && parse(app.form.lonText).Some? && app.form.waterQuality.Some?)
    ensures r.Ok? ==>
              && |r.value.sources| == |app.sources| + 1
              && r.value.sources[1..] == app.sources
              && r.value.form == ClearForm(app.form)
              && r.value.form.waterQuality.None? && r.value.form.nameText == []
              && var row := r.value.sources[0];
              && row.name == Strip(app.form.nameText) && row.name != []
              && row.sourceType == app.form.sourceType
              && row.latitude == parse(app.form.latText).value
              && row.longitude == parse(app.form.lonText).value
              && row.cleanliness == app.form.waterQuality.value
              && row.notes == Strip(app.form.notesText)
              && row.imagePath == StoredImagePath(app.form.imagePath, row.name, now)
  {
    var form := app.form;
    var name := Strip(form.nameText);
    if name == [] then Err(MissingName)
    else
      match (parse(form.latText), parse(form.lonText))
      case (Some(lat), Some(lon)) =>
        if form.waterQuality.None? then Err(NotAnalysed)
        else Ok(App(ClearForm(form), [SavedRow(form, name, lat, lon, now)] + app.sources))
      case _ => Err(InvalidCoordinates)
  }

  /** The row `save_water_source` inserts for a form with an analysis result: the analysis
      result as cleanliness, the stripped notes, and the text "None" as image path exactly
      when no image is selected. */
  function SavedRow(form: Form, name: string, lat: real, lon: real, now: DateTime): (row: Row)
    requires ValidDateTime(now) && form.waterQuality.Some?
    ensures row.name == name && row.cleanliness == form.waterQuality.value
    ensures row.notes == Strip(form.notesText) && row.sourceType == form.sourceType
    ensures row.imagePath == "None" <==> form.imagePath == []
  {
    var path := StoredImagePath(form.imagePath, name, now);
    assert form.imagePath != [] ==> path != "None" by {
      if form.imagePath != [] {
        LongPathIsNotNone(path);
      }
    }
    Row(name, form.sourceType, lat, lon, form.waterQuality.value, Strip(form.notesText), path)
  }

  /** After a successful save an immediate second save is refused for the empty name, and
      even with a new name typed in it is refused until another image is analysed. */
  lemma SecondSaveRejected(app: App, now: DateTime, later: DateTime, parse: string -> Option<real>,
                           name: string, sourceType: string, lat: string, lon: string, notes: string)
    requires ValidDateTime(now) && ValidDateTime(later)
    requires SaveWaterSource(app, now, parse).Ok?
    ensures var saved := SaveWaterSource(app, now, parse).value;
            && SaveWaterSource(saved, later, parse) == Err(MissingName)
            && SaveWaterSource(App(EditFields(saved.form, name, sourceType, lat, lon, notes), saved.sources),
                               later, parse).Err?
  {
    var saved := SaveWaterSource(app, now, parse).value;
    assert Strip(saved.form.nameText) == [];
  }

  /** What holds of every form the user can reach: an analysis result exists only together
      with a selected image, and it is one of the analyser's three outcomes. */
  predicate Consistent(form: Form)
  {
    form.waterQuality.Some? ==> form.imagePath != [] && IsQuality(form.waterQuality.value)
  }

  /** The user's actions on the add-source tab, each taken to run to completion before the
      next one starts (see `InterruptedUploadStoresNone` for what happens otherwise). */
  datatype Action =
    | Edit(name: string, sourceType: string, lat: string, lon: string, notes: string)
    | Upload(fileName: string, sample: real)
    | Save(now: DateTime)

  predicate ActionValid(a: Action)
  {
    match a
    case Edit(_, _, _, _, _) => true
    case Upload(_, u) => 0.0 <= u < 1.0
    case Save(now) => ValidDateTime(now)
  }

  /** One action; a refused save leaves everything as it was. */
  function Step(app: App, a: Action, parse: string -> Option<real>): App
    requires ActionValid(a)
  {
    match a
    case Edit(name, sourceType, lat, lon, notes) =>
      app.(form := EditFields(app.form, name, sourceType, lat, lon, notes))
    case Upload(fileName, u) => app.(form := UploadImage(app.form, fileName, u))
    case Save(now) =>
      match SaveWaterSource(app, now, parse)
      case Ok(next) => next
      case Err(_) => app
  }

  function Run(app: App, actions: seq<Action>, parse: string -> Option<real>): App
    requires forall i :: 0 <= i < |actions| ==> ActionValid(actions[i])
    decreases |actions|
  {
    if |actions| == 0 then app
    else Run(Step(app, actions[0], parse), actions[1..], parse)
  }

  /** Every row saved from a reachable form has a non-empty trimmed name, one of the three
      qualities, and a real image file name, not the text "None". */
  predicate GoodRow(row: Row)
  {
    row.name != [] && IsQuality(row.cleanliness) && row.imagePath != "None"
  }

  /** A successful save from a consistent form stores a good row and leaves a consistent
      (cleared) form. */
  lemma SaveKeepsRowsGood(app: App, now: DateTime, parse: string -> Option<real>)
    requires ValidDateTime(now)
    requires Consistent(app.form)
    requires forall i :: 0 <= i < |app.sources| ==> GoodRow(app.sources[i])
    requires !AllSpace(app.form.nameText) && app.form.waterQuality.Some?
    requires parse(app.form.latText).Some? && parse(app.form.lonText).Some?
    ensures SaveWaterSource(app, now, parse).Ok?
    ensures var next := SaveWaterSource(app, now, parse).value;
            Consistent(next.form) && forall i :: 0 <= i < |next.sources| ==> GoodRow(next.sources[i])
  {
    var form := app.form;
    var name := Strip(form.nameText);
    var row := SavedRow(form, name, parse(form.latText).value, parse(form.lonText).value, now);
    var next := App(ClearForm(form), [row] + app.sources);
    assert SaveWaterSource(app, now, parse) == Ok(next);
    assert GoodRow(row);
    PrependGood(row, app.sources);
  }

  /** Putting a good row in front of good rows leaves only good rows. */
  lemma PrependGood(row: Row, rows: seq<Row>)
    requires GoodRow(row)
    requires forall i :: 0 <= i < |rows| ==> GoodRow(rows[i])
    ensures forall i :: 0 <= i < |[row] + rows| ==> GoodRow(([row] + rows)[i])
  {
  }

  lemma LongPathIsNotNone(p: string)
    requires |p| >= 16
    ensures p != "None"
  {
  }

  /** Each action keeps the form consistent and stores only good rows. */
  lemma StepPreservesConsistency(app: App, a: Action, parse: string -> Option<real>)
    requires ActionValid(a)
    requires Consistent(app.form)
    requires forall i :: 0 <= i < |app.sources| ==> GoodRow(app.sources[i])
    ensures var next := Step(app, a, parse);
            Consistent(next.form) && forall i :: 0 <= i < |next.sources| ==> GoodRow(next.sources[i])
  {
    match a
    case Edit(_, _, _, _, _) =>
    case Upload(_, _) =>
    case Save(now) =>
      if SaveWaterSource(app, now, parse).Ok? {
        SaveKeepsRowsGood(app, now, parse);
      }
  }

  /** When every action runs to completion before the next starts, any sequence of actions
      from a consistent state leaves only good rows in the table. */
  lemma {:induction false} RunStoresOnlyGoodRows(app: App, actions: seq<Action>, parse: string -> Option<real>)
    requires forall i :: 0 <= i < |actions| ==> ActionValid(actions[i])
    requires Consistent(app.form)
    requires forall i :: 0 <= i < |app.sources| ==> GoodRow(app.sources[i])
    ensures var last := Run(app, actions, parse);
            Consistent(last.form) && forall i :: 0 <= i < |last.sources| ==> GoodRow(last.sources[i])
    decreases |actions|
  {
    if |actions| > 0 {
      StepPreservesConsistency(app, actions[0], parse);
      RunStoresOnlyGoodRows(Step(app, actions[0], parse), actions[1..], parse);
    }
  }

  /** `upload_image` records the new path (`image_path_var.set(filename)`) before
      `analyze_water_image` lets the window process pending events (`root.update()`), and
      only afterwards stores the result (`self.water_quality = result`). A save clicked in
      between runs on the new path with the previous result and clears the form; the result
      then lands in the cleared form, which is no longer consistent, and the next save with
      a name and coordinates stores the image path "None". */
  lemma InterruptedUploadStoresNone(app: App, fileName: string, u: real, now: DateTime, later: DateTime,
                                    parse: string -> Option<real>, name: string, lat: string, lon: string)
    requires 0.0 <= u < 1.0 && ValidDateTime(now) && ValidDateTime(later)
    requires fileName != []
    requires !AllSpace(app.form.nameText) && app.form.waterQuality.Some?
    requires parse(app.form.latText).Some? && parse(app.form.lonText).Some?
    requires !AllSpace(name) && parse(lat).Some? && parse(lon).Some?
    ensures SaveWaterSource(app.(form := app.form.(imagePath := fileName)), now, parse).Ok?
    ensures var saved := SaveWaterSource(app.(form := app.form.(imagePath := fileName)), now, parse).value;
            var analysed := saved.form.(waterQuality := Some(AnalyzeWater(u)));
            var edited := EditFields(analysed, name, analysed.sourceType, lat, lon, []);
            var r := SaveWaterSource(App(edited, saved.sources), later, parse);
            && !Consistent(analysed)
            && r.Ok? && r.value.sources[0].imagePath == "None"
  {
    var saved := SaveWaterSource(app.(form := app.form.(imagePath := fileName)), now, parse).value;
    assert saved.form.imagePath == [];
  }

  /** The window opens with a consistent form. */
  lemma InitialFormConsistent()
    ensures Consistent(InitialForm)
  {
  }

  // ---------------------------------------------------------------------------
  // The view filter and the statistics
  // ---------------------------------------------------------------------------

  /** `b` contains the elements of `a` in the same relative order (and possibly more). */
  predicate IsSubsequence<T(==)>(a: seq<T>, b: seq<T>)
    decreases |b|
  {
    |a| == 0
    || (|b| > 0 && ((a[0] == b[0] && IsSubsequence(a[1..], b[1..])) || IsSubsequence(a, b[1..])))
  }

  /** The rows whose cleanliness is exactly `quality` (case-sensitive), in listing order. */
  function Matching(rows: seq<Row>, quality: string): (r: seq<Row>)
    ensures |r| == CountOf(rows, quality) <= |rows|
    ensures IsSubsequence(r, rows)
    ensures forall x :: multiset(r)[x] == if x.cleanliness == quality then multiset(rows)[x] else 0
  {
    if |rows| == 0 then []
    else
      assert rows == [rows[0]] + rows[1..];
      if rows[0].cleanliness == quality then [rows[0]] + Matching(rows[1..], quality)
      else Matching(rows[1..], quality)
  }

  /** `refresh_sources_list`: "All" lists every source; any other filter value lists
      exactly the sources whose cleanliness equals it, keeping the newest-first order. */
  function FilterSources(rows: seq<Row>, filterValue: string): (r: seq<Row>)
    ensures filterValue == "All" ==> r == rows
    ensures filterValue != "All" ==>
              && IsSubsequence(r, rows)
              && (forall i :: 0 <= i < |r| ==> r[i].cleanliness == filterValue)
              && (forall x :: x in rows && x.cleanliness == filterValue ==> x in r)
              && (forall x :: multiset(r)[x] == if x.cleanliness == filterValue then multiset(rows)[x] else 0)
  {
    if filterValue == "All" then rows
    else
      var r := Matching(rows, filterValue);
      assert forall i :: 0 <= i < |r| ==> multiset(r)[r[i]] > 0;
      r
  }

  /** The counts shown under the list. */
  datatype Tally = Tally(total: nat, clean: nat, muddy: nat, contaminated: nat)

  /** The three per-quality counts never exceed the number of rows, and they add up to it
      exactly when every row holds one of the three qualities. */
  lemma {:induction false} QualityCountsBound(rows: seq<Row>)
    ensures QualityCount(rows) <= |rows|
    ensures QualityCount(rows) == |rows| <==> forall i :: 0 <= i < |rows| ==> IsQuality(rows[i].cleanliness)
  {
    if |rows| > 0 {
      var rest := rows[1..];
      QualityCountsBound(rest);
      assert QualityCount(rows) == QualityCount(rest) + (if IsQuality(rows[0].cleanliness) then 1 else 0);
      assert forall i :: 1 <= i < |rows| ==> rows[i] == rest[i - 1];
      assert (forall i :: 0 <= i < |rows| ==> IsQuality(rows[i].cleanliness))
             <==> IsQuality(rows[0].cleanliness) && forall i :: 0 <= i < |rest| ==> IsQuality(rest[i].cleanliness);
    }
  }

  /** Number of rows whose cleanliness is exactly `quality`. */
  function CountOf(rows: seq<Row>, quality: string): nat
  {
    if |rows| == 0 then 0
    else (if rows[0].cleanliness == quality then 1 else 0) + CountOf(rows[1..], quality)
  }

  /** Sum of the three per-quality counts. */
  function QualityCount(rows: seq<Row>): nat
  {
    CountOf(rows, "Clean") + CountOf(rows, "Muddy") + CountOf(rows, "Contaminated")
  }

  /** `update_statistics`: no counts at all for an empty table (the early return that avoids
      dividing by zero); otherwise the total and, per quality, the number of rows whose
      cleanliness is exactly that text, which is what the filter shows for it. */
  function Statistics(rows: seq<Row>): (r: Option<Tally>)
    ensures r.None? <==> |rows| == 0
    ensures r.Some? ==>
              && r.value.total == |rows|
              && r.value.clean == |FilterSources(rows, "Clean")|
              && r.value.muddy == |FilterSources(rows, "Muddy")|
              && r.value.contaminated == |FilterSources(rows, "Contaminated")|
              && r.value.clean + r.value.muddy + r.value.contaminated <= r.value.total
  {
    if |rows| == 0 then None
    else
      QualityCountsBound(rows);
      Some(Tally(|rows|, |Matching(rows, "Clean")|, |Matching(rows, "Muddy")|,
                 |Matching(rows, "Contaminated")|))
  }

  /** When every row holds one of the analyser's three qualities, as every row saved through
      the form does (interrupted uploads included), the three counts add up to the total. */
  lemma StatisticsCoverReachableTables(rows: seq<Row>)
    requires |rows| > 0
    requires forall i :: 0 <= i < |rows| ==> IsQuality(rows[i].cleanliness)
    ensures var t := Statistics(rows).value;
            t.clean + t.muddy + t.contaminated == t.total
  {
    QualityCountsBound(rows);
  }
}
