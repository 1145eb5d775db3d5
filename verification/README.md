# Where's the Well? — a Dafny model of the classification and record-keeping rules

"Where's the Well?" logs water sources, such as wells, springs and streams, with a
photo-based quality assessment. It comes in two front ends, and this project models the
logic underneath both.

The web application is `wheres_the_well_app.py`. Its classifier decides a label and a
confidence from a photo:

- it computes a brown-pixel ratio over the RGB grid;
- it runs an ordered, first-match decision list over six scalar features;
- any failure falls back to ("unknown", 0.3).

`/add_water_source` stores either the classifier's pair or nothing, depending on whether a
photo was sent.

The desktop application is `wheres-the-well-app.py`. This project models:

- its placeholder analyser, a weighted random choice among "Clean", "Muddy" and
  "Contaminated";
- the add-source form and its save validation;
- the name under which a selected image is stored;
- `clear_form`;
- the cleanliness filter of the list view;
- the statistics tally.

The modules are:

| module | file | contents |
|---|---|---|
| `Common` | `common.dfy` | `Option` and `Result` |
| `PyText` | `pytext.dfy` | the Python string operations the save path uses: `str.strip()`, `str.replace(' ', '_')`, `str.rfind` and POSIX `os.path.splitext` |
| `WaterQuality` | `waterquality.dfy` | pixels, the brown ratio, channel means, the decision list, decode failure, and the `split(',')[1]` payload extraction |
| `WebApp` | `webapp.dfy` | the two routes over an in-memory table of rows in insertion order |
| `Desktop` | `desktop.dfy` | the analyser, timestamps and image names, the form and the actions on it, the filter and the statistics |

The desktop table is modelled as the sequence `get_all_sources` returns, newest first, so
a save puts its row in front.

The model also proves an invariant, assuming each user action runs to completion before
the next one starts: an analysis result exists only together with a selected image.
`Desktop.RunStoresOnlyGoodRows` uses it to show that, under that assumption,
`save_water_source` never stores the text "None" as an image path. The program does not
fully keep to the assumption. `upload_image` lets the window process pending clicks
(wheres-the-well-app.py:354) between recording the path and storing the result.
`Desktop.InterruptedUploadStoresNone` shows a save clicked in that gap leads to a stored
"None".

Label texts differ between the two applications:

- The web application produces lower-case labels ("clean", "muddy", "contaminated",
  "unknown"). The desktop application produces capitalised ones ("Clean", "Muddy",
  "Contaminated"). The model keeps the two vocabularies apart.
- The desktop filter and statistics compare these texts case-sensitively.

## Model

| member | source | states |
|---|---|---|
| WaterQuality.BrownCount | wheres_the_well_app.py:78 | the number of brown pixels is at most the number of pixels; it is zero exactly when no pixel has red > 100, green > 80 and blue < 80, and it equals the pixel count exactly when every pixel does |
| WaterQuality.BrownCountIsCardinality | wheres_the_well_app.py:78 | the brown count equals the size of the set of positions whose pixel passes the brown test |
| WaterQuality.CountBrownPixels | wheres_the_well_app.py:78 | summing the brown mask pixel by pixel gives the size of the set of brown positions |
| WaterQuality.BrownRatio | wheres_the_well_app.py:78-80 | for any non-empty grid the ratio lies in [0, 1]; multiplied by the pixel count it gives the brown count; it is 0 exactly when no pixel is brown and 1 exactly when all are |
| WaterQuality.ChannelSumBetween | wheres_the_well_app.py:66-72 | when every level of a channel lies in [lo, hi], the channel total lies between n·lo and n·hi |
| WaterQuality.ChannelMean | wheres_the_well_app.py:66-72 | a channel mean is non-negative and, multiplied by the pixel count, gives the channel total |
| WaterQuality.ChannelMeanBetween | wheres_the_well_app.py:70-72 | a channel mean lies between the smallest and the largest level present |
| WaterQuality.ExtractFeatures | wheres_the_well_app.py:62-80 | the feature record of a decoded grid carries a brown ratio in [0, 1] and the given brightness and turbidity |
| WaterQuality.FirstMatch | wheres_the_well_app.py:86-102 | in an ordered rule list the first rule whose indicator holds decides the answer; when no indicator holds the answer is ("muddy", 0.7 − 0.2) |
| WaterQuality.Classify | wheres_the_well_app.py:83-102 | the clean indicators give ("clean", 0.9); otherwise the muddy indicators give ("muddy", 0.8); otherwise the contamination indicators give ("contaminated", 0.75); otherwise the answer is ("muddy", 0.5) |
| WaterQuality.ClassifyLabels | wheres_the_well_app.py:83-102 | each label is returned exactly when its rule is the first to fire (both directions); a decoded photo is never "unknown"; every answer is one of the five fixed pairs |
| WaterQuality.ContaminatedOnlyWhenNotMuddy | wheres_the_well_app.py:91-98 | "contaminated" implies turbidity ≤ 50, brown ratio ≤ 0.15, not both red and green above blue, and one of the contamination indicators |
| WaterQuality.UncertainOnlyWhenCalm | wheres_the_well_app.py:96-102 | the muddy-0.5 fallback implies turbidity ≤ 40, brightness ≥ 50, a red–green gap ≤ 50 and a brown ratio ≤ 0.15 |
| WaterQuality.CleanAndMuddyExclusive | wheres_the_well_app.py:86-93 | the clean and muddy indicators never hold together, so swapping the first two rules gives the same answers on every input |
| WaterQuality.CleanShadowsContamination | wheres_the_well_app.py:86-98 | a concrete feature record satisfies both the clean and the contamination indicators and is classified clean, so rule order matters there |
| WaterQuality.ClearBlueWaterIsClean | wheres_the_well_app.py:86-88 | a bright, blue-dominant, calm picture with few brown pixels is ("clean", 0.9) |
| WaterQuality.AnalyzeWaterImage | wheres_the_well_app.py:51-106 | an undecodable photo or an empty grid gives exactly ("unknown", 0.3), and only then is the label "unknown"; a decoded photo is classified from its features; the result is always one of the five pairs, with confidence in [0, 1] |
| WaterQuality.AllBrownIsMuddy | wheres_the_well_app.py:78-93 | a photo whose pixels are all brown is ("muddy", 0.8) whatever its brightness and turbidity |
| WaterQuality.DataUrlPayload | wheres_the_well_app.py:53 | the payload is absent exactly when the text has no comma (where `split(',')[1]` raises); a present payload contains no comma and is shorter than the input |
| WaterQuality.DataUrlPayloadOfParts | wheres_the_well_app.py:53 | a data URL `header,body`, possibly followed by further comma-separated text, yields exactly `body` |
| WaterQuality.AnalyzePhotoData | wheres_the_well_app.py:46-106 | the text without a comma gives ("unknown", 0.3); otherwise the payload is decoded and analysed; the result is always one of the five pairs, and no error reaches the caller |
| WebApp.NextId | wheres_the_well_app.py:26 | a fresh autoincrement id is positive and greater than every id already in the table |
| WebApp.HasPhoto | wheres_the_well_app.py:579-581 | a truthy `photo_data` is a present, non-empty text, which is what `data.get` returns; a missing member, JSON null and "" are falsy |
| WebApp.StoredClassification | wheres_the_well_app.py:599-602 | with no truthy `photo_data` both stored values are null; with one they are exactly the classifier's label and confidence; the label is present exactly when a photo was sent (the truthiness test is the one at :601) |
| WebApp.AddWaterSource | wheres_the_well_app.py:599-620 | one row is appended and earlier rows are unchanged; the row carries the request's name, coordinates and type (NULL when sent as JSON null), a fresh id, null classification without a photo and the classifier's pair with one; notes and photo data are stored as sent, "" when missing and NULL when JSON null |
| WebApp.AddWaterSourcePreservesInvariants | wheres_the_well_app.py:599-620 | adding a source keeps ids unique and every stored label/confidence pair valid |
| WebApp.AnalyzeWaterRoute | wheres_the_well_app.py:575-591 | a request without truthy photo data is refused, and only such a request; otherwise the answer is exactly the classifier's pair for the photo, a valid pair with confidence in [0, 1] |
| WebApp.StoredPairMatchesAnalyzeRoute | wheres_the_well_app.py:575-602 | the pair stored for a photo is the pair `/analyze_water` reports for it, and nothing is stored exactly when `/analyze_water` would refuse |
| Desktop.Accumulate | wheres-the-well-app.py:101-103 | entry i of the running totals is the start value plus the sum of the first i + 1 weights; for non-negative weights the totals never decrease |
| Desktop.BisectRight | wheres-the-well-app.py:103 | the position found has every earlier entry ≤ x and, when it is not the end, an entry > x |
| Desktop.ChoiceIndex | wheres-the-well-app.py:103 | the chosen position is in range; every earlier running total is ≤ u·total, and the chosen one, unless it is the last, is above it |
| Desktop.WeightedChoice | wheres-the-well-app.py:100-103 | a weighted draw over non-negative weights with a positive total (the library refuses any other total) always returns a member of the population |
| Desktop.AnalyzeWater | wheres-the-well-app.py:100-103 | the analyser returns "Clean", "Muddy" or "Contaminated"; with weights 0.5/0.3/0.2 each outcome is returned exactly on its interval of the uniform sample, [0, 0.5), [0.5, 0.8) and [0.8, 1) |
| Desktop.AnalyzerTotals | wheres-the-well-app.py:101-103 | the running totals of the analyser's weights are 0.5, 0.8 and 1.0 |
| Desktop.ChoiceIndexOfAnalyzerTotals | wheres-the-well-app.py:103 | bisecting the analyser's totals picks position 0 below 0.5, position 1 below 0.8, and position 2 otherwise |
| Desktop.Digits | wheres-the-well-app.py:399 | a zero-padded number has exactly the requested width and consists of decimal digits |
| Desktop.DigitsRoundTrip | wheres-the-well-app.py:399 | reading a zero-padded number back gives the number |
| Desktop.Stamp | wheres-the-well-app.py:399 | `%Y%m%d_%H%M%S` is 15 characters, an underscore at position 8 and digits elsewhere |
| Desktop.StampRoundTrip | wheres-the-well-app.py:399 | the moment is read back from its stamp, so distinct valid moments give distinct stamps |
| Desktop.ImageFileName | wheres-the-well-app.py:399-401 | the image name is 16 characters longer than name and extension together; position 15 is "_"; the name follows with each space replaced by "_"; the extension ends the name |
| Desktop.ImageFileNameParts | wheres-the-well-app.py:399-401 | a stored image name splits into the stamp (which reads back as the moment of saving), "_", the name with every space replaced and the same length (so without spaces), and the extension |
| PyText.Strip | wheres-the-well-app.py:378 | `strip()` returns a contiguous piece of the input with only whitespace cut away on either side; the piece neither starts nor ends with whitespace; it is empty exactly when the input is all whitespace |
| PyText.StripPieces | wheres-the-well-app.py:378 | stripping leading and then trailing whitespace removes only whitespace and leaves nothing exactly when the input is all whitespace |
| PyText.Underscored | wheres-the-well-app.py:401 | `replace(' ', '_')` keeps the length, replaces exactly the spaces, keeps every other character, and leaves no space |
| PyText.RFind | wheres-the-well-app.py:400 | the index found holds the character and no later position does; -1 means the character does not occur; the loop agrees with the recursive `LastIndex` |
| PyText.Extension | wheres-the-well-app.py:400 | the extension is a suffix of the path; a non-empty one starts at a qualifying dot (the last dot, after the last slash, with a non-dot before it in the last component); an empty one means no dot qualifies |
| PyText.ExtensionAtUnique | wheres-the-well-app.py:400 | a path has at most one qualifying extension dot |
| PyText.SplitExt | wheres-the-well-app.py:400 | `splitext` returns a root and an extension whose concatenation is the path; the extension starts at the qualifying dot, or is empty with the root the whole path when none qualifies; it agrees with `Extension` |
| Desktop.ClearForm | wheres-the-well-app.py:428-441 | after clearing, the form equals the one the window opens with: empty name and notes, coordinates "0.0", no image and no analysis result; only the source-type selection is kept |
| Desktop.UploadImage | wheres-the-well-app.py:318-373 | a cancelled dialog changes nothing; a chosen file is recorded and an analysis result that is one of the three qualities is stored; every other field of the form is untouched |
| Desktop.StoredImagePath | wheres-the-well-app.py:395-414 | without a selected image the stored path is the text "None"; with one it is the stamped image name with the file's extension, at least 16 characters long |
| Desktop.SaveWaterSource | wheres-the-well-app.py:375-417 | an empty stripped name is refused first, then unparsable coordinates, then a missing analysis; saving succeeds exactly when none applies; on success one row is put in front and the others are kept; the row holds the stripped name, type, coordinates, analysis result, stripped notes and stored image path; the form becomes the cleared form |
| Desktop.SavedRow | wheres-the-well-app.py:409-414 | the inserted row holds the stripped name, the selected type, the analysis result and the stripped notes; its image path is the text "None" exactly when no image is selected |
| Desktop.SecondSaveRejected | wheres-the-well-app.py:390-392 | right after a successful save, saving again is refused for the empty name, and even with new field text it is refused until a new image is analysed |
| Desktop.SaveKeepsRowsGood | wheres-the-well-app.py:375-417 | a save from a consistent form leaves a consistent form and stores a row with a non-empty name, one of the three qualities and a real image name |
| Desktop.StepPreservesConsistency | wheres-the-well-app.py:318-441 | editing, uploading and saving each keep the form consistent and every stored row good |
| Desktop.RunStoresOnlyGoodRows | wheres-the-well-app.py:318-441 | when each action runs to completion, every stored row is good after any sequence of actions from a consistent state, so "None" never becomes an image path |
| Desktop.InterruptedUploadStoresNone | wheres-the-well-app.py:326-414 | a save clicked while an upload processes pending events (after the path is recorded, before the result is stored) leaves an analysis result in a cleared form; that form is inconsistent, and the next save with a name stores "None" as image path |
| Desktop.InitialFormConsistent | wheres-the-well-app.py:428-441 | the form the window opens with is consistent |
| Desktop.Matching | wheres-the-well-app.py:84 | the rows whose cleanliness equals the value form a subsequence of the listing in the same order; each row occurs as often as in the listing when it matches and not at all otherwise |
| Desktop.FilterSources | wheres-the-well-app.py:450-454 | "All" gives every source unchanged; any other value gives, in listing order, exactly the sources whose cleanliness equals it case-sensitively, with the same multiplicities |
| Desktop.QualityCountsBound | wheres-the-well-app.py:487-489 | the three per-quality counts add up to at most the number of rows, and to exactly that number precisely when every row holds one of the three qualities |
| Desktop.Statistics | wheres-the-well-app.py:477-489 | no tally for an empty table; otherwise the total is the row count, each per-quality count is the number of rows the filter shows for that quality, and the three add up to at most the total |
| Desktop.StatisticsCoverReachableTables | wheres-the-well-app.py:477-489 | when every row holds one of the three qualities, as every row saved through the form does, the three counts add up to the total |

## Left out

- Floating-point rounding: confidences are exact reals. In IEEE double precision,
  `0.7 + 0.2` is 0.8999999999999999, `0.7 + 0.1` is 0.7999999999999999 and `0.7 - 0.2`
  is 0.49999999999999994. So the program's clean 0.9, muddy 0.8 and uncertain muddy 0.5
  differ from the model's in the last bits; only 0.75 and 0.3 are exact.
- Grayscale conversion, `np.std` and the HSV image: brightness and turbidity are inputs of
  a decoded photo. `contrast` and the HSV array are computed but never used.
- Channel means: they are exact rational means over the pixel sequence. The pixel grid is
  flattened row by row, and its width and height are not kept apart.
- Base64 and PIL decoding: the `decode` parameter stands for them. Every failure inside
  `analyze_water_image` after the comma split is a `Failed` photo.
- Flask and sqlite: routes are functions over an in-memory table, and JSON, HTTP status
  codes and connections are not modelled. The 500 responses come from missing members
  read with `data[...]`, from a JSON-null `name`, `latitude` or `longitude` (their columns
  are `NOT NULL`), and from database errors. They are not modelled: these members are
  taken as present and non-null. A JSON-null `water_type` is accepted, because its column
  is nullable, and the model stores it as NULL.
- The web `timestamp` column: it is a parameter, and `get_water_sources`, which only
  reads and lists rows, is not modelled.
- The HTML and JavaScript template: map markers, geolocation and browser-side statistics
  are UI.
- The tkinter UI and its side effects: widgets, message boxes, the image preview, the
  folium map, coordinate averaging, the browser launch and `time.sleep`.
- Image copying: the model does not copy the image. A failed copy is only printed, and
  the row is saved anyway, which is what the model does.
- Desktop.AnalyzeWater: the random draw is the uniform sample `u`, passed in as a
  parameter, so no probabilities are stated. `bisect` is modelled as a linear scan. On the
  non-decreasing running totals it returns the same position as the binary search.
- Desktop.SaveWaterSource: `float()` parsing is the `parse` parameter. Neither
  application range-checks coordinates, and neither does the model.
- Desktop.SaveWaterSource: a NaN coordinate is not modelled. `float('nan')` parses, but
  SQLite stores NaN as NULL. The insert into the `NOT NULL` column
  (wheres-the-well-app.py:43, 414) then raises an error after the image copy and before
  `clear_form`. The model treats every parsed coordinate as stored.
- Desktop.RunStoresOnlyGoodRows: every callback is taken to run to completion before the
  next one starts. The pending events `upload_image` processes at
  wheres-the-well-app.py:354 break this; `Desktop.InterruptedUploadStoresNone` shows
  where that leads.
- Desktop.Statistics: the percentage text is left out; the model gives the counts only.
- Desktop.FilterSources: the model assumes distinct creation times, which makes the
  listing order well defined. With equal `created_at` values, SQL leaves the order of
  tied rows unspecified, and the model does not capture that.
- Desktop.Stamp: years are restricted to 1000–9999 (`ValidDateTime`). `strftime` pads
  smaller years differently across platforms.
- PyText.SplitExt: POSIX paths only. The Windows flavour, which also splits on
  backslashes and drive letters, is not modelled.
