/** The two request handlers of the web application that use the classifier:
    `/analyze_water` (classify a submitted photo) and `/add_water_source` (classify the
    optional photo, then insert a row). The sqlite table is an in-memory sequence of rows in
    insertion order. */
module WebApp {
  import opened Common
  import opened WaterQuality

  /** One member of the submitted JSON object, as `dict.get` sees it. */
  datatype Field<T> = Missing | Null | Given(value: T)

  /** `data.get(key, default)`: the default when the member is missing, Python `None`
      for JSON null, the value otherwise. */
  function GetOr<T>(f: Field<T>, default: T): Option<T>
  {
    match f
    case Missing => Some(default)
    case Null => None
    case Given(v) => Some(v)
  }

  /** The truthiness test `if data.get('photo_data')`: present, not null, not "". */
  predicate HasPhoto(f: Field<string>)
    ensures HasPhoto(f) ==> f.Given? && GetOr(f, []) == Some(f.value) && f.value != []
    ensures f.Missing? || f.Null? || f == Given([]) ==> !HasPhoto(f)
  {
    f.Given? && f.value != []
  }

  /** A submission to `/add_water_source`. The members read with `data[...]` are taken as
      present; `water_type` may be JSON null (`None`), which its nullable column accepts.
      `notes` and `photo_data` are read with `data.get`. */
  datatype SourceRequest = SourceRequest(
    name: string,
    latitude: real,
    longitude: real,
    waterType: Option<string>,
    notes: Field<string>,
    photoData: Field<string>)

  /** A row of the `water_sources` table. `cleanliness` is stored as the label's lower-case
      text (`LabelName`); null columns are `None`. */
  datatype SourceRow = SourceRow(
    id: nat,
    name: string,
    latitude: real,
    longitude: real,
    waterType: Option<string>,
    cleanliness: Option<Label>,
    confidence: Option<real>,
    notes: Option<string>,
    photoData: Option<string>,
    timestamp: int)

  /** The largest id in the table, 0 for an empty table. */
  function MaxId(table: seq<SourceRow>): (m: nat)
    ensures forall i :: 0 <= i < |table| ==> table[i].id <= m
    ensures |table| > 0 ==> exists i :: 0 <= i < |table| && table[i].id == m
  {
    if |table| == 0 then 0
    else
      var rest := MaxId(table[..|table| - 1]);
      var last := table[|table| - 1].id;
      if last >= rest then last else rest
  }

  /** `INTEGER PRIMARY KEY AUTOINCREMENT` when rows are never deleted: one more than the
      largest id present, so it differs from every id in the table. */
  function NextId(table: seq<SourceRow>): (id: nat)
    ensures id > 0
    ensures forall i :: 0 <= i < |table| ==> table[i].id < id
  {
    MaxId(table) + 1
  }

  predicate UniqueIds(table: seq<SourceRow>)
  {
    forall i, j :: 0 <= i < j < |table| ==> table[i].id != table[j].id
  }

  /** A stored classification is either absent in both columns or one of the classifier's
      five pairs. */
  predicate StoredPairValid(row: SourceRow)
  {
    (row.cleanliness.None? && row.confidence.None?)
    || (row.cleanliness.Some? && row.confidence.Some?
        && IsOutcome(Assessment(row.cleanliness.value, row.confidence.value)))
  }

  /** The label and confidence `add_water_source` stores: both null without a photo, the
      classifier's pair with one. */
  function StoredClassification(photoData: Field<string>, decode: string -> Photo): (p: (Option<Label>, Option<real>))
    ensures !HasPhoto(photoData) ==> p.0.None? && p.1.None?
    ensures HasPhoto(photoData) ==>
              var a := AnalyzePhotoData(photoData.value, decode);
              p.0 == Some(a.quality) && p.1 == Some(a.confidence)
    ensures p.0.Some? <==> HasPhoto(photoData)
  {
    if HasPhoto(photoData) then
      var a := AnalyzePhotoData(photoData.value, decode);
      (Some(a.quality), Some(a.confidence))
    else (None, None)
  }

  /** `/add_water_source`: classify the photo when one is supplied, then append a row.
      `decode` is the base64 and image decoding step and `now` the database clock. Earlier
      rows are untouched; missing notes or photo data are stored as "" and JSON null as NULL;
      the new id is fresh. */
  function AddWaterSource(table: seq<SourceRow>, req: SourceRequest, decode: string -> Photo, now: int)
    : (t: seq<SourceRow>)
    ensures |t| == |table| + 1 && t[..|table|] == table
    ensures var row := t[|table|];
            && row.name == req.name && row.latitude == req.latitude
            && row.longitude == req.longitude && row.waterType == req.waterType
            && row.timestamp == now
            && (forall i :: 0 <= i < |table| ==> table[i].id != row.id)
            && (!HasPhoto(req.photoData) ==> row.cleanliness.None? && row.confidence.None?)
            && (HasPhoto(req.photoData) ==>
                  var a := AnalyzePhotoData(req.photoData.value, decode);
                  row.cleanliness == Some(a.quality) && row.confidence == Some(a.confidence))
            && (req.notes.Missing? ==> row.notes == Some([]))
            && (req.notes.Null? ==> row.notes.None?)
            && (req.notes.Given? ==> row.notes == Some(req.notes.value))
            && (req.photoData.Missing? ==> row.photoData == Some([]))
            && (req.photoData.Null? ==> row.photoData.None?)
            && (req.photoData.Given? ==> row.photoData == Some(req.photoData.value))
            && StoredPairValid(row)
  {
    var (cleanliness, confidence) := StoredClassification(req.photoData, decode);
    table + [SourceRow(NextId(table), req.name, req.latitude, req.longitude, req.waterType,
                       cleanliness, confidence, GetOr(req.notes, []), GetOr(req.photoData, []), now)]
  }

  /** Adding a source keeps ids unique and every stored classification valid. */
  lemma AddWaterSourcePreservesInvariants(table: seq<SourceRow>, req: SourceRequest,
                                          decode: string -> Photo, now: int)
    requires UniqueIds(table)
    requires forall i :: 0 <= i < |table| ==> StoredPairValid(table[i])
    ensures var t := AddWaterSource(table, req, decode, now);
            UniqueIds(t) && forall i :: 0 <= i < |t| ==> StoredPairValid(t[i])
  {
    var t := AddWaterSource(table, req, decode, now);
    forall i, j | 0 <= i < j < |t|
      ensures t[i].id != t[j].id
    {
      if j < |table| {
        assert t[i] == table[i] && t[j] == table[j];
      } else {
        assert t[i] == table[i];
      }
    }
    forall i | 0 <= i < |t|
      ensures StoredPairValid(t[i])
    {
      if i < |table| {
        assert t[i] == table[i];
      }
    }
  }

  /** Why `/analyze_water` refuses a request. */
  datatype RouteError = NoPhotoData

  /** `/analyze_water`: a request without a truthy `photo_data` is refused (HTTP 400);
      otherwise the classifier's pair is returned, and the classifier never raises. */
  function AnalyzeWaterRoute(photoData: Field<string>, decode: string -> Photo): (r: Result<Assessment, RouteError>)
    ensures r.Err? <==> !HasPhoto(photoData)
    ensures r.Ok? ==> IsOutcome(r.value) && 0.0 <= r.value.confidence <= 1.0
    ensures r.Ok? ==> r.value == AnalyzePhotoData(photoData.value, decode)
  {
    if !HasPhoto(photoData) then Err(NoPhotoData)
    else Ok(AnalyzePhotoData(photoData.value, decode))
  }

  /** The pair `/add_water_source` stores for a photo is the one `/analyze_water` reports
      for the same photo, and a source is stored without a classification exactly when
      `/analyze_water` would refuse the photo. */
  lemma StoredPairMatchesAnalyzeRoute(table: seq<SourceRow>, req: SourceRequest,
                                      decode: string -> Photo, now: int)
    ensures var row := AddWaterSource(table, req, decode, now)[|table|];
            match AnalyzeWaterRoute(req.photoData, decode)
            case Ok(a) => row.cleanliness == Some(a.quality) && row.confidence == Some(a.confidence)
            case Err(_) => row.cleanliness.None? && row.confidence.None?
  {
  }
}
