/** The two closed vocabularies of the pipeline: document steps in their reference order, and the
    document types a job may request, with the names the API knows them by. */
module Catalog {

  datatype Option<T> = None | Some(value: T)

  /** reference.RESIDENTIAL_DOCS keys. */
  datatype StepKey =
    | Parcel | Appraiser | Deed | Plat | Adjoiners | Easements | PriorSurvey
    | Flood | Benchmarks | Glo | Condo | Zoning

  const REFERENCE: seq<StepKey> :=
    [Parcel, Appraiser, Deed, Plat, Adjoiners, Easements, PriorSurvey, Flood, Benchmarks, Glo, Condo, Zoning]

  datatype DocType = ParcelRecord | TaxRecord | RecordedPlat | SubjectDeed | FloodZone | NgsControl

  /** The order of adapters.DOC_TYPE_TO_STEP, used for an empty request. */
  const ALL_TYPES: seq<DocType> := [ParcelRecord, TaxRecord, RecordedPlat, SubjectDeed, FloodZone, NgsControl]

  /** adapters.STEP_TO_DOC_TYPE; six of the twelve steps have a type. */
  function TypeOf(k: StepKey): Option<DocType> {
    match k
    case Parcel => Some(ParcelRecord)
    case Appraiser => Some(TaxRecord)
    case Plat => Some(RecordedPlat)
    case Deed => Some(SubjectDeed)
    case Flood => Some(FloodZone)
    case Benchmarks => Some(NgsControl)
    case _ => None
  }

  /** adapters.DOC_TYPE_TO_STEP */
  function StepOf(d: DocType): StepKey {
    match d
    case ParcelRecord => Parcel
    case TaxRecord => Appraiser
    case RecordedPlat => Plat
    case SubjectDeed => Deed
    case FloodZone => Flood
    case NgsControl => Benchmarks
  }

  function Name(d: DocType): string {
    match d
    case ParcelRecord => "PARCEL_RECORD"
    case TaxRecord => "PROPERTY_APPRAISER_TAX_RECORD"
    case RecordedPlat => "RECORDED_PLAT_SUBDIVISION_MAP"
    case SubjectDeed => "DEED_SUBJECT_PARCEL"
    case FloodZone => "FEMA_FLOOD_ZONE_FIRM"
    case NgsControl => "NGS_CONTROL"
  }

  function ByName(t: string): Option<DocType> {
    if t == "PARCEL_RECORD" then Some(ParcelRecord)
    else if t == "PROPERTY_APPRAISER_TAX_RECORD" then Some(TaxRecord)
    else if t == "RECORDED_PLAT_SUBDIVISION_MAP" then Some(RecordedPlat)
    else if t == "DEED_SUBJECT_PARCEL" then Some(SubjectDeed)
    else if t == "FEMA_FLOOD_ZONE_FIRM" then Some(FloodZone)
    else if t == "NGS_CONTROL" then Some(NgsControl)
    else None
  }

  function ByStepName(k: string): Option<DocType> {
    if k == "parcel" then Some(ParcelRecord)
    else if k == "appraiser" then Some(TaxRecord)
    else if k == "plat" then Some(RecordedPlat)
    else if k == "deed" then Some(SubjectDeed)
    else if k == "flood" then Some(FloodZone)
    else if k == "benchmarks" then Some(NgsControl)
    else None
  }

  lemma NameFound(d: DocType)
    ensures ByName(Name(d)) == Some(d)
  {}

  lemma NamesRoundTrip(d: DocType)
    ensures ByName(Name(d)) == Some(d)
    ensures TypeOf(StepOf(d)) == Some(d) && StepOf(d) in REFERENCE && d in ALL_TYPES
  {
    NameFound(d);
    hide Name, ByName;
    assert ALL_TYPES[0] == ParcelRecord && ALL_TYPES[1] == TaxRecord && ALL_TYPES[2] == RecordedPlat
        && ALL_TYPES[3] == SubjectDeed && ALL_TYPES[4] == FloodZone && ALL_TYPES[5] == NgsControl;
    assert REFERENCE[0] == Parcel && REFERENCE[1] == Appraiser && REFERENCE[2] == Deed && REFERENCE[3] == Plat
        && REFERENCE[7] == Flood && REFERENCE[8] == Benchmarks;
  }

  predicate NoDuplicates<T(==)>(s: seq<T>) {
    forall i, j :: 0 <= i < j < |s| ==> s[i] != s[j]
  }
}
