/** The lead record as one row of the pipeline snapshot, and the small value
    types shared by the scorer, the ranking and the KPI block. */
module Leads {

  datatype Option<T> = None | Some(value: T) {
    /** The value, or `default` when absent (Python's `dict.get(key, default)`). */
    function GetOr(default: T): T {
      match this
      case Some(v) => v
      case None => default
    }
  }

  datatype Result<T, E> = Success(value: T) | Failure(error: E)

  /** The stages a lead moves through (class LeadStatus). */
  datatype LeadStatus =
    | New
    | Contacted
    | InspectionScheduled
    | InspectionCompleted
    | EstimateSubmitted
    | Awarded
    | Lost

  /** The strings of LeadStatus.ALL, in declared order. */
  const StageNames: seq<string> :=
    ["New", "Contacted", "Inspection Scheduled", "Inspection Completed", "Estimate Submitted", "Awarded", "Lost"]

  /** The string stored in the `status` column for each stage: one of the
      stage names, never empty. */
  function StatusName(s: LeadStatus): (name: string)
    ensures name in StageNames
    ensures name != ""
  {
    match s
    case New => "New"
    case Contacted => "Contacted"
    case InspectionScheduled => "Inspection Scheduled"
    case InspectionCompleted => "Inspection Completed"
    case EstimateSubmitted => "Estimate Submitted"
    case Awarded => "Awarded"
    case Lost => "Lost"
  }

  /** LeadStatus.ALL, in its declared order. */
  const AllStatuses: seq<LeadStatus> :=
    [New, Contacted, InspectionScheduled, InspectionCompleted, EstimateSubmitted, Awarded, Lost]

  lemma AllStatusesListsEachStageOnce()
    ensures forall s: LeadStatus :: s in AllStatuses
    ensures forall i, j :: 0 <= i < j < |AllStatuses| ==> AllStatuses[i] != AllStatuses[j]
  {
    forall s: LeadStatus ensures s in AllStatuses {
      match s
      case New => assert AllStatuses[0] == s;
      case Contacted => assert AllStatuses[1] == s;
      case InspectionScheduled => assert AllStatuses[2] == s;
      case InspectionCompleted => assert AllStatuses[3] == s;
      case EstimateSubmitted => assert AllStatuses[4] == s;
      case Awarded => assert AllStatuses[5] == s;
      case Lost => assert AllStatuses[6] == s;
    }
  }

  /** The strings of LeadStatus.ALL are the stages' status strings, in the
      same order. */
  lemma StageNamesMatchStatuses()
    ensures |StageNames| == |AllStatuses|
    ensures forall i :: 0 <= i < |AllStatuses| ==> StageNames[i] == StatusName(AllStatuses[i])
  {
  }

  lemma StatusNameInjective(a: LeadStatus, b: LeadStatus)
    ensures StatusName(a) == StatusName(b) ==> a == b
  {
  }

  /** A timestamp column as the scorer sees it, in hours since a fixed epoch.
      `Missing` is a value Python treats as false (None or the empty string);
      `Malformed` is a non-empty string that ISO-8601 parsing rejects. */
  datatype Stamp = Missing | Malformed | At(hours: real)

  /** One row of the lead snapshot: the columns the core reads. A missing
      `estimated_value` or `sla_hours` is `None`. */
  datatype Lead = Lead(
    id: int,
    estimatedValue: Option<real>,
    status: LeadStatus,
    slaHours: Option<int>,
    slaEnteredAt: Stamp,
    createdAt: Stamp,
    qualified: bool)

  /** `estimated_value`, with a missing value read as 0. */
  function ValueOrZero(l: Lead): real {
    l.estimatedValue.GetOr(0.0)
  }

  function Min(a: int, b: int): int {
    if a <= b then a else b
  }

  function RealMin(a: real, b: real): real {
    if a <= b then a else b
  }

  function RealMax(a: real, b: real): real {
    if a >= b then a else b
  }

  /** Arithmetic facts the scorer and the card share. */
  lemma MulMonotone(a: real, b: real, k: real)
    requires a <= b && 0.0 <= k
    ensures a * k <= b * k
  {
  }

  lemma MulAtMostOne(a: real, k: real)
    requires a <= 1.0 && 0.0 <= k
    ensures a * k <= k
  {
    MulMonotone(a, 1.0, k);
    assert 1.0 * k == k;
  }

  lemma DivMonotone(a: real, b: real, d: real)
    requires a <= b && 0.0 < d
    ensures a / d <= b / d
  {
  }
}
