/** The KPI figures of the pipeline board, computed from one lead snapshot:
    counts by qualification and status, the pipeline value, and percentage
    rates whose zero denominators yield 0. */
module Kpi {
  import opened Leads

  /** The text that marks a lead as booked for inspection. */
  const BookedPattern: string := "Inspection Scheduled"
  /** Return multiplier of the estimated ROI. */
  const RoiFactor: real := 1.4

  /** `sub` occurs in `s` starting at offset `i`. */
  predicate OccursAt(s: string, sub: string, i: int) {
    0 <= i <= |s| - |sub| && s[i..i + |sub|] == sub
  }

  /** Substring search: true exactly when `sub` occurs in `s` at some
      offset. */
  function Contains(s: string, sub: string): (r: bool)
    ensures r <==> exists i :: OccursAt(s, sub, i)
    decreases |s|
  {
    if |s| < |sub| then false
    else if s[..|sub|] == sub then
      assert OccursAt(s, sub, 0);
      true
    else
      var rest := Contains(s[1..], sub);
      assert rest <==> exists i :: OccursAt(s, sub, i) by {
        assert !OccursAt(s, sub, 0);
        forall i | 1 <= i <= |s| - |sub|
          ensures OccursAt(s, sub, i) <==> OccursAt(s[1..], sub, i - 1)
        {
          var here, there := s[i..i + |sub|], s[1..][i - 1..i - 1 + |sub|];
          assert forall k :: 0 <= k < |here| ==> here[k] == there[k];
          assert here == there;
        }
        if rest {
          var j :| OccursAt(s[1..], sub, j);
          assert OccursAt(s, sub, j + 1);
        }
      }
      rest
  }

  /** Leads whose `qualified` flag is true. */
  function CountQualified(leads: seq<Lead>): (n: nat)
    ensures n <= |leads|
  {
    if leads == [] then 0
    else (if leads[0].qualified then 1 else 0) + CountQualified(leads[1..])
  }

  /** Leads whose status text equals `name`: the comparison of the status
      column with a stage's string value. */
  function CountStatusNamed(leads: seq<Lead>, name: string): (n: nat)
    ensures n <= |leads|
  {
    if leads == [] then 0
    else (if StatusName(leads[0].status) == name then 1 else 0) + CountStatusNamed(leads[1..], name)
  }

  /** Leads whose status is `s`. */
  function CountStatus(leads: seq<Lead>, s: LeadStatus): (n: nat)
    ensures n <= |leads|
  {
    if leads == [] then 0
    else (if leads[0].status == s then 1 else 0) + CountStatus(leads[1..], s)
  }

  /** Leads whose status text contains `pattern`. */
  function CountStatusContaining(leads: seq<Lead>, pattern: string): (n: nat)
    ensures n <= |leads|
  {
    if leads == [] then 0
    else (if Contains(StatusName(leads[0].status), pattern) then 1 else 0)
         + CountStatusContaining(leads[1..], pattern)
  }

  /** The sum of `estimated_value`, a missing value adding nothing: with no
      negative estimate the sum is not negative and no lead's value exceeds
      it. */
  function PipelineValue(leads: seq<Lead>): (r: real)
    ensures leads == [] ==> r == 0.0
    ensures (forall i :: 0 <= i < |leads| ==> 0.0 <= ValueOrZero(leads[i])) ==>
              0.0 <= r && forall i :: 0 <= i < |leads| ==> ValueOrZero(leads[i]) <= r
  {
    if leads == [] then 0.0
    else
      var rest := PipelineValue(leads[1..]);
      assert forall i :: 1 <= i < |leads| ==> leads[1..][i - 1] == leads[i];
      ValueOrZero(leads[0]) + rest
  }

  /** `part / whole * 100`, or 0 when `whole` is 0. */
  function Percent(part: nat, whole: nat): (r: real)
    ensures whole == 0 ==> r == 0.0
    ensures 0.0 <= r
    ensures part <= whole ==> r <= 100.0
    ensures 0 < whole == part ==> r == 100.0
    ensures part == 0 ==> r == 0.0
  {
    if whole == 0 then 0.0
    else
      assert part <= whole ==> part as real / whole as real <= 1.0;
      part as real / whole as real * 100.0
  }

  /** A non-zero denominator makes the rate the percentage `part` is of `whole`. */
  lemma PercentIsRatio(rate: real, part: nat, whole: nat)
    requires rate == Percent(part, whole)
    ensures 0 < whole ==> rate * whole as real == part as real * 100.0
  {
  }

  /** `won / (total or 1) * 1.4`. */
  function Roi(won: nat, total: nat): (r: real)
    ensures total == 0 ==> r == won as real * RoiFactor
    ensures total > 0 ==> r * total as real == won as real * RoiFactor
    ensures won <= total ==> 0.0 <= r <= RoiFactor
  {
    var divisor := if total == 0 then 1 else total;
    assert won <= total ==> won as real / divisor as real <= 1.0;
    won as real / divisor as real * RoiFactor
  }

  /** A non-zero total makes the ROI 1.4 times the share of leads won. */
  lemma RoiIsRatio(roi: real, won: nat, total: nat)
    requires roi == Roi(won, total)
    ensures 0 < total ==> roi * total as real == won as real * RoiFactor
  {
  }

  /** The figures of the KPI grid, unrounded. */
  datatype Kpis = Kpis(
    total: nat,
    qualified: nat,
    won: nat,
    lost: nat,
    booked: nat,
    pipelineValue: real,
    roi: real,
    responseCompliance: real,
    qualificationRate: real,
    inspectionConversion: real,
    winRate: real)

  function Aggregate(leads: seq<Lead>): (k: Kpis)
    ensures k.total == |leads|
    ensures k.qualified == CountQualified(leads)
    ensures k.pipelineValue == PipelineValue(leads)
    ensures RatesHold(k)
    ensures k.qualified <= k.total && k.booked <= k.total
    ensures k.won + k.lost <= k.total
    ensures k.won == CountStatus(leads, Awarded) && k.lost == CountStatus(leads, Lost)
    ensures k.booked == CountStatus(leads, InspectionScheduled)
    ensures k.responseCompliance == k.qualificationRate
    ensures 0.0 <= k.qualificationRate <= 100.0
    ensures 0.0 <= k.winRate <= 100.0
    ensures 0.0 <= k.roi <= RoiFactor
    ensures 0.0 <= k.inspectionConversion
    ensures k.total == 0 ==>
              k.qualificationRate == 0.0 && k.inspectionConversion == 0.0 &&
              k.winRate == 0.0 && k.roi == 0.0 && k.pipelineValue == 0.0
    ensures k.qualified == 0 ==> k.inspectionConversion == 0.0
    ensures k.won + k.lost == 0 ==> k.winRate == 0.0
  {
    var total := |leads|;
    var qualified := CountQualified(leads);
    var won := CountStatusNamed(leads, StatusName(Awarded));
    var lost := CountStatusNamed(leads, StatusName(Lost));
    var booked := CountStatusContaining(leads, BookedPattern);
    CountByNameIsCountByStatus(leads, Awarded);
    CountByNameIsCountByStatus(leads, Lost);
    StatusCountsDisjoint(leads, Awarded, Lost);
    BookedMeansInspectionScheduled(leads);
    Grid(total, qualified, won, lost, booked, PipelineValue(leads))
  }

  /** The grid built from the counts: the ROI and the four rates, each
      guarded against a zero denominator. */
  function Grid(total: nat, qualified: nat, won: nat, lost: nat, booked: nat, value: real): (k: Kpis)
    ensures k.total == total && k.qualified == qualified && k.won == won && k.lost == lost
    ensures k.booked == booked && k.pipelineValue == value
    ensures RatesHold(k)
    ensures k.responseCompliance == k.qualificationRate
    ensures 0.0 <= k.qualificationRate && (qualified <= total ==> k.qualificationRate <= 100.0)
    ensures 0.0 <= k.winRate <= 100.0
    ensures 0.0 <= k.roi && (won <= total ==> k.roi <= RoiFactor)
    ensures 0.0 <= k.inspectionConversion
    ensures total == 0 ==> k.qualificationRate == 0.0 && k.roi == won as real * RoiFactor
    ensures qualified == 0 ==> k.inspectionConversion == 0.0
    ensures won + lost == 0 ==> k.winRate == 0.0
  {
    var roi := Roi(won, total);
    var qualificationRate := Percent(qualified, total);
    var conversion := Percent(booked, qualified);
    var winRate := Percent(won, won + lost);
    RoiIsRatio(roi, won, total);
    PercentIsRatio(qualificationRate, qualified, total);
    PercentIsRatio(conversion, booked, qualified);
    PercentIsRatio(winRate, won, won + lost);
    Kpis(total, qualified, won, lost, booked, value, roi, qualificationRate, qualificationRate, conversion, winRate)
  }

  /** The ratios the KPI grid reports, each under a non-zero denominator. */
  predicate RatesHold(k: Kpis) {
    && (k.total > 0 ==> k.qualificationRate * k.total as real == k.qualified as real * 100.0)
    && (k.qualified > 0 ==> k.inspectionConversion * k.qualified as real == k.booked as real * 100.0)
    && (k.won + k.lost > 0 ==> k.winRate * (k.won + k.lost) as real == k.won as real * 100.0)
    && (k.total > 0 ==> k.roi * k.total as real == k.won as real * RoiFactor)
  }

  /** Two different statuses count disjoint sets of leads. */
  lemma {:induction false} StatusCountsDisjoint(leads: seq<Lead>, a: LeadStatus, b: LeadStatus)
    requires a != b
    ensures CountStatus(leads, a) + CountStatus(leads, b) <= |leads|
  {
    if leads != [] {
      StatusCountsDisjoint(leads[1..], a, b);
    }
  }

  /** Among the stage names only "Inspection Scheduled" contains the
      booked pattern. */
  lemma StatusContainsBookedPattern(s: LeadStatus)
    ensures Contains(StatusName(s), BookedPattern) <==> s == InspectionScheduled
  {
    if s == InspectionCompleted {
      var n := StatusName(s);
      assert n[11] != BookedPattern[11];
      assert n[..|BookedPattern|] != BookedPattern;
      assert !Contains(n[1..], BookedPattern);
    }
  }

  /** The substring count of the booked pattern is the count of leads in
      the Inspection Scheduled stage. */
  lemma {:induction false} BookedMeansInspectionScheduled(leads: seq<Lead>)
    ensures CountStatusContaining(leads, BookedPattern) == CountStatus(leads, InspectionScheduled)
  {
    if leads != [] {
      StatusContainsBookedPattern(leads[0].status);
      BookedMeansInspectionScheduled(leads[1..]);
    }
  }

  /** Matching the status text against a stage's string value counts the
      leads in that stage: distinct stages have distinct strings. */
  lemma {:induction false} CountByNameIsCountByStatus(leads: seq<Lead>, s: LeadStatus)
    ensures CountStatusNamed(leads, StatusName(s)) == CountStatus(leads, s)
  {
    if leads != [] {
      StatusNameInjective(leads[0].status, s);
      CountByNameIsCountByStatus(leads[1..], s);
    }
  }

  /** Booked leads need not be qualified, so the inspection conversion can
      exceed 100: one qualified and one unqualified lead, both booked, give
      200. */
  lemma InspectionConversionCanExceedHundred()
    ensures Aggregate([
              Lead(1, None, InspectionScheduled, None, Missing, Missing, true),
              Lead(2, None, InspectionScheduled, None, Missing, Missing, false)
            ]).inspectionConversion == 200.0
  {
    var leads := [
      Lead(1, None, InspectionScheduled, None, Missing, Missing, true),
      Lead(2, None, InspectionScheduled, None, Missing, Missing, false)
    ];
    assert CountQualified(leads) == 1 by {
      assert leads[1..][1..] == [];
    }
    assert CountStatus(leads, InspectionScheduled) == 2 by {
      assert leads[1..][1..] == [];
    }
  }
}
