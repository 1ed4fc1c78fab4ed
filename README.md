# Lead priority and KPI core of the lead-pipeline dashboard

The repository is a single-page Streamlit app for a sales-lead pipeline. The
only computation in it is the arithmetic behind the "Pipeline Board" page.
This project models that arithmetic in Dafny and proves properties of it.

The modelled parts are:

- **Priority scorer** (`compute_priority_for_lead_row`). It clamps the
  estimated value against a baseline. It starts an SLA clock at
  `sla_entered_at`, or at `created_at` when that is missing. It turns the
  hours left into an SLA score over a 72-hour window. It combines the two
  scores with two weights and divides by `1 + urgency`.
- **KPI block**. It gives counts, the pipeline value, the estimated ROI and
  four percentage rates over the lead snapshot. Every rate is 0 when its
  denominator is 0.
- **Priority list**. It scores every lead with the board's weights, sorts by
  score (highest first) and keeps the first eight.
- **Lead card decisions** (`render_priority_lead_card`). These are the tier of
  a score (CRITICAL, HIGH, NORMAL), the SLA line (OVERDUE, or whole hours and
  minutes left) and the colour of the status badge.

Modules, one per component:

- `Leads` (`leads.dfy`): the lead row, the `LeadStatus` stages, `Option` and `Result`.
- `PriorityScore` (`priority_score.dfy`): the scorer.
- `Kpi` (`kpi.dfy`): the KPI block, with the counts written as recursive functions.
- `Ranking` (`ranking.dfy`): the priority list. It is a method whose loop
  builds the scored list; the list is then sorted and truncated. This module
  also holds the lemmas that link the board to the card.
- `PriorityCard` (`priority_card.dfy`): the card decisions.

How the model represents the source:

- Times are real numbers of hours since a fixed epoch (UTC). The clock is the
  parameter `now`.
- A timestamp column is a `Stamp`. `Missing` stands for a value Python treats
  as false (None or the empty string), which makes `or` fall back to
  `created_at`. `Malformed` stands for a non-empty string that ISO-8601 parsing
  rejects. `At(h)` is a usable time.
- The weights dictionary has one `Option` per key. `None` means the key is
  absent, so the default applies.

The scorer does not always return. The model covers three cases in which
Python raises, checked in this order (a fourth, date overflow, is listed under
"Left out"):

1. The baseline is 0: a `ZeroDivisionError` on line 116.
2. `1 + urgency` is 0: a `ZeroDivisionError` on line 130.
3. No usable SLA entry timestamp: the `except` branch sets only `sla_score`,
   so line 131 reads an unbound `time_left_h`.

The model returns these as `Failure` values. The priority list fails with the
first lead that cannot be scored, as the exception would end the loop.

The code has no engagement-flag term. It does not normalise by the sum of the
weights, and it does not clamp the score to [0, 1]. The SLA score is negative
when more than 72 hours remain. The sort promises no tie order.

## Model

| member | source | states |
|---|---|---|
| `Leads.AllStatusesListsEachStageOnce` | project_x_singlefile.py:20-28 | `LeadStatus.ALL` lists each of the seven stages exactly once |
| `Leads.StatusName` | project_x_singlefile.py:20-28 | each stage's status string is one of the non-empty strings of `LeadStatus.ALL` |
| `Leads.StatusNameInjective` | project_x_singlefile.py:20-27 | different stages have different status strings |
| `Leads.StageNamesMatchStatuses` | project_x_singlefile.py:20-28 | the strings of `LeadStatus.ALL` are, position by position, the status strings of the seven stages |
| `PriorityScore.Baseline` | project_x_singlefile.py:115 | the baseline is the weights' `value_baseline` entry, or 5000 when the key is absent |
| `PriorityScore.ValueWeight` | project_x_singlefile.py:129 | the value weight is the `value_weight` entry, or 0.5 when absent |
| `PriorityScore.SlaWeight` | project_x_singlefile.py:130 | the SLA weight is the `sla_weight` entry, or 0.3 when absent |
| `PriorityScore.Urgency` | project_x_singlefile.py:128 | the urgency is the `urgency_weight` entry, or 0.2 when absent |
| `PriorityScore.ValueScore` | project_x_singlefile.py:114-116 | the value score is at most 1; it is 0 for a zero value (the scorer reads a missing value as 0 first); it is at least 0 when the value is not negative and the baseline is positive; it is exactly 1 iff the value reaches the baseline, and below the baseline it is value/baseline; the division needs a non-zero baseline |
| `PriorityScore.ValueScoreMonotone` | project_x_singlefile.py:116 | with a positive baseline, a larger value never gives a smaller value score |
| `PriorityScore.Deadline` | project_x_singlefile.py:119-122 | a deadline exists iff `sla_entered_at` is usable, or is missing and `created_at` is usable; it is that entry time plus the SLA hours |
| `PriorityScore.SlaHours` | project_x_singlefile.py:122 | a missing or zero `sla_hours` becomes 24; any other value is kept; the window is never 0 |
| `PriorityScore.SlaEntry` | project_x_singlefile.py:119 | the SLA clock starts at `sla_entered_at` unless it is missing, and then at `created_at`; a malformed `sla_entered_at` is kept, not replaced; the entry is missing only when both columns are |
| `PriorityScore.HoursLeft` | project_x_singlefile.py:123 | hours left are never negative; they are 0 exactly when `now` has reached the deadline; before it they are deadline minus now |
| `PriorityScore.SlaScore` | project_x_singlefile.py:124 | the SLA score is at most 1; it is 1 iff no time is left; it is 0 at 72 hours left; it is negative iff more than 72 hours are left; for non-negative hours x it is (72 − x)/72 |
| `PriorityScore.SlaScoreAntitone` | project_x_singlefile.py:124 | more hours left never give a higher SLA score |
| `PriorityScore.WeightedBound` | project_x_singlefile.py:129-130 | over plain reals: components at most 1 with non-negative weights and a positive divisor k give a weighted sum at most (vw + sw)/k |
| `PriorityScore.WeightedMonotoneInValue` | project_x_singlefile.py:129-130 | over plain reals: with a non-negative value weight and a positive divisor, the weighted sum grows with the value component |
| `PriorityScore.WeightedMonotoneInSla` | project_x_singlefile.py:129-130 | over plain reals: with a non-negative SLA weight and a positive divisor, the weighted sum grows with the SLA component |
| `PriorityScore.Combine` | project_x_singlefile.py:128-130 | the combined score is 0 when both weights are 0; with non-negative weights, `1+urgency > 0` and components at most 1 it is at most (vw + sw)/(1 + urgency) |
| `PriorityScore.ScoreLead` | project_x_singlefile.py:113-131 | the three ways the scorer raises, in Python's order (zero baseline, zero `1+urgency`, no usable timestamp), each iff its condition; on success, the deadline returned is the lead's deadline and the hours left are never negative and are 0 iff the deadline has passed |
| `PriorityScore.ScoreUpperBound` | project_x_singlefile.py:128-130 | with non-negative value and SLA weights and `1+urgency > 0`, the score is at most (vw + sw)/(1 + urgency) |
| `PriorityScore.ScoreMonotoneInValue` | project_x_singlefile.py:114-130 | with a positive baseline, a non-negative value weight and `1+urgency > 0`, raising the estimated value never lowers the score |
| `PriorityScore.ScoreMonotoneInTime` | project_x_singlefile.py:119-130 | with a non-negative SLA weight and `1+urgency > 0`, a later `now` never leaves more hours and never lowers the score |
| `PriorityScore.DashboardScoreBound` | project_x_singlefile.py:253 | with the board's weights (0.5, 0.3, urgency 0.2, baseline 5000), scoring fails iff there is no deadline, and then with `NoSlaDeadline`; every score is at most 0.8/1.2 |
| `Kpi.Contains` | project_x_singlefile.py:204 | substring search is true exactly when the pattern occurs in the text at some offset |
| `Kpi.CountQualified` | project_x_singlefile.py:201 | the qualified count is at most the snapshot size |
| `Kpi.CountStatus` | project_x_singlefile.py:202-203 | a per-status count is at most the snapshot size |
| `Kpi.CountStatusContaining` | project_x_singlefile.py:204 | the count of statuses containing a pattern is at most the snapshot size |
| `Kpi.StatusCountsDisjoint` | project_x_singlefile.py:202-203 | two different statuses together count at most the snapshot size, so won + lost ≤ total |
| `Kpi.StatusContainsBookedPattern` | project_x_singlefile.py:204 | of the seven stage names, only "Inspection Scheduled" contains the booked pattern |
| `Kpi.BookedMeansInspectionScheduled` | project_x_singlefile.py:204 | the substring count of booked leads equals the count of leads in the Inspection Scheduled stage |
| `Kpi.PipelineValue` | project_x_singlefile.py:205 | the pipeline value of an empty snapshot is 0; with no negative estimate it is not negative and no single lead's value exceeds it |
| `Kpi.CountStatusNamed` | project_x_singlefile.py:202-203 | comparing the status text with a string counts at most the snapshot size |
| `Kpi.CountByNameIsCountByStatus` | project_x_singlefile.py:202-203 | counting leads whose status text equals a stage's string is counting the leads in that stage, since distinct stages have distinct strings |
| `Kpi.Percent` | project_x_singlefile.py:209-212 | a rate is never negative; it is 0 when its denominator is 0 or its numerator is 0; it is at most 100 when the part does not exceed the whole; it is 100 when they are equal |
| `Kpi.PercentIsRatio` | project_x_singlefile.py:209-212 | with a non-zero denominator, rate × whole = part × 100 |
| `Kpi.RoiIsRatio` | project_x_singlefile.py:206 | with a non-zero total, ROI × total = won × 1.4 |
| `Kpi.Roi` | project_x_singlefile.py:206 | the ROI is won × 1.4 divided by the total, or by 1 when the total is 0; it lies in [0, 1.4] when won ≤ total |
| `Kpi.Grid` | project_x_singlefile.py:206-212 | the grid keeps the counts it is given; each rate times its non-zero denominator is its numerator times 100, and the ROI times a non-zero total is won × 1.4; response compliance equals the qualification rate; every rate is non-negative, the win rate is at most 100 and the qualification rate is at most 100 when qualified ≤ total; the ROI is at most 1.4 when won ≤ total; a zero denominator gives a zero rate |
| `Kpi.Aggregate` | project_x_singlefile.py:200-212 | total is the snapshot size; qualified is the count of qualified leads; the pipeline value is the sum of the estimates; each rate, times its non-zero denominator, is its numerator × 100, and ROI × total is won × 1.4; won and lost, counted by comparing status strings, are the Awarded and Lost stage counts; won + lost ≤ total; booked is the Inspection Scheduled count; response compliance equals the qualification rate; qualification and win rates lie in [0, 100]; the ROI lies in [0, 1.4]; the conversion is not negative; every figure is 0 for an empty snapshot; the conversion is 0 when nothing is qualified, and the win rate is 0 when nothing is won or lost |
| `Kpi.InspectionConversionCanExceedHundred` | project_x_singlefile.py:201-211 | with one qualified and one unqualified lead, both booked, the inspection conversion is 200, so it is not bounded by 100 |
| `Ranking.EntryFor` | project_x_singlefile.py:253-254 | a scored lead's row holds that lead, a score at most 0.8/1.2 and non-negative hours left that are 0 iff the deadline has passed |
| `Ranking.ScoreAll` | project_x_singlefile.py:251-254 | a successful scoring pass has one row per lead, the i-th row holding the i-th lead |
| `Ranking.ScoreAllSucceeds` | project_x_singlefile.py:251-254 | the scoring pass succeeds iff every lead can be scored; it then has one row per lead, in snapshot order |
| `Ranking.ScoreAllFailsAtFirst` | project_x_singlefile.py:251-253 | a failed pass, with the board's weights, reports `NoSlaDeadline` and there is a first lead without a deadline, all earlier leads having one |
| `Ranking.FailurePersists` | project_x_singlefile.py:251-254 | a failure while scoring a prefix of the snapshot is the failure of the whole pass |
| `Ranking.InsertByScore` | project_x_singlefile.py:256 | inserting into a list sorted by descending score keeps it sorted and adds exactly the new row |
| `Ranking.SortByScore` | project_x_singlefile.py:256 | the sort yields a permutation of its input in descending score order |
| `Ranking.TopOfSorted` | project_x_singlefile.py:256-258 | the first min(n, size) rows of a sorted list are a best-n selection from it |
| `Ranking.Rank` | project_x_singlefile.py:251-258 | if any lead cannot be scored, the result is the pass's failure; otherwise it has min(8, n) rows, in descending score order, drawn from the scored rows, and no row left out scores above a row shown |
| `Ranking.ShownRowsComeFromSnapshot` | project_x_singlefile.py:254-258 | every shown row is the scored row of some lead of the snapshot |
| `Ranking.DashboardNeverCritical` | priority_component.py:12-14 | a score computed with the board's weights is below 0.7, so its tier is never CRITICAL |
| `Ranking.CardOverdueIffPastDeadline` | priority_component.py:23-25 | for a scored lead, the card reads OVERDUE exactly when its deadline has passed |
| `Ranking.EveryStageHasColor` | project_x_singlefile.py:249 | every stage has an entry in the board's colour map, so its badge is never the fallback black |
| `Ranking.UnknownStatusIsBlack` | project_x_singlefile.py:249 | a status outside the seven stages gets the fallback black |
| `PriorityCard.TierOf` | priority_component.py:12-20 | CRITICAL iff score ≥ 0.7, HIGH iff 0.45 ≤ score < 0.7, NORMAL iff score < 0.45; each lower bound is inclusive |
| `PriorityCard.TierMonotone` | priority_component.py:12-20 | a higher score never yields a lower tier |
| `PriorityCard.CardTier` | priority_component.py:8 | a row without `priority_score` is NORMAL; otherwise its tier is that of its score |
| `PriorityCard.Trunc` | priority_component.py:27-28 | Python's `int()` on a float truncates toward zero: for x ≥ 0 the result n has n ≤ x < n + 1, for x < 0 it has n − 1 < x ≤ n |
| `PriorityCard.FloatMod` | priority_component.py:28 | Python's `%` with a positive divisor m lies in [0, m), and x minus the result is a whole multiple of m |
| `PriorityCard.SlaRemaining` | priority_component.py:23-29 | OVERDUE iff the remaining hours r (0 when absent) are ≤ 0; otherwise minutes lie in [0, 59], hours h satisfy h ≤ r < h + 1, and h·60 + minutes = ⌊r·60⌋ |
| `PriorityCard.StatusColor` | priority_component.py:9 | the badge colour is the map's entry for the status, or "#000" when the status is absent or not in the map |

## Left out

- Streamlit page layout, CSS, navigation and session state: presentation only.
- The HTML string of `render_priority_lead_card`: string templating with no behaviour.
- The SQLAlchemy engine, the ORM classes, `init_db`, `get_session`, `leads_df` and `estimates_df`: database I/O and DataFrame construction. The snapshot arrives as a `seq<Lead>`.
- The Analytics page: it uses `won` and `df`, which exist only on the Pipeline Board branch, so it cannot run as written.
- `round(..., 3)` on the score, `round(..., 1)` on the rates and the `:,.0f` formatting: float display rounding. The model uses the unrounded real values. Sorting and the tier therefore use the unrounded score. Rounding can create ties that the model does not have.
- Floating-point behaviour in general: reals are exact, and there is no NaN. Pandas turns a NULL in a numeric column into NaN. `NaN or 24` is NaN, and `int(NaN)` raises, so in the source a NULL `sla_hours` inside a DataFrame fails. The model reads a missing `sla_hours` or `estimated_value` directly as 24 or 0, as the scorer does for a None value.
- `datetime.fromisoformat` and `datetime.utcnow()`: library and clock calls. A parse failure is the `Malformed` stamp. The clock is `now`. Timezone-aware timestamps are not modelled.
- Contact name, damage type and other display-only columns of the priority rows: they are copied through and never computed on.
- The early stop of the page on an empty snapshot (project_x_singlefile.py:195-197) is not modelled. The KPI figures are defined for an empty snapshot, where every guard yields 0.
- `Ranking.Rank`: for an empty snapshot it returns an empty list. The source would raise `KeyError` in `sort_values` on an empty frame, but the page stops before it gets there.
- `Ranking.SortByScore`: it stands for pandas' sort. Its contract promises only descending order and a permutation. The tie order of the insertion sort is not a claim about pandas.
- A NULL `qualified` value is modelled as false, which is what `== True` makes of it.
- The regular-expression reading of `str.contains`: the pattern "Inspection Scheduled" has no metacharacters, so it is modelled as a plain substring search.
- `PriorityScore.ScoreLead` and `PriorityScore.Deadline`: the range of `datetime` is not modelled. A deadline past year 9999 (for example `sla_hours` = 10^9) makes line 122 raise `OverflowError`. The bare `except` on line 125 catches it, so line 131 then raises `UnboundLocalError`. The model returns `Success` for such a lead.
- `Ranking.ScoreAll` and `Ranking.Rank`: the source calls `datetime.utcnow()` once per lead, so each row sees a slightly later clock. The model scores every lead at one `now`.
- `Kpi.Aggregate` and `Kpi.CountStatusNamed`: the status is one of the seven stages. A status string outside them, or a NULL status, cannot be represented. In the source an unknown string counts as neither won nor lost, and a NULL status makes the `str.contains` mask on line 204 raise `ValueError`.
