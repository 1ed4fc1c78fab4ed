/** The per-lead priority score (compute_priority_for_lead_row): a value
    component clamped against a baseline and an SLA component that rises as
    the SLA deadline approaches, combined with two weights and divided by
    one plus the urgency weight. */
module PriorityScore {
  import opened Leads

  /** Width, in hours, of the window over which SLA urgency rises. */
  const SlaWindow: real := 72.0
  /** SLA window of a lead whose `sla_hours` is missing or 0. */
  const DefaultSlaHours: int := 24

  const DefaultBaseline: real := 5000.0
  const DefaultValueWeight: real := 0.5
  const DefaultSlaWeight: real := 0.3
  const DefaultUrgency: real := 0.2

  /** The weights dictionary; `None` is a key that is not present. */
  datatype Weights = Weights(
    valueBaseline: Option<real>,
    valueWeight: Option<real>,
    slaWeight: Option<real>,
    urgencyWeight: Option<real>)

  /** The weights the pipeline board passes for every lead. */
  const DashboardWeights: Weights := Weights(None, Some(0.5), Some(0.3), None)

  /** `weights.get("value_baseline", 5000)`: the given entry, or the default
      when the key is absent. */
  function Baseline(w: Weights): (b: real)
    ensures w.valueBaseline.None? ==> b == DefaultBaseline
    ensures w.valueBaseline.Some? ==> b == w.valueBaseline.value
  {
    w.valueBaseline.GetOr(DefaultBaseline)
  }

  /** `weights.get("value_weight", 0.5)`. */
  function ValueWeight(w: Weights): (vw: real)
    ensures w.valueWeight.None? ==> vw == DefaultValueWeight
    ensures w.valueWeight.Some? ==> vw == w.valueWeight.value
  {
    w.valueWeight.GetOr(DefaultValueWeight)
  }

  /** `weights.get("sla_weight", 0.3)`. */
  function SlaWeight(w: Weights): (sw: real)
    ensures w.slaWeight.None? ==> sw == DefaultSlaWeight
    ensures w.slaWeight.Some? ==> sw == w.slaWeight.value
  {
    w.slaWeight.GetOr(DefaultSlaWeight)
  }

  /** `weights.get("urgency_weight", 0.2)`. */
  function Urgency(w: Weights): (u: real)
    ensures w.urgencyWeight.None? ==> u == DefaultUrgency
    ensures w.urgencyWeight.Some? ==> u == w.urgencyWeight.value
  {
    w.urgencyWeight.GetOr(DefaultUrgency)
  }

  /** Why the scorer raises instead of returning: a zero baseline, a zero
      divisor `1 + urgency`, or no usable SLA entry timestamp (the `except`
      branch then leaves the hours left and the deadline unbound). */
  datatype ScoreError = ZeroBaseline | ZeroUrgencyDivisor | NoSlaDeadline

  /** What the scorer returns: the score, the hours left and the deadline. */
  datatype Priority = Priority(score: real, hoursLeft: real, deadline: real)

  /** The value component, `min(value / baseline, 1)`. */
  function ValueScore(value: real, baseline: real): (s: real)
    requires baseline != 0.0
    ensures s <= 1.0
    ensures value == 0.0 ==> s == 0.0
    ensures 0.0 <= value && 0.0 < baseline ==> 0.0 <= s
    ensures 0.0 < baseline ==> (s == 1.0 <==> baseline <= value)
    ensures 0.0 < baseline && value < baseline ==> s * baseline == value
  {
    assert 0.0 < baseline ==> (1.0 <= value / baseline <==> baseline <= value) by {
      if 0.0 < baseline {
        assert value / baseline * baseline == value;
      }
    }
    RealMin(value / baseline, 1.0)
  }

  lemma ValueScoreMonotone(v1: real, v2: real, baseline: real)
    requires 0.0 < baseline && v1 <= v2
    ensures ValueScore(v1, baseline) <= ValueScore(v2, baseline)
  {
    DivMonotone(v1, v2, baseline);
  }

  /** `sla_hours or 24`: the window is never 0; a missing or zero value
      becomes 24 and any other value is kept. */
  function SlaHours(l: Lead): (h: int)
    ensures h != 0
    ensures l.slaHours == None || l.slaHours == Some(0) ==> h == DefaultSlaHours
    ensures l.slaHours.Some? && l.slaHours.value != 0 ==> h == l.slaHours.value
  {
    match l.slaHours
    case None => DefaultSlaHours
    case Some(h) => if h == 0 then DefaultSlaHours else h
  }

  /** When the SLA clock started: `sla_entered_at`, or `created_at` when the
      former is missing; a malformed `sla_entered_at` is kept, not replaced. */
  function SlaEntry(l: Lead): (e: Stamp)
    ensures l.slaEnteredAt.Missing? ==> e == l.createdAt
    ensures !l.slaEnteredAt.Missing? ==> e == l.slaEnteredAt
    ensures e.Missing? ==> l.slaEnteredAt.Missing? && l.createdAt.Missing?
  {
    if l.slaEnteredAt.Missing? then l.createdAt else l.slaEnteredAt
  }

  /** The SLA deadline, or None when the entry timestamp is unusable. */
  function Deadline(l: Lead): (d: Option<real>)
    ensures d.Some? <==> (l.slaEnteredAt.At? || (l.slaEnteredAt.Missing? && l.createdAt.At?))
    ensures l.slaEnteredAt.At? ==> d == Some(l.slaEnteredAt.hours + SlaHours(l) as real)
    ensures l.slaEnteredAt.Missing? && l.createdAt.At? ==> d == Some(l.createdAt.hours + SlaHours(l) as real)
  {
    match SlaEntry(l)
    case At(t) => Some(t + SlaHours(l) as real)
    case _ => None
  }

  /** Hours until the deadline, never negative. */
  function HoursLeft(deadline: real, now: real): (t: real)
    ensures 0.0 <= t
    ensures t == 0.0 <==> deadline <= now
    ensures now < deadline ==> t == deadline - now
  {
    RealMax(deadline - now, 0.0)
  }

  /** The SLA component, `min((72 - hours_left) / 72, 1)`; it is not clamped
      from below, so it is negative when more than 72 hours remain. */
  function SlaScore(hoursLeft: real): (s: real)
    ensures s <= 1.0
    ensures s == 1.0 <==> hoursLeft <= 0.0
    ensures hoursLeft == SlaWindow ==> s == 0.0
    ensures s < 0.0 <==> SlaWindow < hoursLeft
    ensures 0.0 <= hoursLeft ==> s * SlaWindow == SlaWindow - hoursLeft
  {
    RealMin((SlaWindow - hoursLeft) / SlaWindow, 1.0)
  }

  lemma SlaScoreAntitone(t1: real, t2: real)
    requires t1 <= t2
    ensures SlaScore(t2) <= SlaScore(t1)
  {
  }

  /** The weighted sum `(vs * vw + ss * sw) / k` over plain reals. */
  function WeightedSum(vs: real, ss: real, vw: real, sw: real, k: real): real
    requires k != 0.0
  {
    (vs * vw + ss * sw) / k
  }

  /** Components at most 1 and non-negative weights keep the sum at most
      `(vw + sw) / k`. */
  lemma WeightedBound(vs: real, ss: real, vw: real, sw: real, k: real)
    requires vs <= 1.0 && ss <= 1.0 && 0.0 <= vw && 0.0 <= sw && 0.0 < k
    ensures WeightedSum(vs, ss, vw, sw, k) <= (vw + sw) / k
  {
    var p, q := vs * vw, ss * sw;
    MulAtMostOne(vs, vw);
    MulAtMostOne(ss, sw);
    assert p + q <= vw + sw;
    DivMonotone(p + q, vw + sw, k);
    assert WeightedSum(vs, ss, vw, sw, k) == (p + q) / k;
  }

  /** Zero weights give a zero sum. */
  lemma WeightedZero(vs: real, ss: real, k: real)
    requires k != 0.0
    ensures WeightedSum(vs, ss, 0.0, 0.0, k) == 0.0
  {
    assert vs * 0.0 == 0.0 && ss * 0.0 == 0.0;
  }

  /** With a non-negative value weight the sum grows with the value component. */
  lemma WeightedMonotoneInValue(vs1: real, vs2: real, ss: real, vw: real, sw: real, k: real)
    requires vs1 <= vs2 && 0.0 <= vw && 0.0 < k
    ensures WeightedSum(vs1, ss, vw, sw, k) <= WeightedSum(vs2, ss, vw, sw, k)
  {
    var p1, p2, q := vs1 * vw, vs2 * vw, ss * sw;
    MulMonotone(vs1, vs2, vw);
    DivMonotone(p1 + q, p2 + q, k);
    assert WeightedSum(vs1, ss, vw, sw, k) == (p1 + q) / k;
    assert WeightedSum(vs2, ss, vw, sw, k) == (p2 + q) / k;
  }

  /** With a non-negative SLA weight the sum grows with the SLA component. */
  lemma WeightedMonotoneInSla(vs: real, ss1: real, ss2: real, vw: real, sw: real, k: real)
    requires ss1 <= ss2 && 0.0 <= sw && 0.0 < k
    ensures WeightedSum(vs, ss1, vw, sw, k) <= WeightedSum(vs, ss2, vw, sw, k)
  {
    var p, q1, q2 := vs * vw, ss1 * sw, ss2 * sw;
    MulMonotone(ss1, ss2, sw);
    DivMonotone(p + q1, p + q2, k);
    assert WeightedSum(vs, ss1, vw, sw, k) == (p + q1) / k;
    assert WeightedSum(vs, ss2, vw, sw, k) == (p + q2) / k;
  }

  /** `(value_score * vw + sla_score * sw) / (1 + urgency)`: zero weights give
      0, and with non-negative weights and components at most 1 the result is
      at most `(vw + sw) / (1 + urgency)`. */
  function Combine(valueScore: real, slaScore: real, w: Weights): (r: real)
    requires 1.0 + Urgency(w) != 0.0
    ensures ValueWeight(w) == 0.0 && SlaWeight(w) == 0.0 ==> r == 0.0
    ensures valueScore <= 1.0 && slaScore <= 1.0 &&
            0.0 <= ValueWeight(w) && 0.0 <= SlaWeight(w) && 0.0 < 1.0 + Urgency(w) ==>
              r <= (ValueWeight(w) + SlaWeight(w)) / (1.0 + Urgency(w))
  {
    var vw, sw, k := ValueWeight(w), SlaWeight(w), 1.0 + Urgency(w);
    assert vw == 0.0 && sw == 0.0 ==> WeightedSum(valueScore, slaScore, vw, sw, k) == 0.0 by {
      if vw == 0.0 && sw == 0.0 {
        WeightedZero(valueScore, slaScore, k);
      }
    }
    assert valueScore <= 1.0 && slaScore <= 1.0 && 0.0 <= vw && 0.0 <= sw && 0.0 < k ==>
             WeightedSum(valueScore, slaScore, vw, sw, k) <= (vw + sw) / k by {
      if valueScore <= 1.0 && slaScore <= 1.0 && 0.0 <= vw && 0.0 <= sw && 0.0 < k {
        WeightedBound(valueScore, slaScore, vw, sw, k);
      }
    }
    WeightedSum(valueScore, slaScore, vw, sw, k)
  }

  /** The components `ScoreLead` combines for a lead it can score. */
  lemma ScoreLeadParts(l: Lead, w: Weights, now: real)
    requires ScoreLead(l, w, now).Success?
    ensures 1.0 + Urgency(w) != 0.0 && Baseline(w) != 0.0
    ensures ScoreLead(l, w, now).value.score ==
              Combine(ValueScore(ValueOrZero(l), Baseline(w)), SlaScore(ScoreLead(l, w, now).value.hoursLeft), w)
    ensures ScoreLead(l, w, now).value.hoursLeft == HoursLeft(Deadline(l).value, now)
  {
    var d := Deadline(l).value;
    assert Deadline(l) == Some(d);
    var t := HoursLeft(d, now);
    assert ScoreLead(l, w, now) ==
           Success(Priority(Combine(ValueScore(ValueOrZero(l), Baseline(w)), SlaScore(t), w), t, d));
  }

  /** compute_priority_for_lead_row, unrounded, with the clock as `now`. */
  function ScoreLead(l: Lead, w: Weights, now: real): (r: Result<Priority, ScoreError>)
    ensures r == Failure(ZeroBaseline) <==> Baseline(w) == 0.0
    ensures r == Failure(ZeroUrgencyDivisor) <==> Baseline(w) != 0.0 && 1.0 + Urgency(w) == 0.0
    ensures r == Failure(NoSlaDeadline) <==>
              Baseline(w) != 0.0 && 1.0 + Urgency(w) != 0.0 && Deadline(l).None?
    ensures r.Success? ==>
              && Deadline(l) == Some(r.value.deadline)
              && 0.0 <= r.value.hoursLeft
              && (r.value.hoursLeft == 0.0 <==> r.value.deadline <= now)
              && (now < r.value.deadline ==> r.value.hoursLeft == r.value.deadline - now)
  {
    if Baseline(w) == 0.0 then Failure(ZeroBaseline)
    else if 1.0 + Urgency(w) == 0.0 then Failure(ZeroUrgencyDivisor)
    else match Deadline(l)
      case None => Failure(NoSlaDeadline)
      case Some(d) =>
        var t := HoursLeft(d, now);
        Success(Priority(Combine(ValueScore(ValueOrZero(l), Baseline(w)), SlaScore(t), w), t, d))
  }

  /** Non-negative weights bound the score by `(vw + sw) / (1 + urgency)`. */
  lemma ScoreUpperBound(l: Lead, w: Weights, now: real)
    requires ScoreLead(l, w, now).Success?
    requires 0.0 <= ValueWeight(w) && 0.0 <= SlaWeight(w) && 0.0 < 1.0 + Urgency(w)
    ensures ScoreLead(l, w, now).value.score <= (ValueWeight(w) + SlaWeight(w)) / (1.0 + Urgency(w))
  {
    ScoreLeadParts(l, w, now);
  }

  /** Raising the estimated value never lowers the score. */
  lemma ScoreMonotoneInValue(l: Lead, v: real, w: Weights, now: real)
    requires ValueOrZero(l) <= v
    requires 0.0 < Baseline(w) && 0.0 <= ValueWeight(w) && 0.0 < 1.0 + Urgency(w)
    requires Deadline(l).Some?
    ensures ScoreLead(l, w, now).Success? && ScoreLead(l.(estimatedValue := Some(v)), w, now).Success?
    ensures ScoreLead(l, w, now).value.score <= ScoreLead(l.(estimatedValue := Some(v)), w, now).value.score
  {
    var l' := l.(estimatedValue := Some(v));
    assert Deadline(l') == Deadline(l);
    assert ValueOrZero(l') == v;
    ScoreLeadParts(l, w, now);
    ScoreLeadParts(l', w, now);
    var ss := SlaScore(HoursLeft(Deadline(l).value, now));
    ValueScoreMonotone(ValueOrZero(l), v, Baseline(w));
    WeightedMonotoneInValue(ValueScore(ValueOrZero(l), Baseline(w)), ValueScore(v, Baseline(w)), ss,
                            ValueWeight(w), SlaWeight(w), 1.0 + Urgency(w));
  }

  /** As time passes the hours left shrink and the score never drops. */
  lemma ScoreMonotoneInTime(l: Lead, w: Weights, now1: real, now2: real)
    requires now1 <= now2
    requires 0.0 <= SlaWeight(w) && 0.0 < 1.0 + Urgency(w)
    requires ScoreLead(l, w, now1).Success?
    ensures ScoreLead(l, w, now2).Success?
    ensures ScoreLead(l, w, now2).value.hoursLeft <= ScoreLead(l, w, now1).value.hoursLeft
    ensures ScoreLead(l, w, now1).value.score <= ScoreLead(l, w, now2).value.score
  {
    ScoreLeadParts(l, w, now1);
    ScoreLeadParts(l, w, now2);
    var d := Deadline(l).value;
    var t1, t2 := HoursLeft(d, now1), HoursLeft(d, now2);
    assert t2 <= t1;
    SlaScoreAntitone(t2, t1);
    var vs := ValueScore(ValueOrZero(l), Baseline(w));
    WeightedMonotoneInSla(vs, SlaScore(t1), SlaScore(t2), ValueWeight(w), SlaWeight(w), 1.0 + Urgency(w));
  }

  /** With the dashboard's weights only the timestamp can make scoring fail,
      and every score is at most 0.8 / 1.2. */
  lemma DashboardScoreBound(l: Lead, now: real)
    ensures ScoreLead(l, DashboardWeights, now).Failure? <==> Deadline(l).None?
    ensures ScoreLead(l, DashboardWeights, now).Failure? ==>
              ScoreLead(l, DashboardWeights, now).error == NoSlaDeadline
    ensures ScoreLead(l, DashboardWeights, now).Success? ==>
              ScoreLead(l, DashboardWeights, now).value.score <= 0.8 / 1.2
  {
    if Deadline(l).Some? {
      ScoreUpperBound(l, DashboardWeights, now);
    }
  }
}
