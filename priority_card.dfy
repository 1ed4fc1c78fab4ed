/** The decisions behind a priority lead card (render_priority_lead_card):
    the urgency tier of a score, the SLA line (overdue, or whole hours and
    minutes left) and the colour of the status badge. The HTML itself is not
    modelled. */
module PriorityCard {
  import opened Leads

  const CriticalThreshold: real := 0.7
  const HighThreshold: real := 0.45
  /** Badge colour of a status that has no entry in the colour map. */
  const UnknownStatusColor: string := "#000"

  datatype Tier = Critical | High | Normal

  /** Tiers ordered by urgency: Normal below High below Critical. */
  function TierLevel(t: Tier): nat {
    match t
    case Normal => 0
    case High => 1
    case Critical => 2
  }

  /** The priority band of a score; each band's lower bound is inclusive. */
  function TierOf(score: real): (t: Tier)
    ensures t == Critical <==> CriticalThreshold <= score
    ensures t == High <==> HighThreshold <= score < CriticalThreshold
    ensures t == Normal <==> score < HighThreshold
  {
    if score >= CriticalThreshold then Critical
    else if score >= HighThreshold then High
    else Normal
  }

  /** A higher score never yields a lower tier. */
  lemma TierMonotone(a: real, b: real)
    requires a <= b
    ensures TierLevel(TierOf(a)) <= TierLevel(TierOf(b))
  {
  }

  /** The tier shown for a row, whose `priority_score` defaults to 0. */
  function CardTier(priorityScore: Option<real>): (t: Tier)
    ensures priorityScore.None? ==> t == Normal
    ensures priorityScore.Some? ==> t == TierOf(priorityScore.value)
  {
    TierOf(priorityScore.GetOr(0.0))
  }

  /** The SLA line of the card. */
  datatype SlaLine = Overdue | TimeLeft(hours: int, minutes: int)

  /** Python's `int()` on a float: truncation toward zero, so the result
      never has a larger magnitude than `x` and lies within 1 of it. */
  function Trunc(x: real): (n: int)
    ensures 0.0 <= x ==> n as real <= x < n as real + 1.0
    ensures x < 0.0 ==> n as real - 1.0 < x <= n as real
  {
    if x >= 0.0 then x.Floor else -((-x).Floor)
  }

  /** Python's float `%` with a positive divisor: the result has the
      divisor's sign, lies below the divisor, and differs from `x` by a whole
      multiple of it. */
  function FloatMod(x: real, m: real): (r: real)
    requires 0.0 < m
    ensures 0.0 <= r < m
    ensures (x - r) / m == ((x - r) / m).Floor as real
  {
    FloatModBounds(x, m);
    var n := (x / m).Floor;
    WholeMultiple(m, n);
    assert x - (x - m * n as real) == m * n as real;
    x - m * n as real
  }

  lemma FloatModBounds(x: real, m: real)
    requires 0.0 < m
    ensures 0.0 <= x - m * (x / m).Floor as real < m
  {
    var q := x / m;
    var f := q.Floor as real;
    assert q * m == x;
    assert f <= q < f + 1.0;
    ScaleLe(f, q, m);
    ScaleLt(q, f + 1.0, m);
    assert q * m < (f + 1.0) * m;
    assert x < (f + 1.0) * m;
    assert (f + 1.0) * m == f * m + m;
    assert x < f * m + m;
    assert m * f == f * m;
  }

  lemma ScaleLe(a: real, b: real, k: real)
    requires a <= b && 0.0 < k
    ensures a * k <= b * k
  {
  }

  lemma ScaleLt(a: real, b: real, k: real)
    requires a < b && 0.0 < k
    ensures a * k < b * k
  {
  }

  /** A whole multiple of `m`, divided by `m`, is that whole number. */
  lemma WholeMultiple(m: real, n: int)
    requires 0.0 < m
    ensures (m * n as real) / m == n as real
    ensures ((m * n as real) / m).Floor == n
  {
  }

  /** The SLA line for a row's `time_left_hours` (0 when absent): OVERDUE
      when nothing is left, otherwise `int(r)` hours and `int(r*60 % 60)`
      minutes. */
  function SlaRemaining(remaining: Option<real>): (line: SlaLine)
    ensures line.Overdue? <==> remaining.GetOr(0.0) <= 0.0
    ensures line.TimeLeft? ==> remaining.Some?
    ensures line.TimeLeft? ==> 0 <= line.minutes <= 59
    ensures line.TimeLeft? ==>
              line.hours as real <= remaining.value < line.hours as real + 1.0
    ensures line.TimeLeft? ==> line.hours * 60 + line.minutes == (remaining.value * 60.0).Floor
  {
    var r := remaining.GetOr(0.0);
    if r <= 0.0 then Overdue
    else
      var h := Trunc(r);
      var m := Trunc(FloatMod(r * 60.0, 60.0));
      assert h == r.Floor;
      assert (r * 60.0) / 60.0 == r;
      assert FloatMod(r * 60.0, 60.0) == r * 60.0 - (h * 60) as real;
      FloorShift(r * 60.0, h * 60);
      TimeLeft(h, m)
  }

  lemma FloorShift(x: real, n: int)
    ensures (x - n as real).Floor == x.Floor - n
  {
    var f := x.Floor;
    assert f as real <= x < f as real + 1.0;
    assert (f - n) as real <= x - n as real < (f - n) as real + 1.0;
  }

  /** The badge colour: the colour map's entry for the row's status, or
      black when the status is absent or has no entry. */
  function StatusColor(stageColors: map<string, string>, status: Option<string>): (c: string)
    ensures status.Some? && status.value in stageColors ==> c == stageColors[status.value]
    ensures status.None? || status.value !in stageColors ==> c == UnknownStatusColor
  {
    if status.Some? && status.value in stageColors then stageColors[status.value]
    else UnknownStatusColor
  }
}
