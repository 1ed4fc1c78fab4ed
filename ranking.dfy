/** The priority list of the pipeline board: every lead of the snapshot is
    scored with the board's weights, the rows are sorted by score, highest
    first, and the first eight are shown. */
module Ranking {
  import opened Leads
  import opened PriorityScore
  import PriorityCard

  /** How many rows the board shows (`head(8)`). */
  const ShownCount: nat := 8

  /** One row of the priority list. */
  datatype Entry = Entry(lead: Lead, score: real, hoursLeft: real)

  /** The row for a lead that can be scored: the lead itself, a score below
      the CRITICAL threshold and the hours left, 0 once the deadline passed. */
  function EntryFor(l: Lead, now: real): (e: Entry)
    requires ScoreLead(l, DashboardWeights, now).Success?
    ensures e.lead == l
    ensures e.score <= 0.8 / 1.2
    ensures 0.0 <= e.hoursLeft
    ensures e.hoursLeft == 0.0 <==> Deadline(l).value <= now
  {
    DashboardScoreBound(l, now);
    var p := ScoreLead(l, DashboardWeights, now).value;
    Entry(l, p.score, p.hoursLeft)
  }

  /** The list the scoring loop builds, in snapshot order; the first lead
      that cannot be scored aborts the whole pass with its error. */
  function ScoreAll(leads: seq<Lead>, now: real): (r: Result<seq<Entry>, ScoreError>)
    ensures r.Success? ==> |r.value| == |leads|
    ensures r.Success? ==> forall i :: 0 <= i < |leads| ==> r.value[i].lead == leads[i]
    decreases |leads|
  {
    if leads == [] then Success([])
    else
      match ScoreAll(leads[..|leads| - 1], now)
      case Failure(e) => Failure(e)
      case Success(entries) =>
        var l := leads[|leads| - 1];
        match ScoreLead(l, DashboardWeights, now)
        case Failure(e) => Failure(e)
        case Success(p) => Success(entries + [Entry(l, p.score, p.hoursLeft)])
  }

  /** The pass succeeds exactly when every lead can be scored, and then
      holds one row per lead, in order. */
  lemma {:induction false} ScoreAllSucceeds(leads: seq<Lead>, now: real)
    ensures ScoreAll(leads, now).Success? <==>
              forall i :: 0 <= i < |leads| ==> ScoreLead(leads[i], DashboardWeights, now).Success?
    ensures ScoreAll(leads, now).Success? ==>
              && |ScoreAll(leads, now).value| == |leads|
              && forall i :: 0 <= i < |leads| ==> ScoreAll(leads, now).value[i] == EntryFor(leads[i], now)
  {
    if leads != [] {
      var init := leads[..|leads| - 1];
      ScoreAllSucceeds(init, now);
      assert forall i :: 0 <= i < |init| ==> init[i] == leads[i];
    }
  }

  /** A failed pass reports the error of the first lead that cannot be
      scored; with the board's weights that is always a missing deadline. */
  lemma {:induction false} ScoreAllFailsAtFirst(leads: seq<Lead>, now: real)
    requires ScoreAll(leads, now).Failure?
    ensures ScoreAll(leads, now).error == NoSlaDeadline
    ensures exists i :: 0 <= i < |leads| && Deadline(leads[i]).None? &&
              forall j :: 0 <= j < i ==> Deadline(leads[j]).Some?
  {
    var init := leads[..|leads| - 1];
    assert forall i :: 0 <= i < |init| ==> init[i] == leads[i];
    if ScoreAll(init, now).Failure? {
      ScoreAllFailsAtFirst(init, now);
      var i :| 0 <= i < |init| && Deadline(init[i]).None? &&
               forall j :: 0 <= j < i ==> Deadline(init[j]).Some?;
      assert Deadline(leads[i]).None?;
    } else {
      ScoreAllSucceeds(init, now);
      var last := |leads| - 1;
      DashboardScoreBound(leads[last], now);
      forall j | 0 <= j < last ensures Deadline(leads[j]).Some? {
        DashboardScoreBound(leads[j], now);
      }
    }
  }

  /** A failure in a prefix of the snapshot is the failure of the whole pass. */
  lemma {:induction false} FailurePersists(leads: seq<Lead>, k: nat, now: real)
    requires k <= |leads|
    requires ScoreAll(leads[..k], now).Failure?
    ensures ScoreAll(leads, now) == ScoreAll(leads[..k], now)
    decreases |leads| - k
  {
    if k < |leads| {
      var init := leads[..|leads| - 1];
      assert init[..k] == leads[..k];
      FailurePersists(init, k, now);
    } else {
      assert leads[..k] == leads;
    }
  }

  predicate SortedByScore(s: seq<Entry>) {
    forall i, j :: 0 <= i < j < |s| ==> s[i].score >= s[j].score
  }

  /** `top` is a best-`n` selection from `pool`: as long as it can be, in
      descending score order, drawn from the pool, and no row left out
      scores higher than a row shown. Ties may fall either way. */
  ghost predicate IsTopByScore(top: seq<Entry>, pool: multiset<Entry>, n: nat) {
    && |top| == Min(n, |pool|)
    && SortedByScore(top)
    && multiset(top) <= pool
    && forall e, f :: e in top && f in pool - multiset(top) ==> e.score >= f.score
  }

  /** Puts `e` into a list sorted by descending score. */
  function InsertByScore(e: Entry, s: seq<Entry>): (r: seq<Entry>)
    requires SortedByScore(s)
    ensures SortedByScore(r)
    ensures multiset(r) == multiset(s) + multiset{e}
  {
    if s == [] || e.score >= s[0].score then
      ConsSorted(e, s);
      [e] + s
    else
      var rest := InsertByScore(e, s[1..]);
      assert s == [s[0]] + s[1..];
      ScoresBoundedByMultiset(rest, s[1..], e, s[0].score);
      ConsSorted(s[0], rest);
      [s[0]] + rest
  }

  /** A row that scores at least the head of a sorted list can go in front. */
  lemma ConsSorted(x: Entry, t: seq<Entry>)
    requires SortedByScore(t)
    requires t == [] || x.score >= t[0].score
    ensures SortedByScore([x] + t)
  {
    var r := [x] + t;
    forall i, j | 0 <= i < j < |r| ensures r[i].score >= r[j].score {
      if i == 0 {
        assert r[j] == t[j - 1];
        if j > 1 {
          assert t[0].score >= t[j - 1].score;
        }
      } else {
        assert r[i] == t[i - 1] && r[j] == t[j - 1];
      }
    }
  }

  /** Rows drawn from `pool` plus `e` score no more than a bound they all keep. */
  lemma ScoresBoundedByMultiset(rest: seq<Entry>, pool: seq<Entry>, e: Entry, bound: real)
    requires multiset(rest) == multiset(pool) + multiset{e}
    requires e.score <= bound
    requires forall j :: 0 <= j < |pool| ==> pool[j].score <= bound
    ensures forall j :: 0 <= j < |rest| ==> rest[j].score <= bound
  {
    forall j | 0 <= j < |rest| ensures rest[j].score <= bound {
      assert rest[j] in multiset(rest);
      if rest[j] != e {
        assert rest[j] in multiset(pool);
        var k :| 0 <= k < |pool| && pool[k] == rest[j];
      }
    }
  }

  /** The descending sort by score (`sort_values(ascending=False)`); which
      of two equal scores comes first is not part of its contract. */
  function SortByScore(s: seq<Entry>): (r: seq<Entry>)
    ensures SortedByScore(r)
    ensures multiset(r) == multiset(s)
  {
    if s == [] then []
    else
      assert s == [s[0]] + s[1..];
      InsertByScore(s[0], SortByScore(s[1..]))
  }

  /** Any prefix of a sorted list is a best selection from the list. */
  lemma TopOfSorted(s: seq<Entry>, n: nat)
    requires SortedByScore(s)
    ensures IsTopByScore(s[..Min(n, |s|)], multiset(s), n)
  {
    var k := Min(n, |s|);
    SplitMultiset(s, k);
    forall e, f | e in s[..k] && f in multiset(s) - multiset(s[..k])
      ensures e.score >= f.score
    {
      assert f in multiset(s[k..]);
      PrefixOutscoresSuffix(s, k, e, f);
    }
  }

  /** Leaving out a prefix of a list leaves the rest of it. */
  lemma SplitMultiset(s: seq<Entry>, k: nat)
    requires k <= |s|
    ensures multiset(s[..k]) <= multiset(s)
    ensures multiset(s) - multiset(s[..k]) == multiset(s[k..])
  {
    assert s == s[..k] + s[k..];
    assert multiset(s) == multiset(s[..k]) + multiset(s[k..]);
  }

  /** In a sorted list a row of the prefix scores at least any row after it. */
  lemma PrefixOutscoresSuffix(s: seq<Entry>, k: nat, e: Entry, f: Entry)
    requires SortedByScore(s) && k <= |s|
    requires e in s[..k] && f in multiset(s[k..])
    ensures e.score >= f.score
  {
    var i :| 0 <= i < k && s[i] == e;
    assert f in s[k..];
    var j :| 0 <= j < |s| - k && s[k..][j] == f;
    assert s[k + j] == f;
  }

  /** The priority list of the board: Failure when a lead cannot be scored,
      otherwise the best `ShownCount` rows of the scored snapshot. */
  method Rank(leads: seq<Lead>, now: real) returns (r: Result<seq<Entry>, ScoreError>)
    ensures ScoreAll(leads, now).Failure? ==> r == ScoreAll(leads, now)
    ensures ScoreAll(leads, now).Success? ==>
              r.Success? && IsTopByScore(r.value, multiset(ScoreAll(leads, now).value), ShownCount)
  {
    var priority: seq<Entry> := [];
    for i := 0 to |leads|
      invariant ScoreAll(leads[..i], now) == Success(priority)
    {
      assert leads[..i + 1][..i] == leads[..i];
      match ScoreLead(leads[i], DashboardWeights, now) {
        case Failure(e) =>
          FailurePersists(leads, i + 1, now);
          return Failure(e);
        case Success(p) =>
          priority := priority + [Entry(leads[i], p.score, p.hoursLeft)];
      }
    }
    assert leads[..|leads|] == leads;
    var sorted := SortByScore(priority);
    TopOfSorted(sorted, ShownCount);
    r := Success(sorted[..Min(ShownCount, |sorted|)]);
  }

  /** Every row the board shows comes from a lead of the snapshot. */
  lemma ShownRowsComeFromSnapshot(leads: seq<Lead>, now: real, top: seq<Entry>, e: Entry)
    requires ScoreAll(leads, now).Success?
    requires IsTopByScore(top, multiset(ScoreAll(leads, now).value), ShownCount)
    requires e in top
    ensures exists i :: 0 <= i < |leads| && ScoreLead(leads[i], DashboardWeights, now).Success? &&
              e == EntryFor(leads[i], now)
  {
    ScoreAllSucceeds(leads, now);
    var all := ScoreAll(leads, now).value;
    assert e in multiset(top);
    assert e in all;
    var i :| 0 <= i < |all| && all[i] == e;
    assert e == EntryFor(leads[i], now);
  }

  /** With the board's weights no row ever reaches the CRITICAL tier. */
  lemma DashboardNeverCritical(l: Lead, now: real)
    requires ScoreLead(l, DashboardWeights, now).Success?
    ensures EntryFor(l, now).score < PriorityCard.CriticalThreshold
    ensures PriorityCard.TierOf(EntryFor(l, now).score) != PriorityCard.Critical
  {
    DashboardScoreBound(l, now);
  }

  /** A scored lead's card reads OVERDUE exactly when its deadline has passed. */
  lemma CardOverdueIffPastDeadline(l: Lead, w: Weights, now: real)
    requires ScoreLead(l, w, now).Success?
    ensures PriorityCard.SlaRemaining(Some(ScoreLead(l, w, now).value.hoursLeft)).Overdue? <==>
              ScoreLead(l, w, now).value.deadline <= now
  {
  }

  /** The badge colours of the board, by stage name. */
  const DashboardStageColors: map<string, string> := map[
    "New" := "#2563eb",
    "Contacted" := "#eab308",
    "Inspection Scheduled" := "#f97316",
    "Inspection Completed" := "#14b8a6",
    "Estimate Submitted" := "#a855f7",
    "Awarded" := "#22c55e",
    "Lost" := "#ef4444"]

  /** Every stage has an entry in the board's colour map. */
  lemma EveryStageHasColor(s: LeadStatus)
    ensures PriorityCard.StatusColor(DashboardStageColors, Some(StatusName(s))) != PriorityCard.UnknownStatusColor
  {
  }

  /** A status outside the stages falls back to black. */
  lemma UnknownStatusIsBlack(other: string)
    requires forall t: LeadStatus :: other != StatusName(t)
    ensures PriorityCard.StatusColor(DashboardStageColors, Some(other)) == PriorityCard.UnknownStatusColor
  {
    assert other !in DashboardStageColors by {
      assert other != StatusName(New) && other != StatusName(Contacted) &&
             other != StatusName(InspectionScheduled) && other != StatusName(InspectionCompleted) &&
             other != StatusName(EstimateSubmitted) && other != StatusName(Awarded) &&
             other != StatusName(Lost);
    }
  }
}
