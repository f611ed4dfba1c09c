/** The observation of a round does not depend on the order in which its registration and its
    reports arrive, on how they interleave with other rounds, or on repeated reports. */
module ArrivalOrder {
  import opened Types
  import opened Percentile
  import opened RoundReports
  import opened ReportLedger

  /** Everything a set of reports contributes; latencies as a bag, since the p99 sorts them. */
  datatype Tally = Tally(count: nat, totals: Totals, planned: int, latencies: multiset<int>)
  {
    function Plus(other: Tally): Tally {
      Tally(count + other.count, totals.Plus(other.totals), planned + other.planned, latencies + other.latencies)
    }
  }

  const BLANK := Tally(0, NOTHING, 0, multiset{})

  function TallyOf(r: JobReport): Tally {
    Tally(1, ReportTotals(r), if r.plannedRequests < 0 then 0 else r.plannedRequests, multiset(r.latencyMillis))
  }

  function TallyAll(reports: seq<JobReport>): Tally {
    if reports == [] then BLANK else TallyAll(reports[..|reports| - 1]).Plus(TallyOf(reports[|reports| - 1]))
  }

  function JobsOf(reports: seq<JobReport>): set<string> {
    set r | r in reports :: r.jobId
  }

  /** The reports that are not repeats: the first for each job. */
  function Firsts(reports: seq<JobReport>): seq<JobReport> {
    if reports == [] then []
    else
      var front, r := Firsts(reports[..|reports| - 1]), reports[|reports| - 1];
      if r.jobId in JobsOf(front) then front else front + [r]
  }

  /** The reports of a history that reach round `id`. */
  function ReportsFor(id: string, es: seq<Event>): seq<JobReport> {
    if es == [] then []
    else
      var front, e := ReportsFor(id, es[..|es| - 1]), es[|es| - 1];
      if e.Report? && e.report.roundId == id && e.report.jobId != "" then front + [e.report] else front
  }

  /** The registrations of a history for round `id`: the rate and the plan of each. */
  function PlansFor(id: string, es: seq<Event>): seq<(int, int)> {
    if es == [] then []
    else
      var front, e := PlansFor(id, es[..|es| - 1]), es[|es| - 1];
      if e.Registration? && e.roundId == id then front + [(e.rate, e.planned)] else front
  }

  /** What the tracker must hold for a round that has had at most one registration and the given first reports. */
  ghost predicate Summarises(t: Tracker, id: string, plans: seq<(int, int)>, firsts: seq<JobReport>) {
    if plans == [] && firsts == [] then id !in t.rounds
    else id in t.rounds && Holds(t.rounds[id], plans, firsts)
  }

  ghost predicate Holds(a: Aggregate, plans: seq<(int, int)>, firsts: seq<JobReport>) {
    && a.receivedJobIds == JobsOf(firsts)
    && Tally(a.receivedReports, AggregateTotals(a), TallyAll(firsts).planned, multiset(a.latencyMillis)) == TallyAll(firsts)
    && a.totalRps == (if plans == [] then 0 else plans[0].0)
    && a.hasRoundPlan == (plans != [] && plans[0].1 >= 0)
    && a.plannedRequests == (if plans != [] && plans[0].1 >= 0 then plans[0].1 else TallyAll(firsts).planned)
  }

  lemma AddHolds(a: Aggregate, plans: seq<(int, int)>, firsts: seq<JobReport>, r: JobReport)
    requires Holds(a, plans, firsts)
    ensures Holds(a.Add(r), plans, if r.jobId in JobsOf(firsts) then firsts else firsts + [r])
  {
    hide TallyAll, JobsOf;
    if r.jobId !in JobsOf(firsts) {
      OneMoreReport(firsts, r);
    }
  }

  lemma OneMoreReport(reports: seq<JobReport>, r: JobReport)
    ensures TallyAll(reports + [r]) == TallyAll(reports).Plus(TallyOf(r))
    ensures JobsOf(reports + [r]) == JobsOf(reports) + {r.jobId}
  {
    var more := reports + [r];
    assert more[..|more| - 1] == reports;
    assert forall x :: x in more <==> x in reports || x == r;
  }

  lemma PlanHolds(a: Aggregate, firsts: seq<JobReport>, rate: int, expected: int, planned: int)
    requires Holds(a, [], firsts)
    ensures Holds(a.Plan(rate, expected, planned), [(rate, planned)], firsts)
  {
  }

  lemma EmptyHolds(id: string, expected: int, at: int)
    ensures Holds(Empty(id, expected, at), [], [])
  {
  }

  lemma RegistrationSummarises(t: Tracker, id: string, reports: seq<JobReport>, rate: int, expected: int, planned: int, at: int)
    requires id != "" && Summarises(t, id, [], Firsts(reports))
    ensures Summarises(t.Register(id, rate, expected, planned, at), id, [(rate, planned)], Firsts(reports))
  {
    hide Holds, Aggregate.Plan, Firsts;
    EmptyHolds(id, expected, at);
    PlanHolds(t.Open(id, expected, at).rounds[id], Firsts(reports), rate, expected, planned);
  }

  lemma ReportSummarises(t: Tracker, id: string, plans: seq<(int, int)>, reports: seq<JobReport>, report: JobReport, at: int)
    requires id != "" && Summarises(t, id, plans, Firsts(reports))
    requires report.roundId == id && report.jobId != ""
    ensures Summarises(t.Record(report, at), id, plans, Firsts(reports + [report]))
  {
    hide Holds, Aggregate.Add, Firsts;
    EmptyHolds(id, 0, at);
    AddHolds(t.Open(id, 0, at).rounds[id], plans, Firsts(reports), report);
    FirstsOfOneMore(reports, report);
  }

  lemma FirstsOfOneMore(reports: seq<JobReport>, report: JobReport)
    ensures Firsts(reports + [report]) ==
            if report.jobId in JobsOf(Firsts(reports)) then Firsts(reports) else Firsts(reports) + [report]
    ensures Firsts(reports + [report]) != []
  {
    assert (reports + [report])[..|reports|] == reports;
  }

  lemma OthersSummarise(t: Tracker, e: Event, id: string, plans: seq<(int, int)>, firsts: seq<JobReport>)
    requires id != "" && !e.Drain? && Summarises(t, id, plans, firsts)
    requires e.Registration? ==> e.roundId != id
    requires e.Report? ==> e.report.roundId != id || e.report.jobId == ""
    ensures Summarises(Apply(t, e).0, id, plans, firsts)
  {
    hide Holds;
  }

  lemma EventSummarises(t: Tracker, e: Event, id: string, plans: seq<(int, int)>, reports: seq<JobReport>)
    requires id != "" && !e.Drain?
    requires Summarises(t, id, plans, Firsts(reports))
    requires e.Registration? && e.roundId == id ==> plans == []
    ensures Summarises(Apply(t, e).0, id,
                       if e.Registration? && e.roundId == id then plans + [(e.rate, e.planned)] else plans,
                       Firsts(if e.Report? && e.report.roundId == id && e.report.jobId != ""
                              then reports + [e.report] else reports))
  {
    hide Summarises, Tracker.Register, Tracker.Record, Firsts;
    match e
    case Registration(roundId, rate, expected, planned, at) =>
      if roundId == id {
        RegistrationSummarises(t, id, reports, rate, expected, planned, at);
        assert plans + [(rate, planned)] == [(rate, planned)];
      } else {
        OthersSummarise(t, e, id, plans, Firsts(reports));
      }
    case Report(report, at) =>
      if report.roundId == id && report.jobId != "" {
        ReportSummarises(t, id, plans, reports, report, at);
      } else {
        OthersSummarise(t, e, id, plans, Firsts(reports));
      }
  }

  /** A history without drains leaves the round's aggregate determined by its registration and first reports. */
  lemma {:induction false} HistorySummarises(es: seq<Event>, id: string)
    requires id != "" && |PlansFor(id, es)| <= 1
    requires forall i :: 0 <= i < |es| ==> !es[i].Drain?
    ensures Summarises(After(es), id, PlansFor(id, es), Firsts(ReportsFor(id, es)))
  {
    if es != [] {
      var front := es[..|es| - 1];
      HistorySummarises(front, id);
      EventSummarises(After(front), es[|es| - 1], id, PlansFor(id, front), ReportsFor(id, front));
    }
  }

  // ---- Tallies forget order

  lemma PlusCommutes(a: Tally, b: Tally, c: Tally)
    ensures a.Plus(b).Plus(c) == a.Plus(c).Plus(b)
  {
  }

  lemma {:induction false} TallyRemove(s: seq<JobReport>, i: nat)
    requires i < |s|
    ensures TallyAll(s) == TallyAll(s[..i] + s[i + 1..]).Plus(TallyOf(s[i]))
  {
    hide Tally.Plus, TallyOf;
    var n := |s| - 1;
    if i == n {
      assert s[..i] + s[i + 1..] == s[..n];
    } else {
      var rest := s[..i] + s[i + 1..];
      TallyRemove(s[..n], i);
      assert rest[..|rest| - 1] == s[..n][..i] + s[..n][i + 1..];
      assert rest[|rest| - 1] == s[n];
      PlusCommutes(TallyAll(rest[..|rest| - 1]), TallyOf(s[i]), TallyOf(s[n]));
    }
  }

  lemma RemoveOne(s: seq<JobReport>, i: nat)
    requires i < |s|
    ensures multiset(s[..i] + s[i + 1..]) == multiset(s) - multiset{s[i]}
  {
    assert s == s[..i] + [s[i]] + s[i + 1..];
  }

  lemma {:induction false} TallyPermutes(a: seq<JobReport>, b: seq<JobReport>)
    requires multiset(a) == multiset(b)
    ensures TallyAll(a) == TallyAll(b)
  {
    hide Tally.Plus, TallyOf;
    if a == [] {
      assert |b| == |multiset(b)| == 0;
    } else {
      var n := |a| - 1;
      assert a[n] in multiset(b);
      var i :| 0 <= i < |b| && b[i] == a[n];
      RemoveOne(a, n);
      RemoveOne(b, i);
      assert a[..n] + a[n + 1..] == a[..n];
      TallyPermutes(a[..n], b[..i] + b[i + 1..]);
      TallyRemove(b, i);
    }
  }

  /** Job ids identify reports. */
  ghost predicate Identified(reports: seq<JobReport>) {
    forall r, s :: r in reports && s in reports && r.jobId == s.jobId ==> r == s
  }

  lemma {:induction false} FirstsAreTheReports(reports: seq<JobReport>)
    requires Identified(reports)
    ensures forall r :: r in Firsts(reports) <==> r in reports
    ensures forall r :: multiset(Firsts(reports))[r] <= 1
  {
    if reports != [] {
      var front, r := reports[..|reports| - 1], reports[|reports| - 1];
      assert forall x :: x in reports <==> x in front || x == r;
      FirstsAreTheReports(front);
      var firsts := Firsts(front);
      if r.jobId in JobsOf(firsts) {
        var s :| s in firsts && s.jobId == r.jobId;
        assert s == r;
      } else {
        assert r !in firsts;
        assert r !in multiset(firsts);
      }
    }
  }

  lemma SameReportsSameTally(a: seq<JobReport>, b: seq<JobReport>)
    requires Identified(a) && Identified(b)
    requires forall r :: r in a <==> r in b
    ensures TallyAll(Firsts(a)) == TallyAll(Firsts(b))
  {
    FirstsAreTheReports(a);
    FirstsAreTheReports(b);
    var fa, fb := Firsts(a), Firsts(b);
    forall r
      ensures multiset(fa)[r] == multiset(fb)[r]
    {
      assert r in fa <==> r in fb;
      assert r in multiset(fa) <==> r in fa;
      assert r in multiset(fb) <==> r in fb;
    }
    assert multiset(fa) == multiset(fb);
    TallyPermutes(fa, fb);
  }

  /** Two drain-free histories that register a round once, with the same rate and plan, and bring it the same
      set of reports, yield the same observation, p99 included: in whatever order, with whatever repeats,
      before or after the registration, and among whatever traffic of other rounds. */
  lemma ArrivalOrderIsForgotten(es: seq<Event>, es': seq<Event>, id: string)
    requires id != ""
    requires forall i :: 0 <= i < |es| ==> !es[i].Drain?
    requires forall i :: 0 <= i < |es'| ==> !es'[i].Drain?
    requires |PlansFor(id, es)| == 1 && PlansFor(id, es) == PlansFor(id, es')
    requires Identified(ReportsFor(id, es)) && Identified(ReportsFor(id, es'))
    requires forall r :: r in ReportsFor(id, es) <==> r in ReportsFor(id, es')
    ensures var t, t' := After(es), After(es');
            && id in t.rounds && id in t'.rounds
            && t.rounds[id].Observation() == t'.rounds[id].Observation()
  {
    HistorySummarises(es, id);
    HistorySummarises(es', id);
    SameReportsSameTally(ReportsFor(id, es), ReportsFor(id, es'));
    HistoryKeepsValid(es);
    HistoryKeepsValid(es');
    var a, a' := After(es).rounds[id], After(es').rounds[id];
    SortIsCanonical(Sort(a.latencyMillis), Sort(a'.latencyMillis));
  }
}
