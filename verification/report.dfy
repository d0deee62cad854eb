/** The run summary shown on screen (`display_results`, app.py lines
    329-351) and in the PDF report (`create_pdf_report`, lines 190-245):
    the number of rows whose status is verified, inaccurate or false, the
    share of verified rows and of flagged rows, a four-tier assessment, and
    the label each row is shown with. Percentages are exact rationals here
    where the source uses floating point. */
module Report {
  import opened Json

  /** `r.get('status') == status`. */
  predicate HasStatus(r: Record, status: string) {
    "status" in r && r["status"] == Str(status)
  }

  /** `sum(1 for r in results if r.get('status') == status)`. */
  function CountStatus(results: seq<Record>, status: string): (n: nat)
    ensures n <= |results|
  {
    if |results| == 0 then 0
    else CountStatus(results[..|results| - 1], status) + (if HasStatus(results[|results| - 1], status) then 1 else 0)
  }

  /** The positions of the rows that have the given status. */
  ghost function StatusRows(results: seq<Record>, status: string): set<nat> {
    set i: nat | i < |results| && HasStatus(results[i], status)
  }

  /** The count is the number of rows with that status, whatever their
      order. */
  lemma {:induction false} CountStatusCountsRows(results: seq<Record>, status: string)
    ensures CountStatus(results, status) == |StatusRows(results, status)|
  {
    if |results| > 0 {
      var n := |results| - 1;
      var init := results[..n];
      CountStatusCountsRows(init, status);
      var before := StatusRows(init, status);
      assert n !in before;
      if HasStatus(results[n], status) {
        assert StatusRows(results, status) == before + {n};
      } else {
        assert StatusRows(results, status) == before;
      }
    }
  }

  datatype Summary = Summary(total: nat, verified: nat, inaccurate: nat, falsified: nat)

  /** The metrics of a run: the number of rows and, for each of the three
      statuses, the number of rows that carry it. */
  function Summarise(results: seq<Record>): (s: Summary)
    ensures s.total == |results|
    ensures s.verified == |StatusRows(results, "verified")|
    ensures s.inaccurate == |StatusRows(results, "inaccurate")|
    ensures s.falsified == |StatusRows(results, "false")|
    ensures s.verified + s.inaccurate + s.falsified <= s.total
  {
    LabelCounts(results);
    CountStatusCountsRows(results, "verified");
    CountStatusCountsRows(results, "inaccurate");
    CountStatusCountsRows(results, "false");
    Summary(|results|, CountStatus(results, "verified"), CountStatus(results, "inaccurate"), CountStatus(results, "false"))
  }

  /** `accuracy_rate`: the verified share in percent, 0 for no rows. */
  function AccuracyRate(s: Summary): real {
    if s.total > 0 then (s.verified as real) / (s.total as real) * 100.0 else 0.0
  }

  /** `issue_rate`: the inaccurate-or-false share in percent, 0 for no rows. */
  function IssueRate(s: Summary): real {
    if s.total > 0 then ((s.inaccurate + s.falsified) as real) / (s.total as real) * 100.0 else 0.0
  }

  datatype Band = CriticalIssues | MultipleIssues | SomeIssues | LooksGood

  /** Bands ordered from worst to best. */
  function Rank(b: Band): nat {
    match b
    case CriticalIssues => 0
    case MultipleIssues => 1
    case SomeIssues => 2
    case LooksGood => 3
  }

  /** The `if`/`elif` chain on the accuracy rate. */
  function BandOfRate(rate: real): Band {
    if rate < 20.0 then CriticalIssues
    else if rate < 50.0 then MultipleIssues
    else if rate < 80.0 then SomeIssues
    else LooksGood
  }

  /** `part / total * 100 < threshold` (with rate 0 for no rows), decided
      on integers by cross-multiplication. */
  predicate RateBelow(part: nat, total: nat, threshold: nat) {
    if total > 0 then part * 100 < threshold * total else 0 < threshold
  }

  lemma RateBelowExact(part: nat, total: nat, threshold: nat)
    requires total > 0
    ensures RateBelow(part, total, threshold) <==> (part as real) / (total as real) * 100.0 < threshold as real
  {
    var t := total as real;
    var x := (part as real) / t;
    assert x * t == part as real;
    assert x * 100.0 * t == (part * 100) as real;
    if x * 100.0 < threshold as real {
      assert x * 100.0 * t < (threshold as real) * t;
    }
    if (part * 100) as real < (threshold * total) as real {
      assert (x * 100.0) * t < (threshold as real) * t;
    }
  }

  /** Each of the three thresholds is decided exactly on integers. */
  lemma ThresholdsExact(s: Summary)
    ensures RateBelow(s.verified, s.total, 20) <==> AccuracyRate(s) < 20.0
    ensures RateBelow(s.verified, s.total, 50) <==> AccuracyRate(s) < 50.0
    ensures RateBelow(s.verified, s.total, 80) <==> AccuracyRate(s) < 80.0
  {
    if s.total > 0 {
      RateBelowExact(s.verified, s.total, 20);
      RateBelowExact(s.verified, s.total, 50);
      RateBelowExact(s.verified, s.total, 80);
    }
  }

  /** The assessment, decided on integers; it agrees with the chain on the
      exact accuracy rate. */
  function Assess(s: Summary): (b: Band)
    ensures b == BandOfRate(AccuracyRate(s))
  {
    ThresholdsExact(s);
    if RateBelow(s.verified, s.total, 20) then CriticalIssues
    else if RateBelow(s.verified, s.total, 50) then MultipleIssues
    else if RateBelow(s.verified, s.total, 80) then SomeIssues
    else LooksGood
  }

  /** More verified rows out of the same total never give a worse band. */
  lemma AssessMonotone(s1: Summary, s2: Summary)
    requires s1.total == s2.total && s1.verified <= s2.verified
    ensures Rank(Assess(s1)) <= Rank(Assess(s2))
  {
  }

  /** No rows: 0% accuracy, 0% issues, and the critical band. */
  lemma EmptyRunIsCritical()
    ensures Summarise([]) == Summary(0, 0, 0, 0)
    ensures AccuracyRate(Summarise([])) == 0.0 && IssueRate(Summarise([])) == 0.0
    ensures Assess(Summarise([])) == CriticalIssues
  {
  }

  lemma ShareSum(v: real, w: real, t: real)
    requires 0.0 <= v && 0.0 <= w && v + w <= t && 0.0 < t
    ensures 0.0 <= v / t * 100.0 && 0.0 <= w / t * 100.0
    ensures v / t * 100.0 + w / t * 100.0 <= 100.0
  {
    var x := v / t;
    var y := w / t;
    assert x * t == v && y * t == w;
    assert (x + y) * t == v + w;
    var z := x + y;
    assert z * t == v + w;
    assert z * t - t <= 0.0;
    assert (z - 1.0) * t == z * t - t;
    assert z - 1.0 <= 0.0;
  }

  /** The verified share and the flagged share never exceed 100% together,
      because error rows count in neither. */
  lemma RatesWithinHundred(results: seq<Record>)
    ensures var s := Summarise(results);
      0.0 <= AccuracyRate(s) && 0.0 <= IssueRate(s) && AccuracyRate(s) + IssueRate(s) <= 100.0
  {
    var s := Summarise(results);
    if s.total > 0 {
      var t := s.total as real;
      var v := s.verified as real;
      var w := (s.inaccurate + s.falsified) as real;
      assert v + w <= t;
      ShareSum(v, w, t);
    }
  }

  /** The label a row is shown with: anything whose status is neither
      verified nor inaccurate, including an error verdict and a row with no
      status at all, is shown as FALSE. */
  datatype Label = VerifiedLabel | InaccurateLabel | FalseLabel

  function StatusLabel(r: Record): (l: Label)
    ensures l == VerifiedLabel <==> HasStatus(r, "verified")
    ensures l == InaccurateLabel <==> HasStatus(r, "inaccurate")
    ensures l == FalseLabel <==> !HasStatus(r, "verified") && !HasStatus(r, "inaccurate")
  {
    var status := if "status" in r then r["status"] else Str("unknown");
    if status == Str("verified") then VerifiedLabel
    else if status == Str("inaccurate") then InaccurateLabel
    else FalseLabel
  }

  function CountLabel(results: seq<Record>, l: Label): (n: nat)
    ensures n <= |results|
  {
    if |results| == 0 then 0
    else CountLabel(results[..|results| - 1], l) + (if StatusLabel(results[|results| - 1]) == l then 1 else 0)
  }

  /** The labels agree with the summary counts for verified and inaccurate
      rows, and every other row is labelled FALSE — so the FALSE labels
      cover the false count and every error row besides. */
  lemma {:induction false} LabelCounts(results: seq<Record>)
    ensures CountLabel(results, VerifiedLabel) == CountStatus(results, "verified")
    ensures CountLabel(results, InaccurateLabel) == CountStatus(results, "inaccurate")
    ensures CountLabel(results, FalseLabel) + CountStatus(results, "verified") + CountStatus(results, "inaccurate") == |results|
    ensures CountStatus(results, "false") <= CountLabel(results, FalseLabel)
  {
    if |results| > 0 {
      var init := results[..|results| - 1];
      LabelCounts(init);
      var last := results[|results| - 1];
      assert HasStatus(last, "false") ==> StatusLabel(last) == FalseLabel;
    }
  }

  /** A row with an error verdict is shown as FALSE yet is not counted as
      false in the summary. */
  lemma ErrorRowShownAsFalse(r: Record)
    requires HasStatus(r, "error")
    ensures StatusLabel(r) == FalseLabel
    ensures CountStatus([r], "false") == 0 && CountStatus([r], "verified") == 0
  {
    assert [r][..0] == [];
  }

  /** Two verified rows, one inaccurate and one false: 50% accuracy, 50%
      issues, and the "some issues" band. */
  lemma MixedRunHasSomeIssues(a: Record, b: Record, c: Record, d: Record)
    requires HasStatus(a, "verified") && HasStatus(b, "verified")
    requires HasStatus(c, "inaccurate") && HasStatus(d, "false")
    ensures Summarise([a, b, c, d]) == Summary(4, 2, 1, 1)
    ensures AccuracyRate(Summarise([a, b, c, d])) == 50.0
    ensures IssueRate(Summarise([a, b, c, d])) == 50.0
    ensures Assess(Summarise([a, b, c, d])) == SomeIssues
  {
    var rs := [a, b, c, d];
    assert !HasStatus(a, "inaccurate") && !HasStatus(a, "false");
    assert !HasStatus(b, "inaccurate") && !HasStatus(b, "false");
    assert !HasStatus(c, "verified") && !HasStatus(c, "false");
    assert !HasStatus(d, "verified") && !HasStatus(d, "inaccurate");
    assert rs[..3] == [a, b, c];
    assert rs[..3][..2] == [a, b];
    assert rs[..3][..2][..1] == [a];
    assert rs[..3][..2][..1][..0] == [];
    assert CountStatus([a], "verified") == 1;
    assert CountStatus([a, b], "verified") == 2;
    assert CountStatus([a, b, c], "verified") == 2;
    assert CountStatus(rs, "verified") == 2;
    assert CountStatus([a], "inaccurate") == 0;
    assert CountStatus([a, b], "inaccurate") == 0;
    assert CountStatus([a, b, c], "inaccurate") == 1;
    assert CountStatus(rs, "inaccurate") == 1;
    assert CountStatus([a], "false") == 0;
    assert CountStatus([a, b], "false") == 0;
    assert CountStatus([a, b, c], "false") == 0;
    assert CountStatus(rs, "false") == 1;
  }
}
