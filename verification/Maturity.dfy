/** Maturity histories of workload definitions and their chains of evidence reports. */
module Maturity {
  import opened Options

  datatype State = Planned | Prepared | Verified | Accepted | Rejected

  /** `evidence` are the referenced reports, and `predecessor` is the one that the report
      of this step names as the report before it. */
  datatype Transition = Transition(state: State, correctionOf: Option<nat>, evidence: seq<string>,
                                   predecessor: Option<string>)

  /** The history schema: never empty, and correction data only on a verified step. */
  predicate SchemaValid(history: seq<Transition>) {
    history != [] && forall k :: 0 <= k < |history| && history[k].correctionOf.Some? ==> history[k].state.Verified?
  }

  // ---- the language of histories -----------------------------------------------------

  function Corrections(n: nat): seq<State> { if n == 0 then [] else Corrections(n - 1) + [Rejected, Verified] }

  /** A complete history with `n` corrections. */
  function Complete(n: nat): seq<State> { [Planned, Prepared, Verified] + Corrections(n) + [Accepted] }

  lemma {:induction false} CorrectionsAlternate(n: nat)
    ensures |Corrections(n)| == 2 * n
    ensures forall k :: 0 <= k < 2 * n ==> Corrections(n)[k] == if k % 2 == 0 then Rejected else Verified
  {
    if n > 0 { CorrectionsAlternate(n - 1); }
  }

  lemma CompleteAt(n: nat, k: nat)
    requires k < 2 * n + 4
    ensures |Complete(n)| == 2 * n + 4
    ensures Complete(n)[k] ==
            if k == 0 then Planned else if k == 1 then Prepared
            else if k == 2 * n + 3 then Accepted else if k % 2 == 0 then Verified else Rejected
  {
    CorrectionsAlternate(n);
    if 3 <= k < 2 * n + 3 {
      assert Complete(n)[k] == Corrections(n)[k - 3];
    }
  }

  predicate Follows(previous: State, current: State) {
    match previous
    case Planned => current.Prepared?
    case Prepared => current.Verified?
    case Verified => current.Accepted? || current.Rejected?
    case Rejected => current.Verified?
    case Accepted => false
  }

  ghost predicate Lawful(states: seq<State>) {
    states != [] && states[0].Planned? && forall i, j :: 0 <= i < j < |states| && j == i + 1 ==>
      Follows(states[i], states[j])
  }

  lemma {:induction false} LawfulAt(states: seq<State>, k: nat)
    requires Lawful(states) && k < |states|
    ensures match k
            case 0 => states[k].Planned?
            case 1 => states[k].Prepared?
            case _ => if k % 2 == 0 then states[k].Verified? else states[k].Rejected? || states[k].Accepted?
    ensures states[k].Accepted? ==> k == |states| - 1 && k % 2 == 1
  {
    if k > 0 {
      LawfulAt(states, k - 1);
      assert Follows(states[k - 1], states[k]);
    }
    assert k + 1 < |states| ==> Follows(states[k], states[k + 1]);
  }

  /** The step rules admit exactly the non-empty beginnings of complete histories. */
  lemma LawfulMeansBeginning(states: seq<State>)
    requires states != []
    ensures Lawful(states) <==> exists n :: states <= Complete(n)
  {
    if Lawful(states) {
      var last := |states| - 1;
      LawfulAt(states, last);
      var n := if states[last].Accepted? then (last - 3) / 2 else |states|;
      CompleteAt(n, 0);
      forall k | 0 <= k < |states| ensures states[k] == Complete(n)[k] {
        LawfulAt(states, k);
        CompleteAt(n, k);
      }
      assert states <= Complete(n);
    }
    if exists n :: states <= Complete(n) {
      var n :| states <= Complete(n);
      CompleteAt(n, 0);
      forall i, j | 0 <= i < j < |states| && j == i + 1 ensures Follows(states[i], states[j]) {
        CompleteAt(n, i);
        CompleteAt(n, j);
      }
    }
  }

  // ---- validation -----------------------------------------------------------------------

  function States(history: seq<Transition>): seq<State> {
    seq(|history|, i requires 0 <= i < |history| => history[i].state)
  }

  /** Correction data stands exactly on the steps after a rejection, naming that step. */
  ghost predicate Corrected(history: seq<Transition>) {
    && (history != [] ==> history[0].correctionOf.None?)
    && forall i, j :: 0 <= i < j < |history| && j == i + 1 ==>
         history[j].correctionOf == if history[i].state.Rejected? then Some(i) else None
  }

  ghost predicate ValidHistory(history: seq<Transition>, maturity: State) {
    && (exists n :: States(history) <= Complete(n)) && Corrected(history)
    && history != [] && maturity == history[|history| - 1].state
  }

  method ValidateMaturityHistory(history: seq<Transition>, maturity: State) returns (ok: bool)
    requires SchemaValid(history)
    ensures ok <==> ValidHistory(history, maturity)
  {
    ghost var states := States(history);
    LawfulMeansBeginning(states);
    if !history[0].state.Planned? { return false; }
    for k := 1 to |history|
      invariant forall i, j :: 0 <= i < j < k && j == i + 1 ==> Follows(states[i], states[j])
      invariant forall i, j :: 0 <= i < j < k && j == i + 1 ==>
                  history[j].correctionOf == if history[i].state.Rejected? then Some(i) else None
    {
      var previous, current := history[k - 1].state, history[k].state;
      assert states[k - 1] == previous && states[k] == current;
      if previous.Rejected? {
        if !current.Verified? || history[k].correctionOf.None? || history[k].correctionOf != Some(k - 1) {
          return false;
        }
      } else {
        if history[k].correctionOf.Some? { return false; }
        if !Follows(previous, current) { return false; }
      }
    }
    return maturity == history[|history| - 1].state;
  }

  // ---- evidence reports ---------------------------------------------------------------------

  function Digit(d: nat): char
    requires d < 10
  {
    ['0', '1', '2', '3', '4', '5', '6', '7', '8', '9'][d]
  }

  function Decimal(n: nat): (s: string)
    ensures |s| >= 1
  {
    if n < 10 then [Digit(n)] else Decimal(n / 10) + [Digit(n % 10)]
  }

  lemma {:induction false} DecimalIsInjective(m: nat, n: nat)
    requires Decimal(m) == Decimal(n)
    ensures m == n
    decreases m
  {
    var a, b := Decimal(m), Decimal(n);
    assert a[|a| - 1] == Digit(m % 10) && b[|b| - 1] == Digit(n % 10);
    if m >= 10 {
      assert a[..|a| - 1] == Decimal(m / 10);
      assert n >= 10 ==> b[..|b| - 1] == Decimal(n / 10);
      DecimalIsInjective(m / 10, n / 10);
    }
  }

  predicate Reported(s: State) { s.Prepared? || s.Verified? || s.Accepted? }

  function StageName(s: State): string
    requires Reported(s)
  {
    match s
    case Prepared => "prepared"
    case Verified => "verified"
    case Accepted => "accepted"
  }

  function Suffix(stage: State, correction: Option<nat>): string
    requires Reported(stage)
  {
    match correction
    case Some(position) => StageName(stage) + "-correction-" + Decimal(position)
    case None => StageName(stage)
  }

  function StageReportPath(identifier: string, stage: State, correction: Option<nat>): string
    requires Reported(stage)
  {
    "inventory/reports/model-definitions/" + identifier + "-" + Suffix(stage, correction) + ".json"
  }

  /** Different stages or corrections of one definition have different report paths. */
  lemma PathsDiffer(identifier: string, a: State, x: Option<nat>, b: State, y: Option<nat>)
    requires Reported(a) && Reported(b) && StageReportPath(identifier, a, x) == StageReportPath(identifier, b, y)
    ensures a == b && x == y
  {
    var front := "inventory/reports/model-definitions/" + identifier + "-";
    var p, q := StageReportPath(identifier, a, x), StageReportPath(identifier, b, y);
    assert p[|front|..|p| - 5] == Suffix(a, x);
    assert q[|front|..|q| - 5] == Suffix(b, y);
    var s, t := Suffix(a, x), Suffix(b, y);
    assert |StageName(a)| == 8 && |StageName(b)| == 8;
    assert s[..8] == StageName(a) && t[..8] == StageName(b);
    assert StageName(a)[0] == s[0] == t[0] == StageName(b)[0];
    if x.Some? && y.Some? {
      assert s[20..] == Decimal(x.value) && t[20..] == Decimal(y.value);
      DecimalIsInjective(x.value, y.value);
    }
  }

  function CorrectionAt(history: seq<Transition>, k: nat): Option<nat>
    requires k < |history|
  {
    if history[k].state.Verified? && k > 0 && history[k - 1].state.Rejected? then Some(k) else None
  }

  /** The report that step `k` must name. */
  function PathAt(identifier: string, history: seq<Transition>, k: nat): string
    requires k < |history| && Reported(history[k].state)
  {
    StageReportPath(identifier, history[k].state, CorrectionAt(history, k))
  }

  /** The latest step before `k` that has a report. */
  function Preceding(history: seq<Transition>, k: nat): (p: Option<nat>)
    requires k <= |history|
    ensures p.Some? ==> p.value < k && Reported(history[p.value].state)
    ensures forall i :: 0 <= i < k && Reported(history[i].state) ==> p.Some? && i <= p.value
  {
    if k == 0 then None
    else if Reported(history[k - 1].state) then Some(k - 1)
    else Preceding(history, k - 1)
  }

  function PrecedingReport(identifier: string, history: seq<Transition>, k: nat): Option<string>
    requires k <= |history|
  {
    match Preceding(history, k)
    case None => None
    case Some(i) => Some(PathAt(identifier, history, i))
  }

  ghost predicate Chained(identifier: string, history: seq<Transition>, k: nat)
    requires k <= |history|
  {
    forall j :: 0 <= j < k && Reported(history[j].state) ==>
      history[j].evidence == [PathAt(identifier, history, j)]
      && history[j].predecessor == PrecedingReport(identifier, history, j)
  }

  method ValidateReports(identifier: string, history: seq<Transition>) returns (ok: bool)
    ensures ok <==> Chained(identifier, history, |history|)
  {
    var previousReport: Option<string> := None;
    for k := 0 to |history|
      invariant Chained(identifier, history, k)
      invariant previousReport == PrecedingReport(identifier, history, k)
    {
      if Reported(history[k].state) {
        var path := PathAt(identifier, history, k);
        if history[k].evidence != [path] || history[k].predecessor != previousReport { return false; }
        previousReport := Some(path);
      }
    }
    return true;
  }

  /** Two steps of a valid history never share a report path. */
  lemma ReportPathsDiffer(identifier: string, history: seq<Transition>, maturity: State, i: nat, j: nat)
    requires ValidHistory(history, maturity) && i < j < |history|
    requires Reported(history[i].state) && Reported(history[j].state)
    ensures PathAt(identifier, history, i) != PathAt(identifier, history, j)
  {
    var states := States(history);
    LawfulMeansBeginning(states);
    LawfulAt(states, i);
    LawfulAt(states, j);
    LawfulAt(states, j - 1);
    if i > 0 { LawfulAt(states, i - 1); }
    if PathAt(identifier, history, i) == PathAt(identifier, history, j) {
      PathsDiffer(identifier, history[i].state, CorrectionAt(history, i), history[j].state, CorrectionAt(history, j));
    }
  }

  /** The reports of a valid history form a chain without repetition: each names the one
      before it, and no two are the same. */
  lemma ReportsFormAChain(identifier: string, history: seq<Transition>, maturity: State)
    requires ValidHistory(history, maturity) && Chained(identifier, history, |history|)
    ensures forall i, j :: 0 <= i < j < |history| && Reported(history[i].state) && Reported(history[j].state) ==>
              history[i].evidence != history[j].evidence
    ensures forall j :: 0 <= j < |history| && Reported(history[j].state) ==>
              match Preceding(history, j)
              case None => history[j].predecessor.None?
              case Some(i) => history[j].predecessor.Some? && history[i].evidence == [history[j].predecessor.value]
  {
    forall i, j | 0 <= i < j < |history| && Reported(history[i].state) && Reported(history[j].state)
      ensures history[i].evidence != history[j].evidence
    {
      ReportPathsDiffer(identifier, history, maturity, i, j);
      assert history[i].evidence[0] == PathAt(identifier, history, i);
      assert history[j].evidence[0] == PathAt(identifier, history, j);
    }
  }
}
