/** Folding the engines' outcomes into one verdict: the fold is the maximum of a total
    order, so it cannot depend on the order or grouping of its inputs. */
module VerdictFold {
  import opened Prelude

  datatype Severity = Benign | Suspicious | Hostile

  /** A tightest budget at which an artifact grades hostile; lower is worse. */
  datatype Level = At(budget: nat) | Never

  datatype Outcome = Outcome(severity: Severity, firesAt: Option<Level>)

  function WorseLevel(a: Level, b: Level): Level {
    match (a, b)
    case (At(x), At(y)) => At(if x <= y then x else y)
    case (At(_), Never) => a
    case (Never, _) => b
  }

  function Band(s: Severity): nat {
    match s
    case Benign => 0
    case Suspicious => 1
    case Hostile => 2
  }

  function WorseOf(a: Outcome, b: Outcome): Outcome {
    if Band(a.severity) > Band(b.severity) then a
    else if Band(a.severity) < Band(b.severity) then b
    else
      Outcome(a.severity,
        match (a.firesAt, b.firesAt)
        case (Some(x), Some(y)) => Some(WorseLevel(x, y))
        case (Some(x), None) => Some(x)
        case (None, Some(y)) => Some(y)
        case (None, None) => None)
  }

  // -------------------------------------------------------------- the order

  /** Whether firing at `b` is at least as bad as firing at `a`: any measured budget
      beats none, firing beats never firing, and a tighter budget beats a looser. */
  predicate LevelAtMost(a: Option<Level>, b: Option<Level>) {
    || a == None
    || (a == Some(Never) && b != None)
    || (a.Some? && b.Some? && a.value.At? && b.value.At? && b.value.budget <= a.value.budget)
  }

  /** `b` is at least as bad as `a`: by band first, then by budget. */
  predicate AtMost(a: Outcome, b: Outcome) {
    || Band(a.severity) < Band(b.severity)
    || (a.severity == b.severity && LevelAtMost(a.firesAt, b.firesAt))
  }

  lemma OrderIsTotal(a: Outcome, b: Outcome, c: Outcome)
    ensures AtMost(a, b) || AtMost(b, a)
    ensures AtMost(a, b) && AtMost(b, a) ==> a == b
    ensures AtMost(a, b) && AtMost(b, c) ==> AtMost(a, c)
  {
  }

  /** The worse of two outcomes is whichever is greater: never a third one. */
  lemma WorseOfIsMaximum(a: Outcome, b: Outcome)
    ensures WorseOf(a, b) == if AtMost(a, b) then b else a
  {
  }

  // --------------------------------------------------------------- the fold

  /** Any way of folding outcomes two at a time. */
  datatype Grouping = One(outcome: Outcome) | Both(left: Grouping, right: Grouping)

  function Fold(g: Grouping): Outcome {
    match g
    case One(o) => o
    case Both(l, r) => WorseOf(Fold(l), Fold(r))
  }

  function Reported(g: Grouping): seq<Outcome> {
    match g
    case One(o) => [o]
    case Both(l, r) => Reported(l) + Reported(r)
  }

  /** A fold, however grouped, returns one of its inputs, and the worst of them. */
  lemma {:induction false} FoldIsGreatest(g: Grouping)
    ensures Fold(g) in Reported(g)
    ensures forall o :: o in Reported(g) ==> AtMost(o, Fold(g))
  {
    match g
    case One(o) => OrderIsTotal(o, o, o);
    case Both(l, r) =>
      FoldIsGreatest(l);
      FoldIsGreatest(r);
      WorseOfIsMaximum(Fold(l), Fold(r));
      forall o | o in Reported(g) ensures AtMost(o, Fold(g)) {
        OrderIsTotal(Fold(l), Fold(r), Fold(l));
        OrderIsTotal(o, Fold(l), Fold(r));
        OrderIsTotal(o, Fold(r), Fold(l));
      }
  }

  /** Two folds over the same outcomes agree, whatever their order, grouping or
      repetitions. */
  lemma FoldIgnoresOrder(g: Grouping, h: Grouping)
    requires forall o :: o in Reported(g) <==> o in Reported(h)
    ensures Fold(g) == Fold(h)
  {
    FoldIsGreatest(g);
    FoldIsGreatest(h);
    OrderIsTotal(Fold(g), Fold(h), Fold(g));
  }

  /** What scan concluded, raised by what isomer concluded if it reported. */
  function Verdict(scan: Outcome, isomer: Option<Outcome>): Outcome {
    match isomer
    case None => scan
    case Some(o) => WorseOf(scan, o)
  }

  /** The verdict is the greatest of the outcomes that exist. */
  lemma VerdictIsGreatest(scan: Outcome, isomer: Option<Outcome>)
    ensures var v := Verdict(scan, isomer);
      && (v == scan || isomer == Some(v))
      && AtMost(scan, v) && (isomer.Some? ==> AtMost(isomer.value, v))
  {
    OrderIsTotal(scan, scan, scan);
    match isomer
    case None =>
    case Some(o) => FoldIsGreatest(Both(One(scan), One(o)));
  }

  // ------------------------------------------------- what a verdict says

  /** The tightest budget among the outcomes of a band, if any of them fires. */
  ghost predicate Tightest(outcomes: seq<Outcome>, band: Severity, budget: nat) {
    && Outcome(band, Some(At(budget))) in outcomes
    && forall b :: Outcome(band, Some(At(b))) in outcomes ==> budget <= b
  }

  /** Some engine graded in this band against a calibrated budget. */
  ghost predicate Measured(outcomes: seq<Outcome>, band: Severity) {
    exists o :: o in outcomes && o.severity == band && o.firesAt.Some?
  }

  /** What it means to be the worst of some outcomes, band by band: one hostile
      outcome makes it hostile, only unanimity makes it benign, and its budget is the
      tightest measured in its band. */
  ghost predicate Worst(outcomes: seq<Outcome>, v: Outcome) {
    && (v.severity == Hostile <==> exists o :: o in outcomes && o.severity == Hostile)
    && (v.severity == Benign <==> forall o :: o in outcomes ==> o.severity == Benign)
    && (forall b :: v.firesAt == Some(At(b)) ==> Tightest(outcomes, v.severity, b))
    && (v.firesAt == Some(Never) ==>
          Measured(outcomes, v.severity)
          && forall b :: Outcome(v.severity, Some(At(b))) !in outcomes)
    && (v.firesAt == None ==> !Measured(outcomes, v.severity))
  }

  lemma GreatestIsWorst(outcomes: seq<Outcome>, v: Outcome)
    requires v in outcomes && forall o :: o in outcomes ==> AtMost(o, v)
    ensures Worst(outcomes, v)
  {
  }

  /** Any fold of outcomes says the worst of them. */
  lemma FoldIsWorst(g: Grouping)
    ensures Worst(Reported(g), Fold(g))
  {
    FoldIsGreatest(g);
    GreatestIsWorst(Reported(g), Fold(g));
  }

  /** The verdict says the worst of what scan and, if it reported, isomer concluded. */
  lemma VerdictIsWorst(scan: Outcome, isomer: Option<Outcome>)
    ensures Worst([scan] + if isomer.Some? then [isomer.value] else [], Verdict(scan, isomer))
  {
    match isomer
    case None => FoldIsWorst(One(scan)); assert [scan] + [] == [scan];
    case Some(o) => FoldIsWorst(Both(One(scan), One(o)));
  }

  // ---------------------------------------------------------------- credit

  datatype JudgeId = Cleave | Ml | Llm | Diff | DiffLlm

  /** The judges whose own band is the verdict's, in the order given. */
  function DecidedBy(severity: Severity, judges: seq<(JudgeId, Option<Severity>)>): seq<JudgeId> {
    if judges == [] then []
    else
      var (id, reported) := judges[|judges| - 1];
      DecidedBy(severity, judges[..|judges| - 1]) + if reported == Some(severity) then [id] else []
  }

  ghost predicate Increasing(places: seq<nat>) {
    forall i, j :: 0 <= i < j < |places| ==> places[i] < places[j]
  }

  /** The credited judges are exactly those at the places that reported the band, in
      order and each once. */
  lemma {:induction false} DecidedByPlaces(severity: Severity, judges: seq<(JudgeId, Option<Severity>)>)
    returns (places: seq<nat>)
    ensures Increasing(places) && |places| == |DecidedBy(severity, judges)|
    ensures forall p: nat :: p in places <==> p < |judges| && judges[p].1 == Some(severity)
    ensures forall k :: 0 <= k < |places| ==>
      places[k] < |judges| && DecidedBy(severity, judges)[k] == judges[places[k]].0
  {
    places := [];
    if judges != [] {
      var n := |judges| - 1;
      places := DecidedByPlaces(severity, judges[..n]);
      assert forall k :: 0 <= k < |places| ==> places[k] in places;
      assert forall p: nat :: p < n ==> judges[..n][p] == judges[p];
      if judges[n].1 == Some(severity) {
        AppendIn(places, n);
        places := places + [n];
      }
    }
  }

  lemma AppendIn(places: seq<nat>, n: nat)
    ensures forall p: nat :: p in places + [n] <==> p in places || p == n
  {
  }
}
