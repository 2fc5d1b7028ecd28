/** Weighted aggregation of graded dimensions. Scores and weights are reals. */
module Aggregation {
  import opened Prelude

  datatype Name = Citation | ToolUse | Report | Coverage | Completeness | Lexical | Semantic

  datatype Method = Deterministic | Llm | Skipped

  datatype Dimension = Dimension(name: Name, score: real, passed: bool, how: Method, weight: real)

  predicate Hard(n: Name) {
    n.Citation? || n.ToolUse? || n.Report?
  }

  function BaseWeight(n: Name): real {
    match n
    case Citation => 0.25
    case ToolUse => 0.10
    case Report => 0.15
    case Coverage => 0.15
    case Completeness => 0.15
    case Lexical => 0.20
    case Semantic => 0.10
  }

  /** The score at which a dimension passes; no score exceeds 1. */
  function Threshold(n: Name): real {
    if Hard(n) then 1.0 else 0.7
  }

  predicate Meets(d: Dimension) {
    if Hard(d.name) then d.score == 1.0 else d.score >= 0.7
  }

  /** The first semantic dimension decides whether semantic weight counts. */
  function SemanticPresent(ds: seq<Dimension>): bool {
    if ds == [] then false
    else if ds[0].name.Semantic? then !ds[0].how.Skipped?
    else SemanticPresent(ds[1..])
  }

  /** `_applicable_weights`; `None` for a name the table does not hold. */
  function WeightOf(present: bool, n: Name): Option<real> {
    if present then Some(BaseWeight(n) * (1.0 / (1.0 + 0.10)))
    else if n.Semantic? then None else Some(BaseWeight(n))
  }

  function Stamp(present: bool, d: Dimension): Dimension {
    if d.how.Skipped? then d.(weight := 0.0, passed := true)
    else
      var w := WeightOf(present, d.name);
      d.(weight := if w.Some? then w.value else d.weight, passed := Meets(d))
  }

  function Stamped(present: bool, ds: seq<Dimension>): (r: seq<Dimension>)
    ensures |r| == |ds| && forall i :: 0 <= i < |ds| ==> r[i] == Stamp(present, ds[i])
  {
    seq(|ds|, i requires 0 <= i < |ds| => Stamp(present, ds[i]))
  }

  /** Sums over the stamped dimensions that were graded. */
  function WeightTotal(ss: seq<Dimension>): real {
    if ss == [] then 0.0
    else WeightTotal(ss[..|ss| - 1]) + if ss[|ss| - 1].how.Skipped? then 0.0 else ss[|ss| - 1].weight
  }

  function Term(s: Dimension): real {
    if s.how.Skipped? then 0.0 else s.score * s.weight
  }

  function WeightedSum(ss: seq<Dimension>): real {
    if ss == [] then 0.0 else WeightedSum(ss[..|ss| - 1]) + Term(ss[|ss| - 1])
  }

  function Aggregate(ss: seq<Dimension>): real {
    if WeightTotal(ss) > 0.0 then WeightedSum(ss) / WeightTotal(ss) else 0.0
  }

  /** The last dimension of each name. */
  function ByName(ds: seq<Dimension>): map<Name, Dimension> {
    if ds == [] then map[] else ByName(ds[..|ds| - 1])[ds[|ds| - 1].name := ds[|ds| - 1]]
  }

  predicate NameOk(m: map<Name, Dimension>, n: Name) {
    n in m ==> Meets(m[n]) || (n.Semantic? && m[n].how.Skipped?)
  }

  predicate Passes(m: map<Name, Dimension>) {
    && NameOk(m, Citation) && NameOk(m, ToolUse) && NameOk(m, Report)
    && NameOk(m, Coverage) && NameOk(m, Completeness) && NameOk(m, Lexical)
    && NameOk(m, Semantic)
  }

  /** `aggregate_dimensions` */
  method AggregateDimensions(ds: seq<Dimension>) returns (score: real, passed: bool, stamped: seq<Dimension>)
    ensures stamped == Stamped(SemanticPresent(ds), ds)
    ensures score == Aggregate(stamped)
    ensures passed == Passes(ByName(ds))
    ensures Unique(ds) ==> forall lo, hi :: Bounds(ds, lo, hi) ==> lo <= score <= hi
  {
    var present := SemanticPresent(ds);
    var byName := IndexByName(ds);
    var sum, total := 0.0, 0.0;
    stamped := [];
    for i := 0 to |ds|
      invariant stamped == Stamped(present, ds[..i])
      invariant sum == WeightedSum(stamped) && total == WeightTotal(stamped)
    {
      var s := Stamp(present, ds[i]);
      SumsSnoc(stamped, s);
      stamped := stamped + [s];
      if !s.how.Skipped? {
        sum, total := sum + s.score * s.weight, total + s.weight;
      }
    }
    assert ds[..|ds|] == ds;
    score := if total > 0.0 then sum / total else 0.0;
    passed := Passes(byName);
    if Unique(ds) {
      forall lo, hi | Bounds(ds, lo, hi) ensures lo <= Aggregate(stamped) <= hi {
        AggregateBetween(ds, lo, hi);
      }
    }
  }

  lemma SumsSnoc(ss: seq<Dimension>, s: Dimension)
    ensures WeightTotal(ss + [s]) == WeightTotal(ss) + if s.how.Skipped? then 0.0 else s.weight
    ensures WeightedSum(ss + [s]) == WeightedSum(ss) + Term(s)
  {
    assert (ss + [s])[..|ss|] == ss;
  }

  /** The dictionary comprehension over the dimensions. */
  method IndexByName(ds: seq<Dimension>) returns (m: map<Name, Dimension>)
    ensures m == ByName(ds)
  {
    m := map[];
    for i := 0 to |ds|
      invariant m == ByName(ds[..i])
    {
      assert ds[..i + 1][..i] == ds[..i];
      m := m[ds[i].name := ds[i]];
    }
    assert ds[..|ds|] == ds;
  }

  // ---------- Weights ----------

  function Sum7(f: Name -> real): real {
    f(Citation) + f(ToolUse) + f(Report) + f(Coverage) + f(Completeness) + f(Lexical) + f(Semantic)
  }

  function WeightOrZero(present: bool, n: Name): real {
    if WeightOf(present, n).Some? then WeightOf(present, n).value else 0.0
  }

  /** The applicable weights sum to one, with and without the semantic dimension. */
  lemma WeightsSumToOne(present: bool)
    ensures Sum7(n => WeightOrZero(present, n)) == 1.0
    ensures forall n :: WeightOrZero(present, n) >= 0.0 && (present || !n.Semantic? ==> WeightOrZero(present, n) > 0.0)
  {
  }

  // ---------- Between least and greatest ----------

  /** Every graded score lies in the range and no weight is negative. */
  ghost predicate Within(ss: seq<Dimension>, lo: real, hi: real) {
    forall i :: 0 <= i < |ss| && !ss[i].how.Skipped? ==> lo <= ss[i].score <= hi && ss[i].weight >= 0.0
  }

  lemma Scaled(x: real, lo: real, hi: real, w: real)
    requires lo <= x <= hi && w >= 0.0
    ensures lo * w <= x * w <= hi * w
  {
  }

  /** What a graded score contributes above `c`. */
  function Gain(d: Dimension, c: real): real {
    if d.how.Skipped? then 0.0 else (d.score - c) * d.weight
  }

  lemma GainSign(d: Dimension, lo: real, hi: real)
    requires !d.how.Skipped? ==> lo <= d.score <= hi && d.weight >= 0.0
    ensures Gain(d, lo) >= 0.0 && Gain(d, hi) <= 0.0
  {
  }

  lemma GainIs(d: Dimension, c: real, total: real)
    ensures !d.how.Skipped? ==> Gain(d, c) == Term(d) - c * d.weight && c * (total + d.weight) == c * total + c * d.weight
  {
  }

  function Excess(ss: seq<Dimension>, c: real): real {
    if ss == [] then 0.0 else Excess(ss[..|ss| - 1], c) + Gain(ss[|ss| - 1], c)
  }

  lemma {:induction false} ExcessIs(ss: seq<Dimension>, c: real)
    ensures Excess(ss, c) == WeightedSum(ss) - c * WeightTotal(ss)
  {
    if ss != [] {
      var m := |ss| - 1;
      ExcessIs(ss[..m], c);
      GainIs(ss[m], c, WeightTotal(ss[..m]));
    }
  }

  lemma {:induction false} ExcessSign(ss: seq<Dimension>, lo: real, hi: real)
    requires Within(ss, lo, hi)
    ensures Excess(ss, lo) >= 0.0 && Excess(ss, hi) <= 0.0
  {
    if ss != [] {
      var m := |ss| - 1;
      ExcessSign(ss[..m], lo, hi);
      GainSign(ss[m], lo, hi);
    }
  }

  lemma SumWithin(ss: seq<Dimension>, lo: real, hi: real)
    requires Within(ss, lo, hi)
    ensures lo * WeightTotal(ss) <= WeightedSum(ss) <= hi * WeightTotal(ss)
  {
    ExcessSign(ss, lo, hi);
    ExcessIs(ss, lo);
    ExcessIs(ss, hi);
  }

  lemma Divide(x: real, lo: real, hi: real, w: real)
    requires lo * w <= x <= hi * w && w > 0.0
    ensures lo <= x / w <= hi
  {
    var q := x / w;
    assert q * w == x;
    assert q < lo ==> q * w < lo * w;
    assert q > hi ==> q * w > hi * w;
  }

  /** The aggregate lies between any bounds on the graded scores, whenever something with weight was graded. */
  lemma AggregateWithin(ss: seq<Dimension>, lo: real, hi: real)
    requires Within(ss, lo, hi)
    ensures WeightTotal(ss) > 0.0 ==> lo <= Aggregate(ss) <= hi
  {
    SumWithin(ss, lo, hi);
    if WeightTotal(ss) > 0.0 {
      Divide(WeightedSum(ss), lo, hi, WeightTotal(ss));
    }
  }

  /** Something was graded, and all graded scores lie in the range. */
  ghost predicate Bounds(ds: seq<Dimension>, lo: real, hi: real) {
    && (exists i :: 0 <= i < |ds| && !ds[i].how.Skipped?)
    && forall i :: 0 <= i < |ds| && !ds[i].how.Skipped? ==> lo <= ds[i].score <= hi
  }

  /** Uniquely named dimensions get a positive weight if they are graded. */
  lemma StampedWeights(ds: seq<Dimension>)
    requires Unique(ds)
    ensures forall i :: 0 <= i < |ds| && !ds[i].how.Skipped? ==> Stamp(SemanticPresent(ds), ds[i]).weight > 0.0
  {
    var present := SemanticPresent(ds);
    PresentIff(ds);
    WeightsSumToOne(present);
    forall i | 0 <= i < |ds| && !ds[i].how.Skipped? ensures Stamp(present, ds[i]).weight > 0.0 {
      assert ds[i].name.Semantic? ==> Graded(ds, Semantic);
      assert WeightOrZero(present, ds[i].name) > 0.0;
    }
  }

  lemma {:induction false} TotalPositive(ss: seq<Dimension>)
    requires forall i :: 0 <= i < |ss| && !ss[i].how.Skipped? ==> ss[i].weight > 0.0
    ensures WeightTotal(ss) >= 0.0
    ensures (exists i :: 0 <= i < |ss| && !ss[i].how.Skipped?) ==> WeightTotal(ss) > 0.0
  {
    if ss != [] {
      var m := |ss| - 1;
      TotalPositive(ss[..m]);
      if i :| 0 <= i < m && !ss[i].how.Skipped? {
        assert ss[..m][i] == ss[i];
      }
    }
  }

  /** The aggregate of uniquely named dimensions lies between the least and the greatest graded score. */
  lemma AggregateBetween(ds: seq<Dimension>, lo: real, hi: real)
    requires Unique(ds) && Bounds(ds, lo, hi)
    ensures var ss := Stamped(SemanticPresent(ds), ds); WeightTotal(ss) > 0.0 && lo <= Aggregate(ss) <= hi
  {
    var ss := Stamped(SemanticPresent(ds), ds);
    StampedWeights(ds);
    assert forall i :: 0 <= i < |ss| ==> ss[i].how == ds[i].how && ss[i].score == ds[i].score;
    var k :| 0 <= k < |ds| && !ds[k].how.Skipped?;
    assert !ss[k].how.Skipped?;
    TotalPositive(ss);
    AggregateWithin(ss, lo, hi);
  }

  // ---------- Overall pass ----------

  ghost predicate Unique(ds: seq<Dimension>) {
    forall i, k :: 0 <= i < k < |ds| ==> ds[i].name != ds[k].name
  }

  lemma {:induction false} ByNameUnique(ds: seq<Dimension>)
    requires Unique(ds)
    ensures forall i :: 0 <= i < |ds| ==> ds[i].name in ByName(ds) && ByName(ds)[ds[i].name] == ds[i]
    ensures forall n :: n in ByName(ds) ==> ByName(ds)[n] in ds && ByName(ds)[n].name == n
  {
    if ds != [] {
      ByNameUnique(ds[..|ds| - 1]);
    }
  }

  /** The overall verdict looks at every dimension except a skipped semantic one. */
  lemma OverallPassIff(ds: seq<Dimension>)
    requires Unique(ds)
    ensures Passes(ByName(ds)) <==> forall d :: d in ds ==> Meets(d) || (d.name.Semantic? && d.how.Skipped?)
  {
    ByNameUnique(ds);
    var m := ByName(ds);
    if Passes(m) {
      forall d | d in ds ensures Meets(d) || (d.name.Semantic? && d.how.Skipped?) {
        assert m[d.name] == d && NameOk(m, d.name) by {
          match d.name
          case Citation =>
          case ToolUse =>
          case Report =>
          case Coverage =>
          case Completeness =>
          case Lexical =>
          case Semantic =>
        }
      }
    }
  }

  ghost predicate AllStampedPass(ds: seq<Dimension>) {
    forall i :: 0 <= i < |ds| ==> Stamp(SemanticPresent(ds), ds[i]).passed
  }

  /** A skipped dimension other than the semantic one, with a score below its threshold. */
  ghost predicate HiddenFailure(ds: seq<Dimension>) {
    exists i :: 0 <= i < |ds| && ds[i].how.Skipped? && !ds[i].name.Semantic? && !Meets(ds[i])
  }

  /**
   The overall verdict agrees with the stamped dimensions exactly unless a skipped hard or soft dimension hides
   a failing score: skipping stamps it as passed, but the verdict still reads its score.
   */
  lemma PassAgreesIff(ds: seq<Dimension>)
    requires Unique(ds)
    ensures Passes(ByName(ds)) <==> AllStampedPass(ds) && !HiddenFailure(ds)
    ensures (forall i :: 0 <= i < |ds| && ds[i].how.Skipped? ==> ds[i].name.Semantic?) ==>
              (Passes(ByName(ds)) <==> AllStampedPass(ds))
  {
    OverallPassIff(ds);
    if AllStampedPass(ds) && !HiddenFailure(ds) {
      forall d | d in ds ensures Meets(d) || (d.name.Semantic? && d.how.Skipped?) {
        var i :| 0 <= i < |ds| && ds[i] == d;
        assert Stamp(SemanticPresent(ds), ds[i]).passed;
      }
    }
    if Passes(ByName(ds)) {
      assert forall i :: 0 <= i < |ds| ==> ds[i] in ds;
    }
  }

  /** A skipped hard dimension is stamped as passed although the verdict fails. */
  lemma SkippedHardDimensionDisagrees()
    ensures var ds := [Dimension(Citation, 0.0, false, Skipped, 0.0)];
            Unique(ds) && AllStampedPass(ds) && !Passes(ByName(ds))
  {
    var d := Dimension(Citation, 0.0, false, Skipped, 0.0);
    assert HiddenFailure([d]) by { assert [d][0] == d; }
    PassAgreesIff([d]);
  }

  // ---------- What a pass guarantees ----------

  /** What to add up over the graded names: weights, or weighted thresholds. */
  datatype Measure = Weights | Thresholds

  function Value(f: Measure, present: bool, n: Name): real {
    if f.Weights? then WeightOrZero(present, n) else Threshold(n) * WeightOrZero(present, n)
  }

  function GradedValue(f: Measure, present: bool, d: Dimension): real {
    if d.how.Skipped? then 0.0 else Value(f, present, d.name)
  }

  function GradedTotal(ds: seq<Dimension>, f: Measure, present: bool): real {
    if ds == [] then 0.0 else GradedTotal(ds[..|ds| - 1], f, present) + GradedValue(f, present, ds[|ds| - 1])
  }

  ghost predicate Graded(ds: seq<Dimension>, n: Name) {
    exists i :: 0 <= i < |ds| && ds[i].name == n && !ds[i].how.Skipped?
  }

  ghost function Part(ds: seq<Dimension>, f: Measure, present: bool, n: Name): real {
    if Graded(ds, n) then Value(f, present, n) else 0.0
  }

  lemma GradedSnoc(ds: seq<Dimension>, d: Dimension, n: Name)
    ensures Graded(ds + [d], n) <==> Graded(ds, n) || (d.name == n && !d.how.Skipped?)
  {
    if Graded(ds, n) {
      var i :| 0 <= i < |ds| && ds[i].name == n && !ds[i].how.Skipped?;
      assert (ds + [d])[i] == ds[i];
    }
    assert (ds + [d])[|ds|] == d;
  }

  ghost function Parts(ds: seq<Dimension>, f: Measure, b: bool): real {
    Part(ds, f, b, Citation) + Part(ds, f, b, ToolUse) + Part(ds, f, b, Report) + Part(ds, f, b, Coverage)
    + Part(ds, f, b, Completeness) + Part(ds, f, b, Lexical) + Part(ds, f, b, Semantic)
  }

  lemma PartSnoc(ds: seq<Dimension>, d: Dimension, f: Measure, b: bool, n: Name)
    requires !Graded(ds, d.name)
    ensures Part(ds + [d], f, b, n) == Part(ds, f, b, n) + if d.name == n then GradedValue(f, b, d) else 0.0
  {
    GradedSnoc(ds, d, n);
  }

  lemma PartsSnoc(ds: seq<Dimension>, d: Dimension, f: Measure, b: bool)
    requires !Graded(ds, d.name)
    ensures Parts(ds + [d], f, b) == Parts(ds, f, b) + GradedValue(f, b, d)
  {
    PartSnoc(ds, d, f, b, Citation);
    PartSnoc(ds, d, f, b, ToolUse);
    PartSnoc(ds, d, f, b, Report);
    PartSnoc(ds, d, f, b, Coverage);
    PartSnoc(ds, d, f, b, Completeness);
    PartSnoc(ds, d, f, b, Lexical);
    PartSnoc(ds, d, f, b, Semantic);
  }

  /** The order of uniquely named dimensions does not matter. */
  lemma {:induction false} TotalByName(ds: seq<Dimension>, f: Measure, present: bool)
    requires Unique(ds)
    ensures GradedTotal(ds, f, present) == Parts(ds, f, present)
  {
    if ds != [] {
      var m := |ds| - 1;
      TotalByName(ds[..m], f, present);
      PartsSnoc(ds[..m], ds[m], f, present);
      assert ds == ds[..m] + [ds[m]];
    }
  }

  /** All six base dimensions are graded. */
  ghost predicate Complete(ds: seq<Dimension>) {
    && Graded(ds, Citation) && Graded(ds, ToolUse) && Graded(ds, Report)
    && Graded(ds, Coverage) && Graded(ds, Completeness) && Graded(ds, Lexical)
  }

  lemma {:induction false} WeightTotalIs(ds: seq<Dimension>, present: bool)
    requires forall i :: 0 <= i < |ds| && ds[i].name.Semantic? && !ds[i].how.Skipped? ==> present
    ensures WeightTotal(Stamped(present, ds)) == GradedTotal(ds, Weights, present)
  {
    if ds != [] {
      var m := |ds| - 1;
      WeightTotalIs(ds[..m], present);
      assert Stamped(present, ds)[..m] == Stamped(present, ds[..m]);
    }
  }

  lemma TermAtLeast(d: Dimension, present: bool)
    requires !d.how.Skipped? ==> Meets(d) && (d.name.Semantic? ==> present)
    ensures Term(Stamp(present, d)) >= GradedValue(Thresholds, present, d)
  {
    if !d.how.Skipped? {
      WeightsSumToOne(present);
      Scaled(d.score, Threshold(d.name), d.score, WeightOrZero(present, d.name));
    }
  }

  lemma StampedSnoc(ds: seq<Dimension>, present: bool)
    requires ds != []
    ensures Stamped(present, ds) == Stamped(present, ds[..|ds| - 1]) + [Stamp(present, ds[|ds| - 1])]
  {
  }

  /** Meeting every threshold bounds the weighted sum from below. */
  lemma {:induction false} WeightedSumAtLeast(ds: seq<Dimension>, present: bool)
    requires forall i :: 0 <= i < |ds| && ds[i].name.Semantic? && !ds[i].how.Skipped? ==> present
    requires forall i :: 0 <= i < |ds| && !ds[i].how.Skipped? ==> Meets(ds[i])
    ensures WeightedSum(Stamped(present, ds)) >= GradedTotal(ds, Thresholds, present)
  {
    if ds != [] {
      var m := |ds| - 1;
      WeightedSumAtLeast(ds[..m], present);
      StampedSnoc(ds, present);
      SumsSnoc(Stamped(present, ds[..m]), Stamp(present, ds[m]));
      TermAtLeast(ds[m], present);
    }
  }

  lemma {:induction false} PresentIff(ds: seq<Dimension>)
    requires Unique(ds)
    ensures SemanticPresent(ds) <==> Graded(ds, Semantic)
  {
    if ds != [] {
      PresentIff(ds[1..]);
      assert ds == [ds[0]] + ds[1..];
      if Graded(ds[1..], Semantic) {
        var i :| 0 <= i < |ds[1..]| && ds[1..][i].name == Semantic && !ds[1..][i].how.Skipped?;
        assert ds[i + 1] == ds[1..][i];
      }
      if Graded(ds, Semantic) && !ds[0].name.Semantic? {
        var i :| 0 <= i < |ds| && ds[i].name == Semantic && !ds[i].how.Skipped?;
        assert ds[1..][i - 1] == ds[i];
      }
    }
  }

  /** The least aggregate of a complete report that passes. */
  function Floor(present: bool): real {
    if present then 0.92 / 1.1 else 0.85
  }

  /** What the weights and thresholds of a complete report add up to. */
  lemma FloorParts(ds: seq<Dimension>, present: bool)
    requires Complete(ds) && (Graded(ds, Semantic) <==> present)
    ensures Parts(ds, Weights, present) == 1.0
    ensures Parts(ds, Thresholds, present) == Floor(present)
  {
  }

  /** With all six base dimensions graded, a pass implies an aggregate of at least 0.85, or 0.92/1.1 with semantics. */
  lemma PassImpliesFloor(ds: seq<Dimension>)
    requires Unique(ds) && Complete(ds) && Passes(ByName(ds))
    ensures var present := SemanticPresent(ds);
            WeightTotal(Stamped(present, ds)) == 1.0 && Aggregate(Stamped(present, ds)) >= Floor(present)
  {
    var present := SemanticPresent(ds);
    PresentIff(ds);
    OverallPassIff(ds);
    FloorParts(ds, present);
    AllGradedMeet(ds, present);
    WeightTotalIs(ds, present);
    WeightedSumAtLeast(ds, present);
    TotalByName(ds, Weights, present);
    TotalByName(ds, Thresholds, present);
  }

  lemma AllGradedMeet(ds: seq<Dimension>, present: bool)
    requires forall d :: d in ds ==> Meets(d) || (d.name.Semantic? && d.how.Skipped?)
    requires Graded(ds, Semantic) <==> present
    ensures forall i :: 0 <= i < |ds| && !ds[i].how.Skipped? ==> Meets(ds[i])
    ensures forall i :: 0 <= i < |ds| && ds[i].name.Semantic? && !ds[i].how.Skipped? ==> present
  {
    assert forall i :: 0 <= i < |ds| ==> ds[i] in ds;
  }

  /** The least scores that pass, with or without a semantic grade. */
  function Barely(present: bool): seq<Dimension> {
    [Dimension(Citation, 1.0, true, Deterministic, 0.0), Dimension(ToolUse, 1.0, true, Deterministic, 0.0),
     Dimension(Report, 1.0, true, Deterministic, 0.0), Dimension(Coverage, 0.7, true, Deterministic, 0.0),
     Dimension(Completeness, 0.7, true, Deterministic, 0.0), Dimension(Lexical, 0.7, true, Deterministic, 0.0),
     Dimension(Semantic, 0.7, true, if present then Llm else Skipped, 0.0)]
  }

  lemma BarelyShape(present: bool)
    ensures var ds := Barely(present);
            && Unique(ds) && Complete(ds) && (Graded(ds, Semantic) <==> present) && SemanticPresent(ds) == present
            && (forall i :: 0 <= i < |ds| ==> ds[i].score == Threshold(ds[i].name))
  {
    var ds := Barely(present);
    assert ds[0].name.Citation? && ds[1].name.ToolUse? && ds[2].name.Report?;
    assert ds[3].name.Coverage? && ds[4].name.Completeness? && ds[5].name.Lexical?;
    assert ds[6].name.Semantic?;
    PresentIff(ds);
  }

  lemma {:induction false} ExactSum(ds: seq<Dimension>, present: bool)
    requires forall i :: 0 <= i < |ds| ==> ds[i].score == Threshold(ds[i].name)
    requires forall i :: 0 <= i < |ds| && ds[i].name.Semantic? && !ds[i].how.Skipped? ==> present
    ensures WeightedSum(Stamped(present, ds)) == GradedTotal(ds, Thresholds, present)
  {
    if ds != [] {
      var m := |ds| - 1;
      ExactSum(ds[..m], present);
      StampedSnoc(ds, present);
      SumsSnoc(Stamped(present, ds[..m]), Stamp(present, ds[m]));
      ExactTerm(ds[m], present);
    }
  }

  lemma ExactTerm(d: Dimension, present: bool)
    requires d.score == Threshold(d.name) && (!d.how.Skipped? && d.name.Semantic? ==> present)
    ensures Term(Stamp(present, d)) == GradedValue(Thresholds, present, d)
  {
  }

  /** Scores at their thresholds pass. */
  lemma ExactPasses(ds: seq<Dimension>)
    requires Unique(ds) && forall i :: 0 <= i < |ds| ==> ds[i].score == Threshold(ds[i].name)
    ensures Passes(ByName(ds))
  {
    OverallPassIff(ds);
  }

  /** The bounds are exact: the least passing scores attain them. */
  lemma FloorIsAttained(present: bool)
    ensures var ds := Barely(present);
            && Unique(ds) && Complete(ds) && Passes(ByName(ds)) && SemanticPresent(ds) == present
            && Aggregate(Stamped(present, ds)) == Floor(present)
  {
    BarelyShape(present);
    ExactPasses(Barely(present));
    PassImpliesFloor(Barely(present));
    BarelyTotal(present);
  }

  lemma BarelyTotal(present: bool)
    ensures WeightedSum(Stamped(present, Barely(present))) == Floor(present)
  {
    var ds := Barely(present);
    BarelyShape(present);
    ExactSum(ds, present);
    FloorParts(ds, present);
    TotalByName(ds, Thresholds, present);
  }

  // ---------- The weights themselves ----------

  /** What a name contributes to the weighted sum. */
  function Share(m: map<Name, Dimension>, present: bool, n: Name): real {
    if n in m && !m[n].how.Skipped? then m[n].score * WeightOrZero(present, n) else 0.0
  }

  function Shares(m: map<Name, Dimension>, present: bool): real {
    Share(m, present, Citation) + Share(m, present, ToolUse) + Share(m, present, Report) + Share(m, present, Coverage)
    + Share(m, present, Completeness) + Share(m, present, Lexical) + Share(m, present, Semantic)
  }

  lemma ShareAdd(m: map<Name, Dimension>, present: bool, d: Dimension, n: Name)
    requires d.name !in m && (d.name.Semantic? && !d.how.Skipped? ==> present)
    ensures Share(m[d.name := d], present, n) == Share(m, present, n) + if n == d.name then Term(Stamp(present, d)) else 0.0
  {
  }

  lemma SharesAdd(m: map<Name, Dimension>, present: bool, d: Dimension)
    requires d.name !in m && (d.name.Semantic? && !d.how.Skipped? ==> present)
    ensures Shares(m[d.name := d], present) == Shares(m, present) + Term(Stamp(present, d))
  {
    ShareAdd(m, present, d, Citation);
    ShareAdd(m, present, d, ToolUse);
    ShareAdd(m, present, d, Report);
    ShareAdd(m, present, d, Coverage);
    ShareAdd(m, present, d, Completeness);
    ShareAdd(m, present, d, Lexical);
    ShareAdd(m, present, d, Semantic);
  }

  /** The weighted sum of uniquely named dimensions, name by name. */
  lemma {:induction false} SumByName(ds: seq<Dimension>, present: bool)
    requires Unique(ds)
    requires forall i :: 0 <= i < |ds| && ds[i].name.Semantic? && !ds[i].how.Skipped? ==> present
    ensures WeightedSum(Stamped(present, ds)) == Shares(ByName(ds), present)
  {
    if ds != [] {
      var m := |ds| - 1;
      SumByName(ds[..m], present);
      ByNameUnique(ds[..m]);
      StampedSnoc(ds, present);
      SumsSnoc(Stamped(present, ds[..m]), Stamp(present, ds[m]));
      SharesAdd(ByName(ds[..m]), present, ds[m]);
    }
  }

  /** The score that the base dimensions of a report add up to, in hundredths. */
  function BasePoints(m: map<Name, Dimension>): real
    requires Citation in m && ToolUse in m && Report in m && Coverage in m && Completeness in m && Lexical in m
  {
    25.0 * m[Citation].score + 10.0 * m[ToolUse].score + 15.0 * m[Report].score
    + 15.0 * m[Coverage].score + 15.0 * m[Completeness].score + 20.0 * m[Lexical].score
  }

  function Points(m: map<Name, Dimension>, present: bool): real
    requires (forall n: Name :: !n.Semantic? ==> n in m) && (present ==> Semantic in m)
  {
    if present then (BasePoints(m) + 10.0 * m[Semantic].score) / 110.0 else BasePoints(m) / 100.0
  }

  lemma GradedIsNamed(ds: seq<Dimension>, n: Name)
    requires Unique(ds)
    ensures Graded(ds, n) <==> n in ByName(ds) && !ByName(ds)[n].how.Skipped?
  {
    ByNameUnique(ds);
    if n in ByName(ds) {
      var i :| 0 <= i < |ds| && ds[i] == ByName(ds)[n];
    }
  }

  lemma CompleteIsNamed(ds: seq<Dimension>)
    requires Unique(ds) && Complete(ds)
    ensures var m := ByName(ds); forall n: Name :: !n.Semantic? ==> n in m && !m[n].how.Skipped?
  {
    forall n: Name | !n.Semantic? ensures n in ByName(ds) && !ByName(ds)[n].how.Skipped? {
      GradedIsNamed(ds, n);
    }
  }

  /**
   The score of a complete report, whatever the order of its dimensions: the base scores count 25, 10, 15, 15, 15 and
   20 in a hundred, and a graded semantic score counts ten more in a hundred and ten.
   */
  lemma CompleteAggregate(ds: seq<Dimension>)
    requires Unique(ds) && Complete(ds)
    ensures var m, present := ByName(ds), SemanticPresent(ds);
            && (forall n: Name :: !n.Semantic? ==> n in m) && (present ==> Semantic in m)
            && Aggregate(Stamped(present, ds)) == Points(m, present)
  {
    var present := SemanticPresent(ds);
    CompleteIsNamed(ds);
    PresentIff(ds);
    GradedIsNamed(ds, Semantic);
    CompleteTotal(ds, present);
    SumByName(ds, present);
    SharesAre(ByName(ds), present);
    MeanOfOne(Stamped(present, ds));
  }

  lemma CompleteTotal(ds: seq<Dimension>, present: bool)
    requires Unique(ds) && Complete(ds) && (Graded(ds, Semantic) <==> present)
    ensures WeightTotal(Stamped(present, ds)) == 1.0
  {
    WeightTotalIs(ds, present);
    TotalByName(ds, Weights, present);
    FloorParts(ds, present);
  }

  lemma MeanOfOne(ss: seq<Dimension>)
    requires WeightTotal(ss) == 1.0
    ensures Aggregate(ss) == WeightedSum(ss)
  {
  }

  lemma SharesAre(m: map<Name, Dimension>, present: bool)
    requires forall n: Name :: !n.Semantic? ==> n in m && !m[n].how.Skipped?
    requires present <==> Semantic in m && !m[Semantic].how.Skipped?
    ensures Shares(m, present) == Points(m, present)
  {
  }
}
