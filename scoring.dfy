/** The scoring engine of `score_prompts_with_corrections.py`: the weight table, the pattern
    and violation scores of a rating row, the penalty table and the folding of correction
    events into per-prompt adjusted scores. Weights are exact reals, not binary floats. */
module Scoring {
  import opened Wrappers

  // ---------------------------------------------------------------------------
  // Weights and base scores

  /** The ten rating attributes C1..C10. */
  datatype Principle = C1 | C2 | C3 | C4 | C5 | C6 | C7 | C8 | C9 | C10

  /** The keys of the weight table, in the order it lists them (by user priority). */
  const WeightKeys: seq<Principle> := [C1, C2, C4, C5, C6, C7, C3, C8, C9, C10]

  function Weight(p: Principle): real
  {
    match p
    case C1 => 1.00
    case C2 => 0.95
    case C4 => 0.90
    case C5 => 0.85
    case C6 => 0.80
    case C7 => 0.75
    case C3 => 0.70
    case C8 => 0.65
    case C9 => 0.60
    case C10 => 0.55
  }

  /** Along the priority order the weights fall from 1.00 in steps of 0.05, and the table
      names every attribute exactly once. */
  lemma WeightsByPriority()
    ensures |WeightKeys| == 10
    ensures forall p: Principle :: p in WeightKeys
    ensures forall i, j :: 0 <= i < j < |WeightKeys| ==> WeightKeys[i] != WeightKeys[j]
    ensures forall i :: 0 <= i < |WeightKeys| ==> Weight(WeightKeys[i]) == 1.00 - 0.05 * i as real
  {
    forall p: Principle ensures p in WeightKeys {
      match p
      case C1 => assert WeightKeys[0] == p;
      case C2 => assert WeightKeys[1] == p;
      case C3 => assert WeightKeys[6] == p;
      case C4 => assert WeightKeys[2] == p;
      case C5 => assert WeightKeys[3] == p;
      case C6 => assert WeightKeys[4] == p;
      case C7 => assert WeightKeys[5] == p;
      case C8 => assert WeightKeys[7] == p;
      case C9 => assert WeightKeys[8] == p;
      case C10 => assert WeightKeys[9] == p;
    }
  }

  /** One row of the ratings table: ten integer ratings, a timestamp and a preview. */
  datatype Rating = Rating(
    c1: int, c2: int, c3: int, c4: int, c5: int, c6: int, c7: int, c8: int, c9: int, c10: int,
    timestamp: string, preview: string)

  /** `ratings_row[c]`. */
  function Value(r: Rating, p: Principle): int
  {
    match p
    case C1 => r.c1
    case C2 => r.c2
    case C3 => r.c3
    case C4 => r.c4
    case C5 => r.c5
    case C6 => r.c6
    case C7 => r.c7
    case C8 => r.c8
    case C9 => r.c9
    case C10 => r.c10
  }

  /** Σ c·w over the listed keys. */
  function WeightedSum(ps: seq<Principle>, r: Rating): real
    decreases |ps|
  {
    if ps == [] then 0.0 else Value(r, ps[0]) as real * Weight(ps[0]) + WeightedSum(ps[1..], r)
  }

  /** Σ (10 − c)·w over the listed keys. */
  function InvertedSum(ps: seq<Principle>, r: Rating): real
    decreases |ps|
  {
    if ps == [] then 0.0 else (10 - Value(r, ps[0])) as real * Weight(ps[0]) + InvertedSum(ps[1..], r)
  }

  /** Σ w over the listed keys. */
  function WeightTotal(ps: seq<Principle>): real
    decreases |ps|
  {
    if ps == [] then 0.0 else Weight(ps[0]) + WeightTotal(ps[1..])
  }

  /** `calc_score`: the weighted sum over the table, in the table's order. */
  function CalcScore(r: Rating): real
  {
    1.00 * r.c1 as real + 0.95 * r.c2 as real + 0.90 * r.c4 as real + 0.85 * r.c5 as real
  + 0.80 * r.c6 as real + 0.75 * r.c7 as real + 0.70 * r.c3 as real + 0.65 * r.c8 as real
  + 0.60 * r.c9 as real + 0.55 * r.c10 as real
  }

  /** `calc_violation`: the inverted weighted sum over the table, in the table's order. */
  function CalcViolation(r: Rating): real
  {
    1.00 * (10 - r.c1) as real + 0.95 * (10 - r.c2) as real + 0.90 * (10 - r.c4) as real + 0.85 * (10 - r.c5) as real
  + 0.80 * (10 - r.c6) as real + 0.75 * (10 - r.c7) as real + 0.70 * (10 - r.c3) as real + 0.65 * (10 - r.c8) as real
  + 0.60 * (10 - r.c9) as real + 0.55 * (10 - r.c10) as real
  }

  /** The suffixes of the weight table's key list. */
  lemma KeyTails()
    ensures WeightKeys[1..] == [C2, C4, C5, C6, C7, C3, C8, C9, C10]
    ensures WeightKeys[2..] == [C4, C5, C6, C7, C3, C8, C9, C10]
    ensures WeightKeys[3..] == [C5, C6, C7, C3, C8, C9, C10]
    ensures WeightKeys[4..] == [C6, C7, C3, C8, C9, C10]
    ensures WeightKeys[5..] == [C7, C3, C8, C9, C10]
    ensures WeightKeys[6..] == [C3, C8, C9, C10]
    ensures WeightKeys[7..] == [C8, C9, C10]
    ensures WeightKeys[8..] == [C9, C10]
    ensures WeightKeys[9..] == [C10]
    ensures WeightKeys[10..] == []
  {
  }

  /** `calc_score` is Σ c·w over the weight table's keys. */
  lemma ScoreIsWeightedSum(r: Rating)
    ensures CalcScore(r) == WeightedSum(WeightKeys, r)
  {
    KeyTails();
  }

  /** `calc_violation` is Σ (10 − c)·w over the weight table's keys. */
  lemma ViolationIsInvertedSum(r: Rating)
    ensures CalcViolation(r) == InvertedSum(WeightKeys, r)
  {
    KeyTails();
  }

  /** The table's weights add up to 7.75. */
  lemma WeightTotalValue()
    ensures WeightTotal(WeightKeys) == 7.75
  {
    KeyTails();
  }

  lemma {:induction false} ScorePlusViolationOver(ps: seq<Principle>, r: Rating)
    ensures WeightedSum(ps, r) + InvertedSum(ps, r) == 10.0 * WeightTotal(ps)
    decreases |ps|
  {
    if ps != [] {
      ScorePlusViolationOver(ps[1..], r);
    }
  }

  /** For every row, score + violation = 10 × Σw = 77.5 exactly. */
  lemma ScorePlusViolation(r: Rating)
    ensures CalcScore(r) + CalcViolation(r) == 77.5
  {
    ScoreIsWeightedSum(r);
    ViolationIsInvertedSum(r);
    ScorePlusViolationOver(WeightKeys, r);
    WeightTotalValue();
  }

  /** Ratings in 0..10 on every listed key. */
  ghost predicate InRange(ps: seq<Principle>, r: Rating)
  {
    forall i :: 0 <= i < |ps| ==> 0 <= Value(r, ps[i]) <= 10
  }

  lemma {:induction false} ScoreBoundsOver(ps: seq<Principle>, r: Rating)
    requires InRange(ps, r)
    ensures 0.0 <= WeightedSum(ps, r) <= 10.0 * WeightTotal(ps)
    ensures 0.0 <= InvertedSum(ps, r) <= 10.0 * WeightTotal(ps)
    decreases |ps|
  {
    if ps != [] {
      assert InRange(ps[1..], r) by {
        forall i | 0 <= i < |ps| - 1 ensures 0 <= Value(r, ps[1..][i]) <= 10 {
          assert ps[1..][i] == ps[i + 1];
        }
      }
      ScoreBoundsOver(ps[1..], r);
      assert 0 <= Value(r, ps[0]) <= 10;
      TermBounds(Value(r, ps[0]), Weight(ps[0]));
    }
  }

  /** One term of either sum lies between 0 and ten times its weight. */
  lemma TermBounds(v: int, w: real)
    requires 0 <= v <= 10 && 0.0 <= w
    ensures 0.0 <= v as real * w <= 10.0 * w
    ensures 0.0 <= (10 - v) as real * w <= 10.0 * w
  {
  }

  /** With every rating in 0..10 both scores lie in [0, 77.5]. */
  lemma ScoreBounds(r: Rating)
    requires 0 <= r.c1 <= 10 && 0 <= r.c2 <= 10 && 0 <= r.c3 <= 10 && 0 <= r.c4 <= 10
    requires 0 <= r.c5 <= 10 && 0 <= r.c6 <= 10 && 0 <= r.c7 <= 10 && 0 <= r.c8 <= 10
    requires 0 <= r.c9 <= 10 && 0 <= r.c10 <= 10
    ensures 0.0 <= CalcScore(r) <= 77.5
    ensures 0.0 <= CalcViolation(r) <= 77.5
  {
  }

  // ---------------------------------------------------------------------------
  // Penalty table

  const BasePct: real := 2.0
  const TargetMult: int := 5
  const AdditiveMult: int := 5

  datatype Severity = Minor | Moderate | Major

  /** A tier's share of the base percentage. */
  function TierScale(s: Severity): real
  {
    match s
    case Minor => 0.5
    case Moderate => 1.0
    case Major => 2.0
  }

  /** The severity names the penalty table has keys for. */
  function ParseSeverity(name: string): Option<Severity>
  {
    if name == "minor" then Some(Minor)
    else if name == "moderate" then Some(Moderate)
    else if name == "major" then Some(Major)
    else None
  }

  datatype Penalty = Penalty(targetMult: real, targetAdd: int, collateralMult: real, collateralAdd: int)

  /** Python's `int(x)` on a number: truncation toward zero. */
  function TruncToInt(x: real): int
  {
    if x >= 0.0 then x.Floor else -((-x).Floor)
  }

  /** `int(x + 0.5)` rounds a non-negative `x` half up: to the integer within half a unit,
      taking the upper one on a tie. */
  lemma RoundHalfUp(x: real)
    requires x >= 0.0
    ensures var n := TruncToInt(x + 0.5); n as real - 0.5 <= x < n as real + 0.5
  {
  }

  /** One tier's four derived numbers. */
  function TierPenalty(s: Severity): Penalty
  {
    var f := TierScale(s);
    Penalty(
      1.0 - f * BasePct / 100.0 * TargetMult as real,
      TruncToInt(f * BasePct / 2.0 * AdditiveMult as real + 0.5),
      1.0 - f * BasePct / 100.0,
      TruncToInt(f * BasePct / 2.0 + 0.5))
  }

  /** `PENALTIES[severity]`; an unknown severity has no entry. */
  function Penalties(severity: string): Option<Penalty>
  {
    match ParseSeverity(severity)
    case Some(s) => Some(TierPenalty(s))
    case None => None
  }

  /** The derived table: minor ×0.95 +3 / ×0.99 +1, moderate ×0.90 +5 / ×0.98 +1,
      major ×0.80 +10 / ×0.96 +2. */
  lemma PenaltyTable()
    ensures Penalties("minor") == Some(Penalty(0.95, 3, 0.99, 1))
    ensures Penalties("moderate") == Some(Penalty(0.90, 5, 0.98, 1))
    ensures Penalties("major") == Some(Penalty(0.80, 10, 0.96, 2))
    ensures forall name :: name != "minor" && name != "moderate" && name != "major" ==> Penalties(name) == None
  {
  }

  /** Every tier scales by a factor in (0, 1] and adds a non-negative amount, and the
      target factors are at least as harsh as the collateral ones. */
  lemma PenaltyBounds(s: Severity)
    ensures var p := TierPenalty(s);
            && 0.0 < p.targetMult <= p.collateralMult <= 1.0
            && 0 <= p.collateralAdd <= p.targetAdd
  {
  }

  // ---------------------------------------------------------------------------
  // Correction events

  /** A correction event: its number, severity name, target prompt and collateral prompts. */
  datatype Correction = Correction(number: int, severity: string, target: string, collateral: seq<string>)

  /** The running multiplier and additive of `apply_corrections`. */
  datatype Factor = Factor(mult: real, add: int)

  const Neutral: Factor := Factor(1.0, 0)

  /** One event's effect on the running factor of prompt `pid`: the target role wins over
      the collateral role; an event naming `pid` in neither role changes nothing. */
  function Step(acc: Factor, pid: string, c: Correction, p: Penalty): Factor
  {
    if pid == c.target then Factor(acc.mult * p.targetMult, acc.add + p.targetAdd)
    else if pid in c.collateral then Factor(acc.mult * p.collateralMult, acc.add + p.collateralAdd)
    else acc
  }

  /** The inner loop of `apply_corrections` from a running factor: the lookup of each event's
      severity fails on the first unknown one. */
  function AdjustFrom(acc: Factor, pid: string, cs: seq<Correction>): Option<Factor>
    decreases |cs|
  {
    if cs == [] then Some(acc)
    else
      match Penalties(cs[0].severity)
      case None => None
      case Some(p) => AdjustFrom(Step(acc, pid, cs[0], p), pid, cs[1..])
  }

  /** The factor the events give prompt `pid`, starting from ×1.0 and +0. */
  function Adjustment(pid: string, cs: seq<Correction>): Option<Factor>
  {
    AdjustFrom(Neutral, pid, cs)
  }

  /** The first severity in list order that the penalty table does not know. */
  function FirstUnknown(cs: seq<Correction>): Option<string>
    decreases |cs|
  {
    if cs == [] then None
    else if Penalties(cs[0].severity).None? then Some(cs[0].severity)
    else FirstUnknown(cs[1..])
  }

  ghost predicate KnownSeverities(cs: seq<Correction>)
  {
    forall i :: 0 <= i < |cs| ==> Penalties(cs[i].severity).Some?
  }

  lemma {:induction false} FirstUnknownNone(cs: seq<Correction>)
    ensures FirstUnknown(cs).None? <==> KnownSeverities(cs)
    decreases |cs|
  {
    if cs != [] {
      FirstUnknownNone(cs[1..]);
      assert forall i :: 0 < i < |cs| ==> cs[1..][i - 1] == cs[i];
    }
  }

  /** An unknown severity at index `j` after known ones is the first unknown one. */
  lemma {:induction false} FirstUnknownAt(cs: seq<Correction>, j: nat)
    requires j < |cs| && Penalties(cs[j].severity).None?
    requires FirstUnknown(cs[..j]).None?
    ensures FirstUnknown(cs) == Some(cs[j].severity)
    decreases j
  {
    if j > 0 {
      assert cs[..j][1..] == cs[1..][..j - 1];
      FirstUnknownAt(cs[1..], j - 1);
    }
  }

  /** A prefix of known severities can be extended by one known severity. */
  lemma {:induction false} FirstUnknownExtend(cs: seq<Correction>, j: nat)
    requires j < |cs| && Penalties(cs[j].severity).Some?
    requires FirstUnknown(cs[..j]).None?
    ensures FirstUnknown(cs[..j + 1]).None?
    decreases j
  {
    if j > 0 {
      assert cs[..j][1..] == cs[1..][..j - 1];
      assert cs[..j + 1][1..] == cs[1..][..j];
      FirstUnknownExtend(cs[1..], j - 1);
    } else {
      assert cs[..1] == [cs[0]];
    }
  }

  /** The fold fails exactly when some severity is unknown, whatever the prompt. */
  lemma {:induction false} AdjustFromFails(acc: Factor, pid: string, cs: seq<Correction>)
    ensures AdjustFrom(acc, pid, cs).None? <==> FirstUnknown(cs).Some?
    decreases |cs|
  {
    if cs != [] {
      match Penalties(cs[0].severity)
      case None =>
      case Some(p) => AdjustFromFails(Step(acc, pid, cs[0], p), pid, cs[1..]);
    }
  }

  lemma AdjustmentFails(pid: string, cs: seq<Correction>)
    ensures Adjustment(pid, cs).None? <==> FirstUnknown(cs).Some?
  {
    AdjustFromFails(Neutral, pid, cs);
  }

  /** Running factor `a` followed by factor `b`. */
  function Compose(a: Factor, b: Factor): Factor
  {
    Factor(a.mult * b.mult, a.add + b.add)
  }

  /** `Compose` lifted to a fold that may have failed. */
  function ComposeOption(a: Factor, o: Option<Factor>): Option<Factor>
  {
    match o
    case None => None
    case Some(b) => Some(Compose(a, b))
  }

  lemma ComposeAssociative(a: Factor, b: Factor, c: Factor)
    ensures Compose(Compose(a, b), c) == Compose(a, Compose(b, c))
  {
    assert a.mult * b.mult * c.mult == a.mult * (b.mult * c.mult);
  }

  /** Folding from any running factor composes it with the factor folded from ×1 +0. */
  lemma {:induction false} AdjustFromScales(acc: Factor, pid: string, cs: seq<Correction>)
    ensures AdjustFrom(acc, pid, cs) == ComposeOption(acc, Adjustment(pid, cs))
    decreases |cs|
  {
    if cs == [] {
      assert Compose(acc, Neutral) == acc;
    } else {
      match Penalties(cs[0].severity)
      case None =>
      case Some(p) =>
        var one := Step(Neutral, pid, cs[0], p);
        assert Step(acc, pid, cs[0], p) == Compose(acc, one);
        AdjustFromScales(Compose(acc, one), pid, cs[1..]);
        AdjustFromScales(one, pid, cs[1..]);
        match Adjustment(pid, cs[1..])
        case None =>
        case Some(f) => ComposeAssociative(acc, one, f);
    }
  }

  lemma {:induction false} AdjustFromAppend(acc: Factor, pid: string, a: seq<Correction>, b: seq<Correction>)
    requires AdjustFrom(acc, pid, a).Some?
    ensures AdjustFrom(acc, pid, a + b) == AdjustFrom(AdjustFrom(acc, pid, a).value, pid, b)
    decreases |a|
  {
    if a == [] {
      assert a + b == b;
    } else {
      var p := Penalties(a[0].severity).value;
      assert (a + b)[0] == a[0] && (a + b)[1..] == a[1..] + b;
      AdjustFromAppend(Step(acc, pid, a[0], p), pid, a[1..], b);
    }
  }

  /** Two event lists in a row compose: multipliers multiply, additives add, and the
      combined fold fails exactly when the second one does. */
  lemma AdjustmentAppend(pid: string, a: seq<Correction>, b: seq<Correction>)
    requires Adjustment(pid, a).Some?
    ensures Adjustment(pid, a + b) == ComposeOption(Adjustment(pid, a).value, Adjustment(pid, b))
  {
    AdjustFromAppend(Neutral, pid, a, b);
    AdjustFromScales(Adjustment(pid, a).value, pid, b);
  }

  /** The multipliers and additives of the events that name prompt `pid` in some role, in
      list order; the target role is taken when the prompt is named in both. */
  function Applied(pid: string, cs: seq<Correction>): seq<Factor>
    requires KnownSeverities(cs)
    decreases |cs|
  {
    if cs == [] then []
    else
      var p := Penalties(cs[0].severity).value;
      var rest := Applied(pid, cs[1..]);
      if pid == cs[0].target then [Factor(p.targetMult, p.targetAdd)] + rest
      else if pid in cs[0].collateral then [Factor(p.collateralMult, p.collateralAdd)] + rest
      else rest
  }

  function Product(fs: seq<Factor>): real
    decreases |fs|
  {
    if fs == [] then 1.0 else fs[0].mult * Product(fs[1..])
  }

  function Sum(fs: seq<Factor>): int
    decreases |fs|
  {
    if fs == [] then 0 else fs[0].add + Sum(fs[1..])
  }

  /** The accumulated multiplier is the product of the applied tier multipliers and the
      accumulated additive is their sum. */
  lemma {:induction false} AdjustmentIsProductAndSum(pid: string, cs: seq<Correction>)
    requires KnownSeverities(cs)
    ensures Adjustment(pid, cs) == Some(Factor(Product(Applied(pid, cs)), Sum(Applied(pid, cs))))
    decreases |cs|
  {
    if cs != [] {
      var p := Penalties(cs[0].severity).value;
      KnownTail(cs);
      AdjustmentIsProductAndSum(pid, cs[1..]);
      var one := Step(Neutral, pid, cs[0], p);
      AdjustFromScales(one, pid, cs[1..]);
      assert Adjustment(pid, cs) == AdjustFrom(one, pid, cs[1..]);
      AppliedStep(pid, cs);
    }
  }

  lemma KnownTail(cs: seq<Correction>)
    requires KnownSeverities(cs) && cs != []
    ensures KnownSeverities(cs[1..])
  {
    forall i | 0 <= i < |cs| - 1 ensures Penalties(cs[1..][i].severity).Some? {
      assert cs[1..][i] == cs[i + 1];
    }
  }

  /** One step of `Applied` is one step of the fold from the neutral factor. */
  lemma AppliedStep(pid: string, cs: seq<Correction>)
    requires KnownSeverities(cs) && cs != []
    ensures KnownSeverities(cs[1..])
    ensures Factor(Product(Applied(pid, cs)), Sum(Applied(pid, cs)))
         == Compose(Step(Neutral, pid, cs[0], Penalties(cs[0].severity).value),
                    Factor(Product(Applied(pid, cs[1..])), Sum(Applied(pid, cs[1..]))))
  {
    KnownTail(cs);
  }

  /** Minor then major on the same target gives ×0.76 and +13. */
  lemma MinorThenMajor(pid: string, c1: seq<string>, c2: seq<string>, n1: int, n2: int)
    ensures Adjustment(pid, [Correction(n1, "minor", pid, c1), Correction(n2, "major", pid, c2)])
         == Some(Factor(0.76, 13))
  {
    PenaltyTable();
    var a := Correction(n1, "minor", pid, c1);
    var b := Correction(n2, "major", pid, c2);
    assert AdjustFrom(Factor(0.76, 13), pid, []) == Some(Factor(0.76, 13));
    assert Step(Factor(0.95, 3), pid, b, Penalty(0.80, 10, 0.96, 2)) == Factor(0.76, 13);
    assert AdjustFrom(Factor(0.95, 3), pid, [b]) == Some(Factor(0.76, 13)) by {
      assert [b][1..] == [];
    }
    assert Step(Neutral, pid, a, Penalty(0.95, 3, 0.99, 1)) == Factor(0.95, 3);
    assert AdjustFrom(Neutral, pid, [a, b]) == AdjustFrom(Factor(0.95, 3), pid, [b]) by {
      assert [a, b][1..] == [b];
    }
  }

  /** A single major event with the prompt as collateral only gives ×0.96 and +2. */
  lemma MajorOnCollateral(pid: string, target: string, collateral: seq<string>, n: int)
    requires target != pid && pid in collateral
    ensures Adjustment(pid, [Correction(n, "major", target, collateral)]) == Some(Factor(0.96, 2))
  {
    PenaltyTable();
    var a := Correction(n, "major", target, collateral);
    assert Step(Neutral, pid, a, Penalty(0.80, 10, 0.96, 2)) == Factor(0.96, 2);
    assert AdjustFrom(Neutral, pid, [a]) == AdjustFrom(Factor(0.96, 2), pid, []) by {
      assert [a][1..] == [];
    }
  }

  /** Folding a single event is one step. */
  lemma AdjustFromSingle(acc: Factor, pid: string, c: Correction)
    requires Penalties(c.severity).Some?
    ensures AdjustFrom(acc, pid, [c]) == Some(Step(acc, pid, c, Penalties(c.severity).value))
  {
    assert [c][1..] == [];
  }

  /** The target role takes precedence: an event targeting `pid` applies its target factors
      even when `pid` is also listed as collateral. */
  lemma TargetWins(pid: string, cs: seq<Correction>, c: Correction)
    requires Adjustment(pid, cs).Some? && Penalties(c.severity).Some?
    requires c.target == pid
    ensures var f := Adjustment(pid, cs).value; var p := Penalties(c.severity).value;
            Adjustment(pid, cs + [c]) == Some(Factor(f.mult * p.targetMult, f.add + p.targetAdd))
  {
    AdjustFromAppend(Neutral, pid, cs, [c]);
    AdjustFromSingle(Adjustment(pid, cs).value, pid, c);
  }

  /** An event naming `pid` in neither role leaves its factor unchanged. */
  lemma UnrelatedEvent(pid: string, cs: seq<Correction>, c: Correction)
    requires Adjustment(pid, cs).Some? && Penalties(c.severity).Some?
    requires c.target != pid && pid !in c.collateral
    ensures Adjustment(pid, cs + [c]) == Adjustment(pid, cs)
  {
    AdjustFromAppend(Neutral, pid, cs, [c]);
    AdjustFromSingle(Adjustment(pid, cs).value, pid, c);
  }

  /** A collateral event (not the target) applies the collateral factors. */
  lemma CollateralEvent(pid: string, cs: seq<Correction>, c: Correction)
    requires Adjustment(pid, cs).Some? && Penalties(c.severity).Some?
    requires c.target != pid && pid in c.collateral
    ensures var f := Adjustment(pid, cs).value; var p := Penalties(c.severity).value;
            Adjustment(pid, cs + [c]) == Some(Factor(f.mult * p.collateralMult, f.add + p.collateralAdd))
  {
    AdjustFromAppend(Neutral, pid, cs, [c]);
    AdjustFromSingle(Adjustment(pid, cs).value, pid, c);
  }

  lemma {:induction false} AdjustFromBounds(acc: Factor, pid: string, cs: seq<Correction>)
    requires 0.0 < acc.mult <= 1.0 && 0 <= acc.add
    requires AdjustFrom(acc, pid, cs).Some?
    ensures 0.0 < AdjustFrom(acc, pid, cs).value.mult <= acc.mult
    ensures acc.add <= AdjustFrom(acc, pid, cs).value.add
    decreases |cs|
  {
    if cs != [] {
      var p := Penalties(cs[0].severity).value;
      KnownPenaltyBounds(cs[0].severity);
      var next := Step(acc, pid, cs[0], p);
      StepBounds(acc, pid, cs[0], p);
      AdjustFromBounds(next, pid, cs[1..]);
    }
  }

  /** The bounds of `PenaltyBounds` for a known severity name. */
  lemma KnownPenaltyBounds(severity: string)
    requires Penalties(severity).Some?
    ensures var p := Penalties(severity).value;
            && 0.0 < p.targetMult <= 1.0 && 0.0 < p.collateralMult <= 1.0
            && 0 <= p.collateralAdd && 0 <= p.targetAdd
  {
    var s :| ParseSeverity(severity) == Some(s);
    PenaltyBounds(s);
  }

  /** One step keeps the multiplier in (0, its old value] and never lowers the additive. */
  lemma StepBounds(acc: Factor, pid: string, c: Correction, p: Penalty)
    requires 0.0 < acc.mult <= 1.0 && 0 <= acc.add
    requires 0.0 < p.targetMult <= 1.0 && 0.0 < p.collateralMult <= 1.0
    requires 0 <= p.collateralAdd && 0 <= p.targetAdd
    ensures var next := Step(acc, pid, c, p);
            0.0 < next.mult <= acc.mult && acc.add <= next.add
  {
    if pid == c.target {
      MultiplyWithinUnit(acc.mult, p.targetMult);
    } else if pid in c.collateral {
      MultiplyWithinUnit(acc.mult, p.collateralMult);
    }
  }

  lemma MultiplyWithinUnit(a: real, b: real)
    requires 0.0 < a <= 1.0 && 0.0 < b <= 1.0
    ensures 0.0 < a * b <= a
  {
  }

  /** The accumulated multiplier lies in (0, 1] and the accumulated additive is non-negative. */
  lemma AdjustmentBounds(pid: string, cs: seq<Correction>)
    requires Adjustment(pid, cs).Some?
    ensures 0.0 < Adjustment(pid, cs).value.mult <= 1.0
    ensures 0 <= Adjustment(pid, cs).value.add
  {
    AdjustFromBounds(Neutral, pid, cs);
  }

  /** `base_score * mult`: the multiplier only scales the score. */
  function AdjustedScore(r: Rating, f: Factor): real
  {
    CalcScore(r) * f.mult
  }

  /** `base_violation + add`: the additive only raises the violation. */
  function AdjustedViolation(r: Rating, f: Factor): real
  {
    CalcViolation(r) + f.add as real
  }

  /** Corrections never lower a violation, and never raise a non-negative score or push it
      below zero. */
  lemma AdjustedBounds(pid: string, r: Rating, cs: seq<Correction>)
    requires Adjustment(pid, cs).Some?
    ensures var f := Adjustment(pid, cs).value;
            && AdjustedViolation(r, f) >= CalcViolation(r)
            && (CalcScore(r) >= 0.0 ==> 0.0 <= AdjustedScore(r, f) <= CalcScore(r))
  {
    AdjustmentBounds(pid, cs);
    var f := Adjustment(pid, cs).value;
    if CalcScore(r) >= 0.0 {
      assert CalcScore(r) * f.mult <= CalcScore(r) * 1.0;
    }
  }

  /** With no events the adjusted scores are the base scores. */
  lemma NoCorrections(pid: string, r: Rating)
    ensures Adjustment(pid, []) == Some(Neutral)
    ensures AdjustedScore(r, Neutral) == CalcScore(r) && AdjustedViolation(r, Neutral) == CalcViolation(r)
  {
  }

  // ---------------------------------------------------------------------------
  // apply_corrections

  datatype Adjusted = Adjusted(scores: map<string, real>, violations: map<string, real>)

  /** The `KeyError` raised by the penalty lookup. */
  datatype ScoringError = UnknownSeverity(severity: string)

  lemma AdjustFromUnfold(acc: Factor, pid: string, cs: seq<Correction>, j: nat)
    requires j < |cs| && Penalties(cs[j].severity).Some?
    ensures AdjustFrom(acc, pid, cs[j..])
         == AdjustFrom(Step(acc, pid, cs[j], Penalties(cs[j].severity).value), pid, cs[j + 1..])
  {
    assert cs[j..][0] == cs[j];
    assert cs[j..][1..] == cs[j + 1..];
  }

  /** The inner loop of `apply_corrections` for one prompt: multiply and add the penalties of
      every event naming it, failing at the first event whose severity is unknown. */
  method AdjustPrompt(pid: string, corrections: seq<Correction>) returns (r: Result<Factor, ScoringError>)
    ensures r.Failure? <==> FirstUnknown(corrections).Some?
    ensures r.Failure? ==> r.error == UnknownSeverity(FirstUnknown(corrections).value)
    ensures r.Success? ==> Adjustment(pid, corrections) == Some(r.value)
  {
    var mult, add := 1.0, 0;
    var j := 0;
    while j < |corrections|
      invariant 0 <= j <= |corrections|
      invariant FirstUnknown(corrections[..j]).None?
      invariant AdjustFrom(Factor(mult, add), pid, corrections[j..]) == Adjustment(pid, corrections)
    {
      var corr := corrections[j];
      var p := Penalties(corr.severity);
      ghost var acc := Factor(mult, add);
      if p.None? {
        FirstUnknownAt(corrections, j);
        return Failure(UnknownSeverity(corr.severity));
      }
      AdjustFromUnfold(acc, pid, corrections, j);
      FirstUnknownExtend(corrections, j);
      var next := Step(Factor(mult, add), pid, corr, p.value);
      mult, add := next.mult, next.add;
      j := j + 1;
    }
    assert corrections[..j] == corrections;
    assert corrections[j..] == [];
    return Success(Factor(mult, add));
  }

  /** Every prompt in `scores` has its adjusted score and violation recorded. */
  ghost predicate Recorded(ratings: map<string, Rating>, corrections: seq<Correction>,
                           scores: map<string, real>, violations: map<string, real>)
  {
    forall pid :: pid in scores ==>
      && pid in ratings && pid in violations
      && Adjustment(pid, corrections).Some?
      && scores[pid] == AdjustedScore(ratings[pid], Adjustment(pid, corrections).value)
      && violations[pid] == AdjustedViolation(ratings[pid], Adjustment(pid, corrections).value)
  }

  lemma RecordOne(ratings: map<string, Rating>, corrections: seq<Correction>,
                  scores: map<string, real>, violations: map<string, real>, pid: string, f: Factor)
    requires Recorded(ratings, corrections, scores, violations)
    requires pid in ratings && Adjustment(pid, corrections) == Some(f)
    ensures Recorded(ratings, corrections, scores[pid := AdjustedScore(ratings[pid], f)],
                     violations[pid := AdjustedViolation(ratings[pid], f)])
  {
  }

  /** `apply_corrections(ratings, corrections)`: for every prompt, fold the events into a
      multiplier and an additive, then scale its score and raise its violation. */
  method ApplyCorrections(ratings: map<string, Rating>, corrections: seq<Correction>)
    returns (r: Result<Adjusted, ScoringError>)
    ensures r.Failure? <==> |ratings| > 0 && FirstUnknown(corrections).Some?
    ensures r.Failure? ==> r.error == UnknownSeverity(FirstUnknown(corrections).value)
    ensures r.Success? ==> r.value.scores.Keys == ratings.Keys && r.value.violations.Keys == ratings.Keys
    ensures r.Success? ==> Recorded(ratings, corrections, r.value.scores, r.value.violations)
  {
    var scores: map<string, real> := map[];
    var violations: map<string, real> := map[];
    var pending := ratings.Keys;
    while pending != {}
      invariant pending <= ratings.Keys
      invariant forall k :: k in scores <==> k in ratings && k !in pending
      invariant forall k :: k in violations <==> k in ratings && k !in pending
      invariant pending != ratings.Keys ==> FirstUnknown(corrections).None?
      invariant Recorded(ratings, corrections, scores, violations)
      decreases |pending|
    {
      var pid :| pid in pending;
      var f := AdjustPrompt(pid, corrections);
      if f.Failure? {
        assert |ratings| > 0 by { assert pid in ratings.Keys; }
        return Failure(f.error);
      }
      RecordOne(ratings, corrections, scores, violations, pid, f.value);
      scores := scores[pid := AdjustedScore(ratings[pid], f.value)];
      violations := violations[pid := AdjustedViolation(ratings[pid], f.value)];
      pending := pending - {pid};
    }
    if |ratings| > 0 {
      assert pending != ratings.Keys by {
        var k :| k in ratings;
      }
    }
    return Success(Adjusted(scores, violations));
  }
}
