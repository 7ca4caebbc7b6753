/**
 * The index pattern of the cost-and-constraint evaluator `FG_eval`.
 *
 * The evaluator writes the cost into `fg[0]` and one constraint expression
 * into each `fg[1 + k]`, for every state variable `k`. The expressions
 * themselves (powers, cos, sin, atan, the fitted cubic) are not modelled:
 * an entry of `fg` records which decision-vector indices its expression is
 * built from, so that what is proved is where the evaluator writes and
 * where it reads.
 */
module Evaluator {
  import opened Layout

  /** The reference speed the cost pulls `v` towards (`ref_v`). */
  const RefV: real := 16.0

  // The cost weights.
  const WeightCte: nat := 2000
  const WeightEpsi: nat := 2000
  const WeightV: nat := 1
  const WeightDelta: nat := 5
  const WeightAccel: nat := 5
  const WeightDeltaGap: nat := 200
  const WeightAccelGap: nat := 10

  /** One summand of the cost. */
  datatype CostTerm =
    /** `weight * (vars[index] - target)^2` */
    | Square(weight: nat, index: nat, target: real)
    /** `weight * (vars[later] - vars[earlier])^2` */
    | SquareDiff(weight: nat, later: nat, earlier: nat)

  /** What the evaluator stores in one slot of `fg`. */
  datatype FgEntry =
    /** The cost, as the list of summands added to it, in order. */
    | Cost(terms: seq<CostTerm>)
    /** The identity `vars[index]`: pins an initial state variable. */
    | Pin(index: nat)
    /** `vars[declared]` minus the model's prediction from `vars[inputs]`. */
    | Residual(declared: nat, inputs: seq<nat>)

  /**
   * A cost summand reads the block it is meant to, with that block's
   * weight: cte and epsi towards 0, v towards `RefV`, each actuator towards
   * 0, and each actuator's change between consecutive steps.
   */
  predicate IntendedTerm(n: nat, term: CostTerm)
    requires n >= 1
  {
    match term
    case Square(w, i, target) =>
      i < NVars(n) &&
      (match BlockOf(n, i)
       case Cte => w == WeightCte && target == 0.0
       case Epsi => w == WeightEpsi && target == 0.0
       case V => w == WeightV && target == RefV
       case Delta => w == WeightDelta && target == 0.0
       case Accel => w == WeightAccel && target == 0.0
       case _ => false)
    case SquareDiff(w, later, earlier) =>
      later < NVars(n) && earlier < NVars(n) &&
      BlockOf(n, later) == BlockOf(n, earlier) &&
      StepOf(n, later) == StepOf(n, earlier) + 1 &&
      (match BlockOf(n, later)
       case Delta => w == WeightDeltaGap
       case Accel => w == WeightAccelGap
       case _ => false)
  }

  /** The tracking summands of every step `t < upTo` are present. */
  predicate TracksStatesUpTo(n: nat, terms: seq<CostTerm>, upTo: nat)
    requires 1 <= n && upTo <= n
  {
    forall t :: 0 <= t < upTo ==>
      Square(WeightCte, Index(n, Cte, t), 0.0) in terms &&
      Square(WeightEpsi, Index(n, Epsi, t), 0.0) in terms &&
      Square(WeightV, Index(n, V, t), RefV) in terms
  }

  /** The actuator-use summands of every step `t < upTo` are present. */
  predicate PenalisesActuatorsUpTo(n: nat, terms: seq<CostTerm>, upTo: nat)
    requires 1 <= n && upTo <= n - 1
  {
    forall t :: 0 <= t < upTo ==>
      Square(WeightDelta, Index(n, Delta, t), 0.0) in terms &&
      Square(WeightAccel, Index(n, Accel, t), 0.0) in terms
  }

  /** The actuator-change summands of every step `t < upTo` are present. */
  predicate PenalisesGapsUpTo(n: nat, terms: seq<CostTerm>, upTo: nat)
    requires 2 <= n && upTo <= n - 2
  {
    forall t :: 0 <= t < upTo ==>
      SquareDiff(WeightDeltaGap, Index(n, Delta, t + 1), Index(n, Delta, t)) in terms &&
      SquareDiff(WeightAccelGap, Index(n, Accel, t + 1), Index(n, Accel, t)) in terms
  }

  /**
   * The indices the kinematic model's prediction of channel `b` at step `t`
   * is computed from, all at step `t - 1`: x and y from position, speed and
   * heading; psi from heading, speed and steering; v from speed and
   * acceleration; cte from x (through the fitted curve), y, speed and epsi;
   * epsi from heading, x (through the curve's slope), speed and steering.
   */
  function ModelInputs(n: nat, b: Block, t: nat): seq<nat>
    requires b.IsState() && 1 <= t < n
  {
    match b
    case X => [Index(n, X, t - 1), Index(n, V, t - 1), Index(n, Psi, t - 1)]
    case Y => [Index(n, Y, t - 1), Index(n, V, t - 1), Index(n, Psi, t - 1)]
    case Psi => [Index(n, Psi, t - 1), Index(n, V, t - 1), Index(n, Delta, t - 1)]
    case V => [Index(n, V, t - 1), Index(n, Accel, t - 1)]
    case Cte => [Index(n, X, t - 1), Index(n, Y, t - 1), Index(n, V, t - 1), Index(n, Epsi, t - 1)]
    case Epsi => [Index(n, Psi, t - 1), Index(n, X, t - 1), Index(n, V, t - 1), Index(n, Delta, t - 1)]
  }

  /**
   * Every index a residual of step `t` reads lies in the vector and at
   * step `t - 1`; the actuators it reads are those of step `t - 1`.
   */
  lemma ModelInputsPrecedeStep(n: nat, b: Block, t: nat)
    requires b.IsState() && 1 <= t < n
    ensures forall j <- ModelInputs(n, b, t) :: j < NVars(n) && StepOf(n, j) == t - 1
    ensures forall j <- ModelInputs(n, b, t) :: j < DeltaStart(n) || j == Index(n, Delta, t - 1) || j == Index(n, Accel, t - 1)
  {
  }

  /**
   * The expression the constraint of state channel `b` at step `s` must
   * hold: a pin of the initial state at step 0, otherwise the residual of
   * the channel's model equation.
   */
  function RowExpr(n: nat, b: Block, s: nat): FgEntry
    requires b.IsState() && s < n
  {
    if s == 0 then Pin(Index(n, b, 0)) else Residual(Index(n, b, s), ModelInputs(n, b, s))
  }

  /** The slot of `fg` holding the constraint of channel `b` at step `s`. */
  function Row(n: nat, b: Block, s: nat): nat
    requires b.IsState() && s < n
  {
    1 + Index(n, b, s)
  }

  /** The expression constraint `k` (stored at `fg[1 + k]`) must hold. */
  function ConstraintExpr(n: nat, k: nat): FgEntry
    requires n >= 1 && k < NConstraints(n)
  {
    RowExpr(n, BlockOf(n, k), StepOf(n, k))
  }

  /**
   * A constraint is a pin exactly when its bounds are pinned to the
   * observed state, i.e. when it is one of the six initial slots; either
   * way it is about the state variable `k` it is stored for.
   */
  lemma PinsAreInitialSlots(n: nat, k: nat)
    requires n >= 1 && k < NConstraints(n)
    ensures ConstraintExpr(n, k).Pin? <==> InitialSlot(n, k)
    ensures ConstraintExpr(n, k).Pin? ==> ConstraintExpr(n, k).index == k
    ensures ConstraintExpr(n, k).Residual? ==> ConstraintExpr(n, k).declared == k
  {
    InitialSlotIsStepZero(n, k);
  }


  /**
   * The constraint slots of `fg` are exactly the rows of the six state
   * channels at the `n` steps, each slot the row of one channel and step:
   * the evaluator's writes cover every slot once and never collide.
   */
  lemma {:induction false} RowsTileConstraintSlots(n: nat)
    requires n >= 1
    ensures forall b: Block, s: nat :: b.IsState() && s < n ==> 1 <= Row(n, b, s) < 1 + NConstraints(n)
    ensures forall b: Block, s: nat, c: Block, u: nat ::
      b.IsState() && s < n && c.IsState() && u < n && Row(n, b, s) == Row(n, c, u) ==> b == c && s == u
    ensures forall k :: 0 <= k < NConstraints(n) ==>
      BlockOf(n, k).IsState() && StepOf(n, k) < n && Row(n, BlockOf(n, k), StepOf(n, k)) == 1 + k
  {
    forall b: Block, s: nat | b.IsState() && s < n
      ensures 1 <= Row(n, b, s) < 1 + NConstraints(n)
    {
      IndexInBlock(n, b, s);
    }
    forall b: Block, s: nat, c: Block, u: nat |
      b.IsState() && s < n && c.IsState() && u < n && Row(n, b, s) == Row(n, c, u)
      ensures b == c && s == u
    {
      IndexInBlock(n, b, s);
      IndexInBlock(n, c, u);
    }
  }

  // The cost, as the reference list of summands in the order the three
  // cost loops add them, written with named-block indices.

  /** The tracking summands of steps `0 .. upTo - 1`. */
  function StateCost(n: nat, upTo: nat): (r: seq<CostTerm>)
    requires 1 <= n && upTo <= n
    ensures |r| == 3 * upTo
  {
    if upTo == 0 then []
    else
      var t := upTo - 1;
      StateCost(n, t) + [Square(WeightCte, Index(n, Cte, t), 0.0),
                         Square(WeightEpsi, Index(n, Epsi, t), 0.0),
                         Square(WeightV, Index(n, V, t), RefV)]
  }

  /** The actuator-use summands of steps `0 .. upTo - 1`. */
  function ActuatorCost(n: nat, upTo: nat): (r: seq<CostTerm>)
    requires 1 <= n && upTo <= n - 1
    ensures |r| == 2 * upTo
  {
    if upTo == 0 then []
    else
      var t := upTo - 1;
      ActuatorCost(n, t) + [Square(WeightDelta, Index(n, Delta, t), 0.0),
                            Square(WeightAccel, Index(n, Accel, t), 0.0)]
  }

  /** The actuator-change summands of steps `0 .. upTo - 1`. */
  function GapCost(n: nat, upTo: nat): (r: seq<CostTerm>)
    requires 2 <= n && upTo <= n - 2
    ensures |r| == 2 * upTo
  {
    if upTo == 0 then []
    else
      var t := upTo - 1;
      GapCost(n, t) + [SquareDiff(WeightDeltaGap, Index(n, Delta, t + 1), Index(n, Delta, t)),
                       SquareDiff(WeightAccelGap, Index(n, Accel, t + 1), Index(n, Accel, t))]
  }

  /** All summands of the cost. */
  function CostTerms(n: nat): (r: seq<CostTerm>)
    requires n >= 2
    ensures |r| == 3 * n + 2 * (n - 1) + 2 * (n - 2)
  {
    StateCost(n, n) + ActuatorCost(n, n - 1) + GapCost(n, n - 2)
  }

  /** Every summand of `terms` is an intended one. */
  predicate AllIntended(n: nat, terms: seq<CostTerm>)
    requires n >= 1
  {
    forall term <- terms :: IntendedTerm(n, term)
  }

  lemma AllIntendedAppend(n: nat, a: seq<CostTerm>, b: seq<CostTerm>)
    requires n >= 1 && AllIntended(n, a) && AllIntended(n, b)
    ensures AllIntended(n, a + b)
  {
    forall term | term in a + b
      ensures IntendedTerm(n, term)
    {
      if term in a {
      } else {
        assert term in b;
      }
    }
  }

  /** Every intended summand has a positive weight. */
  lemma AllIntendedWeighted(n: nat, terms: seq<CostTerm>)
    requires n >= 1 && AllIntended(n, terms)
    ensures forall term <- terms :: term.weight > 0
  {
    forall term | term in terms
      ensures term.weight > 0
    {
      assert IntendedTerm(n, term);
    }
  }

  // Coverage survives adding summands before or after.

  lemma TracksStatesAppend(n: nat, a: seq<CostTerm>, b: seq<CostTerm>, upTo: nat)
    requires 1 <= n && upTo <= n && TracksStatesUpTo(n, a, upTo)
    ensures TracksStatesUpTo(n, a + b, upTo)
  {
  }

  lemma PenalisesActuatorsAppend(n: nat, a: seq<CostTerm>, b: seq<CostTerm>, upTo: nat)
    requires 1 <= n && upTo <= n - 1 && PenalisesActuatorsUpTo(n, a, upTo)
    ensures PenalisesActuatorsUpTo(n, a + b, upTo)
  {
  }

  lemma PenalisesActuatorsPrepend(n: nat, a: seq<CostTerm>, b: seq<CostTerm>, upTo: nat)
    requires 1 <= n && upTo <= n - 1 && PenalisesActuatorsUpTo(n, b, upTo)
    ensures PenalisesActuatorsUpTo(n, a + b, upTo)
  {
  }

  lemma PenalisesGapsPrepend(n: nat, a: seq<CostTerm>, b: seq<CostTerm>, upTo: nat)
    requires 2 <= n && upTo <= n - 2 && PenalisesGapsUpTo(n, b, upTo)
    ensures PenalisesGapsUpTo(n, a + b, upTo)
  {
  }

  lemma {:induction false} StateCostIntended(n: nat, upTo: nat)
    requires 1 <= n && upTo <= n
    ensures AllIntended(n, StateCost(n, upTo))
  {
    if upTo > 0 {
      var t := upTo - 1;
      StateCostIntended(n, t);
      IndexInBlock(n, Cte, t);
      IndexInBlock(n, Epsi, t);
      IndexInBlock(n, V, t);
      var last := [Square(WeightCte, Index(n, Cte, t), 0.0),
                   Square(WeightEpsi, Index(n, Epsi, t), 0.0),
                   Square(WeightV, Index(n, V, t), RefV)];
      assert AllIntended(n, last);
      AllIntendedAppend(n, StateCost(n, t), last);
    }
  }

  lemma {:induction false} StateCostTracks(n: nat, upTo: nat)
    requires 1 <= n && upTo <= n
    ensures TracksStatesUpTo(n, StateCost(n, upTo), upTo)
  {
    if upTo > 0 {
      StateCostTracks(n, upTo - 1);
    }
  }

  lemma {:induction false} ActuatorCostIntended(n: nat, upTo: nat)
    requires 1 <= n && upTo <= n - 1
    ensures AllIntended(n, ActuatorCost(n, upTo))
  {
    if upTo > 0 {
      var t := upTo - 1;
      ActuatorCostIntended(n, t);
      IndexInBlock(n, Delta, t);
      IndexInBlock(n, Accel, t);
      var last := [Square(WeightDelta, Index(n, Delta, t), 0.0),
                   Square(WeightAccel, Index(n, Accel, t), 0.0)];
      assert AllIntended(n, last);
      AllIntendedAppend(n, ActuatorCost(n, t), last);
    }
  }

  lemma {:induction false} ActuatorCostPenalises(n: nat, upTo: nat)
    requires 1 <= n && upTo <= n - 1
    ensures PenalisesActuatorsUpTo(n, ActuatorCost(n, upTo), upTo)
  {
    if upTo > 0 {
      ActuatorCostPenalises(n, upTo - 1);
    }
  }

  lemma {:induction false} GapCostIntended(n: nat, upTo: nat)
    requires 2 <= n && upTo <= n - 2
    ensures AllIntended(n, GapCost(n, upTo))
  {
    if upTo > 0 {
      var t := upTo - 1;
      GapCostIntended(n, t);
      IndexInBlock(n, Delta, t);
      IndexInBlock(n, Delta, t + 1);
      IndexInBlock(n, Accel, t);
      IndexInBlock(n, Accel, t + 1);
      var last := [SquareDiff(WeightDeltaGap, Index(n, Delta, t + 1), Index(n, Delta, t)),
                   SquareDiff(WeightAccelGap, Index(n, Accel, t + 1), Index(n, Accel, t))];
      assert AllIntended(n, last);
      AllIntendedAppend(n, GapCost(n, t), last);
    }
  }

  lemma {:induction false} GapCostPenalises(n: nat, upTo: nat)
    requires 2 <= n && upTo <= n - 2
    ensures PenalisesGapsUpTo(n, GapCost(n, upTo), upTo)
  {
    if upTo > 0 {
      GapCostPenalises(n, upTo - 1);
    }
  }

  /**
   * Each summand of the cost reads inside the vector and inside the block
   * it is meant to, with that block's weight, which is positive.
   */
  lemma CostTermsIntended(n: nat)
    requires n >= 2
    ensures AllIntended(n, CostTerms(n))
    ensures forall term <- CostTerms(n) :: term.weight > 0
  {
    var a, b, c := StateCost(n, n), ActuatorCost(n, n - 1), GapCost(n, n - 2);
    StateCostIntended(n, n);
    ActuatorCostIntended(n, n - 1);
    GapCostIntended(n, n - 2);
    AllIntendedAppend(n, a, b);
    AllIntendedAppend(n, a + b, c);
    AllIntendedWeighted(n, a + b + c);
  }

  /** The cost tracks the reference state at every step of the horizon. */
  lemma CostTermsTrack(n: nat)
    requires n >= 2
    ensures TracksStatesUpTo(n, CostTerms(n), n)
  {
    var a, b, c := StateCost(n, n), ActuatorCost(n, n - 1), GapCost(n, n - 2);
    StateCostTracks(n, n);
    TracksStatesAppend(n, a, b, n);
    TracksStatesAppend(n, a + b, c, n);
  }

  /** The cost penalises every actuation of the horizon. */
  lemma CostTermsPenaliseActuators(n: nat)
    requires n >= 2
    ensures PenalisesActuatorsUpTo(n, CostTerms(n), n - 1)
  {
    var a, b, c := StateCost(n, n), ActuatorCost(n, n - 1), GapCost(n, n - 2);
    ActuatorCostPenalises(n, n - 1);
    PenalisesActuatorsPrepend(n, a, b, n - 1);
    PenalisesActuatorsAppend(n, a + b, c, n - 1);
  }

  /** The cost penalises every change between consecutive actuations. */
  lemma CostTermsPenaliseGaps(n: nat)
    requires n >= 2
    ensures PenalisesGapsUpTo(n, CostTerms(n), n - 2)
  {
    var a, b, c := StateCost(n, n), ActuatorCost(n, n - 1), GapCost(n, n - 2);
    GapCostPenalises(n, n - 2);
    PenalisesGapsPrepend(n, a + b, c, n - 2);
  }

  lemma StateCostStep(n: nat, t: nat)
    requires t < n
    ensures StateCost(n, t + 1) == StateCost(n, t) + [Square(WeightCte, CteStart(n) + t, 0.0),
      Square(WeightEpsi, EpsiStart(n) + t, 0.0), Square(WeightV, VStart(n) + t, RefV)]
  {
  }

  lemma ActuatorCostStep(n: nat, t: nat)
    requires t < n - 1
    ensures ActuatorCost(n, t + 1) == ActuatorCost(n, t) + [Square(WeightDelta, DeltaStart(n) + t, 0.0),
      Square(WeightAccel, AccelStart(n) + t, 0.0)]
  {
  }

  lemma GapCostStep(n: nat, t: nat)
    requires 2 <= n && t < n - 2
    ensures GapCost(n, t + 1) == GapCost(n, t) + [SquareDiff(WeightDeltaGap, DeltaStart(n) + t + 1, DeltaStart(n) + t),
      SquareDiff(WeightAccelGap, AccelStart(n) + t + 1, AccelStart(n) + t)]
  {
  }

  /**
   * `FG_eval::operator()`: the cost in `fg[0]`, constraint `k` in
   * `fg[1 + k]`. Together with the `CostTerms` lemmas and
   * `RowsTileConstraintSlots` this says that the cost is made of the
   * intended, positively weighted summands and covers every step, and that
   * every constraint slot holds its own pin or model residual.
   */
  method FgEval(n: nat, fg: array<FgEntry>)
    requires n >= 2 && fg.Length == 1 + NConstraints(n)
    modifies fg
    ensures fg[0] == Cost(CostTerms(n))
    ensures |fg[0].terms| == 3 * n + 2 * (n - 1) + 2 * (n - 2)
    ensures AllIntended(n, fg[0].terms)
    ensures forall term <- fg[0].terms :: term.weight > 0
    ensures TracksStatesUpTo(n, fg[0].terms, n)
    ensures PenalisesActuatorsUpTo(n, fg[0].terms, n - 1)
    ensures PenalisesGapsUpTo(n, fg[0].terms, n - 2)
    ensures forall k :: 0 <= k < NConstraints(n) ==> fg[1 + k] == ConstraintExpr(n, k)
  {
    WriteCost(n, fg);
    WriteConstraints(n, fg);
    CostTermsIntended(n);
    CostTermsTrack(n);
    CostTermsPenaliseActuators(n);
    CostTermsPenaliseGaps(n);
  }

  /**
   * The first half of `FG_eval::operator()`: the cost, accumulated into
   * `fg[0]` by three loops; no other slot of `fg` is touched.
   */
  method WriteCost(n: nat, fg: array<FgEntry>)
    requires n >= 2 && fg.Length == 1 + NConstraints(n)
    modifies fg
    ensures fg[0] == Cost(CostTerms(n))
    ensures forall j :: 1 <= j < fg.Length ==> fg[j] == old(fg[j])
  {
    fg[0] := Cost([]);
    AddStateCost(n, fg);
    AddActuatorCost(n, fg);
    AddGapCost(n, fg);
  }

  /** The loop adding the part of the cost based on the reference state. */
  method AddStateCost(n: nat, fg: array<FgEntry>)
    requires n >= 2 && fg.Length == 1 + NConstraints(n) && fg[0].Cost?
    modifies fg
    ensures fg[0] == Cost(old(fg[0].terms) + StateCost(n, n))
    ensures forall j :: 1 <= j < fg.Length ==> fg[j] == old(fg[j])
  {
    ghost var before := fg[0].terms;
    for t := 0 to n
      invariant fg[0] == Cost(before + StateCost(n, t))
      invariant forall j :: 1 <= j < fg.Length ==> fg[j] == old(fg[j])
    {
      StateCostStep(n, t);
      fg[0] := Cost(fg[0].terms + [Square(WeightCte, CteStart(n) + t, 0.0)]);
      fg[0] := Cost(fg[0].terms + [Square(WeightEpsi, EpsiStart(n) + t, 0.0)]);
      fg[0] := Cost(fg[0].terms + [Square(WeightV, VStart(n) + t, RefV)]);
    }
  }

  /** The loop adding the use of the actuators. */
  method AddActuatorCost(n: nat, fg: array<FgEntry>)
    requires n >= 2 && fg.Length == 1 + NConstraints(n) && fg[0].Cost?
    modifies fg
    ensures fg[0] == Cost(old(fg[0].terms) + ActuatorCost(n, n - 1))
    ensures forall j :: 1 <= j < fg.Length ==> fg[j] == old(fg[j])
  {
    ghost var before := fg[0].terms;
    for t := 0 to n - 1
      invariant fg[0] == Cost(before + ActuatorCost(n, t))
      invariant forall j :: 1 <= j < fg.Length ==> fg[j] == old(fg[j])
    {
      ActuatorCostStep(n, t);
      fg[0] := Cost(fg[0].terms + [Square(WeightDelta, DeltaStart(n) + t, 0.0)]);
      fg[0] := Cost(fg[0].terms + [Square(WeightAccel, AccelStart(n) + t, 0.0)]);
    }
  }

  /** The loop adding the gap between sequential actuations. */
  method AddGapCost(n: nat, fg: array<FgEntry>)
    requires n >= 2 && fg.Length == 1 + NConstraints(n) && fg[0].Cost?
    modifies fg
    ensures fg[0] == Cost(old(fg[0].terms) + GapCost(n, n - 2))
    ensures forall j :: 1 <= j < fg.Length ==> fg[j] == old(fg[j])
  {
    ghost var before := fg[0].terms;
    for t := 0 to n - 2
      invariant fg[0] == Cost(before + GapCost(n, t))
      invariant forall j :: 1 <= j < fg.Length ==> fg[j] == old(fg[j])
    {
      GapCostStep(n, t);
      fg[0] := Cost(fg[0].terms + [SquareDiff(WeightDeltaGap, DeltaStart(n) + t + 1, DeltaStart(n) + t)]);
      fg[0] := Cost(fg[0].terms + [SquareDiff(WeightAccelGap, AccelStart(n) + t + 1, AccelStart(n) + t)]);
    }
  }

  /** The constraints of every channel at steps `0 .. upTo - 1` are in place in `a`. */
  predicate RowsUpTo(n: nat, a: seq<FgEntry>, upTo: nat)
    requires upTo <= n && |a| == 1 + NConstraints(n)
  {
    forall s: nat :: s < upTo ==> StepInPlaceAt(n, a, s)
  }

  /** The six constraints of step `s` are in place in `a`. */
  predicate StepInPlaceAt(n: nat, a: seq<FgEntry>, s: nat)
    requires s < n && |a| == 1 + NConstraints(n)
  {
    a[Row(n, X, s)] == RowExpr(n, X, s) && a[Row(n, Y, s)] == RowExpr(n, Y, s) &&
    a[Row(n, Psi, s)] == RowExpr(n, Psi, s) && a[Row(n, V, s)] == RowExpr(n, V, s) &&
    a[Row(n, Cte, s)] == RowExpr(n, Cte, s) && a[Row(n, Epsi, s)] == RowExpr(n, Epsi, s)
  }

  /**
   * Slot `j` of `fg` is one the residual loop writes at step `t`, written
   * with the offsets as the loop addresses them; `StepSlotIsRow` shows
   * these are exactly the rows `Row(n, b, t)` of the six state channels.
   */
  predicate StepSlot(n: nat, t: nat, j: nat) {
    j == 1 + XStart(n) + t || j == 1 + YStart(n) + t || j == 1 + PsiStart(n) + t ||
    j == 1 + VStart(n) + t || j == 1 + CteStart(n) + t || j == 1 + EpsiStart(n) + t
  }

  /** The offset-addressed slots of step `t` are the rows of step `t`, and no others. */
  lemma StepSlotIsRow(n: nat, t: nat, j: nat)
    requires t < n
    ensures StepSlot(n, t, j) <==> exists b: Block :: b.IsState() && j == Row(n, b, t)
  {
    if StepSlot(n, t, j) {
      var b :=
        if j == 1 + XStart(n) + t then X
        else if j == 1 + YStart(n) + t then Y
        else if j == 1 + PsiStart(n) + t then Psi
        else if j == 1 + VStart(n) + t then V
        else if j == 1 + CteStart(n) + t then Cte
        else Epsi;
      assert j == Row(n, b, t);
    }
  }

  /** The six pins written before the residual loop put step 0 in place. */
  lemma PinsInPlace(n: nat, a: seq<FgEntry>)
    requires n >= 1 && |a| == 1 + NConstraints(n)
    requires a[1 + XStart(n)] == Pin(XStart(n)) && a[1 + YStart(n)] == Pin(YStart(n))
    requires a[1 + PsiStart(n)] == Pin(PsiStart(n)) && a[1 + VStart(n)] == Pin(VStart(n))
    requires a[1 + CteStart(n)] == Pin(CteStart(n)) && a[1 + EpsiStart(n)] == Pin(EpsiStart(n))
    ensures RowsUpTo(n, a, 1)
  {
    assert Row(n, X, 0) == 1 + XStart(n) && Row(n, Y, 0) == 1 + YStart(n);
    assert Row(n, Psi, 0) == 1 + PsiStart(n) && Row(n, V, 0) == 1 + VStart(n);
    assert Row(n, Cte, 0) == 1 + CteStart(n) && Row(n, Epsi, 0) == 1 + EpsiStart(n);
    assert StepInPlaceAt(n, a, 0);
  }

  /**
   * One pass of the residual loop keeps its invariant: with steps
   * `0 .. t - 1` in place before, the six residuals of step `t` written,
   * and every other slot unchanged, steps `0 .. t` are in place after.
   */
  lemma StepInPlace(n: nat, t: nat, before: seq<FgEntry>, after: seq<FgEntry>)
    requires 1 <= t < n && |before| == 1 + NConstraints(n) && |after| == |before|
    requires RowsUpTo(n, before, t)
    requires after[1 + XStart(n) + t] == RowExpr(n, X, t) && after[1 + YStart(n) + t] == RowExpr(n, Y, t)
    requires after[1 + PsiStart(n) + t] == RowExpr(n, Psi, t) && after[1 + VStart(n) + t] == RowExpr(n, V, t)
    requires after[1 + CteStart(n) + t] == RowExpr(n, Cte, t) && after[1 + EpsiStart(n) + t] == RowExpr(n, Epsi, t)
    requires forall j :: 0 <= j < |after| && !StepSlot(n, t, j) ==> after[j] == before[j]
    ensures RowsUpTo(n, after, t + 1)
  {
    NewStep(n, t, after);
    forall s: nat | s < t
      ensures StepInPlaceAt(n, after, s)
    {
      OtherSteps(n, t, s, before, after);
    }
  }

  /** The six offset-addressed writes of step `t` are the six rows of step `t`. */
  lemma NewStep(n: nat, t: nat, after: seq<FgEntry>)
    requires 1 <= t < n && |after| == 1 + NConstraints(n)
    requires after[1 + XStart(n) + t] == RowExpr(n, X, t) && after[1 + YStart(n) + t] == RowExpr(n, Y, t)
    requires after[1 + PsiStart(n) + t] == RowExpr(n, Psi, t) && after[1 + VStart(n) + t] == RowExpr(n, V, t)
    requires after[1 + CteStart(n) + t] == RowExpr(n, Cte, t) && after[1 + EpsiStart(n) + t] == RowExpr(n, Epsi, t)
    ensures StepInPlaceAt(n, after, t)
  {
  }

  /** The writes of step `t` miss every row of an earlier step `s`. */
  lemma OtherSteps(n: nat, t: nat, s: nat, before: seq<FgEntry>, after: seq<FgEntry>)
    requires 1 <= t < n && s < t && |before| == 1 + NConstraints(n) && |after| == |before|
    requires StepInPlaceAt(n, before, s)
    requires forall j :: 0 <= j < |after| && !StepSlot(n, t, j) ==> after[j] == before[j]
    ensures StepInPlaceAt(n, after, s)
  {
  }

  /** Once every step is in place, every constraint slot holds its expression. */
  lemma RowsComplete(n: nat, a: seq<FgEntry>)
    requires n >= 1 && |a| == 1 + NConstraints(n) && RowsUpTo(n, a, n)
    ensures forall k :: 0 <= k < NConstraints(n) ==> a[1 + k] == ConstraintExpr(n, k)
  {
    forall k | 0 <= k < NConstraints(n)
      ensures a[1 + k] == ConstraintExpr(n, k)
    {
      var b, s := BlockOf(n, k), StepOf(n, k);
      assert StepInPlaceAt(n, a, s);
      assert 1 + k == Row(n, b, s);
    }
  }

  /**
   * The second half of `FG_eval::operator()`: the initial-state pins and
   * the model residuals, constraint `k` at `fg[1 + k]`; `fg[0]` is not
   * touched.
   */
  method WriteConstraints(n: nat, fg: array<FgEntry>)
    requires n >= 2 && fg.Length == 1 + NConstraints(n)
    modifies fg
    ensures forall k :: 0 <= k < NConstraints(n) ==> fg[1 + k] == ConstraintExpr(n, k)
    ensures fg[0] == old(fg[0])
  {
    // The initial-state pins; the `1 +` skips the cost slot.
    fg[1 + XStart(n)] := Pin(XStart(n));
    fg[1 + YStart(n)] := Pin(YStart(n));
    fg[1 + PsiStart(n)] := Pin(PsiStart(n));
    fg[1 + VStart(n)] := Pin(VStart(n));
    fg[1 + CteStart(n)] := Pin(CteStart(n));
    fg[1 + EpsiStart(n)] := Pin(EpsiStart(n));
    PinsInPlace(n, fg[..]);

    // The model residuals, one per state channel and step.
    for t := 1 to n
      invariant RowsUpTo(n, fg[..], t)
      invariant fg[0] == old(fg[0])
    {
      ghost var before := fg[..];
      WriteStep(n, t, fg);
      StepInPlace(n, t, before, fg[..]);
    }
    RowsComplete(n, fg[..]);
  }

  /**
   * One iteration of the residual loop: the six residuals of step `t`,
   * each computed from the state and actuation of step `t - 1`. No other
   * slot of `fg` changes.
   */
  method WriteStep(n: nat, t: nat, fg: array<FgEntry>)
    requires 1 <= t < n && fg.Length == 1 + NConstraints(n)
    modifies fg
    ensures fg[1 + XStart(n) + t] == RowExpr(n, X, t) && fg[1 + YStart(n) + t] == RowExpr(n, Y, t)
    ensures fg[1 + PsiStart(n) + t] == RowExpr(n, Psi, t) && fg[1 + VStart(n) + t] == RowExpr(n, V, t)
    ensures fg[1 + CteStart(n) + t] == RowExpr(n, Cte, t) && fg[1 + EpsiStart(n) + t] == RowExpr(n, Epsi, t)
    ensures forall j :: 0 <= j < fg.Length && !StepSlot(n, t, j) ==> fg[j] == old(fg[j])
  {
    // The state at step t.
    var x1, y1, psi1 := XStart(n) + t, YStart(n) + t, PsiStart(n) + t;
    var v1, cte1, epsi1 := VStart(n) + t, CteStart(n) + t, EpsiStart(n) + t;
    // The state and actuation at step t - 1.
    var x0, y0, psi0 := XStart(n) + t - 1, YStart(n) + t - 1, PsiStart(n) + t - 1;
    var v0, cte0, epsi0 := VStart(n) + t - 1, CteStart(n) + t - 1, EpsiStart(n) + t - 1;
    // cte0 is read as the source does, but no residual is built from it:
    // the cte prediction uses the fitted curve at x0 instead.
    var delta0, a0 := DeltaStart(n) + t - 1, AccelStart(n) + t - 1;

    fg[1 + XStart(n) + t] := Residual(x1, [x0, v0, psi0]);
    fg[1 + YStart(n) + t] := Residual(y1, [y0, v0, psi0]);
    fg[1 + PsiStart(n) + t] := Residual(psi1, [psi0, v0, delta0]);
    fg[1 + VStart(n) + t] := Residual(v1, [v0, a0]);
    fg[1 + CteStart(n) + t] := Residual(cte1, [x0, y0, v0, epsi0]);
    fg[1 + EpsiStart(n) + t] := Residual(epsi1, [psi0, x0, v0, delta0]);
  }
}
