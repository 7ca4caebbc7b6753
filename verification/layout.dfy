/**
 * The flat decision-vector layout of the MPC problem.
 *
 * The optimiser sees one vector of `NVars(n)` reals for a horizon of `n`
 * steps: six state blocks (x, y, psi, v, cte, epsi) of `n` entries each,
 * then two actuator blocks (steering delta, acceleration) of `n - 1`
 * entries each. The offsets below are the ones `MPC.cpp` computes by hand
 * from the horizon; everything else in this module is stated about them.
 */
module Layout {

  /** The horizon length the controller is configured with (`N`). */
  const Horizon: nat := 10

  /** The eight blocks of the decision vector, in storage order. */
  datatype Block = X | Y | Psi | V | Cte | Epsi | Delta | Accel {
    /** The six state channels, as opposed to the two actuators. */
    predicate IsState() {
      this != Delta && this != Accel
    }

    /** Position of a state channel in the observed state vector. */
    function Channel(): nat
      requires IsState()
    {
      match this
      case X => 0
      case Y => 1
      case Psi => 2
      case V => 3
      case Cte => 4
      case Epsi => 5
    }
  }

  // The offsets, each derived from the previous one as the source does.

  function XStart(n: nat): nat { 0 }
  function YStart(n: nat): nat { XStart(n) + n }
  function PsiStart(n: nat): nat { YStart(n) + n }
  function VStart(n: nat): nat { PsiStart(n) + n }
  function CteStart(n: nat): nat { VStart(n) + n }
  function EpsiStart(n: nat): nat { CteStart(n) + n }
  function DeltaStart(n: nat): nat { EpsiStart(n) + n }

  function AccelStart(n: nat): nat
    requires n >= 1
  {
    DeltaStart(n) + n - 1
  }

  /**
   * Number of decision variables: `n` timesteps give `n - 1` actuations, so
   * the state blocks are followed by two actuator blocks of `n - 1` each.
   */
  function NVars(n: nat): (r: nat)
    requires n >= 1
    ensures r == DeltaStart(n) + 2 * (n - 1)
  {
    n * 6 + (n - 1) * 2
  }

  /** Number of constraints: one per state variable, i.e. all slots before the actuators. */
  function NConstraints(n: nat): (r: nat)
    ensures r == DeltaStart(n)
  {
    n * 6
  }

  /** The chained offsets have the closed forms `b * n` and `7n - 1`. */
  lemma OffsetsClosedForm(n: nat)
    requires n >= 1
    ensures XStart(n) == 0 && YStart(n) == n && PsiStart(n) == 2 * n
    ensures VStart(n) == 3 * n && CteStart(n) == 4 * n && EpsiStart(n) == 5 * n
    ensures DeltaStart(n) == 6 * n && AccelStart(n) == 7 * n - 1
    ensures NVars(n) == 8 * n - 2 && NConstraints(n) == DeltaStart(n)
  {
  }

  function BlockStart(n: nat, b: Block): nat
    requires n >= 1
  {
    match b
    case X => XStart(n)
    case Y => YStart(n)
    case Psi => PsiStart(n)
    case V => VStart(n)
    case Cte => CteStart(n)
    case Epsi => EpsiStart(n)
    case Delta => DeltaStart(n)
    case Accel => AccelStart(n)
  }

  function BlockLen(n: nat, b: Block): nat
    requires n >= 1
  {
    if b.IsState() then n else n - 1
  }

  predicate InBlock(n: nat, b: Block, i: nat)
    requires n >= 1
  {
    BlockStart(n, b) <= i < BlockStart(n, b) + BlockLen(n, b)
  }

  /** The successor of a block in storage order (the last has none). */
  function Next(b: Block): Block
    requires b != Accel
  {
    match b
    case X => Y
    case Y => Psi
    case Psi => V
    case V => Cte
    case Cte => Epsi
    case Epsi => Delta
    case Delta => Accel
  }

  /**
   * The blocks tile `[0, NVars(n))` without gaps: the first starts at 0,
   * each one starts where its predecessor ends, and the last ends at
   * `NVars(n)`.
   */
  lemma BlocksTile(n: nat)
    requires n >= 1
    ensures BlockStart(n, X) == 0
    ensures forall b: Block :: b != Accel ==>
      BlockStart(n, Next(b)) == BlockStart(n, b) + BlockLen(n, b)
    ensures BlockStart(n, Accel) + BlockLen(n, Accel) == NVars(n)
  {
  }

  /** The block an index of the decision vector belongs to. */
  function BlockOf(n: nat, i: nat): (b: Block)
    requires n >= 1 && i < NVars(n)
    ensures InBlock(n, b, i)
  {
    if i < YStart(n) then X
    else if i < PsiStart(n) then Y
    else if i < VStart(n) then Psi
    else if i < CteStart(n) then V
    else if i < EpsiStart(n) then Cte
    else if i < DeltaStart(n) then Epsi
    else if i < AccelStart(n) then Delta
    else Accel
  }

  /**
   * The partition property: every index of the decision vector lies in
   * exactly one block, the one `BlockOf` names.
   */
  lemma BlockOfUnique(n: nat, i: nat, c: Block)
    requires n >= 1 && i < NVars(n) && InBlock(n, c, i)
    ensures c == BlockOf(n, i)
  {
  }

  /** The timestep an index stands for, within its own block. */
  function StepOf(n: nat, i: nat): nat
    requires n >= 1 && i < NVars(n)
  {
    i - BlockStart(n, BlockOf(n, i))
  }

  /** Named-block access: the index of block `b` at timestep `t`. */
  function Index(n: nat, b: Block, t: nat): (i: nat)
    requires n >= 1 && t < BlockLen(n, b)
    ensures i < NVars(n)
  {
    BlockStart(n, b) + t
  }

  /**
   * Named-block access and the partition agree: the index of block `b` at
   * step `t` is read back as block `b` and step `t`.
   */
  lemma IndexInBlock(n: nat, b: Block, t: nat)
    requires n >= 1 && t < BlockLen(n, b)
    ensures InBlock(n, b, Index(n, b, t))
    ensures BlockOf(n, Index(n, b, t)) == b && StepOf(n, Index(n, b, t)) == t
  {
    BlockOfUnique(n, Index(n, b, t), b);
  }

  /** Slot `k` is one of the six holding the state at timestep 0. */
  predicate InitialSlot(n: nat, k: nat) {
    k == XStart(n) || k == YStart(n) || k == PsiStart(n) ||
    k == VStart(n) || k == CteStart(n) || k == EpsiStart(n)
  }

  /**
   * Among the state variables, the initial slots are exactly those at
   * timestep 0.
   */
  lemma InitialSlotIsStepZero(n: nat, k: nat)
    requires n >= 1 && k < DeltaStart(n)
    ensures InitialSlot(n, k) <==> StepOf(n, k) == 0
  {
  }

  /** The horizon the controller is configured with is a valid one. */
  lemma ConfiguredHorizon()
    ensures Horizon >= 2
    ensures NVars(Horizon) == 78 && NConstraints(Horizon) == 60
    ensures DeltaStart(Horizon) == 60 && AccelStart(Horizon) == 69
  {
  }

  /**
   * The smallest admissible horizon: 14 variables, 12 constraints and a
   * single actuation pair.
   */
  lemma DegenerateHorizon()
    ensures NVars(2) == 14 && NConstraints(2) == 12
    ensures BlockLen(2, Delta) == 1 && BlockLen(2, Accel) == 1
    ensures AccelStart(2) == 13
  {
  }
}
