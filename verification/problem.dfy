/**
 * The problem description `MPC::Solve` hands to the external optimiser, and
 * the answer it reads back.
 *
 * `Solve` fills five arrays (initial values, lower and upper variable
 * bounds, lower and upper constraint bounds) with index loops and point
 * assignments, hands them to the optimiser, and copies the first actuation
 * and the predicted positions out of the solution vector. The optimiser
 * itself is outside the model: its solution vector is a parameter.
 */
module Problem {
  import opened Layout

  /** The "very large magnitude" used as the bound of unconstrained variables (1.0e19). */
  const Unbounded: real := 10000000000000000000.0

  /** The steering bound factor, 25 degrees in radians; the source scales it by `Lf`. */
  const SteerFactor: real := 0.436332

  /** The limit on acceleration/deceleration. */
  const AccelLimit: real := 1.0

  /** The arrays passed to the optimiser. */
  datatype NlpProblem = NlpProblem(
    vars: array<real>,
    varsLower: array<real>,
    varsUpper: array<real>,
    consLower: array<real>,
    consUpper: array<real>)

  /**
   * The initial values of the decision variables: zero everywhere except
   * the six timestep-0 state slots, which hold the observed state in order.
   */
  method InitialValues(n: nat, state: seq<real>) returns (vars: array<real>)
    requires n >= 1 && |state| >= 6
    ensures fresh(vars) && vars.Length == NVars(n)
    ensures vars[XStart(n)] == state[0] && vars[YStart(n)] == state[1]
    ensures vars[PsiStart(n)] == state[2] && vars[VStart(n)] == state[3]
    ensures vars[CteStart(n)] == state[4] && vars[EpsiStart(n)] == state[5]
    ensures forall i :: 0 <= i < vars.Length && !InitialSlot(n, i) ==> vars[i] == 0.0
  {
    vars := new real[NVars(n)];
    for i := 0 to vars.Length
      invariant forall j :: 0 <= j < i ==> vars[j] == 0.0
    {
      vars[i] := 0.0;
    }
    vars[XStart(n)] := state[0];
    vars[YStart(n)] := state[1];
    vars[PsiStart(n)] := state[2];
    vars[VStart(n)] := state[3];
    vars[CteStart(n)] := state[4];
    vars[EpsiStart(n)] := state[5];
  }

  /**
   * The magnitude of the symmetric bound on decision variable `i`: the
   * state variables are effectively unbounded, steering is limited to
   * `SteerFactor * lf` and acceleration to `AccelLimit`.
   */
  function VarBound(n: nat, lf: real, i: nat): real
    requires n >= 1
  {
    if i < DeltaStart(n) then Unbounded
    else if i < AccelStart(n) then SteerFactor * lf
    else AccelLimit
  }

  /**
   * The bound magnitudes form three bands over the decision vector, and
   * for a positive `lf` every one is positive, so that no variable's
   * interval is empty.
   */
  lemma VarBoundBands(n: nat, lf: real)
    requires n >= 1
    ensures forall i :: 0 <= i < DeltaStart(n) ==> VarBound(n, lf, i) == Unbounded
    ensures forall i :: DeltaStart(n) <= i < AccelStart(n) ==> VarBound(n, lf, i) == SteerFactor * lf
    ensures forall i :: AccelStart(n) <= i ==> VarBound(n, lf, i) == AccelLimit
    ensures lf > 0.0 ==> forall i :: 0 <= i ==> VarBound(n, lf, i) > 0.0
  {
  }

  /**
   * The variable bounds, filled in three bands by three loops: each
   * variable lies in `[-VarBound, VarBound]`.
   */
  method VariableBounds(n: nat, lf: real) returns (lower: array<real>, upper: array<real>)
    requires n >= 1
    ensures fresh(lower) && fresh(upper) && lower != upper
    ensures lower.Length == NVars(n) && upper.Length == NVars(n)
    ensures forall i :: 0 <= i < NVars(n) ==>
      lower[i] == -VarBound(n, lf, i) && upper[i] == VarBound(n, lf, i)
  {
    lower := new real[NVars(n)];
    upper := new real[NVars(n)];
    // The state variables: effectively unbounded.
    for i := 0 to DeltaStart(n)
      invariant forall j :: 0 <= j < i ==> lower[j] == -VarBound(n, lf, j) && upper[j] == VarBound(n, lf, j)
    {
      lower[i] := -Unbounded;
      upper[i] := Unbounded;
    }
    // Steering: limited to 25 degrees, scaled by lf.
    for i := DeltaStart(n) to AccelStart(n)
      invariant forall j :: 0 <= j < i ==> lower[j] == -VarBound(n, lf, j) && upper[j] == VarBound(n, lf, j)
    {
      lower[i] := -SteerFactor * lf;
      upper[i] := SteerFactor * lf;
    }
    // Acceleration and deceleration.
    for i := AccelStart(n) to NVars(n)
      invariant forall j :: 0 <= j < i ==> lower[j] == -VarBound(n, lf, j) && upper[j] == VarBound(n, lf, j)
    {
      lower[i] := -AccelLimit;
      upper[i] := AccelLimit;
    }
  }

  /**
   * The constraint bounds: every constraint is an equality (lower equals
   * upper); the six initial-state constraints are pinned to the observed
   * state and every dynamics residual to zero.
   */
  method ConstraintBounds(n: nat, state: seq<real>) returns (lower: array<real>, upper: array<real>)
    requires n >= 1 && |state| >= 6
    ensures fresh(lower) && fresh(upper) && lower != upper
    ensures lower.Length == NConstraints(n) && upper.Length == NConstraints(n)
    ensures forall i :: 0 <= i < NConstraints(n) ==> lower[i] == upper[i]
    ensures lower[XStart(n)] == state[0] && lower[YStart(n)] == state[1]
    ensures lower[PsiStart(n)] == state[2] && lower[VStart(n)] == state[3]
    ensures lower[CteStart(n)] == state[4] && lower[EpsiStart(n)] == state[5]
    ensures forall i :: 0 <= i < NConstraints(n) && !InitialSlot(n, i) ==> lower[i] == 0.0
  {
    lower := new real[NConstraints(n)];
    upper := new real[NConstraints(n)];
    for i := 0 to NConstraints(n)
      invariant forall j :: 0 <= j < i ==> lower[j] == 0.0 && upper[j] == 0.0
    {
      lower[i] := 0.0;
      upper[i] := 0.0;
    }
    lower[XStart(n)] := state[0];
    lower[YStart(n)] := state[1];
    lower[PsiStart(n)] := state[2];
    lower[VStart(n)] := state[3];
    lower[CteStart(n)] := state[4];
    lower[EpsiStart(n)] := state[5];

    upper[XStart(n)] := state[0];
    upper[YStart(n)] := state[1];
    upper[PsiStart(n)] := state[2];
    upper[VStart(n)] := state[3];
    upper[CteStart(n)] := state[4];
    upper[EpsiStart(n)] := state[5];
  }

  /**
   * The result vector: the first steering and first acceleration, then the
   * predicted positions (x, y) for timesteps 1 to `n - 1`, interleaved.
   */
  method ExtractResult(n: nat, solution: array<real>) returns (result: seq<real>)
    requires n >= 2 && solution.Length == NVars(n)
    ensures |result| == 2 * n
    ensures result[0] == solution[Index(n, Delta, 0)]
    ensures result[1] == solution[Index(n, Accel, 0)]
    ensures forall i :: 0 <= i < n - 1 ==>
      result[2 + 2 * i] == solution[Index(n, X, i + 1)] &&
      result[3 + 2 * i] == solution[Index(n, Y, i + 1)]
  {
    result := [];
    result := result + [solution[DeltaStart(n)]];
    result := result + [solution[AccelStart(n)]];
    for i := 0 to n - 1
      invariant |result| == 2 + 2 * i
      invariant result[0] == solution[DeltaStart(n)] && result[1] == solution[AccelStart(n)]
      invariant forall j :: 0 <= j < i ==>
        result[2 + 2 * j] == solution[XStart(n) + j + 1] &&
        result[3 + 2 * j] == solution[YStart(n) + j + 1]
    {
      result := result + [solution[XStart(n) + i + 1]];
      result := result + [solution[YStart(n) + i + 1]];
    }
  }

  /**
   * One call of `MPC::Solve`: build the problem from the observed state,
   * then read the answer out of the optimiser's solution vector. The five
   * arrays are new and distinct, and each holds what its builder promises.
   *
   * Beyond what the builders promise, the initial guess satisfies every
   * constraint pin (the first `NConstraints(n)` initial values equal the
   * constraint bounds), and for a positive `lf` it lies inside the
   * actuator bounds.
   */
  method Solve(n: nat, state: seq<real>, lf: real, solution: array<real>)
    returns (problem: NlpProblem, result: seq<real>)
    requires n >= 2 && |state| >= 6 && solution.Length == NVars(n)
    ensures fresh(problem.vars) && fresh(problem.varsLower) && fresh(problem.varsUpper)
    ensures fresh(problem.consLower) && fresh(problem.consUpper)
    ensures problem.vars != problem.varsLower && problem.vars != problem.varsUpper
    ensures problem.vars != problem.consLower && problem.vars != problem.consUpper
    ensures problem.varsLower != problem.varsUpper && problem.consLower != problem.consUpper
    ensures problem.varsLower != problem.consLower && problem.varsLower != problem.consUpper
    ensures problem.varsUpper != problem.consLower && problem.varsUpper != problem.consUpper
    ensures problem.vars.Length == NVars(n)
    ensures problem.varsLower.Length == NVars(n) && problem.varsUpper.Length == NVars(n)
    ensures problem.consLower.Length == NConstraints(n) && problem.consUpper.Length == NConstraints(n)
    ensures forall b: Block :: b.IsState() ==>
      problem.vars[Index(n, b, 0)] == state[b.Channel()] &&
      problem.consLower[Index(n, b, 0)] == state[b.Channel()] &&
      problem.consUpper[Index(n, b, 0)] == state[b.Channel()]
    ensures forall i :: 0 <= i < NVars(n) && !InitialSlot(n, i) ==> problem.vars[i] == 0.0
    ensures forall i :: 0 <= i < NVars(n) ==>
      problem.varsLower[i] == -VarBound(n, lf, i) && problem.varsUpper[i] == VarBound(n, lf, i)
    ensures forall i :: 0 <= i < NConstraints(n) && !InitialSlot(n, i) ==>
      problem.consLower[i] == 0.0 && problem.consUpper[i] == 0.0
    ensures forall k :: 0 <= k < NConstraints(n) ==>
      problem.consLower[k] == problem.vars[k] && problem.consUpper[k] == problem.vars[k]
    ensures lf > 0.0 ==> forall i :: DeltaStart(n) <= i < NVars(n) ==>
      problem.varsLower[i] < problem.vars[i] < problem.varsUpper[i]
    ensures |result| == 2 * n
    ensures result[0] == solution[Index(n, Delta, 0)]
    ensures result[1] == solution[Index(n, Accel, 0)]
    ensures forall i :: 0 <= i < n - 1 ==>
      result[2 + 2 * i] == solution[Index(n, X, i + 1)] &&
      result[3 + 2 * i] == solution[Index(n, Y, i + 1)]
  {
    var vars := InitialValues(n, state);
    var varsLower, varsUpper := VariableBounds(n, lf);
    var consLower, consUpper := ConstraintBounds(n, state);
    problem := NlpProblem(vars, varsLower, varsUpper, consLower, consUpper);
    VarBoundBands(n, lf);
    result := ExtractResult(n, solution);
  }
}
