# MPC controller core: problem layout, problem builder, evaluator index pattern, telemetry framing

This project models the core of a model-predictive controller for a simulated car (CarND-MPC-Project) and proves properties of it.

The modelled code does the following:

- `MPC::Solve`, when called, builds a nonlinear program over one flat decision vector of `8N - 2` reals:
  - six state blocks (x, y, psi, v, cte, epsi) of `N` entries each;
  - two actuator blocks (steering, acceleration) of `N - 1` entries each.
- It fills five arrays for the optimiser: initial values, variable bounds and constraint bounds.
- The evaluator `FG_eval` writes:
  - the cost into `fg[0]`;
  - one constraint expression into each `fg[1 + k]`. For step 0 this pins the initial state. For later steps it is the residual of the kinematic model.
- After the optimiser returns, `Solve` reads the first actuation and the predicted path out of the solution vector.
- Separately, the Socket.IO handler in `main.cpp` only gates frames and extracts their payload:
  - it accepts only event frames, which start with `"42"`;
  - it cuts the JSON payload out of the frame with `hasData`.

  The handler does not call `Solve` (see "## Left out").

The project has four modules:

- **`Layout`** (`layout.dfy`): the block offsets, computed from the horizon `n` exactly as the source chains them, and the variable and constraint counts. Lemmas show that the eight blocks tile the vector. Every index has one block and one step (`BlockOf`, `StepOf`), and named access (`Index`) agrees with them.
- **`Problem`** (`problem.dfy`): the array-filling loops of `MPC::Solve` as methods over `array<real>`, and the extraction of the result. The optimiser's solution vector is a parameter.
- **`Evaluator`** (`fg_eval.dfy`): `FG_eval::operator()` as a method writing an `array<FgEntry>`.
  - A cost entry records its summands (weight, index read, target).
  - A constraint entry records which decision-vector indices its expression reads.
  - What is proved is where the evaluator writes and what it reads, against the reference definitions `CostTerms` and `ConstraintExpr`.
- **`SocketIo`** (`socket_io.dfy`): `hasData` and the `"42"` gate, as pure functions.
  - `std::string::find`, `find_first_of` and `rfind` are recursive searches proved against their specifications.
  - `npos` is `None`.
  - `substr` clamps an over-long count.
  - `size_t` arithmetic is taken modulo 2^64.

The horizon is a parameter `n`; the configured value `N = 10` is `Layout.Horizon`. The vehicle constant `Lf` lives in `MPC.h`, which is not part of this model, so it is a parameter `lf`.

Two details of the code:

- `Solve` returns the solution's values whatever the solver status. `src/MPC.cpp:247-250` only logs a warning when the status is not success.
- The steering bound is `0.436332 * Lf` (`src/MPC.cpp:188-189`).

## Model

| member | source | states |
|---|---|---|
| Layout.XStart | src/MPC.cpp:26 | The x block starts at index 0. |
| Layout.YStart | src/MPC.cpp:27 | The y block starts `n` after the x block. |
| Layout.PsiStart | src/MPC.cpp:28 | The psi block starts `n` after the y block. |
| Layout.VStart | src/MPC.cpp:29 | The v block starts `n` after the psi block. |
| Layout.CteStart | src/MPC.cpp:30 | The cte block starts `n` after the v block. |
| Layout.EpsiStart | src/MPC.cpp:31 | The epsi block starts `n` after the cte block. |
| Layout.DeltaStart | src/MPC.cpp:32 | The steering block starts `n` after the epsi block. |
| Layout.AccelStart | src/MPC.cpp:33 | The acceleration block starts `n - 1` after the steering block. |
| Layout.NVars | src/MPC.cpp:148 | The variable count is the six state blocks followed by two actuator blocks of `n - 1` entries. |
| Layout.NConstraints | src/MPC.cpp:149 | There is one constraint per state variable: the count equals the start of the actuators. |
| Layout.OffsetsClosedForm | src/MPC.cpp:26-33 | The chained offsets are `0, n, 2n, …, 6n` and `7n - 1`. The variable count is `8n - 2`. The constraint count equals the start of the actuators. |
| Layout.BlocksTile | src/MPC.cpp:26-33 | The first block starts at 0. Each block starts where its predecessor ends (`n` entries per state block, `n - 1` per actuator block). The last block ends at `n_vars`. |
| Layout.BlockOf | src/MPC.cpp:26-33 | Every index below `n_vars` lies in the block this names. |
| Layout.BlockOfUnique | src/MPC.cpp:26-33 | An index lies in no other block: the blocks partition the vector. |
| Layout.Index | src/MPC.cpp:26-33 | `start + t` for a step inside the block is a valid index of the vector. |
| Layout.IndexInBlock | src/MPC.cpp:26-33 | `start_b + t` is read back as block `b` and step `t`. |
| Layout.InitialSlotIsStepZero | src/MPC.cpp:167-172 | Among the state variables, the six `*_start` slots are exactly those of step 0. |
| Layout.ConfiguredHorizon | src/MPC.cpp:9-33 | With `N = 10` (line 9) and the counts of lines 148-149 there are 78 variables and 60 constraints. Steering starts at 60 and acceleration at 69. |
| Layout.DegenerateHorizon | src/MPC.cpp:148-149 | With `N = 2` there are 14 variables, 12 constraints and a single actuation pair. |
| Problem.InitialValues | src/MPC.cpp:151-172 | The initial guess has `n_vars` entries. The six step-0 state slots hold the observed state in channel order. Every other entry is 0. |
| Problem.VarBound | src/MPC.cpp:179-196 | The bound magnitude of variable `i`, by band: 1.0e19 for state variables, `0.436332 * Lf` for steering, 1.0 for acceleration. Its properties are stated by `VarBoundBands`. |
| Problem.VarBoundBands | src/MPC.cpp:177-196 | The bound magnitude is 1.0e19 on the state variables, `0.436332 * Lf` on steering and 1.0 on acceleration. For `Lf > 0` every bound is positive. |
| Problem.VariableBounds | src/MPC.cpp:174-196 | Both arrays have `n_vars` entries, and each variable `i` gets the interval `[-VarBound(i), VarBound(i)]`. |
| Problem.ConstraintBounds | src/MPC.cpp:198-219 | Both arrays have `n_constraints` entries, and every constraint is an equality. The six initial-state constraints are pinned to the observed state and every other one to 0. |
| Problem.ExtractResult | src/MPC.cpp:255-262 | The result has `2n` entries: the first steering, the first acceleration, then `x` and `y` of steps `1 … n-1`, interleaved. |
| Problem.Solve | src/MPC.cpp:142-264 | The five arrays are new and pairwise distinct, with the sizes and the full contents their builders state. That is, state pins in the initial guess and both constraint bounds, 0 elsewhere in the initial guess and the constraint bounds, and `[-VarBound(i), VarBound(i)]` for every variable. Each of the first `n_constraints` initial values equals its constraint bound, so the initial guess satisfies the pins. For `Lf > 0` the actuators start strictly inside their bounds. The result is the one `ExtractResult` states. |
| Evaluator.ModelInputs | src/MPC.cpp:99-130 | The variables the model's prediction of each channel at step `t` reads, all at step `t - 1`. Their properties are stated by `ModelInputsPrecedeStep`. |
| Evaluator.RowExpr | src/MPC.cpp:81-130 | The entry of channel `b` at step `s`: a pin of its own variable at step 0, otherwise the residual of its own variable against `ModelInputs`. |
| Evaluator.Row | src/MPC.cpp:81-130 | The `fg` slot of channel `b` at step `s` is `1 + start_b + s`. Its properties are stated by `RowsTileConstraintSlots`. |
| Evaluator.ConstraintExpr | src/MPC.cpp:81-130 | The entry constraint `k` must hold, read through the partition of `Layout`. Its properties are stated by `PinsAreInitialSlots`. |
| Evaluator.ModelInputsPrecedeStep | src/MPC.cpp:98-113 | Every index a residual of step `t` reads is in the vector and belongs to step `t - 1`. The only actuators it reads are those of step `t - 1`. |
| Evaluator.PinsAreInitialSlots | src/MPC.cpp:76-86 | A constraint is a pin exactly when it is one of the six initial slots, the ones whose bounds `Solve` pins to the state. A pin copies its own variable, and a residual declares its own variable. |
| Evaluator.RowsTileConstraintSlots | src/MPC.cpp:81-130 | The rows `1 + start_b + s`, over six channels and `n` steps, lie in `[1, 1 + n_constraints)`, never collide, and hit every slot. Each constraint slot is therefore written for exactly one channel and step. |
| Evaluator.StateCost | src/MPC.cpp:53-58 | The tracking loop adds three summands per step. |
| Evaluator.ActuatorCost | src/MPC.cpp:61-64 | The actuator loop adds two summands per actuation. |
| Evaluator.GapCost | src/MPC.cpp:67-70 | The gap loop adds two summands per pair of consecutive actuations. |
| Evaluator.CostTerms | src/MPC.cpp:49-70 | The cost has `3n + 2(n-1) + 2(n-2)` summands. |
| Evaluator.StateCostIntended | src/MPC.cpp:53-58 | Every tracking summand reads cte or epsi with weight 2000 towards 0, or v with weight 1 towards `ref_v = 16`. |
| Evaluator.StateCostTracks | src/MPC.cpp:53-58 | The cte, epsi and v summands of every step `t < n` are present. |
| Evaluator.ActuatorCostIntended | src/MPC.cpp:60-64 | Every actuator summand reads steering or acceleration, with weight 5, towards 0. |
| Evaluator.ActuatorCostPenalises | src/MPC.cpp:60-64 | Both actuators of every step `t < n - 1` are penalised. |
| Evaluator.GapCostIntended | src/MPC.cpp:66-70 | Every gap summand reads two consecutive steps of one actuator block: weight 200 for steering, 10 for acceleration. |
| Evaluator.GapCostPenalises | src/MPC.cpp:66-70 | The change of both actuators between steps `t` and `t + 1` is penalised for every `t < n - 2`. |
| Evaluator.CostTermsIntended | src/MPC.cpp:49-70 | Every summand of the whole cost is an intended one, with a positive weight. |
| Evaluator.CostTermsTrack | src/MPC.cpp:53-58 | The whole cost tracks the reference state at every step. |
| Evaluator.CostTermsPenaliseActuators | src/MPC.cpp:60-64 | The whole cost penalises every actuation. |
| Evaluator.CostTermsPenaliseGaps | src/MPC.cpp:66-70 | The whole cost penalises every change between consecutive actuations. |
| Evaluator.StateCostStep | src/MPC.cpp:55-57 | The offset-addressed summands of one iteration of the tracking loop are the reference summands of that step. |
| Evaluator.ActuatorCostStep | src/MPC.cpp:62-63 | Likewise for one iteration of the actuator loop. |
| Evaluator.GapCostStep | src/MPC.cpp:68-69 | Likewise for one iteration of the gap loop. |
| Evaluator.FgEval | src/MPC.cpp:48-131 | `fg[0]` holds the reference cost: its count of summands, every summand intended and positively weighted, and full coverage of states, actuators and gaps. Every `fg[1 + k]` holds constraint `k`'s pin or model residual. |
| Evaluator.WriteCost | src/MPC.cpp:49-70 | The three cost loops leave `fg[0]` equal to the reference cost. They touch no constraint slot. |
| Evaluator.AddStateCost | src/MPC.cpp:52-58 | The tracking loop appends exactly `StateCost(n, n)` to the cost. |
| Evaluator.AddActuatorCost | src/MPC.cpp:60-64 | The actuator loop appends exactly `ActuatorCost(n, n - 1)`. |
| Evaluator.AddGapCost | src/MPC.cpp:66-70 | The gap loop appends exactly `GapCost(n, n - 2)`. |
| Evaluator.WriteConstraints | src/MPC.cpp:76-131 | After the pins and the residual loop, every constraint slot `fg[1 + k]` holds `ConstraintExpr(n, k)`. The cost slot is untouched. |
| Evaluator.WriteStep | src/MPC.cpp:89-130 | One iteration writes the six residuals of step `t`, each from the state and actuation of step `t - 1`. It changes no other slot. |
| Evaluator.PinsInPlace | src/MPC.cpp:81-86 | The six pin writes put step 0 of every channel in place. |
| Evaluator.StepInPlace | src/MPC.cpp:89-131 | One loop pass keeps the invariant: steps `0 … t` are in place afterwards. |
| Evaluator.StepSlotIsRow | src/MPC.cpp:125-130 | The six offset-addressed slots one loop pass writes are exactly the rows of the six state channels at that step. |
| Evaluator.NewStep | src/MPC.cpp:125-130 | The six offset-addressed writes are the six rows of step `t`. |
| Evaluator.OtherSteps | src/MPC.cpp:125-130 | The writes of step `t` miss every row of an earlier step. |
| Evaluator.RowsComplete | src/MPC.cpp:88-131 | With all `n` steps in place, every constraint slot holds its expression. |
| SocketIo.SizeWrap | src/main.cpp:34 | A `size_t` difference below zero wraps to `2^64 + k`. A non-negative one is unchanged. |
| SocketIo.FindFrom | src/main.cpp:28 | `find` returns the first occurrence at or after `from`, or `npos` exactly when there is none. |
| SocketIo.FindFirstOfFrom | src/main.cpp:29 | `find_first_of` returns the first position holding one of the characters, or `npos` exactly when there is none. |
| SocketIo.RFindBelow | src/main.cpp:30 | `rfind` returns the last occurrence, or `npos` exactly when there is none. |
| SocketIo.Find | src/main.cpp:28 | `s.find(pat)` from the start: the first occurrence, or `npos` exactly when there is none. |
| SocketIo.FindFirstOf | src/main.cpp:29 | `s.find_first_of(chars)`: the first position holding one of the characters, or `npos` exactly when there is none. |
| SocketIo.RFind | src/main.cpp:30 | `s.rfind(pat)` with the default start: the last occurrence anywhere, or `npos` exactly when there is none. |
| SocketIo.Substr | src/main.cpp:34 | `substr(pos, count)` yields the piece of `s` starting at `pos`. Its length is `count` when that many characters remain, otherwise all that remain, so an over-long (wrapped) count is clamped. |
| SocketIo.HasData | src/main.cpp:27-37 | The result is a contiguous piece of the frame, never longer than it. When non-empty it starts with `[`. |
| SocketIo.NullMeansNoData | src/main.cpp:28-32 | A frame containing `null` anywhere yields `""`. |
| SocketIo.MissingDelimiterMeansNoData | src/main.cpp:29-36 | Without `null`, a frame lacking `[` or `}]` yields `""`. |
| SocketIo.DelimitersFound | src/main.cpp:29-30 | The searches return exactly the first `[` and the start of the last `}]`. |
| SocketIo.DataBetweenBrackets | src/main.cpp:29-34 | When the first `[` is at or before the last `}]`, the result is exactly the text from that `[` through that `}]`. It starts with `[` and ends with `}]`. |
| SocketIo.WrappedCount | src/main.cpp:34 | When the last `}]` comes before the first `[`, the count wraps and `substr` clamps it. The result is `""` if the `[` immediately follows the `}]`. Otherwise it is the non-empty rest of the frame from the `[`. A `[` at `b2 + 1` is impossible. |
| SocketIo.HasDataIdempotent | src/main.cpp:27-37 | With the brackets in order, extracting again from the extracted data returns it unchanged. |
| SocketIo.EventPayload | src/main.cpp:92-93 | A frame reaches `hasData` only if it is longer than two characters and starts with `"42"`. |
| SocketIo.EventPayloadAfterPrefix | src/main.cpp:92-93 | The handled frames are exactly the event frames. Non-empty data of a handled frame starts at its first `[`, which lies after the `"42"` prefix. |

## Left out

- The optimiser (IPOPT through CppAD, `src/MPC.cpp:221-253`): its option string, its status and its cost are outside the model. Its solution vector is an input to `Problem.Solve`.
- The values of the cost and of the constraint expressions (powers, `cos`, `sin`, `atan`, the fitted cubic, `dt`, `Lf`) are left out. The model records which variables each expression reads, with which weight and target, and where it is stored.
- The `FG_eval` object and its polynomial coefficients: only the evaluator's writes and reads are modelled.
- `polyfit`, `polyeval`, `deg2rad` and `rad2deg` in `src/main.cpp` are numerical helpers outside the core.
- Networking, JSON parsing, logging, `sleep_for`, `sendMessage` and the connection flags of `src/main.cpp` are I/O.
  - The conversion `string(data).substr(0, length)` of the raw buffer is part of this I/O; the frame is an input string.
- The actuation output of the telemetry handler (`src/main.cpp:117-147`) never calls `Solve` and sends uninitialised values, so there is nothing to model.
- Evaluator.FgEval: requires `n >= 2`. With `N = 1` the gap loop's bound `N - 2` wraps as a `size_t`. The source is only configured with `N = 10`.
- Problem.ExtractResult: requires `n >= 2`. With `N = 1` there is no actuation to read.
- Problem.Solve: like `ExtractResult`, it requires `n >= 2`, for the same reason.
- SocketIo.DataBetweenBrackets: assumes the frame is shorter than 2^64 characters, the `size_t` range of a real string.
- SocketIo.WrappedCount: makes the same assumption.
- SocketIo.HasDataIdempotent: makes the same assumption.
- Evaluator.RowsTileConstraintSlots: the source writes each constraint slot once. The model states this as a bijection between (channel, step) rows and slots together with the final contents of every slot, not as a count of assignments per slot.
