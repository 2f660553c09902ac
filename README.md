# vivilux core, modelled in Dafny

vivilux simulates neural networks trained by a GeneRec-like scheme with two
phases, meant for photonic hardware. A `Net` is a list of `Layer`s. Each
layer integrates what its incoming `Mesh`es send it. In the *predict* phase
the input layer is clamped and the activity spreads forward. In the
*observe* phase both the input and the output layer are clamped. After both
phases each layer updates its first mesh with a delta produced by its
learning rule.

This project models three parts of the repository:

- **The network loop**, in `src/vivilux/__init__.py`: `Net`, its `FFFB`
  variant, the simple `Mesh` and the transposed feedback `fbMesh`, and
  `Layer`.
  - The model is in `network.dfy` (module `Network`: `Mesh`, `Layer` and the
    integration step) and `net.dfy` (module `Nets`: `Net`, its construction
    and its control loops).
  - `Net` keeps a ghost `trace` of the phases it ran. The contracts of
    `Infer`, `Evaluate` and `Learn` state the exact sequence of predict,
    observe, hand-off, learn and carry-over steps, and which prediction
    became which row of the result.
- **The bounded photonic meshes**, in `src/vivilux/meshes.py`: `Mesh`,
  `TransposeMesh` and `AbsMesh`.
  - The model is in `meshes.dfy` (module `Meshes`) over `array2` buffers,
    with the masked in-place kernels in `masks.dfy` (module `Masks`).
  - The per-entry rules are in `rules.dfy` (module `MeshRules`): clipping,
    the sigmoid transfer and its inverse, soft bounding, weight balance and
    the delta sender.
  - `AbsMesh` is `Mesh` with its `absolute` flag set. Its constructor and
    `set` then replace the matrix with a fresh one holding absolute values.
    Its `Update` passes `debugDwt=` to `Mesh.Update`, which declares only
    `dwtLog`, so it always raises and changes nothing.
- **Two photonic helpers**, in `src/vivilux/photonics/utils.py`:
  `Diagonalize` and `BoundTheta`, in `photonics.dfy` (module
  `PhotonicsUtils`).

`common.dfy` (module `Common`) holds the shared vocabulary:
- exceptions as an `Outcome` holding a `Fault`;
- numpy's `@`, transpose, identity and mean over sequences of reals;
- `Snapshot`, which reads an `array2` as a sequence of rows.

Where the code and its own docstrings or comments disagree, the model
follows the code:
- `WtBalInterval` is always stored as 0, whatever the constructor is given.
- The `if not self.WtBalance` guard tests a bound method, so it never skips
  anything.
- `TransposeMesh.get` applies `Gscale` twice.
- `invSigmoid` does not invert `sigmoid` in general. `invSigmoid(sigmoid(x))`
  is `1/(1+Off^(1-1/Gain)*(1-x)/x)`, which is `x` when `Off == 1` or
  `Gain == 1`. The model proves the round trip for `Off == 1` and a failing
  case for `Off == 2, Gain == 2` (`MeshRules.RoundTripFailsWhenOffIsTwo`).
- `AbsMesh.Update` always raises (see above).

## Model

| member | source | states |
|---|---|---|
| Common.MatVec | src/vivilux/__init__.py:181-186 | `matrix @ data` is defined exactly when the vector's length equals the column count; each entry is the dot product of a row with the vector |
| MeshRules.ClipProperties | src/vivilux/meshes.py:189-195 | clipping the linear weight lands in [0,1], leaves values already in [0,1] alone, and clipping twice is clipping once |
| MeshRules.Sigmoid | src/vivilux/meshes.py:302-303 | the bounded transfer `1/(1+(Off*(1-x)/x)^Gain)` maps the open interval (0,1) into (0,1) |
| MeshRules.InvSigmoid | src/vivilux/meshes.py:318-319 | the inverse transfer `1/(1+((1/Off)*(1-w)/w)^(1/Gain))` maps (0,1) into (0,1) |
| MeshRules.TransferBounds | src/vivilux/meshes.py:285-300 | what `SigMatrix` writes is in [0,1]: 0 at or below 0, 1 at or above 1, strictly inside for interior linear weights |
| MeshRules.SigmoidIncreasing | src/vivilux/meshes.py:302-303 | the transfer is strictly increasing on (0,1), so larger linear weights give larger weights |
| MeshRules.SigmoidOfInvSigmoid | src/vivilux/meshes.py:302-319 | with `Off == 1`, applying the transfer after its inverse gives back every weight in (0,1) |
| MeshRules.InvSigmoidOfSigmoid | src/vivilux/meshes.py:302-319 | with `Off == 1`, applying the inverse after the transfer gives back every linear weight in (0,1) |
| MeshRules.RoundTripFailsWhenOffIsTwo | src/vivilux/meshes.py:302-319 | with `Off == 2` and `Gain == 2`, the round trip sends 2/3 to 1/2, so the two functions are not inverses for general `Off` |
| MeshRules.SoftBoundKeepsSign | src/vivilux/meshes.py:171-187 | soft bounding scales a delta by a non-negative factor: positive stays non-negative, negative stays non-positive, zero stays zero |
| MeshRules.SoftBoundStaysInUnit | src/vivilux/meshes.py:171-178 | a soft-bounded step cannot move a linear weight in [0,1] out of [0,1] when the step is at most 1 |
| MeshRules.Favour | src/vivilux/meshes.py:161-167 | the balance factors always sum to 2; raising makes `dec = 1/(1+fact)` and `inc >= 1`, lowering the reverse |
| MeshRules.FavourMonotone | src/vivilux/meshes.py:161-167 | a larger balance factor gives a larger increment when raising and a larger decrement when lowering |
| MeshRules.LowCorrection | src/vivilux/meshes.py:158-161 | the low-mean correction `loGain*(loThr - max(avg, avgThr))` is non-negative |
| MeshRules.LowCorrectionAntitone | src/vivilux/meshes.py:158-161 | a lower mean weight never gives a smaller low-mean correction |
| MeshRules.Balance | src/vivilux/meshes.py:156-167 | below `loThr` the increment is favoured by the low correction; above `hiThr` the decrement is favoured by `hiGain*(avg-hiThr)`; in between the factors are kept |
| MeshRules.BalanceStep | src/vivilux/meshes.py:156-167 | the mean of an empty matrix (NaN) fails every comparison and keeps the factors; otherwise the step is `Balance` |
| MeshRules.BalanceStepKeepsFactors | src/vivilux/meshes.py:156-167 | balancing keeps both factors non-negative, and any factors it changes sum to 2 |
| MeshRules.BalanceLowerMeanRaisesIncrement | src/vivilux/meshes.py:158-163 | among means below `loThr`, a lower mean never gives a smaller increment factor |
| MeshRules.BalanceSaturatesBelowAvgThr | src/vivilux/meshes.py:159-160 | all means at or below `avgThr` give the same factors, because `max(avg, avgThr)` saturates |
| MeshRules.SenderStep | src/vivilux/meshes.py:117-131 | the delta sender forwards a change only when it is above threshold and differs enough from the last value, drops a value that falls below threshold to 0, and otherwise sends nothing |
| Masks.MapInPlace | src/vivilux/meshes.py:191-195 | a masked in-place update changes each entry of the buffer to the rule applied to its old value |
| Masks.Combine | src/vivilux/meshes.py:173-178 | the block update changes exactly the leading m×n entries, each by the rule applied to its old value and the source entry, and leaves the rest alone |
| Meshes.Fit | src/vivilux/meshes.py:113 | padding the input to the mesh size keeps the data in front and zeros behind |
| Meshes.Send | src/vivilux/meshes.py:117-131 | each entry of `lastAct` becomes the sender's new last value and `inAct` accumulates the sent change |
| Meshes.SendKeepsInvariant | src/vivilux/meshes.py:117-131 | every `lastAct` entry is either 0 or above the send threshold, and every `inAct` entry equals it; sending preserves this |
| Meshes.AbsOf | src/vivilux/meshes.py:412 | `np.abs` gives a fresh matrix of the same shape holding absolute values |
| Meshes.Mesh.constructor | src/vivilux/meshes.py:20-82 | the size is `max(size, len(inLayer))`; `matrix` is the clipped initial weights and `linMatrix` their inverse transform on (0,1); the buffers and counters start at zero, `Gscale` at 1, and the interval at 0; for an `AbsMesh` (meshes.py lines 410-413), made when `absolute` is set, every weight is its absolute value |
| Meshes.Mesh.Set | src/vivilux/meshes.py:84-87 | the given matrix is clipped in place and becomes the weights; `linMatrix` takes the inverse transform where the weight lies strictly inside (0,1); for an `AbsMesh` (meshes.py lines 415-417), it stores a fresh matrix holding the values instead of aliasing the argument |
| Meshes.Mesh.Get | src/vivilux/meshes.py:104-105 | the weights are `Gscale` times the stored matrix |
| Meshes.Mesh.ApplyTo | src/vivilux/meshes.py:135-141 | multiplying by the scaled weights is defined exactly when the lengths agree, and gives one dot product per row |
| Meshes.Mesh.ApplyToNonNegative | src/vivilux/meshes.py:104-105 | with weights in [0,1] and a non-negative `Gscale`, `get() @ data` of a non-negative input of full length exists and is non-negative in every entry (`applyTo`, lines 135-141) |
| Meshes.Mesh.Apply | src/vivilux/meshes.py:110-133 | the padded input goes through the delta sender into `lastAct`/`inAct`, and the result is the weights applied to the accumulated input |
| Meshes.Mesh.WtBalance | src/vivilux/meshes.py:149-167 | the counter is reset and the factors become one balance step on the mean of the current weights |
| Meshes.Mesh.BalanceMeanInUnit | src/vivilux/meshes.py:156 | the mean the balance reads exists exactly for a non-empty mesh and then lies in [0,1], the range of the weights |
| Meshes.Mesh.SoftBound | src/vivilux/meshes.py:171-187 | with soft bounding, a delta larger than the mesh raises numpy's boolean-mask `IndexError` and is left as it was; otherwise each entry is scaled by `inc*(1-lin)` or `dec*lin`; without it, by `inc` or `dec` |
| Meshes.Mesh.AddBlock | src/vivilux/meshes.py:207 | the delta is added into the top-left block of `linMatrix` (empty for an empty mesh, onto which a 1-long dimension broadcasts); everything else is kept |
| Meshes.Mesh.ClipLinMatrix | src/vivilux/meshes.py:189-195 | every linear weight is clipped in place into [0,1] |
| Meshes.Mesh.SigMatrix | src/vivilux/meshes.py:285-300 | every weight becomes the transfer of its linear weight, so it lies in [0,1] |
| Meshes.Mesh.InvSigMatrix | src/vivilux/meshes.py:305-316 | the weights are clipped to [0,1], and the linear weights are recomputed by the inverse transform where the weight lies strictly inside (0,1) |
| Meshes.Mesh.Update | src/vivilux/meshes.py:197-215 | it raises exactly when soft bounding meets a delta larger than the mesh (boolean-mask `IndexError`, delta untouched) or the delta does not broadcast onto the weight block (a dimension larger than the mesh, unless it is 1 and the mesh is empty); without soft bounding the delta has been scaled in place by `inc`/`dec` even when the add then raises; a raise leaves the weights and the factors as they were; otherwise linear weights become `clip(lin + softbound(delta))`, weights are their transfer, and the balance factors take one step; for an `AbsMesh` (meshes.py lines 420-424), the call always raises and changes neither the weights, the factors nor the delta |
| Meshes.Mesh.Reweigh | src/vivilux/meshes.py:206-210 | adding an already bounded delta keeps every linear weight in [0,1] and every weight equal to the transfer of its linear weight, then balances |
| Meshes.TransposeMesh.constructor | src/vivilux/meshes.py:331-342 | the transposed mesh wraps its mesh, has size `max(mesh.size, len(inLayer))`, zeroed sender buffers, and is not trainable |
| Meshes.TransposeMesh.Get | src/vivilux/meshes.py:347-350 | the weights are the transpose of the wrapped mesh's scaled weights, scaled by `Gscale` once more |
| Meshes.TransposeMesh.ApplyTo | src/vivilux/meshes.py:135-141 | multiplying by the transposed weights is defined exactly when the lengths agree |
| Meshes.TransposeMesh.Apply | src/vivilux/meshes.py:110-133 | the sender runs as for `Mesh`, and the result exists exactly when the padded input fits the transposed matrix |
| Meshes.TransposeMesh.Set | src/vivilux/meshes.py:344-345 | setting a transposed mesh always raises |
| Meshes.TransposeMesh.Update | src/vivilux/meshes.py:355-358 | updating a transposed mesh does nothing and returns `None` |
| Network.Broadcast | src/vivilux/__init__.py:107-109 | numpy broadcasting of a vector onto n entries succeeds exactly when its length is n or 1, and gives the entries or the single one repeated |
| Network.Broadcast2 | src/vivilux/__init__.py:196-197 | broadcasting a delta onto the weight shape succeeds exactly when each dimension matches or is 1 |
| Network.Decay | src/vivilux/__init__.py:262 | the linear activity decays to 0.9 of itself |
| Network.Accumulate | src/vivilux/__init__.py:263-264 | a mesh result of `None` raises; otherwise its first `len(self)` entries are broadcast, and `DELTA_TIME` times their square is added; a shape mismatch raises |
| Network.Integrate | src/vivilux/__init__.py:261-265 | integrating never lowers an entry, keeps the length, and with no meshes keeps the activity |
| Network.IntegrateBounds | src/vivilux/__init__.py:261-266 | a predict step keeps the length, stays at or above the decayed activity, keeps non-negative activity non-negative, and with no meshes is exactly the decay |
| Network.IntegrateExtend | src/vivilux/__init__.py:263-264 | folding in one more mesh is one `Accumulate` on the running sum |
| Network.IntegrateStopsAtFault | src/vivilux/__init__.py:263-264 | after the first raised mesh, later meshes change nothing |
| Network.Settle | src/vivilux/__init__.py:263-264 | the loop over the meshes computes exactly `Integrate` |
| Network.Activate | src/vivilux/__init__.py:265 | `act(preLin)` for an activation that acts entry by entry, as `activations.Sigmoid` does: the result has the input's length and holds `act` of each entry |
| Network.Mesh.constructor | src/vivilux/__init__.py:165-173 | a new mesh has size `max(size, len(inLayer))`, the identity as weights, and the given rate |
| Network.Mesh.Feedback | src/vivilux/__init__.py:208-211 | an `fbMesh` wraps any mesh, one feedback level deeper, with rate 0.5 and an identity matrix of its own; its own `get` and `apply` never read that matrix, but an `fbMesh` wrapped around it does |
| Network.Mesh.GetShape | src/vivilux/__init__.py:178-179 | along a chain of wrapped meshes that ends in a plain mesh, `get` returns a proper matrix of `GetRows()` by `GetCols()`; a plain mesh's `get` is its own matrix |
| Network.Mesh.GetOfFeedback | src/vivilux/__init__.py:216-217 | an `fbMesh` returns the transpose of whatever the wrapped mesh's own `get` returns, entry by entry, so nested feedback meshes are followed down to a plain one |
| Network.TransposeAny | src/vivilux/__init__.py:216-217 | `.T` of a list of rows gives as many rows as the original has columns, each as long as the original has rows |
| Network.Mesh.GetIsWeights | src/vivilux/__init__.py:216-224 | when the wrapped mesh is a plain mesh, `get` returns exactly the matrix `apply` multiplies by |
| Network.Mesh.GetOfNestedFeedback | src/vivilux/__init__.py:216-217 | an `fbMesh` over an `fbMesh` over a plain mesh `get`s the plain mesh's own matrix, the transpose of the transpose |
| Network.Mesh.Apply | src/vivilux/__init__.py:181-186 | the product exists exactly when the data length equals the column count; a mismatch is `None`; for an `fbMesh` (`__init__.py` lines 219-224), it multiplies by the transpose of the wrapped mesh's own `matrix`, not of its `get`, with the same `None` on a mismatch |
| Network.Mesh.Output | src/vivilux/__init__.py:188-194 | `Predict`/`Observe` apply the mesh to the input layer's pre/obs activity |
| Network.Mesh.Updated | src/vivilux/__init__.py:196-197 | the new weights are `matrix + rate*delta`, with numpy broadcasting; an `fbMesh` keeps its weights |
| Network.Mesh.Update | src/vivilux/__init__.py:196-197 | the update stores `Updated(delta)`, or raises on a shape mismatch and keeps the weights; for an `fbMesh` (`__init__.py` lines 226-227), the update changes nothing |
| Network.Mesh.Set | src/vivilux/__init__.py:175-176 | a plain mesh takes the new matrix; for an `fbMesh` (`__init__.py` lines 213-214), `set` raises and keeps the weights |
| Network.Contributions | src/vivilux/__init__.py:263-264 | one mesh output per incoming mesh, in order |
| Network.Layer.constructor | src/vivilux/__init__.py:236-250 | all four activity vectors are zero of the given length, with no meshes, not frozen, and the given activation, rule and input flag |
| Network.Layer.Predict | src/vivilux/__init__.py:261-266 | `preLin` becomes the decayed activity plus every mesh's contribution, and `preAct` the activation of it, which is returned; a raising mesh leaves `preAct` alone |
| Network.Layer.Observe | src/vivilux/__init__.py:268-273 | the same step on `obsLin`/`obsAct`, using each mesh's observe output |
| Network.Layer.ClampPre | src/vivilux/__init__.py:275-277 | both pre vectors become `data[:len(self)]`, truncated and not padded |
| Network.Layer.ClampObs | src/vivilux/__init__.py:279-281 | both obs vectors become `data[:len(self)]`, truncated and not padded |
| Network.Layer.Learn | src/vivilux/__init__.py:283-288 | an input or frozen layer changes nothing; otherwise only the first mesh is updated with the rule's delta, and with no mesh the index raises |
| Network.Layer.ResetActivity | src/vivilux/__init__.py:293-300 | all four activity vectors become zero, keeping the layer's length |
| Network.Layer.Freeze | src/vivilux/__init__.py:252-253 | the layer is frozen |
| Network.Layer.Unfreeze | src/vivilux/__init__.py:255-256 | the layer is no longer frozen |
| Network.Layer.AddMesh | src/vivilux/__init__.py:258-259 | the mesh is appended to the layer's meshes |
| Network.Layer.HandOff | src/vivilux/__init__.py:107-109 | `obsLin[:] = preLin` and `obsAct[:] = preAct` broadcast in place; a shape mismatch raises and stops there |
| Network.Layer.CarryOver | src/vivilux/__init__.py:116-118 | `preLin[:] = obsLin` and `preAct[:] = obsAct` broadcast in place; a shape mismatch raises and stops there |
| Nets.WeightMeshesExactly | src/vivilux/__init__.py:129-135 | the meshes read are exactly the first mesh of each layer when `ffOnly`, and every mesh of every layer otherwise |
| Nets.Net.constructor | src/vivilux/__init__.py:32-42 | the input layer gets no mesh, and every later layer gets exactly one forward mesh from its predecessor at the given rate |
| Nets.Net.FFFB | src/vivilux/__init__.py:312-321 | additionally, every layer except the first and last gets a second mesh, the transposed feedback of the next layer's forward mesh |
| Nets.Net.WiredClosed | src/vivilux/__init__.py:36-42 | the meshes of the wired layers only read from layers of the net |
| Nets.Net.Connect | src/vivilux/__init__.py:40-42 | wiring gives every non-input layer one forward mesh from its predecessor |
| Nets.Net.ConnectOne | src/vivilux/__init__.py:40-42 | one more layer is wired forward |
| Nets.Net.AttachFeedback | src/vivilux/__init__.py:318-321 | every hidden layer gets the feedback mesh of the layer above, and forward meshes stay first |
| Nets.Net.ConnectFeedback | src/vivilux/__init__.py:312-321 | the `FFFB` wiring: forward meshes first, then every hidden layer gets the feedback mesh of the layer above |
| Nets.Net.AttachOne | src/vivilux/__init__.py:318-321 | one more hidden layer gets its feedback mesh, and no forward mesh changes |
| Nets.Net.Predict | src/vivilux/__init__.py:44-56 | the input is clamped into the first layer, every later layer takes one predict step in order, and the last layer's activity is returned; an empty net raises |
| Nets.Net.ClampInput | src/vivilux/__init__.py:49 | the first layer's pre vectors become the truncated input |
| Nets.Net.PredictFrom | src/vivilux/__init__.py:51-54 | the layers from `start` on each take one predict step, and the earlier ones are left alone |
| Nets.Net.StepLayer | src/vivilux/__init__.py:52 | one layer takes one predict step |
| Nets.Net.Observe | src/vivilux/__init__.py:58-68 | the input and output are clamped into the first and last layer, and every hidden layer takes one observe step |
| Nets.Net.ClampEnds | src/vivilux/__init__.py:62-63 | the end layers' obs vectors become the truncated input and output, and hidden layers are left alone |
| Nets.Net.ObserveInterior | src/vivilux/__init__.py:64-65 | every hidden layer takes one observe step, and the end layers are left alone |
| Nets.Net.ObserveLayer | src/vivilux/__init__.py:65 | one layer takes one observe step |
| Nets.Net.HandOff | src/vivilux/__init__.py:107-109 | every non-input layer copies its pre activity into its obs activity |
| Nets.Net.HandOffLayers | src/vivilux/__init__.py:107-109 | the loop over the non-input layers does the copy for each |
| Nets.Net.HandOffLayer | src/vivilux/__init__.py:108-109 | one layer's copy, raising on a shape mismatch |
| Nets.Net.CarryOver | src/vivilux/__init__.py:116-118 | every non-input layer copies its obs activity back into its pre activity |
| Nets.Net.CarryOverLayers | src/vivilux/__init__.py:116-118 | the loop over the non-input layers does the copy for each |
| Nets.Net.CarryOverLayer | src/vivilux/__init__.py:117-118 | one layer's copy, raising on a shape mismatch |
| Nets.Net.MeshResolved | src/vivilux/__init__.py:129-135 | in a wired net every mesh can follow its chain of wrapped meshes, so the `get` that `getWeights` calls is defined for each of them |
| Nets.Net.GetWeights | src/vivilux/__init__.py:129-135 | for any net, the result lists the `get` of the first mesh of each layer when `ffOnly`, and of every mesh otherwise, in layer order |
| Nets.Net.ResetActivity | src/vivilux/__init__.py:141-143 | every layer's four activity vectors become zero of its length |
| Nets.Net.ResetLayers | src/vivilux/__init__.py:142-143 | the loop over the layers resets each |
| Nets.Net.ResetLayer | src/vivilux/__init__.py:143 | one layer is reset |
| Nets.Net.IdleNotLearning | src/vivilux/__init__.py:283-284 | the first mesh of an input or frozen layer is not among the meshes that learning may change |
| Nets.Net.LearnStep | src/vivilux/__init__.py:113-114 | every layer learns: idle layers keep their weights, and every other layer's first mesh takes its rule's update |
| Nets.Net.LearnLayers | src/vivilux/__init__.py:113-114 | the loop over the layers applies each layer's learning |
| Nets.Net.LearnLayer | src/vivilux/__init__.py:114 | one layer learns, and the first meshes of the other layers keep their weights |
| Nets.Net.SetLearningRule | src/vivilux/__init__.py:145-152 | index -1 sets every layer's rule; another valid index, negative ones counted from the end, sets only that layer's rule; an out-of-range index raises and changes nothing |
| Nets.Net.PredictFor | src/vivilux/__init__.py:103-104 | exactly `numTimeSteps` predicts run, and the last result is returned; with zero steps the result is unbound |
| Nets.Net.ObserveFor | src/vivilux/__init__.py:110-111 | exactly `numTimeSteps` observes run |
| Nets.Net.Infer | src/vivilux/__init__.py:70-81 | row i of the result is the last of `numTimeSteps` predicts on sample i, with the input's shape; an empty input gives an empty result; zero steps raises |
| Nets.Net.Evaluate | src/vivilux/__init__.py:125-127 | the result is the metric of the inferred rows against the targets |
| Nets.Net.LearnSample | src/vivilux/__init__.py:99-118 | one sample runs an optional reset, `numTimeSteps` predicts, the hand-off, `numTimeSteps` observes, learning and the carry-over, in that order, and its row is the last prediction |
| Nets.Net.SamplePredict | src/vivilux/__init__.py:100-105 | the optional reset, then `numTimeSteps` predicts whose last result is the sample's row |
| Nets.Net.SampleTrain | src/vivilux/__init__.py:107-118 | the hand-off, `numTimeSteps` observes, learning and the carry-over, in that order |
| Nets.Net.LearnEpoch | src/vivilux/__init__.py:98-118 | an epoch trains on the zipped samples in order; row i is sample i's last prediction, and rows past the shorter list keep their earlier value |
| Nets.Net.EpochDone | src/vivilux/__init__.py:119-120 | an epoch's reported value is the metric of its rows, and rows past the zipped samples stay zero |
| Nets.Net.TrainingPhasesSnoc | src/vivilux/__init__.py:96-118 | the phases of one more epoch follow those of the earlier epochs |
| Nets.Net.Learn | src/vivilux/__init__.py:84-123 | the result has `numEpochs + 1` entries: first the evaluation before training, then each epoch's metric of its rows, and the trace is the evaluation's predicts followed by every epoch's phases |
| Nets.Net.Epochs | src/vivilux/__init__.py:96-122 | the epoch loop reports one metric per epoch and records every epoch's phases |
| PhotonicsUtils.Diagonalize | src/vivilux/photonics/utils.py:8-15 | a fresh n×n matrix with the vector on the diagonal and zeros elsewhere |
| PhotonicsUtils.DiagonalScales | src/vivilux/photonics/utils.py:8-15 | the diagonal matrix scales each component by its own entry, with no cross terms |
| PhotonicsUtils.DiagonalOfOnes | src/vivilux/photonics/utils.py:12-14 | diagonalizing a vector of ones gives the identity the loop starts from |
| PhotonicsUtils.BoundOne | src/vivilux/photonics/utils.py:17-22 | an entry above 2π loses 2π once, an entry below 0 gains 2π once, and [0,2π] is kept; inputs in [-2π,4π] land in [0,2π] |
| PhotonicsUtils.BoundOneIdempotent | src/vivilux/photonics/utils.py:17-22 | for inputs in [-2π,4π], bounding twice is bounding once |
| PhotonicsUtils.BoundTheta | src/vivilux/photonics/utils.py:17-22 | every entry of a one-dimensional array is bounded in place, and the same array is returned |

## Left out

- Network.TransposeAny: a ragged list of rows is padded with zeros, where numpy builds no matrix at all. Every mesh's matrix is a proper matrix (`Set` demands one), so `get` never meets that case.
- Floating point: all values are exact reals. `2*np.pi` is the exact value of its double, 6.28318530717958623199592693708837032318115234375. NaN appears only as the mean of an empty matrix.
- Randomness: the Glorot initialisation of `meshes.Mesh` is an `init` function parameter of the constructor.
- Foreign code: the activation, the learning rule (including `XCAL`/`AttachLayer`) and the metric are function parameters. The rule's delta is handed to `Update` as it comes.
- `invSigmoid`'s real root `(…)^(1/Gain)` is a parameter that satisfies `IsRoot`, because Dafny has no real roots.
- `setGscale`, `Debug`, `getInput`, `getActivity`, `__len__`, `__str__`, names and counters, and the `verbose` printing are not modelled. `Gscale` stays 1 unless a caller sets it.
- `SoftMesh`, the commented-out `InhibMesh`, `Detect`, `psToRect` and the `__main__` block are not part of this model.
- Nets.Net.constructor: `meshType` is always the simple `Mesh` of `__init__.py`. The layers must be distinct and must not own meshes yet, so the wiring is the only mesh each has.
- Nets.Net.FFFB: the same restrictions as the plain constructor it builds on: `meshType` is the simple `Mesh`, and repeated layers or layers that already own meshes, which the source accepts, are not modelled.
- Network.Activate: the activation is taken to act entry by entry, as `activations.Sigmoid` does. An activation that mixes entries or changes the length is not modelled, and the length facts of `PredictStepped`, `ObserveStepped` and the layer's width rely on this.
- PhotonicsUtils.BoundTheta: the model covers a one-dimensional array of angles. numpy's masked updates work on arrays of any shape with the same per-entry rule, which the model does not state for more dimensions.
- Network.Layer.ClampPre: the source stores a slice of the caller's array, so later writes through either name are shared. The model copies the values.
- Network.Layer.ClampObs: the same copy instead of the shared slice.
- Nets.Net.Predict: states for each later layer that it took one predict step (`PredictStepped`: a bounded step and its activation), not the exact sums, which Network.Layer.Predict states.
- Nets.Net.Observe: states the same one-step property for hidden layers instead of the exact sums.
- Meshes.Mesh.Apply: requires the input length to be `len(inLayer)`, which never exceeds the size. The `np.pad` with a negative width that a longer input would raise is not modelled.
- Meshes.Mesh.constructor: `wbOn` is stored but never read, as in the source.
- Meshes.Mesh.constructor: requires a whole-number `Gain >= 1` (the source takes any float; `MeshRules.Sigmoid`, `MeshRules.InvSigmoid` and `MeshRules.Transfer` take the same `nat` gain, since Dafny has no real powers), `Off > 0`, non-negative `wbInc`/`wbDec`, and balance settings with non-negative gains and `wbAvgThr <= wbLoThr`. The `ZeroDivisionError` that `invSigmoid` raises during construction for `Off == 0` or `Gain == 0`, and the behaviour under other settings, are not modelled.
- Meshes.Mesh.Set: requires a `size`×`size` matrix. For any other shape the source stores and clips the matrix, then raises `IndexError` in `InvSigMatrix` and keeps the wrongly shaped weights; that case is not modelled.
- Nets.Net.Learn: with `reset=False` and numpy targets, the source's `ClampObs` leaves the last layer's `obsLin`/`obsAct` as views of the target row just clamped. The next sample's hand-off writes that layer's `preLin` and then `preAct` through them into the caller's `outData`. The metrics after training are then taken against the overwritten rows, and later epochs observe them as targets. The model keeps `outData` fixed, so its metrics and trace are those of copied targets.
- Nets.Net.Epochs: the same overwrite of the targets by the hand-off is not modelled in the epoch loop.
- Nets.Net.LearnEpoch: the same overwrite of the targets by the hand-off is not modelled within an epoch; each sample observes the target row as the caller passed it.
- Concurrency, hardware drivers and plotting do not occur in the modelled core.
