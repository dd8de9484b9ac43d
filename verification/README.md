# Batched peephole LSTM layer and string helpers, modelled in Dafny

This project models the `LstmParallel` layer of the EESEN speech recogniser.
The layer runs S utterances ("streams") through one peephole LSTM cell in
lockstep. It holds two buffers of (T + 2)·S rows by 7·H columns, where H is the
cell width:

- the propagation buffer, which keeps the activations;
- the back-propagation buffer, which keeps the errors.

Both buffers are time-major, so row t·S + s is stream s at time step t. Each
row is cut into seven H-wide slices, in the order g, i, f, o, c, h, m. Blocks
0 and T + 1 are zero sentinels.

The project also models the two string helpers of the base utilities:
`CharToString` and `IntToString`.

Files:

- `cu_matrix.dfy` (module `CuMatrix`): the GPU matrix library calls used by
  the layer, stated over reals as pure functions. Each follows the
  library's "destination scaled by beta, plus alpha times the product"
  convention. The file also has the time-major block arithmetic.
- `lstm_spec.dfy` (module `LstmSpec`): what the layer computes. It contains:
  - the pre-activations `Preacts` (x·W_xᵀ + bias for every frame, computed
    before the time loop as the source does), the forward cell `CellRow`
    and the per-stream recurrence `StreamRow`;
  - the expected buffers `ForwardBuffer`, `ForwardOutput` and
    `BackwardBuffer`, defined row by row in time-major order; the forward
    buffer is proved equal to the per-stream recurrence;
  - the raw gradients and the momentum blend `Blend`.
- `lstm_parallel_layer.dfy` (module `LstmParallelLayer`): the class
  `LstmParallel`. Its fields are the parameters, the six gradient
  accumulators, the stream lengths and the two buffers. Its methods follow
  the source step by step and are proved to produce exactly the expected
  buffers and accumulator values.
- `lstm_properties.dfy` (module `LstmProperties`): the properties of the
  specification. These are the cell equations, the zero initial state,
  stream independence, the last-step output error and the momentum law.
- `kaldi_utils.dfy` (module `KaldiUtils`): `CharToString` and `IntToString`,
  together with a decimal parser that they are proved to round-trip with.

The sigmoid and tanh kernels and their derivatives are not modelled. They
are passed in as a `Kernels` value, so every statement holds for any choice
of these four functions.

## Model

| member | source | states |
|---|---|---|
| LstmParallelLayer.LstmParallel.SetSeqLengths | src/net/lstm-parallel-layer.h:43-45 | the stream lengths are replaced by the argument, nothing else changes, and the layer stays well-formed |
| LstmSpec.StepCount | src/net/lstm-parallel-layer.h:48-51 | the step count exists iff S > 0 and S divides the row count; then T·S = rows, and every row index lies in a block below T |
| LstmParallelLayer.LstmParallel.PropagateFnc | src/net/lstm-parallel-layer.h:47-113 | the propagation buffer becomes exactly `ForwardBuffer` (shape (T+2)·S × 7H, sentinels zero, blocks 1..T the per-stream recurrence), and the output is `ForwardOutput`; the parameters are untouched and the layer stays well-formed. It is called only when `StepCount` exists |
| LstmParallelLayer.LstmParallel.ForwardPass | src/net/lstm-parallel-layer.h:54-110 | zeroing the buffer, writing the gate inputs of all frames and stepping t = 1..T yields exactly `ForwardBuffer` of those gate inputs |
| LstmParallelLayer.PendingStart | src/net/lstm-parallel-layer.h:54-67 | the zeroed buffer with the pre-activations x·W_xᵀ + bias written into the gate columns of blocks 1..T is the loop's starting state |
| LstmParallelLayer.GateInputs | src/net/lstm-parallel-layer.h:66-67 | every row of the gate inputs is x·W_xᵀ + bias of its input row, computed for all frames before the time loop |
| LstmParallelLayer.LstmParallel.ForwardBlock | src/net/lstm-parallel-layer.h:69-110 | step t turns the state "blocks < t final" into "blocks ≤ t final" |
| LstmParallelLayer.LstmParallel.ForwardStep | src/net/lstm-parallel-layer.h:69-104 | one step rewrites only block t; each of its rows becomes `CellRow` of its own gate inputs and the row one block earlier |
| LstmParallelLayer.PendingAdvance | src/net/lstm-parallel-layer.h:69-110 | a step over block t turns the state "blocks < t final" into "blocks ≤ t final" |
| LstmParallelLayer.StepRecurrent | src/net/lstm-parallel-layer.h:82 | the gate pre-activations gain m(t−1)·W_mᵀ |
| LstmParallelLayer.StepGates | src/net/lstm-parallel-layer.h:84-90 | i and f add the peephole terms on c(t−1) and are squashed by sigmoid; g is squashed by tanh |
| LstmParallelLayer.StepCell | src/net/lstm-parallel-layer.h:93-104 | c = g⊙i + c(t−1)⊙f, h = tanh c, o peeps at the new c, m = h⊙o; the beta-0 products overwrite the current c and m columns |
| LstmParallelLayer.StepBlock | src/net/lstm-parallel-layer.h:69-104 | every row of the new block is `CellRow` of its gate inputs after the previous row |
| LstmParallelLayer.PendingDone | src/net/lstm-parallel-layer.h:110 | after step T the buffer is `ForwardBuffer` |
| LstmParallelLayer.OutputOf | src/net/lstm-parallel-layer.h:112 | the row view of blocks 1..T followed by the column view of the m slice gives `ForwardOutput`: output row i is exactly the m slice of buffer row S + i |
| LstmSpec.ForwardBufferStep | src/net/lstm-parallel-layer.h:69-104 | each row of blocks 1..T is the cell of its pre-activation after the same stream's row one block earlier |
| LstmSpec.ForwardRowAt | src/net/lstm-parallel-layer.h:54-110 | the time-major row t·S + s is stream s's own recurrence after t steps for 1 ≤ t ≤ T, and zero for t = 0 and t = T + 1 |
| LstmSpec.ForwardBufferAt | src/net/lstm-parallel-layer.h:54-110 | block t at stream s of the forward buffer is that stream's step t for 1 ≤ t ≤ T, and zero for t = 0 and t = T + 1 |
| LstmSpec.ForwardSentinelRow | src/net/lstm-parallel-layer.h:54 | the rows of blocks 0 and T + 1 stay zero after the forward pass |
| LstmSpec.ForwardOutputAt | src/net/lstm-parallel-layer.h:112 | output row t·S + s is the m slice of stream s's state after step t + 1 |
| LstmSpec.Row7Slices | src/net/lstm-parallel-layer.h:56-64 | the seven H-wide column slices of a row are g, i, f, o, c, h, m in that order, and gifo is the first 4H columns |
| LstmProperties.CellEquations | src/net/lstm-parallel-layer.h:82-104 | the slices of a cell row satisfy c = g⊙i + c(t−1)⊙f and m = h⊙o; i and f peep at c(t−1), o peeps at c(t) |
| LstmProperties.ForwardRecurrence | src/net/lstm-parallel-layer.h:82-104 | in the finished buffer, every row of blocks 1..T satisfies the cell equations against the row one block earlier |
| LstmProperties.FirstStep | src/net/lstm-parallel-layer.h:54-94 | at step 1 the zero block 0 contributes nothing: c = g⊙i, and the gates see only x·W_xᵀ + bias |
| LstmProperties.ZeroStateCell | src/net/lstm-parallel-layer.h:82-94 | a cell step from the zero row has c = g⊙i and gates from the pre-activation alone |
| LstmProperties.RecurrentEntries | src/net/lstm-parallel-layer.h:66-82 | in the finished propagation buffer, gate pre-activation q of row r (step t, stream s) is input frame r − S times row q of W_x, plus bias q, plus the m slice of buffer row r − S (same stream, step t − 1) times row q of W_m |
| LstmSpec.CellRowFrom | src/net/lstm-parallel-layer.h:82-104 | a row built from slices satisfying the cell equations is the cell row (the converse of the cell equations) |
| LstmProperties.PreactsStreamIndependence | src/net/lstm-parallel-layer.h:66-67 | inputs that agree on stream s have pre-activations that agree on stream s |
| LstmProperties.ForwardRowIndependence | src/net/lstm-parallel-layer.h:69-110 | a forward row of stream s is the same for any two pre-activation matrices that agree on stream s (by induction over the blocks) |
| LstmProperties.ForwardStreamIndependence | src/net/lstm-parallel-layer.h:69-112 | two inputs that agree on stream s give buffers and outputs that agree on every row of stream s |
| LstmParallelLayer.LstmParallel.BackpropagateFnc | src/net/lstm-parallel-layer.h:115-213 | the error buffer becomes `BackwardBuffer`, in_diff becomes `InputGradient` (independent of its old value), and each accumulator becomes momentum·old + its raw gradient; the parameters are unchanged |
| LstmParallelLayer.LstmParallel.BackwardPass | src/net/lstm-parallel-layer.h:122-201 | zeroing, seeding with out_diff and stepping t = T..1 yields exactly `BackwardBuffer` |
| LstmParallelLayer.BackStart | src/net/lstm-parallel-layer.h:123-146 | the zeroed buffer with out_diff copied into the m slice of blocks 1..T is the backward loop's starting state |
| LstmParallelLayer.PendingSeed | src/net/lstm-parallel-layer.h:146 | before block t is stepped, its c slice is zero and its m slice holds out_diff |
| LstmParallelLayer.LstmParallel.BackwardSteps | src/net/lstm-parallel-layer.h:148-201 | stepping t = T..1 from the seeded buffer makes every row of blocks 1..T final |
| LstmParallelLayer.LstmParallel.BackwardBlock | src/net/lstm-parallel-layer.h:148-201 | step t turns "blocks > t final" into "blocks ≥ t final" |
| LstmParallelLayer.LstmParallel.BackwardStep | src/net/lstm-parallel-layer.h:148-195 | one backward step rewrites only block t; each row becomes `BackCell` of its forward rows at t−1, t, t+1, its output error and the finished error row at t+1 |
| LstmParallelLayer.PendingRetreat | src/net/lstm-parallel-layer.h:148-201 | a step over block t turns "blocks > t final" into "blocks ≥ t final" |
| LstmParallelLayer.BackStepRows | src/net/lstm-parallel-layer.h:165-195 | writing the stepped block back puts each row's `BackCell` at its own time-major row |
| LstmParallelLayer.RetreatRow | src/net/lstm-parallel-layer.h:148-195 | a row of block t becomes `BackCell` of the pending state's rows at t−1, t, t+1 |
| LstmParallelLayer.KeepRow | src/net/lstm-parallel-layer.h:148-201 | rows outside block t keep their value across the step |
| LstmParallelLayer.BackDone | src/net/lstm-parallel-layer.h:201 | after step 1 the buffer is `BackwardBuffer`, with block 0 still zero |
| LstmParallelLayer.BackBlock | src/net/lstm-parallel-layer.h:167-195 | every row of the block is `BackCell` of its neighbours, output error and next error row |
| LstmParallelLayer.BackRecurrent | src/net/lstm-parallel-layer.h:167-168 | d_m = out_diff + d_gifo(t+1)·W_m |
| LstmParallelLayer.BackOutput | src/net/lstm-parallel-layer.h:170-176 | d_h = tanh′(h, d_m⊙o) and d_o = sigmoid′(o, d_m⊙h) |
| LstmParallelLayer.BackCellState | src/net/lstm-parallel-layer.h:178-183 | d_c = d_h + d_c(t+1)⊙f(t+1) + d_i(t+1)⊙p_i + d_f(t+1)⊙p_f + d_o⊙p_o |
| LstmParallelLayer.BackGates | src/net/lstm-parallel-layer.h:185-195 | d_f uses c(t−1), d_i uses g, d_g uses i, each through its squashing derivative |
| LstmParallelLayer.BackGate | src/net/lstm-parallel-layer.h:171-172 | a unit's error is the derivative at its forward value applied to the incoming error times the partner |
| LstmSpec.BackCellFrom | src/net/lstm-parallel-layer.h:167-195 | a row built from slices satisfying the backward cell equations is the backward cell row |
| LstmSpec.BackwardBufferStep | src/net/lstm-parallel-layer.h:148-195 | each row of blocks 1..T is `BackCell` of its forward neighbours, its output error and the finished row one block later |
| LstmSpec.BackwardSentinelRow | src/net/lstm-parallel-layer.h:123 | blocks 0 and T + 1 of the error buffer are zero; block T + 1 is never written |
| LstmProperties.BackStreamIndependence | src/net/lstm-parallel-layer.h:148-201 | a backward row depends only on forward rows and output errors of its own stream (proved by induction towards T + 1) |
| LstmProperties.BackwardStreamIndependence | src/net/lstm-parallel-layer.h:148-201 | two backward passes whose inputs agree on stream s give error buffers that agree on stream s |
| LstmProperties.LastStepOutputError | src/net/lstm-parallel-layer.h:146-183 | nothing flows back from block T + 1: at step T the m error is exactly out_diff, and the c error is d_h + d_o ⊙ phole_o_c |
| LstmProperties.LastCellErrors | src/net/lstm-parallel-layer.h:165-183 | for a single cell whose next-step error row is zero, the m error is out_diff and the c error is d_h + d_o ⊙ phole_o_c |
| LstmParallelLayer.InputGradientFrom | src/net/lstm-parallel-layer.h:204 | in_diff row i is d_gifo(row S + i)·W_x, whatever in_diff held before (beta 0) |
| LstmParallelLayer.LstmParallel.UpdateAccumulators | src/net/lstm-parallel-layer.h:206-212 | all six accumulators become momentum·old + raw gradient, with the peephole pairings below |
| LstmParallelLayer.AccumulateWeiGifoX | src/net/lstm-parallel-layer.h:207 | entry (j, c) becomes mmt·old + the dot product of gate-error column j over blocks 1..T with input column c |
| LstmParallelLayer.AccumulateWeiGifoM | src/net/lstm-parallel-layer.h:208 | entry (j, c) becomes mmt·old + the dot product of gate-error column j over blocks 1..T with m column c over blocks 0..T−1 |
| LstmParallelLayer.AccumulateBias | src/net/lstm-parallel-layer.h:209 | entry j becomes mmt·old + the column sum of gate error j over blocks 1..T |
| LstmParallelLayer.AccumulatePeephole | src/net/lstm-parallel-layer.h:210-212 | entry c becomes mmt·old + the dot product of error column gate·H + c over blocks 1..T with the c column of the T blocks from cBlock (0 for i and f, 1 for o) |
| LstmProperties.BlendZeroMomentum | src/net/lstm-parallel-layer.h:206-212 | with momentum 0 the accumulator holds the latest raw gradient |
| LstmProperties.BlendTwice | src/net/lstm-parallel-layer.h:206-212 | two updates give mmt²·old + mmt·g1 + g2 |
| KaldiUtils.CharToString | src/base/kaldi-utils.cc:27-34 | printable codes (32..126) give the three characters 'c'; others give "[character " + the code as `IntToString` writes it + "]", so the code has a sign only when negative, no leading zero, and parses back; the first character tells the cases apart; at most 16 characters, so the text fits the 20-byte buffer |
| KaldiUtils.CharCodeFacts | src/base/kaldi-utils.cc:32 | the signed code of a char renders in 1..4 characters and parses back to the code |
| KaldiUtils.IntToString | src/base/kaldi-utils.cc:36-40 | 1..11 characters; a leading '-' iff i < 0; the rest digits only, with no leading zero, so 0 is "0"; parsing gives back i |
| KaldiUtils.IntToDecimalFacts | src/base/kaldi-utils.cc:38 | any integer renders as an optional '-' and digits that parse back to it |
| KaldiUtils.NatToDecimalRoundTrip | src/base/kaldi-utils.cc:38 | parsing the decimal digits of n gives n |
| KaldiUtils.NatToDecimalLength | src/base/kaldi-utils.cc:38 | a number below 10^k has at most k digits |
| KaldiUtils.IntToStringInjective | src/base/kaldi-utils.cc:36-40 | distinct ints render to distinct strings |

## Left out

- Floating point: the model uses exact reals. Rounding, NaN and the GPU kernels' evaluation order are not modelled.
- Sigmoid, tanh and their derivatives are abstract function values, not the library's kernels.
- The commented-out per-stream masking by sequence length is not modelled, because it is dead code. Only the number of streams is used.
- `Copy`, `GetType`, `GetTypeNonParal`, the constructor and destructor are not modelled. They only construct objects or return type tags. The parent `Lstm` class and `trainable-layer.h` are not part of this model. Parameters, momentum and buffers are plain fields with no initialiser.
- `FileExist` is not modelled, because it is file-system I/O.
- Locale: `isprint` and stream formatting are modelled for the default "C" locale only. A `char` is taken to be signed 8-bit. `std::isprint` of a negative `char` other than EOF is undefined behaviour in the C and C++ standards; the model treats codes -128..-1 as non-printable, as glibc's classification table does.
- LstmParallelLayer.LstmParallel.PropagateFnc: this is not modelled when there are no streams. The source computes `rows % 0`, which is undefined behaviour, before its assertion can report anything. Its requires, that `StepCount` exists, excludes this case, and also excludes any row count not divisible by S, where the source's assertion aborts.
- LstmParallelLayer.LstmParallel.PropagateFnc: the matrix library's dimension assertions, which abort when the input rows are not `inputDim` wide, are not modelled inside `AddMatMat`. Instead the layer requires `inputDim`-wide input rows, as BackpropagateFnc and GateInputs do.
- LstmParallelLayer.LstmParallel.BackpropagateFnc: like PropagateFnc, it is not modelled when there are no streams or when S does not divide the row count: its requires, that `StepCount` exists, excludes both, where the source divides by zero or its assertion aborts. Its requires states the handoff from the forward pass only as the shape of the propagation buffer ((T+2)·S × 7H). The code relies on nothing else. Its `output` argument is not read, as in the source.
- Sub-matrix views are copies here; a time step reads its block and writes the result back as one block. This is the same as in-place update because the seven column slices of a block are disjoint. Aliasing between views is not modelled.
- GPU streams, asynchrony and memory allocation (`Resize`) are not modelled; a resize with zeroing is a fresh zero matrix.
