# Grover circuit builders, modelled in Dafny

This project models the three circuit builders of the `Machgrover` package:

- `create_complex_mock_oracle` builds a phase oracle that marks one basis state, given as an MSB-first bit string.
- `build_diffuser` builds the Grover diffuser H^n · X^n · MCZ · X^n · H^n.
- `build_grover_circuit` composes an initial Hadamard layer with `iterations` rounds of oracle and diffuser.

A Qiskit `QuantumCircuit` is read as a register width plus the ordered list of gates appended to it (`Circuits.Circuit`). A gate is one of these:

- `H(q)`, `X(q)` or `Z(q)`;
- `MCX(controls, target, ancillas, mode)`, where `mode` is an uninterpreted tag;
- `Barrier(span, tag)`.

Each builder is a pure function returning `Result<Circuit>`. Every exception the builders raise themselves becomes a `BuildError` case, checked in the same order as the source. Errors raised inside Qiskit's own methods (`mcx`, `compose`) are not modelled: those calls are taken to accept their arguments (see "## Left out").

On top of the gate lists sits a small exact semantics on computational basis states (`Basis`). A state is one bit per qubit plus the sign of its amplitude.

- X negates a bit.
- An idealised MCX negates its target when all controls are 1. Its ancillas play no part.
- Z negates the sign when its qubit is 1.
- H has no basis-state reading. The one exception is the pattern H(t) · MCX(cs, t) · H(t), which is read as a multi-controlled Z on cs + [t]. That is how the diffuser realises its phase flip, as its own comments say.

`Basis.Read` turns a gate list into these operations, or returns None when a Hadamard stands anywhere else. `Basis.Run` applies the operations in order.

Modules follow the program:

- `Wrappers`: `Option`, `Result`, `BuildError`.
- `Circuits`: gates, circuits, the H and X layers, barriers and `compose`.
- `Basis`: the basis-state semantics.
- `MockOracle`: `create_complex_mock_oracle`.
- `Diffuser`: `build_diffuser`.
- `GroverBuilder`: `build_grover_circuit`.

Two behaviours of the source are modelled as written:

- The X blocks of the oracle test only `char == '0'`, so any mark character other than `'0'` acts as a 1.
- With no search qubits (`n_search_qubits == 0`, empty mark) the oracle emits no MCX. With the result qubit starting at 0 it then flips no sign. `MockOracle.OracleSemantics` states this case exactly.

## Model

| member | source | states |
|---|---|---|
| `MockOracle.BuildOracle` | Machgrover/grover_builder.py:40-48 | Fails with a mark-length error exactly when the mark's length differs from `n` (checked first). Otherwise it fails with a no-ancilla error exactly when `anc < 1`. Otherwise it succeeds with a register of `n + anc` qubits, and every gate stays inside it. Success assumes Qiskit's `mcx` accepts its arguments. |
| `MockOracle.OracleMcxShape` | Machgrover/grover_builder.py:50-79 | The oracle's MCX has exactly the search qubits 0..n-1 as controls and the result qubit `n` as target. Its ancillas are exactly the spare qubits n+1..n+anc-1, or None when there are none. Its mode is `noancilla` iff n <= 2 and `recursion` iff n > 2. It stays inside the register. |
| `MockOracle.MaskX` | Machgrover/grover_builder.py:59-65 | One X block, the loop over the search qubits: it holds only X gates, each on a qubit the loop has visited. |
| `MockOracle.McxModeFor` | Machgrover/grover_builder.py:69-71 | The oracle always names an MCX mode explicitly, never the library default, and names `noancilla` exactly when there are at most two controls. |
| `MockOracle.OracleMcx` | Machgrover/grover_builder.py:77-79 | The oracle's MCX call is a multi-controlled X whose target is the result qubit `n`. Its controls, ancillas and mode are stated by `OracleMcxShape`. |
| `MockOracle.Compute` | Machgrover/grover_builder.py:59-86 | The compute block (X block, MCX when n > 0, X block) uses only qubits of the n + anc register. |
| `MockOracle.OracleCircuit` | Machgrover/grover_builder.py:47-112 | The circuit built from accepted arguments has n + anc qubits, and every gate, the Z on the result qubit included, stays inside it. |
| `MockOracle.MaskContents` | Machgrover/grover_builder.py:59-65 | An X block holds X(i) for a search qubit i iff `mark[n-1-i] == '0'`, and only such gates, in strictly ascending qubit order. |
| `MockOracle.MaskCount` | Machgrover/grover_builder.py:59-65 | In one X block each qubit receives at most one X: exactly one where the marked state has a 0, none elsewhere. |
| `MockOracle.OracleShape` | Machgrover/grover_builder.py:59-112 | The oracle has odd length with Z on the result qubit exactly in the middle. The gates after it repeat the gates before it, so the uncompute uses the same X blocks and the same MCX as the compute. |
| `MockOracle.OracleKinds` | Machgrover/grover_builder.py:57-112 | Every oracle gate is one of: an X on a search qubit, the oracle's MCX, or Z on the result qubit. There is no Hadamard and no barrier. |
| `MockOracle.OracleGateCounts` | Machgrover/grover_builder.py:57-112 | Each search qubit gets four X gates where the marked state has a 0 and none elsewhere, so always an even number. The result qubit gets exactly one Z. The MCX appears twice when n > 0 and never when n == 0. |
| `MockOracle.MaskRun` | Machgrover/grover_builder.py:59-65 | On any basis state, an X block negates exactly the search bits where the marked state has a 0. It leaves every other bit and the sign alone. |
| `MockOracle.MatchAfterMask` | Machgrover/grover_builder.py:59-79 | After the X block, the MCX controls are all 1 iff the search register held the marked state. |
| `MockOracle.ComputeRun` | Machgrover/grover_builder.py:57-86 | The compute block toggles the result qubit iff n > 0 and the search register holds the marked state. It restores every other qubit and does not touch the sign. |
| `MockOracle.OracleSemantics` | Machgrover/grover_builder.py:57-112 | On every basis state the whole oracle returns every qubit to its starting value, including the result qubit and the spare ancillas. The sign flips iff the result bit differs from "n > 0 and the search register holds the marked state". |
| `MockOracle.OracleMarksTarget` | Machgrover/grover_builder.py:57-89 | With the result qubit at 0, the oracle negates the sign iff n > 0 and the search bits equal the marked state read MSB-first, qubit i against `mark[n-1-i]`. |
| `Diffuser.BuildDiffuser` | Machgrover/diffuser.py:21-24 | Succeeds iff `n >= 1`, and otherwise fails with the qubit-count error. On success the width is n and every gate index is below n. |
| `Diffuser.DiffuserLength` | Machgrover/diffuser.py:32-65 | The diffuser has 4n gates in stages 1-2 and 4-5, plus 3 (n == 1) or 5 (n > 1) for stage 3 and its two barriers. |
| `Diffuser.DiffuserHead` | Machgrover/diffuser.py:32-37 | Gate i is H(i) and gate n+i is X(i) for every i < n. |
| `Diffuser.DiffuserTail` | Machgrover/diffuser.py:59-65 | In the last 2n gates, gate i is X(i) and gate n+i is H(i) for every i < n, undoing stages 2 and 1. |
| `Diffuser.MiddleStage` | Machgrover/diffuser.py:42-56 | Stage 3, Z(0) or H·MCX·H on the last qubit, uses only the diffuser's own n qubits. |
| `Diffuser.DiffuserMiddleStage` | Machgrover/diffuser.py:38-57 | A barrier over all n qubits stands right before stage 3 and another right after it, and there is no other barrier. Stage 3 is Z(0) alone when n == 1. For n > 1 it is H(n-1), MCX with controls 0..n-2 onto n-1 (no ancillas, default mode), H(n-1). |
| `Diffuser.DiffuserOnQubit` | Machgrover/diffuser.py:32-65 | The non-barrier gates touching qubit q, in order, are H X MCZ X H as seen from q. For q = n-1 with n > 1 the MCZ appears as H MCX H. A qubit outside the register is never touched. |
| `Diffuser.DiffuserPalindrome` | Machgrover/diffuser.py:11-13 | For every qubit, that sequence of gates reads the same forwards and backwards. |
| `Diffuser.ReadPhaseFlip` | Machgrover/diffuser.py:40-56 | Reading H·MCX·H as a multi-controlled Z, stage 3 is one phase flip conditioned on all of qubits 0..n-1 being 1, for n == 1 and for n > 1 alike. |
| `Diffuser.CoreFlipsAllZero` | Machgrover/diffuser.py:35-61 | Stages 2 to 4 leave every qubit as it was and negate the sign of exactly one basis state, the all-zero one. |
| `Circuits.HLayer` | Machgrover/diffuser.py:32-33 | The layer has n gates, gate i is H(i), and all of them lie within n qubits. |
| `Circuits.XLayer` | Machgrover/diffuser.py:36-37 | The layer has n gates, gate i is X(i), and all of them lie within n qubits. |
| `Circuits.AddBarrier` | Machgrover/grover_builder.py:141 | Appends exactly one gate, a barrier carrying the given label that spans exactly the qubits of the register. The earlier gates and the width are unchanged. |
| `Circuits.Compose` | Machgrover/grover_builder.py:147 | Keeps the host's width and gates, and appends each gate of the sub-circuit relabelled through the qubit map, in order. It keeps every gate inside the host's register. |
| `Circuits.RemapIdentity` | Machgrover/grover_builder.py:146-147 | Relabelling through the identity map 0..w-1 leaves a gate list unchanged. |
| `GroverBuilder.ComposeVerbatim` | Machgrover/grover_builder.py:146-150 | Composing a circuit onto qubits 0..w-1 of a wider host appends its gates verbatim. |
| `GroverBuilder.Pass` | Machgrover/grover_builder.py:146-151 | One pass of the loop keeps the circuit's width and keeps every gate inside the register. The gates it appends are stated by `PassGates`. |
| `GroverBuilder.Iterate` | Machgrover/grover_builder.py:145-151 | The loop from pass i to the end keeps the circuit's width and keeps every gate inside the register. The gates it appends are stated by `IterateGates`. |
| `GroverBuilder.PassGates` | Machgrover/grover_builder.py:146-151 | One pass of the loop appends the oracle's gates, the `Oracle_i` barrier, the diffuser's gates and the `Diffuser_i` barrier. |
| `GroverBuilder.IterateGates` | Machgrover/grover_builder.py:145-151 | Running the loop from pass i to the end appends passes i..iterations-1 back to back. |
| `GroverBuilder.BuildGrover` | Machgrover/grover_builder.py:123-136 | Fails with the search-width error if n < 1. Otherwise it fails with the iteration error if iterations < 0. Otherwise it fails with the width error if n exceeds the oracle's width. It succeeds exactly in the remaining case, with the oracle's width and every gate inside the register. |
| `GroverBuilder.GroverGates` | Machgrover/grover_builder.py:137-151 | The composed circuit is H on qubits 0..n-1, the `Init_H` barrier, then exactly `iterations` passes. Each pass is the oracle verbatim, `Oracle_i+1`, the diffuser for n qubits verbatim, `Diffuser_i+1`. |
| `GroverBuilder.InitLayout` | Machgrover/grover_builder.py:139-141 | Stated over the gate list that `GroverGates` gives for the built circuit: the first n gates are H(0)..H(n-1), gate n is the `Init_H` barrier over the whole register, and the total length is n + 1 plus `iterations` passes. |
| `GroverBuilder.PassLayout` | Machgrover/grover_builder.py:145-151 | Stated over the gate list that `GroverGates` gives for the built circuit: pass j occupies the b gates starting at n + 1 + j·b, where b = (oracle length) + (diffuser length) + 2. It is the oracle, its barrier, the diffuser, its barrier. |
| `GroverBuilder.RoundsLength` | Machgrover/grover_builder.py:145-151 | Passes i..k-1 together hold (k - i) times one pass's length. |
| `GroverBuilder.GroverNoIterations` | Machgrover/grover_builder.py:137-153 | With zero iterations the circuit is only the Hadamard layer and its barrier. |
| `GroverBuilder.GroverWithMockOracle` | Machgrover/grover_builder.py:123-134 | Fed an oracle from the oracle builder, the composer succeeds iff n >= 1 and iterations >= 0, since the oracle is always wider than its search register. The result then has n + anc qubits. The mock oracle exists only if Qiskit's `mcx` accepted its call. |

## Left out

- MockOracle.BuildOracle: returns Ok whenever the mark length matches and anc >= 1, because Qiskit's `mcx` is taken to accept every call. The real `mcx` can refuse a call. In particular, with n >= 5 search qubits and anc == 1 the source asks for `mode='recursion'` with no ancillas. Qiskit documents that this needs one ancilla and raises, and the source's own warning at that spot hints at it. The model returns Ok there. Qiskit's code is not part of this model, so its exact acceptance rules cannot be stated.
- Oracles handed to `build_grover_circuit` are limited to circuits without classical bits, built from H, X, Z, MCX and barriers. Qiskit's `compose` would refuse an oracle with more classical bits than the host circuit, which has none. Other gate kinds are not modelled.
- Qiskit's decomposition of `mcx` under each `mode`: the mode is kept as a tag, and the MCX is treated as ideal, ancillas included. Its use and restoration of ancillas and `depth()` are not modelled.
- Hadamard amplitudes: no unitary, complex-amplitude or probability semantics. As a consequence there is no self-inverse diffuser and no success probability. Outside the H·MCX·H pattern, H has no basis-state reading, so the diffuser's claims stay structural, apart from its X·MCZ·X core.
- The iteration count `round(pi/4 * sqrt(2^n))` in the demo code (floating point).
- The fallback dummy `build_diffuser` installed when the import fails (import plumbing).
- The console warning for an MCX with more than two controls and no spare ancilla: printing only.
- Both `__main__` blocks: drawing, image export, CSV writing and printing.
- The `isinstance` checks: Dafny's static types already guarantee them.
- Circuit names (`ComplexOracle_...`, `Diffuser_nq`, `GroverCircuit`): labels without effect on the gates.
- Qiskit's own argument checks inside `compose`: `Circuits.Compose` requires the map to fit the host, which the builders always satisfy.
- `Basis.Toggle` leaves a qubit outside the register alone. No builder addresses one, since all built circuits are well formed.
