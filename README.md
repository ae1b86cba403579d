# quantum-sensing: the circuit bookkeeping, in Dafny

The repository simulates a variational quantum-sensing circuit on a chain of
trapped-ion qubits. A circuit prepares every qubit with Y(π/2), runs a number of
encoder blocks (an X rotation of every qubit followed by XX and ZZ couplings of
every qubit pair), lets the signal φ act as a Z rotation, runs the same number
of decoder blocks and reads out the probabilities of the basis states. The
coupling J_ij of a pair follows the zig-zag mode law.

This project models the deterministic layer around the numerics:

- `Coupling` (coupling.dfy): the zig-zag law `J_zig_zag` and the centre-of-mass
  law `J_com`, over `real`, with division by μ² − ω_m² as a precondition.
- `Protocol` (protocol.dfy): `QuantumSensingCircuit.run_circuit`. It covers the
  lexicographic qubit-pair list, the interaction-strength list, and the order of
  the requests the circuit makes of its backend. Python's abstract methods
  become a trace of `Request` values: `RunCircuit` issues them in a loop and
  records them, and each backend class replays a trace. A parameter row that is
  missing (`IndexError`) or does not unpack into three angles (`ValueError`)
  ends the run. The requests issued before that point stay issued.
- `Pennylane` (pennylane.dfy): the pennylane backend as a class whose
  `gatesApplied` sequence grows by one gate record per gate.
- `QuspinBackend` (quspin_backend.dfy): the quspin backend as a class holding
  the state vector. Each interaction builds an operator-term list and replaces
  the state by its evolution. The read-out gives |amplitude|² per entry.
- `QuspinRunner` (quspin_runner.dfy): the stand-alone state-vector runner
  `circuit/quspin.py`. It covers shape validation, `kron_n` as a left fold of
  Kronecker products, the two-body term list, and the step-by-step evolution of
  the state vector, which is what the runner returns.
- `Agreement` (agreement.dfy): how the backends' term and gate lists line up.

Complex amplitudes are pairs of reals (`StateVectors`, state_vectors.dfy). The
libraries' matrix exponentials are the function parameter `evolve`, and cosine
and sine are the parameter `trig`. Lemmas about them assume only that `evolve`
keeps the length of the state vector.

## Model

| member | source | states |
|---|---|---|
| Coupling.JZigZag | quantum_sensing/hamiltonian_interaction_strength.py:1-8 | reference definition of `J_zig_zag`: Ω²·η_i·η_j·μ/(μ² − ω_m²) with η_k = 0.1·(−1)^k, defined when μ² ≠ ω_m²; described by JZigZagSymmetric, JZigZagParity, JZigZagPeriodic and JZigZagZeroIff |
| Coupling.JCom | quantum_sensing/hamiltonian_interaction_strength.py:10-16 | reference definition of `J_com` (every η is 0.1); JComIndexFree and JZigZagParity relate it to J_zig_zag |
| Coupling.JZigZagSymmetric | quantum_sensing/hamiltonian_interaction_strength.py:1-8 | J_zig_zag(i, j) = J_zig_zag(j, i) |
| Coupling.JZigZagParity | quantum_sensing/hamiltonian_interaction_strength.py:1-16 | J_zig_zag(i, j) is J_com when i and j have the same parity and −J_com otherwise |
| Coupling.JZigZagPeriodic | quantum_sensing/hamiltonian_interaction_strength.py:6-7 | shifting either index by 2 leaves J_zig_zag unchanged |
| Coupling.JComIndexFree | quantum_sensing/hamiltonian_interaction_strength.py:10-16 | J_com equals J_zig_zag(k, k) for every qubit k, so it depends on no index |
| Coupling.JZigZagZeroIff | quantum_sensing/hamiltonian_interaction_strength.py:8 | J_zig_zag is zero exactly when the Rabi frequency is 0 or μ is 0 (given μ² ≠ ω_m²) |
| Coupling.SignIsPower | quantum_sensing/hamiltonian_interaction_strength.py:6-7 | the parity-based sign equals Python's `(-1)**k` as a power: Pow(−1, k) for k ≥ 0, and the reciprocal of Pow(−1, −k) for negative k |
| Coupling.PowMinusOne | quantum_sensing/hamiltonian_interaction_strength.py:6-7 | (−1)^e is 1 for even e and −1 for odd e |
| Protocol.QubitPairs | quantum_sensing/circuit.py:23 | reference definition of `qubit_pairs`; QubitPairsExactlyOnce states its contents and order |
| Protocol.QubitPairsExactlyOnce | quantum_sensing/circuit.py:23 | (x, y) is listed iff x < y < n; the list is strictly lexicographic; it has n(n−1)/2 entries |
| Protocol.ShortChainHasNoPairs | quantum_sensing/circuit.py:23 | a chain of fewer than two qubits has no pair, so no coupling is evaluated |
| Protocol.InteractionStrengths | quantum_sensing/circuit.py:24 | one tuple per qubit pair |
| Protocol.InteractionStrengthsPerPair | quantum_sensing/circuit.py:24 | every tuple is (J_zig_zag(i, j), i, j) with i < j < n; every pair has its tuple; tuples follow the pairs' lexicographic order; n(n−1)/2 tuples |
| Protocol.IssueBlocks | quantum_sensing/circuit.py:29-33 | the block loop issues X(row[0]), XX(row[1]), ZZ(row[2]) per row and stops at the first missing or wrongly sized row |
| Protocol.RunCircuit | quantum_sensing/circuit.py:18-45 | the requests issued are exactly `Schedule`: Y(π/2), encoder, Z(φ), decoder, read-out, or the prefix issued before an exception |
| Protocol.Schedule | quantum_sensing/circuit.py:18-45 | reference definition of the request trace of a run; RunCircuit is proved equal to it, and ScheduleCompletesIff, ScheduleParts, ScheduleLayout, ScheduleEncoderBlock, ScheduleDecoderBlock, ScheduleWithoutBlocks and ScheduleRaisedMidRun describe it |
| Protocol.ScheduleCompletesIff | quantum_sensing/circuit.py:29-43 | the run completes iff both arrays hold `num_blocks` rows of three angles |
| Protocol.ScheduleParts | quantum_sensing/circuit.py:26-45 | a completed run is Y(π/2), the encoder blocks, Z(φ), the decoder blocks, the read-out, in this order |
| Protocol.ScheduleLayout | quantum_sensing/circuit.py:26-45 | 3 + 6b requests; the first is Y(π/2) on all qubits; Z(φ) sits at 1 + 3b, after every encoder request and before every decoder request; the read-out is the last request and the only one |
| Protocol.ScheduleEncoderBlock | quantum_sensing/circuit.py:29-33 | encoder block k is X(row[0]), XX(row[1]), ZZ(row[2]) at positions 1 + 3k .. 3 + 3k |
| Protocol.ScheduleDecoderBlock | quantum_sensing/circuit.py:39-43 | decoder block k is the same pattern from decoder row k at positions 2 + 3b + 3k .. 4 + 3b + 3k |
| Protocol.ScheduleWithoutBlocks | quantum_sensing/circuit.py:26-45 | with no blocks the run is Y(π/2), Z(φ), read-out |
| Protocol.ScheduleRaisedMidRun | quantum_sensing/circuit.py:26-43 | a run that raises has issued Y(π/2) and never reads out; a bad decoder row is found only after Z(φ) was issued |
| Protocol.BlocksLayout | quantum_sensing/circuit.py:29-33 | the block loop completes iff the rows are well shaped, and then issues three requests per row in order |
| Pennylane.SingleQubitGate | quantum_sensing/pennylane.py:14-19 | "x" gives RX, "y" gives RY, any other string gives RZ |
| Pennylane.TwoQubitGate | quantum_sensing/pennylane.py:29-34 | "x" gives IsingXX, "y" gives IsingYY, any other string gives IsingZZ |
| Pennylane.Circuit.constructor | quantum_sensing/pennylane.py:7-11 | the gate list starts empty |
| Pennylane.Circuit.SingleBodyInteraction | quantum_sensing/pennylane.py:13-26 | appends exactly n records, wire q at position q, each with φ = θ; earlier records unchanged |
| Pennylane.Circuit.DoubleBodyInteraction | quantum_sensing/pennylane.py:28-41 | appends one record per interaction in input order, φ = θ·J_ij on wires [i, j]; earlier records unchanged |
| Pennylane.Circuit.RunCircuit | quantum_sensing/pennylane.py:13-41 | the gate list grows by the records of every request the circuit issued, in order |
| Pennylane.BlockRecordCount | quantum_sensing/pennylane.py:21-41 | one block records n + 2·n(n−1)/2 = n² gates |
| Pennylane.BlocksRecordCount | quantum_sensing/pennylane.py:21-41 | b well-shaped blocks record b·n² gates |
| Pennylane.RunRecordCount | quantum_sensing/pennylane.py:21-41 | a completed run records 2n + 2·b·n² gates |
| StateVectors.ZeroState | quantum_sensing/quspin.py:12-15 | length 2^n, amplitude 1 at index 0 and 0 elsewhere |
| StateVectors.ZeroStateNormalised | quantum_sensing/quspin.py:12-15 | the read-out of the initial state is 1 at index 0, 0 elsewhere, and sums to 1 |
| StateVectors.NormSquared | quantum_sensing/quspin.py:44 | \|a\|² is non-negative, 0 for amplitude 0 and 1 for amplitude 1 |
| StateVectors.Probabilities | quantum_sensing/quspin.py:44 | one non-negative entry per amplitude |
| QuspinBackend.SingleBodyTerms | quantum_sensing/quspin.py:19 | one term per qubit 0 .. n−1 in order, on that qubit, with coefficient θ/2 |
| QuspinBackend.DoubleBodyTerms | quantum_sensing/quspin.py:30 | one term per interaction in order, coefficient θ·J, sites (i, j) preserved |
| QuspinBackend.SingleBodyHamiltonian | quantum_sensing/quspin.py:19-25 | the operator list of a single-body step: operator string `op`, terms SingleBodyTerms; Circuit.SingleBodyInteraction evolves by it |
| QuspinBackend.DoubleBodyHamiltonian | quantum_sensing/quspin.py:30-36 | the operator list of a double-body step: operator string `op`+`op`, terms DoubleBodyTerms; Circuit.DoubleBodyInteraction evolves by it, and Agreement.TwoBodyMatchesBackend equates it with the runner's |
| QuspinBackend.Circuit.constructor | quantum_sensing/quspin.py:10-16 | the state starts as \|0…0⟩ of 2^n amplitudes |
| QuspinBackend.Circuit.EvolveStateVector | quantum_sensing/quspin.py:40-41 | the state is replaced by its evolution under the operator list |
| QuspinBackend.Circuit.SingleBodyInteraction | quantum_sensing/quspin.py:18-27 | only the state changes: it evolves under operator string op with the single-body terms |
| QuspinBackend.Circuit.DoubleBodyInteraction | quantum_sensing/quspin.py:29-38 | only the state changes: it evolves under operator string op+op with the double-body terms |
| QuspinBackend.Circuit.CalculateProbabilities | quantum_sensing/quspin.py:43-44 | as many entries as amplitudes, each re² + im² ≥ 0; the state is untouched |
| QuspinBackend.Circuit.RunCircuit | quantum_sensing/quspin.py:18-44 | the state is evolved by every request issued, in order; a completed run returns the probabilities of the final state |
| QuspinBackend.EvolvedKeepsDimension | quantum_sensing/quspin.py:12-15 | with a length-preserving evolution every reachable state and its read-out have 2^n entries |
| QuspinRunner.RotationMatrix | circuit/quspin.py:10-25 | the 2×2 rotation written entry by entry equals cos(θ/2)·I − i·sin(θ/2)·P, with P the Pauli matrix X, Y or Z of the axis |
| QuspinRunner.Rotation | circuit/quspin.py:16-25 | `rx`, `ry`, `rz`: RotationMatrix at cos(θ/2) and sin(θ/2) of the parameter `trig` |
| QuspinRunner.Kron | circuit/quspin.py:29 | the Kronecker product with a 2×2 factor doubles the dimension, entry [r][c] = a[r/2][c/2]·m[r mod 2][c mod 2] |
| QuspinRunner.KronFold | circuit/quspin.py:28-29 | `reduce(np.kron, [m] * n)` for n ≥ 1 as a left fold, 2^n × 2^n; KronNEntries gives its entries |
| QuspinRunner.KronN | circuit/quspin.py:28-29 | `kron_n` yields a matrix exactly when n ≥ 1 (reduce over an empty list fails) |
| QuspinRunner.KronNEntries | circuit/quspin.py:28-29 | `kron_n(m, n)` is 2^n × 2^n and entry [r][c] is the product over qubits, in order, of m[bit of r][bit of c], qubit 0 the most significant bit |
| QuspinRunner.TwoBodyHamiltonian | circuit/quspin.py:44-52 | reference definition of `build_two_body_rotation`; TwoBodyTermsShape, TwoBodyTermsCoverPairs and TwoBodyTermsOrdered describe it, and Agreement.TwoBodyMatchesBackend equates it with the backend's |
| QuspinRunner.TwoBodyTermsShape | circuit/quspin.py:44-52 | operator string op+op; n(n−1)/2 terms, each on sites i < j < n with coefficient θ·J(i, j) |
| QuspinRunner.TwoBodyTermsCoverPairs | circuit/quspin.py:46-49 | every pair i < j < n has its term θ·J(i, j) on [i, j] |
| QuspinRunner.TwoBodyTermsOrdered | circuit/quspin.py:46-49 | terms follow the lexicographic order of their sites |
| QuspinRunner.Execute | circuit/quspin.py:70-88 | with a length-preserving evolution every step keeps 2^n amplitudes |
| QuspinRunner.RowsOperationsLayout | circuit/quspin.py:72-77 | row k contributes X(single), XX(θ), ZZ(θ) at positions 3k .. 3k+2, one shared θ |
| QuspinRunner.OperationsLayout | circuit/quspin.py:70-88 | 3 + 6b operations: RY(π/2) first; then exactly the encoder rows' operations; RZ(φ) at 1 + 3b; then exactly the decoder rows' operations; RX(π/2) last |
| QuspinRunner.OperationsEncoderRow | circuit/quspin.py:72-77 | encoder row k becomes X(row[0]), XX(row[1]), ZZ(row[1]) at positions 1 + 3k .. 3 + 3k, before RZ(φ) |
| QuspinRunner.OperationsDecoderRow | circuit/quspin.py:81-86 | decoder row k becomes X(row[0]), XX(row[1]), ZZ(row[1]) at positions 2 + 3b + 3k .. 4 + 3b + 3k, after RZ(φ) |
| QuspinRunner.HasShape | circuit/quspin.py:58-63 | `shape == (num_blocks, 2)` compares the whole shape tuple, so an empty array of another width or rank fails; an array that passes has num_blocks rows of two angles |
| QuspinRunner.Run | circuit/quspin.py:54-89 | reference definition of `run_circuit`'s result; RunOutcome states when it fails and what it returns, and RunCircuit is proved equal to it |
| QuspinRunner.RunOutcome | circuit/quspin.py:54-89 | fails with the encoder error iff the encoder array's shape tuple is not (b, 2), an empty array of the wrong width included; with the decoder error iff only the decoder shape is wrong; succeeds iff both shapes hold and n ≥ 1; a success returns 2^n amplitudes |
| QuspinRunner.EvolveRow | circuit/quspin.py:73-77 | one loop iteration applies `rx_all(single)`, then the XX and the ZZ evolution with the same θ, extending the state reached so far by exactly these three operations |
| QuspinRunner.EvolveRows | circuit/quspin.py:72-77 | one parameter loop carries the state through every row's three operations, in order |
| QuspinRunner.RunCircuit | circuit/quspin.py:54-89 | both shapes are checked before any state exists; then the state is evolved from \|0…0⟩ through the operations in order and returned as the final state vector |
| Agreement.SingleBodyAgreement | quantum_sensing/pennylane.py:21-26 | for a single-body request, pennylane record k and quspin term k are on the same qubit, and the gate angle is twice the term coefficient |
| Agreement.DoubleBodyAgreement | quantum_sensing/pennylane.py:36-41 | for a double-body request, record k and term k are on the same two qubits, and the gate angle equals the term coefficient θ·J |
| Agreement.TwoBodyMatchesBackend | circuit/quspin.py:44-52 | the runner's two-body operator is the quspin backend's double-body operator over the circuit's interaction list |

## Left out

- Matrix exponentials and quspin operators: `expm_multiply`, `expm_multiply_parallel`, `hamiltonian` and `spin_basis_1d` are foreign numerical library calls. The evolution is the parameter `evolve`, and an operator list is described by its operator string and terms.
- The unitarity of `rx`, `ry` and `rz` is not proved. Their entries are modelled (cos(θ/2)·I − i·sin(θ/2)·P), with cosine and sine as the parameter `trig`.
- The pennylane `calculate_probabilities` runs a qnode on a device. It is a library call, and only the gate list it replays is modelled.
- quantum_sensing/cirq.py and quantum_sensing/qiskit.py are thin wrappers around library circuit objects and simulators. They are not part of this model.
- benchmark.py and tests/perf_test.py (timing, memory tracing, random parameters, file output) are not part of this model.
- Floating point: angles, couplings and amplitudes are `real`, and no rounding is modelled. `np.pi` is modelled as the decimal 3.141592653589793.
- Division by zero: both coupling laws need μ² ≠ ω_m². Python would raise `ZeroDivisionError` there, or give inf/nan with numpy scalars. The model makes this a precondition wherever some coupling is evaluated: n ≥ 2 for the circuit, and for the runner also valid shapes and at least one block.
- `circuit.hamiltonian_parameters.J_zig_zag`, imported by circuit/quspin.py, is not part of this model. The runner uses the law of quantum_sensing/hamiltonian_interaction_strength.py in its place.
- Negative `num_qubits` or `num_blocks` are not modelled, since both are `nat`.
- Dictionaries: the circuit and Hamiltonian parameter dictionaries are datatypes, so a missing key (`KeyError`) is not modelled. The circuit's parameter arrays are sequences of rows. The runner's arrays carry their shape tuple as well, so the width of an empty array is kept; the entries of a runner array that is not two-dimensional are not represented, because the shape check rejects it before they are read.
- The pennylane device and the quspin basis object built in the constructors are not modelled.
- The probability dictionary of the circuit's docstring: the code returns whatever the backend's `calculate_probabilities` returns. The quspin backend returns an array, and the model follows that code.
