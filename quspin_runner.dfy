/** The stand-alone state-vector runner: it validates the parameter arrays,
    builds n-fold Kronecker powers of 2x2 rotations, and evolves a state vector
    step by step. Cosine and sine are the parameter `trig`; the sparse matrix
    exponential is the parameter `evolve`. */
module QuspinRunner {
  import opened Coupling
  import opened StateVectors
  import opened Protocol

  datatype Option<T> = None | Some(value: T)

  type Matrix = seq<seq<Complex>>

  predicate IsSquare(a: Matrix, d: nat) {
    |a| == d && forall r :: 0 <= r < d ==> |a[r]| == d
  }

  /** A 2x2 complex matrix such as `rx(theta)`. */
  type Mat2 = m: Matrix | IsSquare(m, 2) witness [[Zero, Zero], [Zero, Zero]]

  datatype Axis = X | Y | Z

  /** Cosine and sine, as the program's numerics library computes them. */
  datatype Trig = Trig(cos: real -> real, sin: real -> real)

  /** The identity `I`. */
  const Identity: Mat2 := [[One, Zero], [Zero, One]]

  /** The Pauli matrices `X`, `Y`, `Z`. */
  function Pauli(axis: Axis): Mat2 {
    match axis
    case X => [[Zero, One], [One, Zero]]
    case Y => [[Zero, Complex(0.0, -1.0)], [Complex(0.0, 1.0), Zero]]
    case Z => [[One, Zero], [Zero, Complex(-1.0, 0.0)]]
  }

  /** The rotation about an axis, written out entry by entry, given
      c = cos(theta/2) and s = sin(theta/2): each entry is that of
      c I - i s P for the Pauli matrix P of the axis. */
  function RotationMatrix(axis: Axis, c: real, s: real): (r: Mat2)
    ensures forall a, b :: 0 <= a < 2 && 0 <= b < 2 ==>
      r[a][b] == Add(Mul(Complex(c, 0.0), Identity[a][b]), Mul(Complex(0.0, -s), Pauli(axis)[a][b]))
  {
    match axis
    case X => [[Complex(c, 0.0), Complex(0.0, -s)], [Complex(0.0, -s), Complex(c, 0.0)]]
    case Y => [[Complex(c, 0.0), Complex(-s, 0.0)], [Complex(s, 0.0), Complex(c, 0.0)]]
    case Z => [[Complex(c, -s), Zero], [Zero, Complex(c, s)]]
  }

  /** `rx`, `ry`, `rz`. */
  function Rotation(trig: Trig, axis: Axis, theta: real): Mat2 {
    RotationMatrix(axis, trig.cos(theta / 2.0), trig.sin(theta / 2.0))
  }

  /** `np.kron(a, m)` for a square `a` and a 2x2 `m`. */
  function Kron(a: Matrix, m: Mat2): (k: Matrix)
    requires IsSquare(a, |a|)
    ensures IsSquare(k, 2 * |a|)
    ensures forall r, c :: 0 <= r < 2 * |a| && 0 <= c < 2 * |a| ==>
      k[r][c] == Mul(a[r / 2][c / 2], m[r % 2][c % 2])
  {
    seq(2 * |a|, r requires 0 <= r < 2 * |a| =>
      seq(2 * |a|, c requires 0 <= c < 2 * |a| => Mul(a[r / 2][c / 2], m[r % 2][c % 2])))
  }

  /** `reduce(np.kron, [m] * n)` for n >= 1: ((m (x) m) (x) m) ... */
  function KronFold(m: Mat2, n: nat): (k: Matrix)
    requires n >= 1
    ensures IsSquare(k, Pow2(n))
  {
    if n == 1 then m else Kron(KronFold(m, n - 1), m)
  }

  /** `kron_n`; `None` is the TypeError that `reduce` raises on an empty list. */
  function KronN(m: Mat2, n: nat): (r: Option<Matrix>)
    ensures r.Some? <==> n >= 1
  {
    if n == 0 then None else Some(KronFold(m, n))
  }

  /** The bit of basis index x that belongs to qubit q of n; qubit 0 is the
      most significant bit. */
  function QubitBit(x: nat, n: nat, q: nat): nat
    requires q < n
  {
    (x / Pow2(n - 1 - q)) % 2
  }

  /** The product, over qubits 0 .. k - 1 in this order, of m[bit of r][bit of c]. */
  function QubitProduct(m: Mat2, r: nat, c: nat, n: nat, k: nat): Complex
    requires 1 <= k <= n
  {
    var f := m[QubitBit(r, n, k - 1)][QubitBit(c, n, k - 1)];
    if k == 1 then f else Mul(QubitProduct(m, r, c, n, k - 1), f)
  }

  lemma MulAtLeast(a: int, d: int)
    requires a >= 1 && d >= 0
    ensures a * d >= d
  {
  }

  lemma DivisionUnique(x: nat, d: nat, q: nat, s: nat)
    requires d > 0 && x == q * d + s && s < d
    ensures x / d == q
  {
    var q': int, s': int := x / d, x % d;
    assert q' * d + s' == q * d + s;
    if q' < q {
      MulAtLeast(q - q', d);
    } else if q' > q {
      MulAtLeast(q' - q, d);
    }
  }

  /** Dropping the last bit shifts every other qubit's bit position by one. */
  lemma DivTwice(x: nat, p: nat)
    requires p >= 1
    ensures x / (2 * p) == (x / 2) / p
  {
    var a := x / 2;
    var b, s := a / p, a % p;
    assert a == b * p + s;
    assert x == b * (2 * p) + (2 * s + x % 2);
    DivisionUnique(x, 2 * p, b, 2 * s + x % 2);
  }

  lemma QubitBitShift(x: nat, n: nat, q: nat)
    requires q < n - 1
    ensures QubitBit(x, n, q) == QubitBit(x / 2, n - 1, q)
  {
    assert Pow2(n - 1 - q) == 2 * Pow2(n - 2 - q);
    DivTwice(x, Pow2(n - 2 - q));
  }

  lemma {:induction false} QubitProductShift(m: Mat2, r: nat, c: nat, n: nat, k: nat)
    requires 1 <= k < n
    ensures QubitProduct(m, r, c, n, k) == QubitProduct(m, r / 2, c / 2, n - 1, k)
  {
    QubitBitShift(r, n, k - 1);
    QubitBitShift(c, n, k - 1);
    if k > 1 {
      QubitProductShift(m, r, c, n, k - 1);
    }
  }

  /** `kron_n(m, n)` is 2^n x 2^n, and entry [r][c] is the product over the
      qubits, in order, of m[bit of r][bit of c], qubit 0 being the most
      significant bit. */
  lemma {:induction false} KronNEntries(m: Mat2, n: nat, r: nat, c: nat)
    requires n >= 1 && r < Pow2(n) && c < Pow2(n)
    ensures KronN(m, n).Some?
    ensures IsSquare(KronN(m, n).value, Pow2(n))
    ensures KronN(m, n).value[r][c] == QubitProduct(m, r, c, n, n)
  {
    if n > 1 {
      KronNEntries(m, n - 1, r / 2, c / 2);
      QubitProductShift(m, r, c, n, n - 1);
      assert QubitBit(r, n, n - 1) == r % 2;
      assert QubitBit(c, n, n - 1) == c % 2;
    }
  }

  /** `build_two_body_rotation`: one term per qubit pair i < j, in
      lexicographic order, with coefficient theta * J(i, j). */
  function TwoBodyHamiltonian(op: string, theta: real, hp: HamiltonianParameters, n: nat): Hamiltonian
    requires n >= 2 ==> WellDefined(hp)
  {
    var pairs := QubitPairs(n);
    ShortChainHasNoPairs(n);
    Hamiltonian(op + op, seq(|pairs|, k requires 0 <= k < |pairs| =>
      Term(theta * JZigZag(pairs[k].0, pairs[k].1, hp), [pairs[k].0, pairs[k].1])))
  }

  /** Every term lies on two sites i < j < n with coefficient theta * J(i, j),
      and there are n(n-1)/2 terms. */
  lemma TwoBodyTermsShape(op: string, theta: real, hp: HamiltonianParameters, n: nat)
    requires WellDefined(hp)
    ensures var h := TwoBodyHamiltonian(op, theta, hp, n);
      h.opstr == op + op &&
      |h.terms| == n * (n - 1) / 2 &&
      (forall k :: 0 <= k < |h.terms| ==>
        |h.terms[k].sites| == 2 && 0 <= h.terms[k].sites[0] < h.terms[k].sites[1] < n &&
        h.terms[k].coefficient == theta * JZigZag(h.terms[k].sites[0], h.terms[k].sites[1], hp))
  {
    var pairs, h := QubitPairs(n), TwoBodyHamiltonian(op, theta, hp, n);
    assert |pairs| == n * (n - 1) / 2 by {
      QubitPairsExactlyOnce(n);
    }
    PairsFromBounds(0, n);
    forall k | 0 <= k < |h.terms|
      ensures |h.terms[k].sites| == 2 && 0 <= h.terms[k].sites[0] < h.terms[k].sites[1] < n
      ensures h.terms[k].coefficient == theta * JZigZag(h.terms[k].sites[0], h.terms[k].sites[1], hp)
    {
      assert h.terms[k] == Term(theta * JZigZag(pairs[k].0, pairs[k].1, hp), [pairs[k].0, pairs[k].1]);
    }
  }

  /** Every pair i < j < n has its term theta * J(i, j) on sites [i, j]. */
  lemma TwoBodyTermsCoverPairs(op: string, theta: real, hp: HamiltonianParameters, n: nat)
    requires WellDefined(hp)
    ensures forall x: nat, y: nat :: x < y < n ==>
      Term(theta * JZigZag(x, y, hp), [x, y]) in TwoBodyHamiltonian(op, theta, hp, n).terms
  {
    var pairs, h := QubitPairs(n), TwoBodyHamiltonian(op, theta, hp, n);
    forall x: nat, y: nat | x < y < n
      ensures Term(theta * JZigZag(x, y, hp), [x, y]) in h.terms
    {
      PairsFromComplete(0, n, x, y);
      var k :| 0 <= k < |pairs| && pairs[k] == (x, y);
      assert h.terms[k] == Term(theta * JZigZag(x, y, hp), [x, y]);
    }
  }

  /** The terms follow the lexicographic order of their sites. */
  lemma TwoBodyTermsOrdered(op: string, theta: real, hp: HamiltonianParameters, n: nat)
    requires WellDefined(hp)
    ensures var h := TwoBodyHamiltonian(op, theta, hp, n);
      forall a, b :: 0 <= a < b < |h.terms| ==>
        |h.terms[a].sites| == 2 && |h.terms[b].sites| == 2 &&
        LexLess((h.terms[a].sites[0], h.terms[a].sites[1]), (h.terms[b].sites[0], h.terms[b].sites[1]))
  {
    var pairs, h := QubitPairs(n), TwoBodyHamiltonian(op, theta, hp, n);
    QubitPairsExactlyOnce(n);
    forall a, b | 0 <= a < b < |h.terms|
      ensures |h.terms[a].sites| == 2 && |h.terms[b].sites| == 2
      ensures LexLess((h.terms[a].sites[0], h.terms[a].sites[1]), (h.terms[b].sites[0], h.terms[b].sites[1]))
    {
      assert (h.terms[a].sites[0], h.terms[a].sites[1]) == pairs[a];
      assert (h.terms[b].sites[0], h.terms[b].sites[1]) == pairs[b];
    }
  }

  /** One step of the runner: a rotation of every qubit, or a two-body evolution. */
  datatype Operation = Rotate(axis: Axis, angle: real) | Interact(op: string, theta: real)

  /** One parameter row (single, theta): X(single), then XX and ZZ, both with theta. */
  function RowOperations(row: seq<real>): seq<Operation>
    requires |row| == 2
  {
    [Rotate(X, row[0]), Interact("x", row[1]), Interact("z", row[1])]
  }

  predicate PairRows(rows: seq<seq<real>>) {
    forall k :: 0 <= k < |rows| ==> |rows[k]| == 2
  }

  /** The operations of the rows, in order. */
  function RowsOperations(rows: seq<seq<real>>): (ops: seq<Operation>)
    requires PairRows(rows)
  {
    if rows == [] then [] else RowsOperations(rows[..|rows| - 1]) + RowOperations(rows[|rows| - 1])
  }

  /** The order of operations of a run. */
  function Operations(phi: real, encoder: seq<seq<real>>, decoder: seq<seq<real>>): seq<Operation>
    requires PairRows(encoder) && PairRows(decoder)
  {
    [Rotate(Y, HalfPi)] + RowsOperations(encoder) + [Rotate(Z, phi)] + RowsOperations(decoder) + [Rotate(X, HalfPi)]
  }

  /** A numpy parameter array: its shape tuple and, when it has two
      dimensions, its rows. */
  datatype ParameterArray = ParameterArray(shape: seq<nat>, rows: seq<seq<real>>)

  /** The rows agree with the shape: shape (r, c) means r rows of c entries.
      The entries of an array of any other rank are never read, so they are
      not represented. */
  predicate Consistent(a: ParameterArray) {
    if |a.shape| == 2 then
      |a.rows| == a.shape[0] && forall k :: 0 <= k < |a.rows| ==> |a.rows[k]| == a.shape[1]
    else
      a.rows == []
  }

  /** An array the program can be handed; an empty array keeps its width. */
  type NdArray = a: ParameterArray | Consistent(a) witness ParameterArray([0], [])

  /** `circuit_parameters` of the runner; each parameter row is (single, theta). */
  datatype RunnerParameters = RunnerParameters(
    numQubits: nat,
    numBlocks: nat,
    encoderParameters: NdArray,
    decoderParameters: NdArray,
    phi: real)

  /** numBlocks rows of two angles each. */
  predicate ShapedRows(rows: seq<seq<real>>, numBlocks: nat) {
    |rows| == numBlocks && PairRows(rows)
  }

  /** `array.shape == (num_blocks, 2)`: the shape tuple itself is compared, so
      an empty array of another width or rank fails too; a passing array has
      num_blocks rows of two angles. */
  predicate HasShape(a: NdArray, numBlocks: nat)
    ensures HasShape(a, numBlocks) ==> ShapedRows(a.rows, numBlocks)
  {
    a.shape == [numBlocks, 2]
  }

  /** A coupling is computed only for a valid run with at least one block and
      at least one pair. */
  predicate CouplingEvaluated(cp: RunnerParameters) {
    HasShape(cp.encoderParameters, cp.numBlocks) && HasShape(cp.decoderParameters, cp.numBlocks) &&
    cp.numBlocks > 0 && cp.numQubits >= 2
  }

  /** What the program and its libraries supply to a run. */
  datatype Setting = Setting(numQubits: nat, hp: HamiltonianParameters, trig: Trig, evolve: Evolution)

  ghost predicate Usable(s: Setting) {
    s.numQubits >= 1 && PreservesLength(s.evolve)
  }

  /** Some operation is a two-body evolution. */
  predicate Interacts(ops: seq<Operation>) {
    ops != [] && (ops[|ops| - 1].Interact? || Interacts(ops[..|ops| - 1]))
  }

  /** Every two-body step can compute its couplings: there is none, there is
      no pair of qubits, or the coupling law is defined. */
  predicate CouplingsDefined(s: Setting, ops: seq<Operation>) {
    s.numQubits >= 2 && Interacts(ops) ==> WellDefined(s.hp)
  }

  lemma {:induction false} InteractsExtends(a: seq<Operation>, b: seq<Operation>)
    ensures Interacts(a) ==> Interacts(a + b)
    decreases |b|
  {
    if b != [] {
      assert (a + b)[..|a + b| - 1] == a + b[..|b| - 1];
      InteractsExtends(a, b[..|b| - 1]);
    } else {
      assert a + b == a;
    }
  }

  function Dot(row: seq<Complex>, v: seq<Complex>): Complex
    requires |row| == |v|
  {
    if row == [] then Zero
    else Add(Dot(row[..|row| - 1], v[..|v| - 1]), Mul(row[|row| - 1], v[|v| - 1]))
  }

  /** The matrix product `m @ v`. */
  function MatVec(m: Matrix, v: seq<Complex>): (w: seq<Complex>)
    requires forall r :: 0 <= r < |m| ==> |m[r]| == |v|
    ensures |w| == |m|
  {
    seq(|m|, r requires 0 <= r < |m| => Dot(m[r], v))
  }

  /** The state after one operation. */
  function Apply(s: Setting, op: Operation, v: seq<Complex>): (w: seq<Complex>)
    requires Usable(s) && |v| == Pow2(s.numQubits)
    requires op.Interact? ==> (s.numQubits >= 2 ==> WellDefined(s.hp))
    ensures |w| == Pow2(s.numQubits)
  {
    match op
    case Rotate(axis, angle) => MatVec(KronFold(Rotation(s.trig, axis, angle), s.numQubits), v)
    case Interact(o, theta) => s.evolve(TwoBodyHamiltonian(o, theta, s.hp, s.numQubits), v)
  }

  /** The state after a sequence of operations, applied in order. */
  function Execute(s: Setting, ops: seq<Operation>, v: seq<Complex>): (w: seq<Complex>)
    requires Usable(s) && |v| == Pow2(s.numQubits) && CouplingsDefined(s, ops)
    ensures |w| == Pow2(s.numQubits)
  {
    if ops == [] then v
    else
      Apply(s, ops[|ops| - 1], Execute(s, ops[..|ops| - 1], v))
  }

  /** How `run_circuit` ends: the final state vector, or the error it raises. */
  datatype RunError = EncoderShape | DecoderShape | EmptyKron
  datatype RunResult = Ok(stateVector: seq<Complex>) | Err(error: RunError)

  lemma OperationsCouplingsDefined(s: Setting, cp: RunnerParameters)
    requires HasShape(cp.encoderParameters, cp.numBlocks) && HasShape(cp.decoderParameters, cp.numBlocks)
    requires s.numQubits == cp.numQubits && s.numQubits >= 1
    requires CouplingEvaluated(cp) ==> WellDefined(s.hp)
    ensures CouplingsDefined(s, Operations(cp.phi, cp.encoderParameters.rows, cp.decoderParameters.rows))
  {
    var ops := Operations(cp.phi, cp.encoderParameters.rows, cp.decoderParameters.rows);
    if cp.numBlocks == 0 {
      assert cp.encoderParameters.rows == [] && cp.decoderParameters.rows == [];
      assert ops == [Rotate(Y, HalfPi), Rotate(Z, cp.phi), Rotate(X, HalfPi)];
      var first, second := [Rotate(Y, HalfPi)], [Rotate(Y, HalfPi), Rotate(Z, cp.phi)];
      assert first[..0] == [] && !Interacts(first);
      assert second[..1] == first && !Interacts(second);
      assert ops[..2] == second && !Interacts(ops);
    }
  }

  /** What `run_circuit` computes: both shapes are checked before anything
      else, then `kron_n` must have at least one factor, then the operations
      are applied to |0...0> and the final state vector is returned. */
  function Run(cp: RunnerParameters, s: Setting): (r: RunResult)
    requires Usable(s) || s.numQubits == 0
    requires PreservesLength(s.evolve)
    requires s.numQubits == cp.numQubits
    requires CouplingEvaluated(cp) ==> WellDefined(s.hp)
  {
    if !HasShape(cp.encoderParameters, cp.numBlocks) then Err(EncoderShape)
    else if !HasShape(cp.decoderParameters, cp.numBlocks) then Err(DecoderShape)
    else if cp.numQubits == 0 then Err(EmptyKron)
    else
      OperationsCouplingsDefined(s, cp);
      Ok(Execute(s, Operations(cp.phi, cp.encoderParameters.rows, cp.decoderParameters.rows), ZeroState(cp.numQubits)))
  }

  /** A run fails exactly on a malformed encoder array, then a malformed decoder
      array, then an empty chain, in this order of precedence; a run that does
      not fail returns a state vector of 2^n amplitudes. */
  lemma RunOutcome(cp: RunnerParameters, s: Setting)
    requires Usable(s) || s.numQubits == 0
    requires PreservesLength(s.evolve)
    requires s.numQubits == cp.numQubits
    requires CouplingEvaluated(cp) ==> WellDefined(s.hp)
    ensures Run(cp, s) == Err(EncoderShape) <==> !HasShape(cp.encoderParameters, cp.numBlocks)
    ensures Run(cp, s) == Err(DecoderShape) <==>
      HasShape(cp.encoderParameters, cp.numBlocks) && !HasShape(cp.decoderParameters, cp.numBlocks)
    ensures Run(cp, s).Ok? <==>
      HasShape(cp.encoderParameters, cp.numBlocks) && HasShape(cp.decoderParameters, cp.numBlocks) && cp.numQubits >= 1
    ensures Run(cp, s).Ok? ==> |Run(cp, s).stateVector| == Pow2(cp.numQubits)
  {
  }

  lemma {:induction false} RowsOperationsLayout(rows: seq<seq<real>>)
    requires PairRows(rows)
    ensures |RowsOperations(rows)| == 3 * |rows|
    ensures forall k :: 0 <= k < |rows| ==>
      RowsOperations(rows)[3 * k] == Rotate(X, rows[k][0]) &&
      RowsOperations(rows)[3 * k + 1] == Interact("x", rows[k][1]) &&
      RowsOperations(rows)[3 * k + 2] == Interact("z", rows[k][1])
  {
    if rows != [] {
      var front := rows[..|rows| - 1];
      RowsOperationsLayout(front);
      forall k | 0 <= k < |rows| - 1
        ensures RowsOperations(rows)[3 * k] == Rotate(X, rows[k][0])
        ensures RowsOperations(rows)[3 * k + 1] == Interact("x", rows[k][1])
        ensures RowsOperations(rows)[3 * k + 2] == Interact("z", rows[k][1])
      {
        assert front[k] == rows[k];
      }
    }
  }

  /** The operations of a run are the preparation, the encoder rows, the
      sensing rotation, the decoder rows and the final X(pi/2), in this order:
      3 + 6 * num_blocks operations. */
  lemma OperationsLayout(phi: real, encoder: seq<seq<real>>, decoder: seq<seq<real>>, numBlocks: nat)
    requires ShapedRows(encoder, numBlocks) && ShapedRows(decoder, numBlocks)
    ensures var ops := Operations(phi, encoder, decoder);
      |ops| == 3 + 6 * numBlocks &&
      ops[0] == Rotate(Y, HalfPi) &&
      ops[1 + 3 * numBlocks] == Rotate(Z, phi) &&
      ops[2 + 6 * numBlocks] == Rotate(X, HalfPi) &&
      ops[1..1 + 3 * numBlocks] == RowsOperations(encoder) &&
      ops[2 + 3 * numBlocks..2 + 6 * numBlocks] == RowsOperations(decoder)
  {
    RowsOperationsLayout(encoder);
    RowsOperationsLayout(decoder);
    var enc, dec := RowsOperations(encoder), RowsOperations(decoder);
    var middle := [Rotate(Y, HalfPi)] + enc + [Rotate(Z, phi)];
    var ops := Operations(phi, encoder, decoder);
    assert ops == middle + dec + [Rotate(X, HalfPi)];
    assert ops[..|middle|] == middle;
    assert middle[1..1 + 3 * numBlocks] == enc;
  }

  /** Encoder row k gives X(single), XX(theta), ZZ(theta) at positions
      1 + 3k .. 3 + 3k: one shared theta. */
  lemma OperationsEncoderRow(phi: real, encoder: seq<seq<real>>, decoder: seq<seq<real>>, numBlocks: nat, k: nat)
    requires ShapedRows(encoder, numBlocks) && ShapedRows(decoder, numBlocks) && k < numBlocks
    ensures var ops := Operations(phi, encoder, decoder);
      |ops| == 3 + 6 * numBlocks &&
      ops[1 + 3 * k] == Rotate(X, encoder[k][0]) &&
      ops[2 + 3 * k] == Interact("x", encoder[k][1]) &&
      ops[3 + 3 * k] == Interact("z", encoder[k][1])
  {
    OperationsLayout(phi, encoder, decoder, numBlocks);
    RowsOperationsLayout(encoder);
    var ops, enc := Operations(phi, encoder, decoder), RowsOperations(encoder);
    assert ops[1 + 3 * k] == ops[1..1 + 3 * numBlocks][3 * k] == enc[3 * k];
    assert ops[2 + 3 * k] == ops[1..1 + 3 * numBlocks][3 * k + 1] == enc[3 * k + 1];
    assert ops[3 + 3 * k] == ops[1..1 + 3 * numBlocks][3 * k + 2] == enc[3 * k + 2];
  }

  /** Decoder row k gives the same three operations at positions
      2 + 3b + 3k .. 4 + 3b + 3k. */
  lemma OperationsDecoderRow(phi: real, encoder: seq<seq<real>>, decoder: seq<seq<real>>, numBlocks: nat, k: nat)
    requires ShapedRows(encoder, numBlocks) && ShapedRows(decoder, numBlocks) && k < numBlocks
    ensures var ops, b := Operations(phi, encoder, decoder), numBlocks;
      |ops| == 3 + 6 * b &&
      ops[2 + 3 * b + 3 * k] == Rotate(X, decoder[k][0]) &&
      ops[3 + 3 * b + 3 * k] == Interact("x", decoder[k][1]) &&
      ops[4 + 3 * b + 3 * k] == Interact("z", decoder[k][1])
  {
    var b := numBlocks;
    OperationsLayout(phi, encoder, decoder, b);
    RowsOperationsLayout(decoder);
    var ops, dec := Operations(phi, encoder, decoder), RowsOperations(decoder);
    var part := ops[2 + 3 * b..2 + 6 * b];
    assert ops[2 + 3 * b + 3 * k] == part[3 * k] == dec[3 * k];
    assert ops[3 + 3 * b + 3 * k] == part[3 * k + 1] == dec[3 * k + 1];
    assert ops[4 + 3 * b + 3 * k] == part[3 * k + 2] == dec[3 * k + 2];
  }

  /** Appending one operation applies it to the state reached so far. */
  lemma ExecuteSnoc(s: Setting, ops: seq<Operation>, op: Operation, v: seq<Complex>)
    requires Usable(s) && |v| == Pow2(s.numQubits) && CouplingsDefined(s, ops + [op])
    ensures CouplingsDefined(s, ops)
    ensures op.Interact? ==> (s.numQubits >= 2 ==> WellDefined(s.hp))
    ensures Execute(s, ops + [op], v) == Apply(s, op, Execute(s, ops, v))
  {
    assert (ops + [op])[..|ops|] == ops;
  }

  /** With no pair of qubits, or a defined coupling law, every sequence of
      operations can be carried out. */
  lemma CouplingsAlwaysDefined(s: Setting, ops: seq<Operation>)
    requires s.numQubits >= 2 ==> WellDefined(s.hp)
    ensures CouplingsDefined(s, ops)
  {
  }

  /** One iteration of a parameter loop of `run_circuit`: `rx_all(single)`,
      then the XX and the ZZ evolutions with the same theta. */
  method EvolveRow(s: Setting, row: seq<real>, ghost before: seq<Operation>, v: seq<Complex>)
    returns (w: seq<Complex>)
    requires Usable(s) && |row| == 2 && |v| == Pow2(s.numQubits)
    requires s.numQubits >= 2 ==> WellDefined(s.hp)
    requires CouplingsDefined(s, before) && v == Execute(s, before, ZeroState(s.numQubits))
    ensures CouplingsDefined(s, before + RowOperations(row))
    ensures w == Execute(s, before + RowOperations(row), ZeroState(s.numQubits))
  {
    var n := s.numQubits;
    var single, theta := row[0], row[1];
    ghost var withX := before + [Rotate(X, single)];
    ghost var withXX := withX + [Interact("x", theta)];
    assert before + RowOperations(row) == withXX + [Interact("z", theta)];
    CouplingsAlwaysDefined(s, withXX + [Interact("z", theta)]);
    ExecuteSnoc(s, withXX, Interact("z", theta), ZeroState(n));
    ExecuteSnoc(s, withX, Interact("x", theta), ZeroState(n));
    ExecuteSnoc(s, before, Rotate(X, single), ZeroState(n));
    var rotation := KronN(Rotation(s.trig, X, single), n);
    w := MatVec(rotation.value, v);
    var xx := TwoBodyHamiltonian("x", theta, s.hp, n);
    w := s.evolve(xx, w);
    var zz := TwoBodyHamiltonian("z", theta, s.hp, n);
    w := s.evolve(zz, w);
  }

  /** One `for single_rotation, theta in parameters` loop of `run_circuit`:
      the state reached after `done` is carried through every row's operations. */
  method EvolveRows(s: Setting, rows: seq<seq<real>>, ghost done: seq<Operation>, v: seq<Complex>)
    returns (w: seq<Complex>)
    requires Usable(s) && PairRows(rows) && |v| == Pow2(s.numQubits)
    requires |rows| > 0 && s.numQubits >= 2 ==> WellDefined(s.hp)
    requires CouplingsDefined(s, done) && v == Execute(s, done, ZeroState(s.numQubits))
    ensures CouplingsDefined(s, done + RowsOperations(rows))
    ensures w == Execute(s, done + RowsOperations(rows), ZeroState(s.numQubits))
  {
    var n := s.numQubits;
    w := v;
    assert done + RowsOperations(rows[..0]) == done;
    for k := 0 to |rows|
      invariant CouplingsDefined(s, done + RowsOperations(rows[..k]))
      invariant w == Execute(s, done + RowsOperations(rows[..k]), ZeroState(n))
    {
      assert rows[..k + 1][..k] == rows[..k];
      assert done + RowsOperations(rows[..k + 1]) == (done + RowsOperations(rows[..k])) + RowOperations(rows[k]);
      w := EvolveRow(s, rows[k], done + RowsOperations(rows[..k]), w);
    }
    assert rows[..|rows|] == rows;
  }

  /** `run_circuit`: validates both parameter arrays before building any
      state, then evolves |0...0> through the operations in order and returns
      the final state vector. */
  method RunCircuit(cp: RunnerParameters, hp: HamiltonianParameters, trig: Trig, evolve: Evolution)
    returns (r: RunResult)
    requires PreservesLength(evolve)
    requires CouplingEvaluated(cp) ==> WellDefined(hp)
    ensures r == Run(cp, Setting(cp.numQubits, hp, trig, evolve))
  {
    var n := cp.numQubits;
    var s := Setting(n, hp, trig, evolve);
    if !HasShape(cp.encoderParameters, cp.numBlocks) {
      return Err(EncoderShape);
    }
    if !HasShape(cp.decoderParameters, cp.numBlocks) {
      return Err(DecoderShape);
    }
    var rxHalfPi := KronN(Rotation(trig, X, HalfPi), n);
    var ryHalfPi := KronN(Rotation(trig, Y, HalfPi), n);
    if rxHalfPi.None? {
      return Err(EmptyKron);
    }

    OperationsCouplingsDefined(s, cp);
    ghost var ops := Operations(cp.phi, cp.encoderParameters.rows, cp.decoderParameters.rows);
    ghost var encoderOps := RowsOperations(cp.encoderParameters.rows);
    ghost var decoderOps := RowsOperations(cp.decoderParameters.rows);
    ghost var start := [Rotate(Y, HalfPi)];
    ghost var sensed := start + encoderOps + [Rotate(Z, cp.phi)];
    assert ops == sensed + decoderOps + [Rotate(X, HalfPi)];

    var stateVector := seq(Pow2(n), k => Zero);
    stateVector := stateVector[0 := One];
    assert stateVector == ZeroState(n);

    stateVector := MatVec(ryHalfPi.value, stateVector);
    assert CouplingsDefined(s, start) && stateVector == Execute(s, start, ZeroState(n)) by {
      assert start[..0] == [] && !Interacts(start);
      assert [] + [Rotate(Y, HalfPi)] == start;
      assert Usable(s) && |ZeroState(n)| == Pow2(n);
      ExecuteSnoc(s, [], Rotate(Y, HalfPi), ZeroState(n));
    }

    stateVector := EvolveRows(s, cp.encoderParameters.rows, start, stateVector);

    assert CouplingsDefined(s, sensed) by {
      CouplingsPrefix(s, ops, |sensed|);
      assert ops[..|sensed|] == sensed;
    }
    ExecuteSnoc(s, start + encoderOps, Rotate(Z, cp.phi), ZeroState(n));
    var rzPhi := KronN(Rotation(trig, Z, cp.phi), n);
    stateVector := MatVec(rzPhi.value, stateVector);

    stateVector := EvolveRows(s, cp.decoderParameters.rows, sensed, stateVector);

    ExecuteSnoc(s, sensed + decoderOps, Rotate(X, HalfPi), ZeroState(n));
    stateVector := MatVec(rxHalfPi.value, stateVector);
    return Ok(stateVector);
  }

  lemma CouplingsPrefix(s: Setting, ops: seq<Operation>, k: nat)
    requires k <= |ops| && CouplingsDefined(s, ops)
    ensures CouplingsDefined(s, ops[..k])
  {
    assert ops[..k] + ops[k..] == ops;
    InteractsExtends(ops[..k], ops[k..]);
  }
}
