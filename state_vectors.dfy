/** Complex amplitudes as pairs of reals, the all-zero basis state, the
    probability read-out, and the description of a quspin operator list. The
    matrix exponential that quspin and scipy apply is not modelled: it is the
    function parameter `Evolution`. */
module StateVectors {

  datatype Complex = Complex(re: real, im: real)

  const Zero: Complex := Complex(0.0, 0.0)
  const One: Complex := Complex(1.0, 0.0)

  function Add(a: Complex, b: Complex): Complex {
    Complex(a.re + b.re, a.im + b.im)
  }

  function Mul(a: Complex, b: Complex): Complex {
    Complex(a.re * b.re - a.im * b.im, a.re * b.im + a.im * b.re)
  }

  /** |a|^2, the value numpy's `np.abs(a) ** 2` stands for. */
  function NormSquared(a: Complex): (r: real)
    ensures r >= 0.0
    ensures a == Zero ==> r == 0.0
    ensures a == One ==> r == 1.0
  {
    SquareNonNegative(a.re);
    SquareNonNegative(a.im);
    a.re * a.re + a.im * a.im
  }

  lemma SquareNonNegative(x: real)
    ensures x * x >= 0.0
  {
    if x < 0.0 {
      var y := -x;
      assert x * x == y * y;
    }
  }

  /** 2^n, the dimension of the state space of n qubits. */
  function Pow2(n: nat): (r: nat)
    ensures r >= 1
  {
    if n == 0 then 1 else 2 * Pow2(n - 1)
  }

  /** The basis state |0...0>: length 2^n, amplitude 1 at index 0, 0 elsewhere. */
  function ZeroState(n: nat): (v: seq<Complex>)
    ensures |v| == Pow2(n)
    ensures v[0] == One
    ensures forall k :: 0 < k < |v| ==> v[k] == Zero
  {
    seq(Pow2(n), k => if k == 0 then One else Zero)
  }

  /** Elementwise squared magnitude of a state vector. */
  function Probabilities(v: seq<Complex>): (p: seq<real>)
    ensures |p| == |v|
    ensures forall k :: 0 <= k < |p| ==> p[k] >= 0.0
  {
    seq(|v|, k requires 0 <= k < |v| => NormSquared(v[k]))
  }

  function Sum(s: seq<real>): real {
    if s == [] then 0.0 else Sum(s[..|s| - 1]) + s[|s| - 1]
  }

  /** A sequence that is 1 at index 0 and 0 everywhere else sums to 1. */
  lemma {:induction false} SumOfFirstIndicator(s: seq<real>)
    requires |s| >= 1 && s[0] == 1.0
    requires forall k :: 0 < k < |s| ==> s[k] == 0.0
    ensures Sum(s) == 1.0
  {
    if |s| > 1 {
      SumOfFirstIndicator(s[..|s| - 1]);
    } else {
      assert s[..0] == [];
    }
  }

  /** The read-out of the initial state is a normalised distribution
      concentrated on the basis state 0. */
  lemma ZeroStateNormalised(n: nat)
    ensures Probabilities(ZeroState(n))[0] == 1.0
    ensures forall k :: 0 < k < Pow2(n) ==> Probabilities(ZeroState(n))[k] == 0.0
    ensures Sum(Probabilities(ZeroState(n))) == 1.0
  {
    SumOfFirstIndicator(Probabilities(ZeroState(n)));
  }

  /** One weighted operator-string term: `[coefficient, site, site, ...]`. */
  datatype Term = Term(coefficient: real, sites: seq<int>)

  /** The static part of a quspin `hamiltonian`: one operator string and its terms. */
  datatype Hamiltonian = Hamiltonian(opstr: string, terms: seq<Term>)

  /** The action v |-> exp(-i H) v, computed by a library in the program. */
  type Evolution = (Hamiltonian, seq<Complex>) -> seq<Complex>

  /** The library's evolution keeps the dimension of the state. */
  ghost predicate PreservesLength(evolve: Evolution) {
    forall h: Hamiltonian, v: seq<Complex> :: |evolve(h, v)| == |v|
  }
}
