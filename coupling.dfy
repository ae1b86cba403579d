/** The zig-zag coupling law between two ions of the chain, and its uniform
    ("centre-of-mass") variant. Quantities that are floats in the program are
    `real` here; no rounding is modelled. */
module Coupling {

  /** The three physical constants of a run. */
  datatype HamiltonianParameters = HamiltonianParameters(rabiFrequency: real, omegaM: real, mu: real)

  /** Both laws divide by mu^2 - omega_m^2 without a guard. */
  predicate WellDefined(p: HamiltonianParameters) {
    p.mu * p.mu != p.omegaM * p.omegaM
  }

  /** (-1)^k for an integer exponent k. */
  function Sign(k: int): (s: real)
    ensures s == 1.0 <==> k % 2 == 0
    ensures s == -1.0 <==> k % 2 == 1
  {
    if k % 2 == 0 then 1.0 else -1.0
  }

  /** b^e for a natural exponent: e factors of b. */
  function Pow(b: real, e: nat): real {
    if e == 0 then 1.0 else b * Pow(b, e - 1)
  }

  /** (-1)^e alternates between 1 and -1 with the parity of e. */
  lemma {:induction false} PowMinusOne(e: nat)
    ensures Pow(-1.0, e) == if e % 2 == 0 then 1.0 else -1.0
  {
    if e > 0 {
      PowMinusOne(e - 1);
    }
  }

  /** `Sign(k)` is Python's `(-1)**k`: the power itself for k >= 0, and for
      k < 0 the reciprocal of (-1)^(-k). */
  lemma SignIsPower(k: int)
    ensures k >= 0 ==> Sign(k) == Pow(-1.0, k)
    ensures k < 0 ==> Sign(k) * Pow(-1.0, -k) == 1.0
  {
    if k >= 0 {
      PowMinusOne(k);
    } else {
      PowMinusOne(-k);
      assert (-k) % 2 == k % 2;
    }
  }

  /** Lamb-Dicke factor of qubit k in the zig-zag mode: 0.1 * (-1)^k. */
  function Eta(k: int): real {
    0.1 * Sign(k)
  }

  /** Coupling strength J_ij of the zig-zag mode. */
  function JZigZag(i: int, j: int, p: HamiltonianParameters): real
    requires WellDefined(p)
  {
    (p.rabiFrequency * p.rabiFrequency) * Eta(i) * Eta(j) * p.mu / (p.mu * p.mu - p.omegaM * p.omegaM)
  }

  /** Coupling strength of the centre-of-mass mode (every eta is 0.1). */
  function JCom(p: HamiltonianParameters): real
    requires WellDefined(p)
  {
    (p.rabiFrequency * p.rabiFrequency) * 0.1 * 0.1 * p.mu / (p.mu * p.mu - p.omegaM * p.omegaM)
  }

  /** The zig-zag law is symmetric in the two qubits. */
  lemma JZigZagSymmetric(i: int, j: int, p: HamiltonianParameters)
    requires WellDefined(p)
    ensures JZigZag(i, j, p) == JZigZag(j, i, p)
  {
  }

  /** Same parity gives the centre-of-mass strength, opposite parity its negation. */
  lemma JZigZagParity(i: int, j: int, p: HamiltonianParameters)
    requires WellDefined(p)
    ensures i % 2 == j % 2 ==> JZigZag(i, j, p) == JCom(p)
    ensures i % 2 != j % 2 ==> JZigZag(i, j, p) == -JCom(p)
  {
    var a := p.rabiFrequency * p.rabiFrequency;
    var d := p.mu * p.mu - p.omegaM * p.omegaM;
    if i % 2 == j % 2 {
      assert Eta(i) * Eta(j) == 0.1 * 0.1;
    } else {
      assert Eta(i) * Eta(j) == -(0.1 * 0.1);
    }
    assert JZigZag(i, j, p) == a * (Eta(i) * Eta(j)) * p.mu / d;
    assert JCom(p) == a * (0.1 * 0.1) * p.mu / d;
  }

  /** The law sees the indices only through their parity. */
  lemma JZigZagPeriodic(i: int, j: int, p: HamiltonianParameters)
    requires WellDefined(p)
    ensures JZigZag(i + 2, j, p) == JZigZag(i, j, p)
    ensures JZigZag(i, j + 2, p) == JZigZag(i, j, p)
  {
    assert Sign(i + 2) == Sign(i);
    assert Sign(j + 2) == Sign(j);
  }

  /** The centre-of-mass strength is the zig-zag strength of a qubit with itself,
      whatever the qubit. */
  lemma JComIndexFree(k: int, p: HamiltonianParameters)
    requires WellDefined(p)
    ensures JCom(p) == JZigZag(k, k, p)
  {
    JZigZagParity(k, k, p);
  }

  /** A product of reals is zero exactly when a factor is. */
  lemma ProductZero(a: real, b: real)
    ensures a * b == 0.0 <==> a == 0.0 || b == 0.0
  {
  }

  /** A coupling vanishes exactly when there is no drive or no detuning. */
  lemma JZigZagZeroIff(i: int, j: int, p: HamiltonianParameters)
    requires WellDefined(p)
    ensures JZigZag(i, j, p) == 0.0 <==> p.rabiFrequency == 0.0 || p.mu == 0.0
  {
    var r := p.rabiFrequency;
    var d := p.mu * p.mu - p.omegaM * p.omegaM;
    var e := Eta(i) * Eta(j);
    assert e != 0.0;
    ProductZero(r, r);
    ProductZero(r * r, e);
    ProductZero(r * r * e, p.mu);
    assert JZigZag(i, j, p) == (r * r * e * p.mu) / d;
    assert (r * r * e * p.mu) / d == 0.0 <==> r * r * e * p.mu == 0.0;
  }
}
