/** How the backends' bookkeeping lines up: for the same request, the pennylane
    gate records and the quspin operator terms are in one-to-one
    correspondence, and the stand-alone runner's two-body operator is the
    quspin backend's double-body operator over the circuit's interaction list.

    The angles are compared as numbers only. Under the libraries' own
    conventions pennylane's RX(phi) is exp(-i phi X / 2) and IsingXX(phi) is
    exp(-i phi XX / 2), while quspin evolves by exp(-i c P) for a term of
    coefficient c. A single-body gate angle is twice its term coefficient, so
    the two backends agree there; a two-body gate angle equals its term
    coefficient, so the pennylane two-body rotation turns half as far as the
    quspin one. */
module Agreement {
  import opened Coupling
  import opened Protocol
  import Pennylane
  import QuspinBackend
  import QuspinRunner

  /** A single-body request: record k acts on wire k with angle theta, and
      term k acts on site k with coefficient theta / 2. */
  lemma SingleBodyAgreement(theta: real, op: string, n: nat)
    ensures var records := Pennylane.SingleBodyRecords(theta, op, n);
      var terms := QuspinBackend.SingleBodyTerms(theta, n);
      |records| == |terms| == n &&
      forall k :: 0 <= k < n ==>
        records[k].wires == Pennylane.Wire(terms[k].sites[0]) &&
        records[k].phi == 2.0 * terms[k].coefficient
  {
  }

  /** A double-body request: record k and term k come from the same
      interaction, on the same two qubits, and the gate angle equals the term
      coefficient theta * J. */
  lemma DoubleBodyAgreement(theta: real, op: string, interactions: seq<Interaction>)
    ensures var records := Pennylane.DoubleBodyRecords(theta, op, interactions);
      var terms := QuspinBackend.DoubleBodyTerms(theta, interactions);
      |records| == |terms| == |interactions| &&
      forall k :: 0 <= k < |terms| ==>
        records[k].wires == Pennylane.WirePair(terms[k].sites[0], terms[k].sites[1]) &&
        records[k].phi == terms[k].coefficient
  {
  }

  /** The runner's `build_two_body_rotation` lists exactly the terms the quspin
      backend builds for a double-body request over the circuit's interaction
      strengths, with the same operator string. */
  lemma TwoBodyMatchesBackend(op: string, theta: real, hp: HamiltonianParameters, n: nat)
    requires n >= 2 ==> WellDefined(hp)
    ensures QuspinRunner.TwoBodyHamiltonian(op, theta, hp, n) ==
      QuspinBackend.DoubleBodyHamiltonian(theta, op, InteractionStrengths(n, hp))
  {
    var runner := QuspinRunner.TwoBodyHamiltonian(op, theta, hp, n).terms;
    var backend := QuspinBackend.DoubleBodyTerms(theta, InteractionStrengths(n, hp));
    assert |runner| == |backend|;
    forall k | 0 <= k < |runner|
      ensures runner[k] == backend[k]
    {
    }
  }
}
