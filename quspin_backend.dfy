/** The quspin backend of the circuit: it holds the state vector, and each
    interaction builds an operator list and replaces the state by its evolution
    under it. The evolution itself (`expm_multiply_parallel`) is the function
    `evolve`, fixed when the backend is built. */
module QuspinBackend {
  import opened Coupling
  import opened StateVectors
  import opened Protocol

  /** Terms of a single-body step: one per qubit, coefficient theta / 2. */
  function SingleBodyTerms(theta: real, numQubits: nat): (r: seq<Term>)
    ensures |r| == numQubits
    ensures forall q :: 0 <= q < numQubits ==> r[q].sites == [q] && 2.0 * r[q].coefficient == theta
  {
    seq(numQubits, q => Term(theta * 0.5, [q]))
  }

  /** Terms of a double-body step: one per interaction (J, i, j), in order,
      coefficient theta * J on the sites i and j. */
  function DoubleBodyTerms(theta: real, interactions: seq<Interaction>): (r: seq<Term>)
    ensures |r| == |interactions|
    ensures forall k :: 0 <= k < |r| ==>
      r[k].sites == [interactions[k].i, interactions[k].j] && r[k].coefficient == theta * interactions[k].J
  {
    seq(|interactions|, k requires 0 <= k < |interactions| =>
      Term(theta * interactions[k].J, [interactions[k].i, interactions[k].j]))
  }

  /** The operator list of a single-body step: the axis letter as operator string. */
  function SingleBodyHamiltonian(theta: real, op: string, numQubits: nat): Hamiltonian {
    Hamiltonian(op, SingleBodyTerms(theta, numQubits))
  }

  /** The operator list of a double-body step: the axis letter doubled ("xx", "zz"). */
  function DoubleBodyHamiltonian(theta: real, op: string, interactions: seq<Interaction>): Hamiltonian {
    Hamiltonian(op + op, DoubleBodyTerms(theta, interactions))
  }

  /** The state after one request; the read-out leaves it as it is. */
  function Step(evolve: Evolution, v: seq<Complex>, request: Request): seq<Complex> {
    match request
    case SingleBody(theta, op, n) => evolve(SingleBodyHamiltonian(theta, op, n), v)
    case DoubleBody(theta, op, interactions) => evolve(DoubleBodyHamiltonian(theta, op, interactions), v)
    case ReadProbabilities => v
  }

  /** The state after a sequence of requests, applied in order. */
  function Evolved(evolve: Evolution, v: seq<Complex>, requests: seq<Request>): seq<Complex> {
    if requests == [] then v
    else Step(evolve, Evolved(evolve, v, requests[..|requests| - 1]), requests[|requests| - 1])
  }

  /** What `run_circuit` gives back: the probabilities, or the exception that ended it. */
  datatype RunResult = Returned(probabilities: seq<real>) | RaisedError(error: RowError)

  class Circuit {
    const phiSignal: real
    const circuitParameters: CircuitParameters
    const hamiltonianParameters: HamiltonianParameters
    const evolve: Evolution
    var stateVector: seq<Complex>

    /** Starts in |0...0>: 2^n amplitudes, 1 at index 0. */
    constructor (phiSignal: real, circuitParameters: CircuitParameters, hamiltonianParameters: HamiltonianParameters,
                 evolve: Evolution)
      ensures this.phiSignal == phiSignal
      ensures this.circuitParameters == circuitParameters
      ensures this.hamiltonianParameters == hamiltonianParameters
      ensures this.evolve == evolve
      ensures stateVector == ZeroState(circuitParameters.numQubits)
    {
      this.phiSignal := phiSignal;
      this.circuitParameters := circuitParameters;
      this.hamiltonianParameters := hamiltonianParameters;
      this.evolve := evolve;
      var zeroState := seq(Pow2(circuitParameters.numQubits), k => Zero);
      zeroState := zeroState[0 := One];
      stateVector := zeroState;
    }

    /** Replaces the state by its evolution under the given operator list. */
    method EvolveStateVector(h: Hamiltonian)
      modifies this
      ensures stateVector == evolve(h, old(stateVector))
    {
      stateVector := evolve(h, stateVector);
    }

    method SingleBodyInteraction(theta: real, op: string, numQubits: nat)
      modifies this
      ensures stateVector == evolve(SingleBodyHamiltonian(theta, op, numQubits), old(stateVector))
    {
      EvolveStateVector(SingleBodyHamiltonian(theta, op, numQubits));
    }

    method DoubleBodyInteraction(theta: real, op: string, interactionStrengths: seq<Interaction>)
      modifies this
      ensures stateVector == evolve(DoubleBodyHamiltonian(theta, op, interactionStrengths), old(stateVector))
    {
      EvolveStateVector(DoubleBodyHamiltonian(theta, op, interactionStrengths));
    }

    /** |amplitude|^2 of every entry of the state, which it leaves as it is. */
    method CalculateProbabilities() returns (p: seq<real>)
      ensures |p| == |stateVector|
      ensures forall k :: 0 <= k < |p| ==>
        p[k] == stateVector[k].re * stateVector[k].re + stateVector[k].im * stateVector[k].im && p[k] >= 0.0
      ensures p == Probabilities(stateVector)
    {
      p := Probabilities(stateVector);
    }

    /** Carries out the interaction requests of a run in order. */
    method Issue(requests: seq<Request>)
      modifies this
      ensures stateVector == Evolved(evolve, old(stateVector), requests)
    {
      for k := 0 to |requests|
        invariant stateVector == Evolved(evolve, old(stateVector), requests[..k])
      {
        assert requests[..k + 1][..k] == requests[..k];
        match requests[k]
        case SingleBody(theta, op, n) => SingleBodyInteraction(theta, op, n);
        case DoubleBody(theta, op, interactions) => DoubleBodyInteraction(theta, op, interactions);
        case ReadProbabilities =>
      }
      assert requests[..|requests|] == requests;
    }

    /** `run_circuit` on this backend: the state is evolved by every request
        issued, and a completed run returns the probabilities of the final state. */
    method RunCircuit() returns (r: RunResult)
      requires circuitParameters.numQubits >= 2 ==> WellDefined(hamiltonianParameters)
      modifies this
      ensures
        var trace := Schedule(phiSignal, circuitParameters, hamiltonianParameters);
        stateVector == Evolved(evolve, old(stateVector), trace.requests) &&
        r == if trace.Completed? then Returned(Probabilities(stateVector)) else RaisedError(trace.error)
    {
      var trace := Protocol.RunCircuit(phiSignal, circuitParameters, hamiltonianParameters);
      if trace.Raised? {
        Issue(trace.requests);
        return RaisedError(trace.error);
      }
      ScheduleCompletesIff(phiSignal, circuitParameters, hamiltonianParameters);
      ScheduleLayout(phiSignal, circuitParameters, hamiltonianParameters);
      var requests := trace.requests;
      Issue(requests[..|requests| - 1]);
      assert requests == requests[..|requests| - 1] + [ReadProbabilities];
      var p := CalculateProbabilities();
      r := Returned(p);
    }
  }

  /** With a length-preserving evolution, every state reached from |0...0>
      has 2^n amplitudes, so the read-out has 2^n entries. */
  lemma {:induction false} EvolvedKeepsDimension(evolve: Evolution, n: nat, requests: seq<Request>)
    requires PreservesLength(evolve)
    ensures |Evolved(evolve, ZeroState(n), requests)| == Pow2(n)
    ensures |Probabilities(Evolved(evolve, ZeroState(n), requests))| == Pow2(n)
  {
    if requests != [] {
      EvolvedKeepsDimension(evolve, n, requests[..|requests| - 1]);
    }
  }
}
