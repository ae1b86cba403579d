/** The pennylane backend: it does not simulate anything while the circuit runs,
    it appends one gate record per gate to `gates_applied`, which the read-out
    later replays on a device. */
module Pennylane {
  import opened Coupling
  import opened Protocol

  datatype Gate = RX | RY | RZ | IsingXX | IsingYY | IsingZZ

  /** `"wires": qubit` for a single-qubit gate, `"wires": [i, j]` for a two-qubit gate. */
  datatype Wires = Wire(qubit: int) | WirePair(first: int, second: int)

  /** One entry `(gate, {"phi": ..., "wires": ...})` of `gates_applied`. */
  datatype GateRecord = GateRecord(gate: Gate, phi: real, wires: Wires)

  /** Axis dispatch of `single_body_interaction`: anything but "x" and "y" is RZ. */
  function SingleQubitGate(op: string): (g: Gate)
    ensures g == RX <==> op == "x"
    ensures g == RY <==> op == "y"
    ensures g == RZ <==> op != "x" && op != "y"
  {
    if op == "x" then RX else if op == "y" then RY else RZ
  }

  /** Axis dispatch of `double_body_interaction`: anything but "x" and "y" is IsingZZ. */
  function TwoQubitGate(op: string): (g: Gate)
    ensures g == IsingXX <==> op == "x"
    ensures g == IsingYY <==> op == "y"
    ensures g == IsingZZ <==> op != "x" && op != "y"
  {
    if op == "x" then IsingXX else if op == "y" then IsingYY else IsingZZ
  }

  /** The records a single-body request appends: one per qubit, ascending. */
  function SingleBodyRecords(theta: real, op: string, numQubits: nat): seq<GateRecord> {
    seq(numQubits, q => GateRecord(SingleQubitGate(op), theta, Wire(q)))
  }

  /** The records a double-body request appends: one per interaction, in order. */
  function DoubleBodyRecords(theta: real, op: string, interactions: seq<Interaction>): seq<GateRecord> {
    seq(|interactions|, k requires 0 <= k < |interactions| =>
      GateRecord(TwoQubitGate(op), theta * interactions[k].J, WirePair(interactions[k].i, interactions[k].j)))
  }

  /** The records one request appends; the read-out appends none. */
  function RequestRecords(request: Request): seq<GateRecord> {
    match request
    case SingleBody(theta, op, n) => SingleBodyRecords(theta, op, n)
    case DoubleBody(theta, op, interactions) => DoubleBodyRecords(theta, op, interactions)
    case ReadProbabilities => []
  }

  /** The records a sequence of requests appends, in order. */
  function Recorded(requests: seq<Request>): seq<GateRecord> {
    if requests == [] then []
    else Recorded(requests[..|requests| - 1]) + RequestRecords(requests[|requests| - 1])
  }

  class Circuit {
    const phiSignal: real
    const circuitParameters: CircuitParameters
    const hamiltonianParameters: HamiltonianParameters
    const numQubits: nat
    var gatesApplied: seq<GateRecord>

    constructor (phiSignal: real, circuitParameters: CircuitParameters, hamiltonianParameters: HamiltonianParameters)
      ensures this.phiSignal == phiSignal
      ensures this.circuitParameters == circuitParameters
      ensures this.hamiltonianParameters == hamiltonianParameters
      ensures numQubits == circuitParameters.numQubits
      ensures gatesApplied == []
    {
      this.phiSignal := phiSignal;
      this.circuitParameters := circuitParameters;
      this.hamiltonianParameters := hamiltonianParameters;
      numQubits := circuitParameters.numQubits;
      gatesApplied := [];
    }

    /** Appends one rotation per qubit 0 .. numQubits - 1, each with angle theta. */
    method SingleBodyInteraction(theta: real, op: string, numQubits: nat)
      modifies this
      ensures |gatesApplied| == |old(gatesApplied)| + numQubits
      ensures gatesApplied[..|old(gatesApplied)|] == old(gatesApplied)
      ensures forall q :: 0 <= q < numQubits ==>
        gatesApplied[|old(gatesApplied)| + q] == GateRecord(SingleQubitGate(op), theta, Wire(q))
      ensures gatesApplied == old(gatesApplied) + SingleBodyRecords(theta, op, numQubits)
    {
      var gate := SingleQubitGate(op);
      for qubit := 0 to numQubits
        invariant gatesApplied == old(gatesApplied) + SingleBodyRecords(theta, op, qubit)
      {
        assert SingleBodyRecords(theta, op, qubit + 1) ==
          SingleBodyRecords(theta, op, qubit) + [GateRecord(gate, theta, Wire(qubit))];
        gatesApplied := gatesApplied + [GateRecord(gate, theta, Wire(qubit))];
      }
    }

    /** Appends one two-qubit rotation per interaction (J, i, j), in order, with
        angle theta * J on wires [i, j]. */
    method DoubleBodyInteraction(theta: real, op: string, interactionStrengths: seq<Interaction>)
      modifies this
      ensures |gatesApplied| == |old(gatesApplied)| + |interactionStrengths|
      ensures gatesApplied[..|old(gatesApplied)|] == old(gatesApplied)
      ensures forall k :: 0 <= k < |interactionStrengths| ==>
        var t := interactionStrengths[k];
        gatesApplied[|old(gatesApplied)| + k] == GateRecord(TwoQubitGate(op), theta * t.J, WirePair(t.i, t.j))
      ensures gatesApplied == old(gatesApplied) + DoubleBodyRecords(theta, op, interactionStrengths)
    {
      var gate := TwoQubitGate(op);
      ghost var added := DoubleBodyRecords(theta, op, interactionStrengths);
      for k := 0 to |interactionStrengths|
        invariant gatesApplied == old(gatesApplied) + added[..k]
      {
        var t := interactionStrengths[k];
        assert added[k] == GateRecord(gate, theta * t.J, WirePair(t.i, t.j));
        assert added[..k + 1] == added[..k] + [GateRecord(gate, theta * t.J, WirePair(t.i, t.j))];
        gatesApplied := gatesApplied + [GateRecord(gate, theta * t.J, WirePair(t.i, t.j))];
      }
      assert added[..|interactionStrengths|] == added;
    }

    /** Carries out the requests of a run in order, as the circuit's calls to
        the two interaction methods; the read-out is the device's and records
        nothing. */
    method Issue(requests: seq<Request>)
      modifies this
      ensures gatesApplied == old(gatesApplied) + Recorded(requests)
    {
      for k := 0 to |requests|
        invariant gatesApplied == old(gatesApplied) + Recorded(requests[..k])
      {
        ghost var before := gatesApplied;
        var request := requests[k];
        match request {
          case SingleBody(theta, op, n) => SingleBodyInteraction(theta, op, n);
          case DoubleBody(theta, op, interactions) => DoubleBodyInteraction(theta, op, interactions);
          case ReadProbabilities =>
        }
        assert gatesApplied == before + RequestRecords(request);
        assert requests[..k + 1] == requests[..k] + [request];
        RecordedSnoc(requests[..k], request);
        AppendAssociative(old(gatesApplied), Recorded(requests[..k]), RequestRecords(request));
      }
      assert requests[..|requests|] == requests;
    }

    /** `run_circuit` on this backend: the gates of every request issued before
        the run ended are recorded, in order. */
    method RunCircuit() returns (trace: Trace)
      requires circuitParameters.numQubits >= 2 ==> WellDefined(hamiltonianParameters)
      modifies this
      ensures trace == Schedule(phiSignal, circuitParameters, hamiltonianParameters)
      ensures gatesApplied == old(gatesApplied) + Recorded(trace.requests)
    {
      trace := Protocol.RunCircuit(phiSignal, circuitParameters, hamiltonianParameters);
      Issue(trace.requests);
    }
  }

  lemma {:induction false} RecordedAppend(a: seq<Request>, b: seq<Request>)
    ensures Recorded(a + b) == Recorded(a) + Recorded(b)
    decreases |b|
  {
    if b == [] {
      assert a + b == a;
    } else {
      var last := b[|b| - 1];
      var front := b[..|b| - 1];
      calc {
        Recorded(a + b);
        { assert a + b == (a + front) + [last]; RecordedSnoc(a + front, last); }
        Recorded(a + front) + RequestRecords(last);
        { RecordedAppend(a, front); }
        (Recorded(a) + Recorded(front)) + RequestRecords(last);
        { AppendAssociative(Recorded(a), Recorded(front), RequestRecords(last)); }
        Recorded(a) + (Recorded(front) + RequestRecords(last));
        { assert b == front + [last]; RecordedSnoc(front, last); }
        Recorded(a) + Recorded(b);
      }
    }
  }

  lemma AppendAssociative<T>(a: seq<T>, b: seq<T>, c: seq<T>)
    ensures (a + b) + c == a + (b + c)
  {
  }

  /** One more request appends its own records. */
  lemma RecordedSnoc(requests: seq<Request>, request: Request)
    ensures Recorded(requests + [request]) == Recorded(requests) + RequestRecords(request)
  {
    assert (requests + [request])[..|requests|] == requests;
  }

  lemma RecordedSingle(request: Request)
    ensures Recorded([request]) == RequestRecords(request)
  {
    RecordedSnoc([], request);
    assert [] + [request] == [request];
  }

  /** One block of n qubits records n + 2 * n(n-1)/2 = n^2 gates. */
  lemma BlockRecordCount(row: seq<real>, n: nat, hp: HamiltonianParameters)
    requires |row| == 3
    requires n >= 2 ==> WellDefined(hp)
    ensures |Recorded(BlockRequests(row, n, InteractionStrengths(n, hp)))| == n * n
  {
    var inter := InteractionStrengths(n, hp);
    var reqs := BlockRequests(row, n, inter);
    PairsFromLength(0, n);
    assert 2 * |inter| == n * (n - 1);
    var a, b, c := reqs[0], reqs[1], reqs[2];
    assert reqs == [a] + [b] + [c];
    RecordedAppend([a], [b]);
    RecordedAppend([a] + [b], [c]);
    RecordedSingle(a);
    RecordedSingle(b);
    RecordedSingle(c);
    assert |Recorded(reqs)| == n + |inter| + |inter|;
  }

  lemma {:induction false} BlocksRecordCount(rows: seq<seq<real>>, count: nat, n: nat, hp: HamiltonianParameters)
    requires WellShaped(rows, count)
    requires n >= 2 ==> WellDefined(hp)
    ensures Blocks(rows, count, n, InteractionStrengths(n, hp)).Completed?
    ensures |Recorded(Blocks(rows, count, n, InteractionStrengths(n, hp)).requests)| == count * (n * n)
  {
    var inter := InteractionStrengths(n, hp);
    if count > 0 {
      var m := n * n;
      assert WellShaped(rows, count - 1);
      BlocksRecordCount(rows, count - 1, n, hp);
      var before := Blocks(rows, count - 1, n, inter).requests;
      var block := BlockRequests(rows[count - 1], n, inter);
      assert Blocks(rows, count, n, inter) == Completed(before + block);
      assert |Recorded(block)| == m by {
        BlockRecordCount(rows[count - 1], n, hp);
      }
      assert |Recorded(before + block)| == |Recorded(before)| + |Recorded(block)| by {
        RecordedAppend(before, block);
      }
      assert |Recorded(before + block)| == (count - 1) * m + m;
    }
  }

  /** A completed run with n qubits and b blocks records 2n + 2 b n^2 gates:
      n for each of the two fixed rotations and n^2 for each block. */
  lemma RunRecordCount(phi: real, cp: CircuitParameters, hp: HamiltonianParameters)
    requires cp.numQubits >= 2 ==> WellDefined(hp)
    requires WellShaped(cp.encoderParameters, cp.numBlocks) && WellShaped(cp.decoderParameters, cp.numBlocks)
    ensures Schedule(phi, cp, hp).Completed?
    ensures |Recorded(Schedule(phi, cp, hp).requests)| ==
      2 * cp.numQubits + 2 * (cp.numBlocks * (cp.numQubits * cp.numQubits))
  {
    var n, b := cp.numQubits, cp.numBlocks;
    var inter := InteractionStrengths(n, hp);
    var enc := Blocks(cp.encoderParameters, b, n, inter).requests;
    var dec := Blocks(cp.decoderParameters, b, n, inter).requests;
    ScheduleParts(phi, cp, hp);
    BlocksRecordCount(cp.encoderParameters, b, n, hp);
    BlocksRecordCount(cp.decoderParameters, b, n, hp);
    var y, z := SingleBody(HalfPi, "y", n), SingleBody(phi, "z", n);
    RecordedParts(y, enc, z, dec);
    assert |Recorded(Schedule(phi, cp, hp).requests)| == n + |Recorded(enc)| + n + |Recorded(dec)|;
  }

  /** The records of a completed run are those of its five parts. */
  lemma RecordedParts(y: Request, enc: seq<Request>, z: Request, dec: seq<Request>)
    ensures |Recorded([y] + enc + [z] + dec + [ReadProbabilities])| ==
      |RequestRecords(y)| + |Recorded(enc)| + |RequestRecords(z)| + |Recorded(dec)|
  {
    RecordedAppend([y], enc);
    RecordedAppend([y] + enc, [z]);
    RecordedAppend([y] + enc + [z], dec);
    RecordedAppend([y] + enc + [z] + dec, [ReadProbabilities]);
    RecordedSingle(y);
    RecordedSingle(z);
    RecordedSingle(ReadProbabilities);
  }
}
