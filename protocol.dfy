/** The circuit protocol of `QuantumSensingCircuit.run_circuit`: the qubit pairs,
    their interaction strengths, and the fixed order of the requests the circuit
    makes of its backend. The backend's three abstract methods are not called
    here: `RunCircuit` returns the requests it issues, in order, as a `Trace`,
    and each backend replays such a trace. */
module Protocol {
  import opened Coupling

  /** `np.pi`. */
  const Pi: real := 3.141592653589793
  const HalfPi: real := Pi / 2.0

  type Pair = (nat, nat)

  /** Lexicographic order on qubit pairs. */
  predicate LexLess(p: Pair, q: Pair) {
    p.0 < q.0 || (p.0 == q.0 && p.1 < q.1)
  }

  /** The pairs (i, j) for j = i + 1 .. n - 1, in ascending j. */
  function PairsWith(i: nat, n: nat): seq<Pair> {
    if i >= n then [] else seq(n - i - 1, k requires 0 <= k < n - i - 1 => (i, i + 1 + k))
  }

  /** The pairs whose first qubit is i or more, in lexicographic order. */
  function PairsFrom(i: nat, n: nat): seq<Pair>
    decreases n - i
  {
    if i >= n then [] else PairsWith(i, n) + PairsFrom(i + 1, n)
  }

  /** `qubit_pairs`: every (i, j) with i < j < n. */
  function QubitPairs(n: nat): seq<Pair> {
    PairsFrom(0, n)
  }

  lemma {:induction false} PairsFromBounds(i: nat, n: nat)
    ensures forall k :: 0 <= k < |PairsFrom(i, n)| ==> i <= PairsFrom(i, n)[k].0 < PairsFrom(i, n)[k].1 < n
    decreases n - i
  {
    if i < n {
      PairsFromBounds(i + 1, n);
      var row, rest := PairsWith(i, n), PairsFrom(i + 1, n);
      var all: seq<Pair> := row + rest;
      assert PairsFrom(i, n) == all;
      forall k | 0 <= k < |all|
        ensures i <= all[k].0 < all[k].1 < n
      {
        if k >= |row| {
          assert all[k] == rest[k - |row|];
        }
      }
    }
  }

  lemma {:induction false} PairsFromSorted(i: nat, n: nat)
    ensures forall a, b :: 0 <= a < b < |PairsFrom(i, n)| ==> LexLess(PairsFrom(i, n)[a], PairsFrom(i, n)[b])
    decreases n - i
  {
    if i < n {
      PairsFromSorted(i + 1, n);
      PairsFromBounds(i + 1, n);
      var row, rest := PairsWith(i, n), PairsFrom(i + 1, n);
      var all: seq<Pair> := row + rest;
      assert PairsFrom(i, n) == all;
      forall a, b | 0 <= a < b < |all|
        ensures LexLess(all[a], all[b])
      {
        if b < |row| {
        } else if a < |row| {
          assert all[b] == rest[b - |row|];
        } else {
          assert all[a] == rest[a - |row|] && all[b] == rest[b - |row|];
        }
      }
    }
  }

  lemma {:induction false} PairsFromComplete(i: nat, n: nat, x: nat, y: nat)
    requires i <= x < y < n
    ensures (x, y) in PairsFrom(i, n)
    decreases x - i
  {
    var row, rest := PairsWith(i, n), PairsFrom(i + 1, n);
    assert PairsFrom(i, n) == row + rest;
    if x == i {
      assert row[y - i - 1] == (x, y);
    } else {
      PairsFromComplete(i + 1, n, x, y);
    }
  }

  lemma {:induction false} PairsFromLength(i: nat, n: nat)
    requires i <= n
    ensures 2 * |PairsFrom(i, n)| == (n - i) * (n - i - 1)
    decreases n - i
  {
    if i < n {
      PairsFromLength(i + 1, n);
      var m := n - i - 1;
      assert |PairsFrom(i, n)| == m + |PairsFrom(i + 1, n)|;
      assert 2 * |PairsFrom(i + 1, n)| == m * (m - 1);
      assert m + m + m * (m - 1) == (m + 1) * m;
    }
  }

  /** `qubit_pairs` lists every pair i < j < n exactly once, in lexicographic
      order, n(n-1)/2 pairs in all. */
  lemma QubitPairsExactlyOnce(n: nat)
    ensures forall x: nat, y: nat :: (x, y) in QubitPairs(n) <==> x < y < n
    ensures forall a, b :: 0 <= a < b < |QubitPairs(n)| ==> LexLess(QubitPairs(n)[a], QubitPairs(n)[b])
    ensures |QubitPairs(n)| == n * (n - 1) / 2
  {
    PairsFromBounds(0, n);
    PairsFromSorted(0, n);
    PairsFromLength(0, n);
    forall x: nat, y: nat | x < y < n
      ensures (x, y) in QubitPairs(n)
    {
      PairsFromComplete(0, n, x, y);
    }
  }

  /** A chain of fewer than two qubits has no pairs, so no coupling is evaluated. */
  lemma ShortChainHasNoPairs(n: nat)
    ensures |QubitPairs(n)| > 0 ==> n >= 2
  {
    PairsFromBounds(0, n);
    if |QubitPairs(n)| > 0 {
      assert QubitPairs(n)[0].0 < QubitPairs(n)[0].1 < n;
    }
  }

  /** One entry `(J_ij, i, j)` of `interaction_strengths`. */
  datatype Interaction = Interaction(J: real, i: int, j: int)

  /** `interaction_strengths`: the zig-zag strength of each qubit pair. */
  function InteractionStrengths(n: nat, hp: HamiltonianParameters): (r: seq<Interaction>)
    requires n >= 2 ==> WellDefined(hp)
    ensures |r| == |QubitPairs(n)|
  {
    var pairs := QubitPairs(n);
    ShortChainHasNoPairs(n);
    seq(|pairs|, k requires 0 <= k < |pairs| => Interaction(JZigZag(pairs[k].0, pairs[k].1, hp), pairs[k].0, pairs[k].1))
  }

  /** Every pair i < j < n has exactly one interaction, carrying its zig-zag
      strength, and the interactions follow the lexicographic order of the pairs. */
  lemma InteractionStrengthsPerPair(n: nat, hp: HamiltonianParameters)
    requires WellDefined(hp)
    ensures forall k :: 0 <= k < |InteractionStrengths(n, hp)| ==>
      var t := InteractionStrengths(n, hp)[k];
      0 <= t.i < t.j < n && t.J == JZigZag(t.i, t.j, hp)
    ensures forall x: nat, y: nat :: x < y < n ==> Interaction(JZigZag(x, y, hp), x, y) in InteractionStrengths(n, hp)
    ensures forall a, b :: 0 <= a < b < |InteractionStrengths(n, hp)| ==>
      LexLess((InteractionStrengths(n, hp)[a].i, InteractionStrengths(n, hp)[a].j),
              (InteractionStrengths(n, hp)[b].i, InteractionStrengths(n, hp)[b].j))
    ensures |InteractionStrengths(n, hp)| == n * (n - 1) / 2
  {
    var pairs, r := QubitPairs(n), InteractionStrengths(n, hp);
    QubitPairsExactlyOnce(n);
    PairsFromBounds(0, n);
    forall x: nat, y: nat | x < y < n
      ensures Interaction(JZigZag(x, y, hp), x, y) in r
    {
      assert (x, y) in pairs;
      var k :| 0 <= k < |pairs| && pairs[k] == (x, y);
      assert r[k] == Interaction(JZigZag(x, y, hp), x, y);
    }
    forall a, b | 0 <= a < b < |r|
      ensures LexLess((r[a].i, r[a].j), (r[b].i, r[b].j))
    {
      assert LexLess(pairs[a], pairs[b]);
    }
  }

  /** A request the circuit makes of its backend. */
  datatype Request =
    | SingleBody(theta: real, op: string, numQubits: nat)
    | DoubleBody(theta: real, op: string, interactions: seq<Interaction>)
    | ReadProbabilities

  /** How reading a parameter row can fail: a row that is not there
      (`IndexError`) or one that does not unpack into three angles (`ValueError`). */
  datatype RowError = MissingRow | WrongArity

  /** The requests issued, in order, and whether an exception ended the run. */
  datatype Trace =
    | Completed(requests: seq<Request>)
    | Raised(requests: seq<Request>, error: RowError)

  /** `circuit_parameters`; each parameter row is (single, xx, zz). */
  datatype CircuitParameters = CircuitParameters(
    numQubits: nat,
    numBlocks: nat,
    encoderParameters: seq<seq<real>>,
    decoderParameters: seq<seq<real>>)

  /** The three requests of one encoder or decoder block. */
  function BlockRequests(row: seq<real>, n: nat, inter: seq<Interaction>): seq<Request>
    requires |row| == 3
  {
    [SingleBody(row[0], "x", n), DoubleBody(row[1], "x", inter), DoubleBody(row[2], "z", inter)]
  }

  /** The requests of blocks 0 .. count - 1, stopping at the first row that is
      missing or does not have three angles. */
  function Blocks(rows: seq<seq<real>>, count: nat, n: nat, inter: seq<Interaction>): Trace {
    if count == 0 then Completed([])
    else
      var before := Blocks(rows, count - 1, n, inter);
      if before.Raised? then before
      else if count - 1 >= |rows| then Raised(before.requests, MissingRow)
      else if |rows[count - 1]| != 3 then Raised(before.requests, WrongArity)
      else Completed(before.requests + BlockRequests(rows[count - 1], n, inter))
  }

  /** Once a block has raised, later blocks are never reached. */
  lemma {:induction false} BlocksRaisedPersists(rows: seq<seq<real>>, count: nat, later: nat, n: nat, inter: seq<Interaction>)
    requires count <= later
    requires Blocks(rows, count, n, inter).Raised?
    ensures Blocks(rows, later, n, inter) == Blocks(rows, count, n, inter)
    decreases later - count
  {
    if count < later {
      BlocksRaisedPersists(rows, count, later - 1, n, inter);
    }
  }

  /** The requests `run_circuit` issues for the given parameters. */
  function Schedule(phi: real, cp: CircuitParameters, hp: HamiltonianParameters): Trace
    requires cp.numQubits >= 2 ==> WellDefined(hp)
  {
    var n := cp.numQubits;
    var inter := InteractionStrengths(n, hp);
    var prepare := [SingleBody(HalfPi, "y", n)];
    var encoder := Blocks(cp.encoderParameters, cp.numBlocks, n, inter);
    if encoder.Raised? then Raised(prepare + encoder.requests, encoder.error)
    else
      var sensed := prepare + encoder.requests + [SingleBody(phi, "z", n)];
      var decoder := Blocks(cp.decoderParameters, cp.numBlocks, n, inter);
      if decoder.Raised? then Raised(sensed + decoder.requests, decoder.error)
      else Completed(sensed + decoder.requests + [ReadProbabilities])
  }

  /** One `for block in range(num_blocks)` loop: reads each row, stopping at
      the first that is missing or does not unpack into three angles, and issues
      the block's three requests. */
  method IssueBlocks(rows: seq<seq<real>>, numBlocks: nat, n: nat, inter: seq<Interaction>) returns (issued: Trace)
    ensures issued == Blocks(rows, numBlocks, n, inter)
  {
    var requests := [];
    for block := 0 to numBlocks
      invariant Blocks(rows, block, n, inter) == Completed(requests)
    {
      if block >= |rows| {
        BlocksRaisedPersists(rows, block + 1, numBlocks, n, inter);
        return Raised(requests, MissingRow);
      }
      var row := rows[block];
      if |row| != 3 {
        BlocksRaisedPersists(rows, block + 1, numBlocks, n, inter);
        return Raised(requests, WrongArity);
      }
      requests := requests + [SingleBody(row[0], "x", n)];
      requests := requests + [DoubleBody(row[1], "x", inter)];
      requests := requests + [DoubleBody(row[2], "z", inter)];
    }
    issued := Completed(requests);
  }

  /** `run_circuit`: issues the preparation, encoder, sensing and decoder
      requests in order and finally asks for the probabilities. */
  method RunCircuit(phi: real, cp: CircuitParameters, hp: HamiltonianParameters) returns (trace: Trace)
    requires cp.numQubits >= 2 ==> WellDefined(hp)
    ensures trace == Schedule(phi, cp, hp)
  {
    var n := cp.numQubits;
    var inter := InteractionStrengths(n, hp);
    var issued := [SingleBody(HalfPi, "y", n)];
    var encoder := IssueBlocks(cp.encoderParameters, cp.numBlocks, n, inter);
    if encoder.Raised? {
      return Raised(issued + encoder.requests, encoder.error);
    }
    issued := issued + encoder.requests + [SingleBody(phi, "z", n)];
    var decoder := IssueBlocks(cp.decoderParameters, cp.numBlocks, n, inter);
    if decoder.Raised? {
      return Raised(issued + decoder.requests, decoder.error);
    }
    trace := Completed(issued + decoder.requests + [ReadProbabilities]);
  }

  /** Every one of the first `count` rows is present and holds three angles. */
  predicate WellShaped(rows: seq<seq<real>>, count: nat) {
    |rows| >= count && forall k :: 0 <= k < count ==> |rows[k]| == 3
  }

  /** Blocks fail exactly when some row among the first `count` is missing or
      malformed; otherwise block k occupies requests 3k .. 3k + 2. */
  lemma {:induction false} BlocksLayout(rows: seq<seq<real>>, count: nat, n: nat, inter: seq<Interaction>)
    ensures Blocks(rows, count, n, inter).Completed? <==> WellShaped(rows, count)
    ensures WellShaped(rows, count) ==>
      var r := Blocks(rows, count, n, inter).requests;
      |r| == 3 * count &&
      forall k :: 0 <= k < count ==>
        r[3 * k] == SingleBody(rows[k][0], "x", n) &&
        r[3 * k + 1] == DoubleBody(rows[k][1], "x", inter) &&
        r[3 * k + 2] == DoubleBody(rows[k][2], "z", inter)
  {
    if count > 0 {
      BlocksLayout(rows, count - 1, n, inter);
      if WellShaped(rows, count) {
        assert WellShaped(rows, count - 1);
        var before := Blocks(rows, count - 1, n, inter).requests;
        var r := Blocks(rows, count, n, inter).requests;
        assert r == before + BlockRequests(rows[count - 1], n, inter);
        forall k | 0 <= k < count
          ensures r[3 * k] == SingleBody(rows[k][0], "x", n)
          ensures r[3 * k + 1] == DoubleBody(rows[k][1], "x", inter)
          ensures r[3 * k + 2] == DoubleBody(rows[k][2], "z", inter)
        {
          if k < count - 1 {
            assert r[3 * k] == before[3 * k];
          }
        }
      } else if WellShaped(rows, count - 1) {
        assert count - 1 >= |rows| || |rows[count - 1]| != 3;
      }
    }
  }

  /** No request is the read-out unless it is the last one of a completed run. */
  lemma {:induction false} BlocksNeverRead(rows: seq<seq<real>>, count: nat, n: nat, inter: seq<Interaction>)
    ensures ReadProbabilities !in Blocks(rows, count, n, inter).requests
  {
    if count > 0 {
      BlocksNeverRead(rows, count - 1, n, inter);
    }
  }

  /** The run completes exactly when both parameter arrays hold `num_blocks`
      rows of three angles; otherwise an exception ends it. */
  lemma ScheduleCompletesIff(phi: real, cp: CircuitParameters, hp: HamiltonianParameters)
    requires cp.numQubits >= 2 ==> WellDefined(hp)
    ensures Schedule(phi, cp, hp).Completed? <==>
      WellShaped(cp.encoderParameters, cp.numBlocks) && WellShaped(cp.decoderParameters, cp.numBlocks)
  {
    var inter := InteractionStrengths(cp.numQubits, hp);
    BlocksLayout(cp.encoderParameters, cp.numBlocks, cp.numQubits, inter);
    BlocksLayout(cp.decoderParameters, cp.numBlocks, cp.numQubits, inter);
  }

  /** A completed run is the preparation, the encoder blocks, the sensing
      rotation, the decoder blocks and the read-out, in this order. */
  lemma ScheduleParts(phi: real, cp: CircuitParameters, hp: HamiltonianParameters)
    requires cp.numQubits >= 2 ==> WellDefined(hp)
    requires WellShaped(cp.encoderParameters, cp.numBlocks) && WellShaped(cp.decoderParameters, cp.numBlocks)
    ensures Schedule(phi, cp, hp).Completed?
    ensures
      var n, inter := cp.numQubits, InteractionStrengths(cp.numQubits, hp);
      Schedule(phi, cp, hp).requests ==
        [SingleBody(HalfPi, "y", n)] + Blocks(cp.encoderParameters, cp.numBlocks, n, inter).requests +
        [SingleBody(phi, "z", n)] + Blocks(cp.decoderParameters, cp.numBlocks, n, inter).requests +
        [ReadProbabilities]
  {
    var inter := InteractionStrengths(cp.numQubits, hp);
    BlocksLayout(cp.encoderParameters, cp.numBlocks, cp.numQubits, inter);
    BlocksLayout(cp.decoderParameters, cp.numBlocks, cp.numQubits, inter);
  }

  /** The order of a completed run: Y(pi/2); per encoder row X(single),
      XX(xx), ZZ(zz); Z(phi); per decoder row likewise; then the read-out, which
      occurs exactly once and last: 3 + 6 * num_blocks requests in all. */
  lemma ScheduleLayout(phi: real, cp: CircuitParameters, hp: HamiltonianParameters)
    requires cp.numQubits >= 2 ==> WellDefined(hp)
    requires WellShaped(cp.encoderParameters, cp.numBlocks) && WellShaped(cp.decoderParameters, cp.numBlocks)
    ensures Schedule(phi, cp, hp).Completed?
    ensures |Schedule(phi, cp, hp).requests| == 3 + 6 * cp.numBlocks
    ensures Schedule(phi, cp, hp).requests[0] == SingleBody(HalfPi, "y", cp.numQubits)
    ensures Schedule(phi, cp, hp).requests[1 + 3 * cp.numBlocks] == SingleBody(phi, "z", cp.numQubits)
    ensures Schedule(phi, cp, hp).requests[2 + 6 * cp.numBlocks] == ReadProbabilities
    ensures ReadProbabilities !in Schedule(phi, cp, hp).requests[..2 + 6 * cp.numBlocks]
  {
    var n, b := cp.numQubits, cp.numBlocks;
    var inter := InteractionStrengths(n, hp);
    var enc := Blocks(cp.encoderParameters, b, n, inter).requests;
    var dec := Blocks(cp.decoderParameters, b, n, inter).requests;
    ScheduleParts(phi, cp, hp);
    BlocksLayout(cp.encoderParameters, b, n, inter);
    BlocksLayout(cp.decoderParameters, b, n, inter);
    BlocksNeverRead(cp.encoderParameters, b, n, inter);
    BlocksNeverRead(cp.decoderParameters, b, n, inter);
    var prefix := [SingleBody(HalfPi, "y", n)] + enc + [SingleBody(phi, "z", n)] + dec;
    var r := Schedule(phi, cp, hp).requests;
    assert r == prefix + [ReadProbabilities];
    assert r[..2 + 6 * b] == prefix;
  }

  /** Encoder block k issues, at positions 1 + 3k .. 3 + 3k: X with the row's
      first angle, XX with its second, ZZ with its third. */
  lemma ScheduleEncoderBlock(phi: real, cp: CircuitParameters, hp: HamiltonianParameters, k: nat)
    requires cp.numQubits >= 2 ==> WellDefined(hp)
    requires WellShaped(cp.encoderParameters, cp.numBlocks) && WellShaped(cp.decoderParameters, cp.numBlocks)
    requires k < cp.numBlocks
    ensures
      var r, n, row, inter := Schedule(phi, cp, hp).requests, cp.numQubits, cp.encoderParameters[k], InteractionStrengths(cp.numQubits, hp);
      |r| == 3 + 6 * cp.numBlocks &&
      r[1 + 3 * k] == SingleBody(row[0], "x", n) &&
      r[2 + 3 * k] == DoubleBody(row[1], "x", inter) &&
      r[3 + 3 * k] == DoubleBody(row[2], "z", inter)
  {
    var n, b := cp.numQubits, cp.numBlocks;
    var inter := InteractionStrengths(n, hp);
    var enc := Blocks(cp.encoderParameters, b, n, inter).requests;
    var dec := Blocks(cp.decoderParameters, b, n, inter).requests;
    var row := cp.encoderParameters[k];
    var r := Schedule(phi, cp, hp).requests;
    var front := [SingleBody(HalfPi, "y", n)] + enc;
    var rest := [SingleBody(phi, "z", n)] + dec + [ReadProbabilities];
    assert r == front + rest by {
      ScheduleParts(phi, cp, hp);
    }
    assert |dec| == 3 * b by {
      BlocksLayout(cp.decoderParameters, b, n, inter);
    }
    assert |enc| == 3 * b && enc[3 * k] == SingleBody(row[0], "x", n) &&
      enc[3 * k + 1] == DoubleBody(row[1], "x", inter) && enc[3 * k + 2] == DoubleBody(row[2], "z", inter) by {
      BlocksLayout(cp.encoderParameters, b, n, inter);
    }
    assert r[1 + 3 * k] == front[1 + 3 * k] == enc[3 * k];
    assert r[2 + 3 * k] == front[2 + 3 * k] == enc[3 * k + 1];
    assert r[3 + 3 * k] == front[3 + 3 * k] == enc[3 * k + 2];
  }

  /** Decoder block k issues, at positions 2 + 3b + 3k .. 4 + 3b + 3k, the same
      three requests built from decoder row k. */
  lemma ScheduleDecoderBlock(phi: real, cp: CircuitParameters, hp: HamiltonianParameters, k: nat)
    requires cp.numQubits >= 2 ==> WellDefined(hp)
    requires WellShaped(cp.encoderParameters, cp.numBlocks) && WellShaped(cp.decoderParameters, cp.numBlocks)
    requires k < cp.numBlocks
    ensures
      var r, n, b, row, inter := Schedule(phi, cp, hp).requests, cp.numQubits, cp.numBlocks, cp.decoderParameters[k], InteractionStrengths(cp.numQubits, hp);
      |r| == 3 + 6 * b &&
      r[2 + 3 * b + 3 * k] == SingleBody(row[0], "x", n) &&
      r[3 + 3 * b + 3 * k] == DoubleBody(row[1], "x", inter) &&
      r[4 + 3 * b + 3 * k] == DoubleBody(row[2], "z", inter)
  {
    var n, b := cp.numQubits, cp.numBlocks;
    var inter := InteractionStrengths(n, hp);
    var enc := Blocks(cp.encoderParameters, b, n, inter).requests;
    var dec := Blocks(cp.decoderParameters, b, n, inter).requests;
    var row := cp.decoderParameters[k];
    var r := Schedule(phi, cp, hp).requests;
    var front := [SingleBody(HalfPi, "y", n)] + enc + [SingleBody(phi, "z", n)];
    assert r == front + dec + [ReadProbabilities] by {
      ScheduleParts(phi, cp, hp);
    }
    assert |front| == 2 + 3 * b by {
      BlocksLayout(cp.encoderParameters, b, n, inter);
    }
    assert |dec| == 3 * b && dec[3 * k] == SingleBody(row[0], "x", n) &&
      dec[3 * k + 1] == DoubleBody(row[1], "x", inter) && dec[3 * k + 2] == DoubleBody(row[2], "z", inter) by {
      BlocksLayout(cp.decoderParameters, b, n, inter);
    }
    assert r[2 + 3 * b + 3 * k] == dec[3 * k];
    assert r[3 + 3 * b + 3 * k] == dec[3 * k + 1];
    assert r[4 + 3 * b + 3 * k] == dec[3 * k + 2];
  }

  /** With no blocks the run is Y(pi/2), Z(phi), read-out. */
  lemma ScheduleWithoutBlocks(phi: real, cp: CircuitParameters, hp: HamiltonianParameters)
    requires cp.numQubits >= 2 ==> WellDefined(hp)
    requires cp.numBlocks == 0
    ensures Schedule(phi, cp, hp) ==
      Completed([SingleBody(HalfPi, "y", cp.numQubits), SingleBody(phi, "z", cp.numQubits), ReadProbabilities])
  {
  }

  /** A run that raises never reaches the read-out, yet it has already issued
      the preparation, and a bad decoder row is only found after every encoder
      block and the sensing rotation were issued. */
  lemma ScheduleRaisedMidRun(phi: real, cp: CircuitParameters, hp: HamiltonianParameters)
    requires cp.numQubits >= 2 ==> WellDefined(hp)
    requires Schedule(phi, cp, hp).Raised?
    ensures Schedule(phi, cp, hp).requests[0] == SingleBody(HalfPi, "y", cp.numQubits)
    ensures ReadProbabilities !in Schedule(phi, cp, hp).requests
    ensures WellShaped(cp.encoderParameters, cp.numBlocks) ==>
      |Schedule(phi, cp, hp).requests| >= 2 + 3 * cp.numBlocks &&
      Schedule(phi, cp, hp).requests[1 + 3 * cp.numBlocks] == SingleBody(phi, "z", cp.numQubits)
  {
    var n, b := cp.numQubits, cp.numBlocks;
    var inter := InteractionStrengths(n, hp);
    BlocksLayout(cp.encoderParameters, b, n, inter);
    BlocksNeverRead(cp.encoderParameters, b, n, inter);
    BlocksNeverRead(cp.decoderParameters, b, n, inter);
  }
}
