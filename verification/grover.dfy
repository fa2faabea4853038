/**
 * `build_grover_circuit`: a Hadamard on each search qubit and a barrier,
 * then `iterations` rounds of oracle, barrier, diffuser on the search
 * qubits, barrier. The register is as wide as the oracle's.
 */
module GroverBuilder {
  import opened Wrappers
  import opened Circuits
  import Diffuser
  import MockOracle

  /** The gates one pass of the loop appends (pass `i` counts from 0, its labels from 1). */
  function Round(oracle: Circuit, diffuser: Circuit, w: nat, i: nat): seq<Gate>
  {
    oracle.gates + [Barrier(Range(0, w), OracleDone(i + 1))]
    + diffuser.gates + [Barrier(Range(0, w), DiffuserDone(i + 1))]
  }

  /** The passes i..k-1 of the loop, back to back. */
  function Rounds(oracle: Circuit, diffuser: Circuit, w: nat, i: nat, k: nat): seq<Gate>
    decreases k - i
  {
    if i >= k then [] else Round(oracle, diffuser, w, i) + Rounds(oracle, diffuser, w, i + 1, k)
  }

  /** What the loop needs: circuits that keep to their registers, the oracle as wide as the host, the diffuser no wider. */
  predicate Composable(qc: Circuit, oracle: Circuit, diffuser: Circuit)
  {
    WellFormed(oracle) && WellFormed(diffuser) && oracle.width == qc.width && diffuser.width <= qc.width
  }

  /** Pass i of the loop: compose the oracle on all qubits, a barrier, the diffuser on qubits 0..n-1, a barrier. */
  function Pass(qc: Circuit, oracle: Circuit, diffuser: Circuit, i: nat): (r: Circuit)
    requires Composable(qc, oracle, diffuser)
    ensures r.width == qc.width
    ensures WellFormed(qc) ==> WellFormed(r)
  {
    var withOracle := AddBarrier(Compose(qc, oracle, Range(0, oracle.width)), OracleDone(i + 1));
    AddBarrier(Compose(withOracle, diffuser, Range(0, diffuser.width)), DiffuserDone(i + 1))
  }

  /**
   * The loop `for i in range(iterations)`, from pass i on: compose the
   * oracle on all qubits, add a barrier, compose the diffuser on qubits
   * 0..n-1, add a barrier.
   */
  function Iterate(qc: Circuit, oracle: Circuit, diffuser: Circuit, i: nat, iterations: nat): (r: Circuit)
    requires i <= iterations
    requires Composable(qc, oracle, diffuser)
    ensures r.width == qc.width
    ensures WellFormed(qc) ==> WellFormed(r)
    decreases iterations - i
  {
    if i == iterations then qc else Iterate(Pass(qc, oracle, diffuser, i), oracle, diffuser, i + 1, iterations)
  }

  /** `build_grover_circuit(n, iterations, oracle)`; any circuit may serve as the oracle. */
  function BuildGrover(n: int, iterations: int, oracle: Circuit): (r: Result<Circuit>)
    requires WellFormed(oracle)
    ensures r.Ok? <==> 1 <= n && 0 <= iterations && n <= oracle.width
    ensures n < 1 ==> r == Err(GroverQubitsNotPositive)
    ensures n >= 1 && iterations < 0 ==> r == Err(NegativeIterations)
    ensures n >= 1 && iterations >= 0 && n > oracle.width ==> r == Err(SearchWiderThanOracle)
    ensures r.Ok? ==> r.value.width == oracle.width && WellFormed(r.value)
  {
    if n < 1 then Err(GroverQubitsNotPositive)
    else if iterations < 0 then Err(NegativeIterations)
    else if n > oracle.width then Err(SearchWiderThanOracle)
    else
      AllFitWiden(HLayer(n), n, oracle.width);
      var init := AddBarrier(Circuit(oracle.width, HLayer(n)), InitH);
      var diffuser := Diffuser.BuildDiffuser(n).value;
      Ok(Iterate(init, oracle, diffuser, 0, iterations))
  }

  // ---- Layout ----

  /** Composing through the map 0..w-1 appends the sub-circuit's gates verbatim. */
  lemma ComposeVerbatim(host: Circuit, sub: Circuit)
    requires WellFormed(sub) && sub.width <= host.width
    ensures Compose(host, sub, Range(0, sub.width)).gates == host.gates + sub.gates
  {
    RemapIdentity(sub.gates, sub.width);
  }

  /** A pass appends exactly one round: the oracle's and the diffuser's gates verbatim, each followed by a labelled barrier. */
  lemma PassGates(qc: Circuit, oracle: Circuit, diffuser: Circuit, i: nat)
    requires Composable(qc, oracle, diffuser)
    ensures Pass(qc, oracle, diffuser, i).gates == qc.gates + Round(oracle, diffuser, qc.width, i)
  {
    var b1, b2 := [Barrier(Range(0, qc.width), OracleDone(i + 1))], [Barrier(Range(0, qc.width), DiffuserDone(i + 1))];
    var c1 := Compose(qc, oracle, Range(0, oracle.width));
    assert c1.gates == qc.gates + oracle.gates by { ComposeVerbatim(qc, oracle); }
    var c2 := AddBarrier(c1, OracleDone(i + 1));
    assert c2.gates == c1.gates + b1;
    var c3 := Compose(c2, diffuser, Range(0, diffuser.width));
    assert c3.gates == c2.gates + diffuser.gates by { ComposeVerbatim(c2, diffuser); }
    assert Pass(qc, oracle, diffuser, i).gates == c3.gates + b2;
    Regroup4(qc.gates, oracle.gates, b1, diffuser.gates, b2);
  }

  lemma Regroup4(a: seq<Gate>, b: seq<Gate>, c: seq<Gate>, d: seq<Gate>, e: seq<Gate>)
    ensures a + b + c + d + e == a + (b + c + d + e)
  {
  }

  lemma {:induction false} IterateGates(qc: Circuit, oracle: Circuit, diffuser: Circuit, i: nat, iterations: nat)
    requires i <= iterations
    requires Composable(qc, oracle, diffuser)
    ensures Iterate(qc, oracle, diffuser, i, iterations).gates
            == qc.gates + Rounds(oracle, diffuser, qc.width, i, iterations)
    decreases iterations - i
  {
    if i < iterations {
      var next := Pass(qc, oracle, diffuser, i);
      var r, rest := Round(oracle, diffuser, qc.width, i), Rounds(oracle, diffuser, qc.width, i + 1, iterations);
      assert Iterate(qc, oracle, diffuser, i, iterations) == Iterate(next, oracle, diffuser, i + 1, iterations);
      assert next.gates == qc.gates + r by { PassGates(qc, oracle, diffuser, i); }
      assert Iterate(next, oracle, diffuser, i + 1, iterations).gates == next.gates + rest by {
        IterateGates(next, oracle, diffuser, i + 1, iterations);
      }
      assert Rounds(oracle, diffuser, qc.width, i, iterations) == r + rest;
      ConcatAssoc(qc.gates, r, rest);
    } else {
      assert qc.gates + [] == qc.gates;
    }
  }

  lemma {:induction false} RoundsLength(oracle: Circuit, diffuser: Circuit, w: nat, i: nat, k: nat)
    requires i <= k
    ensures |Rounds(oracle, diffuser, w, i, k)| == (k - i) * (|oracle.gates| + |diffuser.gates| + 2)
    decreases k - i
  {
    if i < k {
      RoundsLength(oracle, diffuser, w, i + 1, k);
      var b := |oracle.gates| + |diffuser.gates| + 2;
      assert (k - i) * b == b + (k - i - 1) * b;
    }
  }

  lemma {:induction false} RoundsSplit(oracle: Circuit, diffuser: Circuit, w: nat, i: nat, j: nat, k: nat)
    requires i <= j <= k
    ensures Rounds(oracle, diffuser, w, i, k) == Rounds(oracle, diffuser, w, i, j) + Rounds(oracle, diffuser, w, j, k)
    decreases j - i
  {
    if i == j {
      assert Rounds(oracle, diffuser, w, i, j) == [];
    } else {
      RoundsSplit(oracle, diffuser, w, i + 1, j, k);
      ConcatAssoc(Round(oracle, diffuser, w, i), Rounds(oracle, diffuser, w, i + 1, j), Rounds(oracle, diffuser, w, j, k));
    }
  }

  /**
   * The composed circuit, unrolled: H on qubits 0..n-1, the "Init_H"
   * barrier over the whole register, then passes 0..iterations-1 back to
   * back, each the oracle's gates verbatim (identity qubit map), the
   * "Oracle_i+1" barrier, the diffuser's gates verbatim on qubits 0..n-1 and
   * the "Diffuser_i+1" barrier.
   */
  lemma GroverGates(n: int, iterations: int, oracle: Circuit)
    requires WellFormed(oracle) && BuildGrover(n, iterations, oracle).Ok?
    ensures BuildGrover(n, iterations, oracle).value.gates
            == HLayer(n) + [Barrier(Range(0, oracle.width), InitH)]
               + Rounds(oracle, Diffuser.BuildDiffuser(n).value, oracle.width, 0, iterations)
  {
    var d := Diffuser.BuildDiffuser(n).value;
    AllFitWiden(HLayer(n), n, oracle.width);
    var init := AddBarrier(Circuit(oracle.width, HLayer(n)), InitH);
    IterateGates(init, oracle, d, 0, iterations);
  }

  /** After any prefix, pass j of k sits at offset j times one pass's length. */
  lemma RoundAt(init: seq<Gate>, oracle: Circuit, d: Circuit, w: nat, k: nat, j: nat)
    requires j < k
    ensures var b := |oracle.gates| + |d.gates| + 2;
            && |init + Rounds(oracle, d, w, 0, k)| == |init| + k * b
            && j * b + b <= k * b
            && (init + Rounds(oracle, d, w, 0, k))[|init| + j * b..|init| + j * b + b] == Round(oracle, d, w, j)
  {
    RoundsLength(oracle, d, w, 0, k);
    assert (j + 1) * |Round(oracle, d, w, j)| <= k * |Round(oracle, d, w, j)|;
    var b := |oracle.gates| + |d.gates| + 2;
    var r := Round(oracle, d, w, j);
    var before := Rounds(oracle, d, w, 0, j);
    var after := Rounds(oracle, d, w, j + 1, k);
    RoundsSplit(oracle, d, w, 0, j, k);
    assert Rounds(oracle, d, w, j, k) == r + after;
    RoundsLength(oracle, d, w, 0, j);
    ConcatAssoc(init, before, r + after);
    ConcatAssoc(init + before, r, after);
    SliceMiddle(init + before, r, after);
    assert |r| == b;
    assert (j + 1) * b == j * b + b;
  }

  lemma PrefixLayout(g: seq<Gate>, head: seq<Gate>, mark: Gate, rest: seq<Gate>)
    requires g == head + [mark] + rest
    ensures |head| < |g| && g[..|head|] == head && g[|head|] == mark && |g| == |head| + 1 + |rest|
  {
    assert g[..|head|] == (head + [mark] + rest)[..|head|];
  }

  /** Where pass j begins: after the n Hadamards, the initial barrier and j passes of b gates each. */
  function PassStart(n: nat, b: nat, j: nat): nat
  {
    n + 1 + j * b
  }

  /** In the unrolled circuit, the Hadamards and the "Init_H" barrier come first, and the length is that of all passes after them. */
  lemma InitLayout(g: seq<Gate>, n: nat, oracle: Circuit, d: Circuit, w: nat, iterations: nat)
    requires g == HLayer(n) + [Barrier(Range(0, w), InitH)] + Rounds(oracle, d, w, 0, iterations)
    ensures && n < |g|
            && g[..n] == HLayer(n)
            && g[n] == Barrier(Range(0, w), InitH)
            && |g| == PassStart(n, |oracle.gates| + |d.gates| + 2, iterations)
  {
    var rounds := Rounds(oracle, d, w, 0, iterations);
    PrefixLayout(g, HLayer(n), Barrier(Range(0, w), InitH), rounds);
    assert |rounds| == iterations * (|oracle.gates| + |d.gates| + 2) by {
      RoundsLength(oracle, d, w, 0, iterations);
    }
  }

  /** In the unrolled circuit, pass j occupies the b positions from `PassStart(n, b, j)` on, b being one pass's length. */
  lemma PassLayout(g: seq<Gate>, n: nat, oracle: Circuit, d: Circuit, w: nat, iterations: nat, j: nat)
    requires g == HLayer(n) + [Barrier(Range(0, w), InitH)] + Rounds(oracle, d, w, 0, iterations)
    requires j < iterations
    ensures var b := |oracle.gates| + |d.gates| + 2;
            && PassStart(n, b, j) + b <= |g|
            && g[PassStart(n, b, j)..PassStart(n, b, j) + b] == Round(oracle, d, w, j)
  {
    var init := HLayer(n) + [Barrier(Range(0, w), InitH)];
    RoundAt(init, oracle, d, w, iterations, j);
  }

  /** With no iterations the circuit is the initial Hadamard layer and its barrier. */
  lemma GroverNoIterations(n: int, oracle: Circuit)
    requires WellFormed(oracle) && BuildGrover(n, 0, oracle).Ok?
    ensures BuildGrover(n, 0, oracle).value.gates == HLayer(n) + [Barrier(Range(0, oracle.width), InitH)]
  {
    GroverGates(n, 0, oracle);
    var init := HLayer(n) + [Barrier(Range(0, oracle.width), InitH)];
    assert init + [] == init;
  }

  /**
   * Fed a mock oracle, the composer fails only on a non-positive search
   * width or a negative iteration count, since the oracle is always wider
   * than its search register.
   */
  lemma GroverWithMockOracle(n: int, anc: int, mark: string, iterations: int)
    requires MockOracle.BuildOracle(n, anc, mark).Ok?
    ensures var oracle := MockOracle.BuildOracle(n, anc, mark).value;
            && (BuildGrover(n, iterations, oracle).Ok? <==> n >= 1 && iterations >= 0)
            && (BuildGrover(n, iterations, oracle).Ok? ==> BuildGrover(n, iterations, oracle).value.width == n + anc)
  {
  }
}
