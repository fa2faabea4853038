/**
 * `create_complex_mock_oracle`: the register holds the search qubits
 * 0..n-1, then the result qubit n, then spare ancillas n+1..n+anc-1. The
 * oracle flips search qubits so that the marked state reads all-ones,
 * computes the match into the result qubit with an MCX, restores the search
 * qubits, applies Z to the result qubit, and then uncomputes.
 */
module MockOracle {
  import opened Wrappers
  import opened Circuits
  import opened Basis

  /**
   * The value the marked state gives qubit `i`. The mark string is
   * MSB-first, so qubit `i` reads character `|mark| - 1 - i`; only '0'
   * asks for a 0, every other character counts as a 1.
   */
  function TargetBit(mark: string, i: nat): bool
    requires i < |mark|
  {
    mark[|mark| - 1 - i] != '0'
  }

  /** The marked basis state of the search register, qubit 0 first. */
  function TargetBits(mark: string): (r: seq<bool>)
    ensures |r| == |mark|
    ensures forall i :: 0 <= i < |mark| ==> r[i] == TargetBit(mark, i)
  {
    seq(|mark|, i requires 0 <= i < |mark| => TargetBit(mark, i))
  }

  /** The search register currently holds the marked state. */
  predicate Matches(bits: seq<bool>, mark: string)
  {
    |mark| <= |bits| && bits[..|mark|] == TargetBits(mark)
  }

  /**
   * One X block: the loop over i in 0..k-1 that applies X(i) when the
   * marked state wants a 0 there. It holds only X gates on qubits below k;
   * `MaskContents` says which.
   */
  function MaskX(mark: string, k: nat): (r: seq<Gate>)
    requires k <= |mark|
    ensures forall j :: 0 <= j < |r| ==> r[j].X? && r[j].q < k
    decreases k
  {
    if k == 0 then []
    else MaskX(mark, k - 1) + (if mark[|mark| - k] == '0' then [X(k - 1)] else [])
  }

  /**
   * An X block holds exactly the gates X(i), i < k, for which the marked
   * state has a 0 at qubit i, in strictly ascending qubit order.
   */
  lemma {:induction false} MaskContents(mark: string, k: nat)
    requires k <= |mark|
    ensures forall j :: 0 <= j < |MaskX(mark, k)| ==> !TargetBit(mark, MaskX(mark, k)[j].q)
    ensures forall i :: 0 <= i < k && !TargetBit(mark, i) ==> X(i) in MaskX(mark, k)
    ensures forall a, b :: 0 <= a < b < |MaskX(mark, k)| ==> MaskX(mark, k)[a].q < MaskX(mark, k)[b].q
    decreases k
  {
    if k > 0 {
      MaskContents(mark, k - 1);
      var prev := MaskX(mark, k - 1);
      var tail: seq<Gate> := if TargetBit(mark, k - 1) then [] else [X(k - 1)];
      assert MaskX(mark, k) == prev + tail;
    }
  }

  /**
   * The MCX mode the oracle asks for: always an explicit one, never the
   * library default, and the no-ancilla decomposition exactly for one or two
   * controls.
   */
  function McxModeFor(n: nat): (m: McxMode)
    ensures m != LibraryDefault
    ensures m == NoAncilla <==> n <= 2
  {
    if n <= 2 then NoAncilla else Recursion
  }

  /**
   * The MCX the oracle emits (twice): controlled by the search qubits, onto
   * the result qubit, with the spare ancillas, or None when there are none.
   */
  function OracleMcx(n: nat, anc: nat): (g: Gate)
    requires anc >= 1
    ensures g.MCX? && g.target == n
  {
    var spare := Range(n + 1, n + anc);
    MCX(Range(0, n), n, if |spare| == 0 then None else Some(spare), McxModeFor(n))
  }

  /**
   * The oracle's MCX is controlled by exactly the search qubits, targets the
   * result qubit, borrows exactly the spare ancillas n+1..n+anc-1 (None when
   * there are none), asks for the no-ancilla decomposition up to two
   * controls and the recursive one beyond, and stays inside the register.
   */
  lemma OracleMcxShape(n: nat, anc: nat)
    requires anc >= 1
    ensures var g := OracleMcx(n, anc);
            && |g.controls| == n
            && (forall q: nat :: q in g.controls <==> q < n)
            && (g.ancillas.None? <==> anc == 1)
            && (g.ancillas.Some? ==> forall q: nat :: q in g.ancillas.value <==> n < q < n + anc)
            && (g.mode == NoAncilla <==> n <= 2)
            && (g.mode == Recursion <==> n > 2)
            && GateFits(g, n + anc)
  {
    var g := OracleMcx(n, anc);
    var spare := Range(n + 1, n + anc);
    forall q: nat ensures (q in Range(0, n) <==> q < n) && (q in spare <==> n < q < n + anc) {
      InRange(0, n, q);
      InRange(n + 1, n + anc, q);
    }
    assert Qubits(g) == Range(0, n) + [n] + (if |spare| == 0 then [] else spare);
  }

  /** An X block over qubits 0..k-1 stays inside any register of at least k qubits. */
  lemma MaskFits(mark: string, k: nat, w: nat)
    requires k <= |mark| && k <= w
    ensures AllFit(MaskX(mark, k), w)
  {
    var mask := MaskX(mark, k);
    forall i | 0 <= i < |mask| ensures GateFits(mask[i], w) {
      assert Qubits(mask[i])[0] == mask[i].q;
    }
  }

  /**
   * Search-qubit flips, then the MCX into the result qubit (absent when
   * n == 0), then the flips again. Every gate stays inside the oracle's
   * register of n + anc qubits.
   */
  function Compute(n: nat, anc: nat, mark: string): (r: seq<Gate>)
    requires anc >= 1 && n == |mark|
    ensures AllFit(r, n + anc)
  {
    var mask := MaskX(mark, n);
    var mcx: seq<Gate> := if n > 0 then [OracleMcx(n, anc)] else [];
    MaskFits(mark, n, n + anc);
    OracleMcxShape(n, anc);
    assert AllFit(mcx, n + anc);
    AllFitAppend(mask, mcx, n + anc);
    AllFitAppend(mask + mcx, mask, n + anc);
    mask + mcx + mask
  }

  /** A half, Z on the result qubit, the half again: inside any register with room for the result qubit. */
  function PhaseSandwich(half: seq<Gate>, n: nat, w: nat): (c: Circuit)
    requires AllFit(half, w) && n < w
    ensures c.width == w && WellFormed(c)
  {
    assert GateFits(Z(n), w) by { assert Qubits(Z(n))[0] == n; }
    AllFitAppend(half, [Z(n)], w);
    AllFitAppend(half + [Z(n)], half, w);
    Circuit(w, half + [Z(n)] + half)
  }

  /** `create_complex_mock_oracle(n, anc, mark)`. */
  function BuildOracle(n: int, anc: int, mark: string): (r: Result<Circuit>)
    ensures r.Ok? <==> |mark| == n && anc >= 1
    ensures |mark| != n ==> r == Err(MarkLengthMismatch)
    ensures |mark| == n && anc < 1 ==> r == Err(NoOracleAncilla)
    ensures r.Ok? ==> r.value.width == n + anc && WellFormed(r.value)
  {
    if |mark| != n then Err(MarkLengthMismatch)
    else if anc < 1 then Err(NoOracleAncilla)
    else Ok(OracleCircuit(n, anc, mark))
  }

  /** The circuit built once the arguments are accepted: compute, Z on the result qubit, uncompute. */
  function OracleCircuit(n: nat, anc: nat, mark: string): (c: Circuit)
    requires anc >= 1 && n == |mark|
    ensures c.width == n + anc && WellFormed(c)
  {
    PhaseSandwich(Compute(n, anc, mark), n, n + anc)
  }

  // ---- Basis-state behaviour ----

  /** The bits after one X block over qubits 0..k-1. */
  function FlipMask(bits: seq<bool>, mark: string, k: nat): (r: seq<bool>)
    requires k <= |mark|
    ensures |r| == |bits|
  {
    seq(|bits|, i requires 0 <= i < |bits| => if i < k && !TargetBit(mark, i) then !bits[i] else bits[i])
  }

  lemma MaskNoH(mark: string, k: nat)
    requires k <= |mark|
    ensures NoH(MaskX(mark, k))
  {
  }

  lemma FlipMaskStep(bits: seq<bool>, mark: string, k: nat)
    requires 0 < k <= |mark|
    ensures TargetBit(mark, k - 1) ==> FlipMask(bits, mark, k - 1) == FlipMask(bits, mark, k)
    ensures !TargetBit(mark, k - 1) ==> Toggle(FlipMask(bits, mark, k - 1), k - 1) == FlipMask(bits, mark, k)
  {
  }

  /** An X block negates exactly the bits where the marked state has a 0, and leaves the sign alone. */
  lemma {:induction false} MaskRun(mark: string, k: nat, s: State)
    requires k <= |mark|
    ensures Read(MaskX(mark, k)).Some?
    ensures Run(Read(MaskX(mark, k)).value, s) == State(FlipMask(s.bits, mark, k), s.flipped)
    decreases k
  {
    if k == 0 {
      assert FlipMask(s.bits, mark, 0) == s.bits;
    } else {
      var prev := MaskX(mark, k - 1);
      var tail: seq<Gate> := if TargetBit(mark, k - 1) then [] else [X(k - 1)];
      assert MaskX(mark, k) == prev + tail;
      MaskRun(mark, k - 1, s);
      MaskNoH(mark, k - 1);
      ReadAppend(prev, tail);
      var opsP := Read(prev).value;
      var mid := State(FlipMask(s.bits, mark, k - 1), s.flipped);
      FlipMaskStep(s.bits, mark, k);
      if TargetBit(mark, k - 1) {
        assert Read(tail) == Some([]);
        assert opsP + [] == opsP;
      } else {
        ReadSingle(X(k - 1));
        RunAppend(opsP, [Flip(k - 1)], s);
        RunSingle(Flip(k - 1), mid);
      }
    }
  }

  /** After the X block, the MCX controls are all 1 exactly when the search register held the marked state. */
  lemma MatchAfterMask(bits: seq<bool>, mark: string)
    requires |mark| <= |bits|
    ensures AllOnes(FlipMask(bits, mark, |mark|), Range(0, |mark|)) <==> Matches(bits, mark)
  {
    var n := |mark|;
    var f := FlipMask(bits, mark, n);
    if AllOnes(f, Range(0, n)) {
      forall i | 0 <= i < n ensures bits[..n][i] == TargetBits(mark)[i] {
        assert Range(0, n)[i] == i;
      }
    }
    if Matches(bits, mark) {
      forall i | 0 <= i < n ensures f[Range(0, n)[i]] {
        assert Range(0, n)[i] == i;
        assert bits[..n][i] == TargetBits(mark)[i];
      }
    }
  }

  lemma ComputeNoH(n: nat, anc: nat, mark: string)
    requires anc >= 1 && n == |mark|
    ensures NoH(Compute(n, anc, mark))
  {
  }

  /** The basis-state reading of the MCX step: a controlled flip of the result qubit, or nothing. */
  function McxOps(n: nat): seq<Op>
  {
    if n > 0 then [CFlip(Range(0, n), n)] else []
  }

  lemma ComputeReads(n: nat, anc: nat, mark: string)
    requires anc >= 1 && n == |mark|
    ensures Read(MaskX(mark, n)).Some? && Read(Compute(n, anc, mark)).Some?
    ensures Read(Compute(n, anc, mark)).value
            == Read(MaskX(mark, n)).value + McxOps(n) + Read(MaskX(mark, n)).value
  {
    var mask := MaskX(mark, n);
    var mcx: seq<Gate> := if n > 0 then [OracleMcx(n, anc)] else [];
    MaskNoH(mark, n);
    ReadAppend(mask, mcx);
    assert NoH(mask + mcx);
    ReadAppend(mask + mcx, mask);
    if n > 0 { ReadSingle(OracleMcx(n, anc)); } else { assert Read(mcx) == Some([]); }
  }

  lemma UnmaskToggle(bits: seq<bool>, mark: string, n: nat)
    requires n == |mark| < |bits|
    ensures FlipMask(Toggle(FlipMask(bits, mark, n), n), mark, n) == Toggle(bits, n)
    ensures FlipMask(FlipMask(bits, mark, n), mark, n) == bits
  {
  }

  /** The compute block toggles the result qubit exactly on the marked state, and restores the search qubits. */
  lemma ComputeRun(n: nat, anc: nat, mark: string, s: State)
    requires anc >= 1 && n == |mark| && |s.bits| == n + anc
    ensures Read(Compute(n, anc, mark)).Some?
    ensures Run(Read(Compute(n, anc, mark)).value, s)
            == State(if n > 0 && Matches(s.bits, mark) then Toggle(s.bits, n) else s.bits, s.flipped)
  {
    ComputeReads(n, anc, mark);
    var opsM := Read(MaskX(mark, n)).value;
    var opsC := McxOps(n);
    RunAppend(opsM + opsC, opsM, s);
    RunAppend(opsM, opsC, s);
    MaskRun(mark, n, s);
    var f := FlipMask(s.bits, mark, n);
    var s1 := State(f, s.flipped);
    MatchAfterMask(s.bits, mark);
    var s2 := Run(opsC, s1);
    if n > 0 {
      RunSingle(CFlip(Range(0, n), n), s1);
    }
    MaskRun(mark, n, s2);
    UnmaskToggle(s.bits, mark, n);
  }

  /**
   * The whole oracle on a basis state: every qubit, the result qubit and
   * the spare ancillas included, ends as it started, and the sign flips
   * exactly when the result qubit differs from "the search register holds
   * the marked state" (which never holds for an empty search register, as
   * then no MCX is emitted).
   */
  lemma OracleSemantics(n: int, anc: int, mark: string, bits: seq<bool>, flipped: bool)
    requires BuildOracle(n, anc, mark).Ok? && |bits| == n + anc
    ensures Simulate(BuildOracle(n, anc, mark).value.gates, State(bits, flipped))
            == Some(State(bits, flipped != (bits[n] != (n > 0 && Matches(bits, mark)))))
  {
    OracleReads(n, anc, mark);
    OracleRun(n, anc, mark, bits, flipped);
  }

  /** Running compute, the phase flip on the result qubit, and compute again. */
  lemma OracleRun(n: nat, anc: nat, mark: string, bits: seq<bool>, flipped: bool)
    requires anc >= 1 && n == |mark| && |bits| == n + anc
    ensures Read(Compute(n, anc, mark)).Some?
    ensures var opsH := Read(Compute(n, anc, mark)).value;
            Run(opsH + [CPhase([n])] + opsH, State(bits, flipped))
            == State(bits, flipped != (bits[n] != (n > 0 && Matches(bits, mark))))
  {
    var s := State(bits, flipped);
    ComputeRun(n, anc, mark, s);
    var opsH := Read(Compute(n, anc, mark)).value;
    RunAppend(opsH + [CPhase([n])], opsH, s);
    RunAppend(opsH, [CPhase([n])], s);
    var hit := n > 0 && Matches(bits, mark);
    var b1 := if hit then Toggle(bits, n) else bits;
    var s2 := Run([CPhase([n])], State(b1, flipped));
    assert s2 == State(b1, flipped != b1[n]) by {
      RunSingle(CPhase([n]), State(b1, flipped));
      assert [n][0] == n;
      assert AllOnes(b1, [n]) <==> b1[n];
    }
    assert Matches(b1, mark) == Matches(bits, mark) by {
      assert b1[..n] == bits[..n];
    }
    ComputeRun(n, anc, mark, s2);
    if hit {
      assert Toggle(b1, n) == bits;
    }
  }

  /** The oracle reads as the compute block's operations, a phase flip on the result qubit, and the same operations again. */
  lemma OracleReads(n: int, anc: int, mark: string)
    requires BuildOracle(n, anc, mark).Ok?
    ensures Read(Compute(n, anc, mark)).Some?
    ensures Read(BuildOracle(n, anc, mark).value.gates)
            == Some(Read(Compute(n, anc, mark)).value + [CPhase([n])] + Read(Compute(n, anc, mark)).value)
  {
    var half := Compute(n, anc, mark);
    ComputeNoH(n, anc, mark);
    ComputeReads(n, anc, mark);
    ReadAppend(half, [Z(n)]);
    assert NoH(half + [Z(n)]);
    ReadAppend(half + [Z(n)], half);
    ReadSingle(Z(n));
  }

  /**
   * With the result qubit prepared in 0, the oracle negates the sign of
   * exactly one basis state of a non-empty search register: the marked one.
   */
  lemma OracleMarksTarget(n: int, anc: int, mark: string, bits: seq<bool>)
    requires BuildOracle(n, anc, mark).Ok? && |bits| == n + anc && !bits[n]
    ensures Simulate(BuildOracle(n, anc, mark).value.gates, State(bits, false)).Some?
    ensures Simulate(BuildOracle(n, anc, mark).value.gates, State(bits, false)).value.flipped
            <==> n > 0 && bits[..n] == TargetBits(mark)
  {
    OracleSemantics(n, anc, mark, bits, false);
  }

  // ---- Gate-level layout ----

  /** Each search qubit appears at most once in an X block, and only where the marked state has a 0. */
  lemma {:induction false} MaskCount(mark: string, k: nat, q: nat)
    requires k <= |mark|
    ensures multiset(MaskX(mark, k))[X(q)] == if q < k && !TargetBit(mark, q) then 1 else 0
    decreases k
  {
    if k > 0 {
      var prev := MaskX(mark, k - 1);
      var tail: seq<Gate> := if TargetBit(mark, k - 1) then [] else [X(k - 1)];
      MaskCount(mark, k - 1, q);
      assert MaskX(mark, k) == prev + tail;
      assert multiset(prev + tail) == multiset(prev) + multiset(tail);
      assert multiset(tail)[X(q)] == if q == k - 1 && !TargetBit(mark, q) then 1 else 0;
    }
  }

  /** A gate list of the form half, mid, half has odd length, mid in the middle, and equal halves around it. */
  lemma Sandwich(gs: seq<Gate>, half: seq<Gate>, mid: Gate)
    requires gs == half + [mid] + half
    ensures |gs| % 2 == 1 && |gs| / 2 == |half|
    ensures gs[|gs| / 2] == mid && gs[|gs| / 2 + 1..] == gs[..|gs| / 2]
  {
    assert gs[|half| + 1..] == half;
    assert gs[..|half|] == half;
  }

  /**
   * The oracle is compute, then Z on the result qubit, then the very same
   * compute sequence again as the uncompute.
   */
  lemma OracleShape(n: int, anc: int, mark: string)
    requires BuildOracle(n, anc, mark).Ok?
    ensures var gs := BuildOracle(n, anc, mark).value.gates;
            && |gs| % 2 == 1
            && gs[|gs| / 2] == Z(n)
            && gs[|gs| / 2 + 1..] == gs[..|gs| / 2]
  {
    var gs := BuildOracle(n, anc, mark).value.gates;
    Sandwich(gs, Compute(n, anc, mark), Z(n));
  }

  /** The compute block holds only X gates on search qubits and the oracle's MCX. */
  lemma ComputeKinds(n: nat, anc: nat, mark: string)
    requires anc >= 1 && n == |mark|
    ensures forall g :: g in Compute(n, anc, mark) ==> (g.X? && g.q < n) || g == OracleMcx(n, anc)
  {
    var mask := MaskX(mark, n);
    var mcx: seq<Gate> := if n > 0 then [OracleMcx(n, anc)] else [];
    forall g | g in Compute(n, anc, mark) ensures (g.X? && g.q < n) || g == OracleMcx(n, anc) {
      assert g in mask || g in mcx;
    }
  }

  /**
   * Every gate of the oracle is an X on a search qubit, the oracle's MCX,
   * or Z on the result qubit: in particular no Hadamard and no barrier.
   */
  lemma OracleKinds(n: int, anc: int, mark: string)
    requires BuildOracle(n, anc, mark).Ok?
    ensures forall g :: g in BuildOracle(n, anc, mark).value.gates ==>
              (g.X? && g.q < n) || g == OracleMcx(n, anc) || g == Z(n)
  {
    var half := Compute(n, anc, mark);
    ComputeKinds(n, anc, mark);
    forall g | g in BuildOracle(n, anc, mark).value.gates
      ensures (g.X? && g.q < n) || g == OracleMcx(n, anc) || g == Z(n)
    {
      assert g in half || g == Z(n);
    }
  }

  lemma ComputeXCount(n: nat, anc: nat, mark: string, q: nat)
    requires anc >= 1 && n == |mark|
    ensures multiset(Compute(n, anc, mark))[X(q)] == if q < n && !TargetBit(mark, q) then 2 else 0
  {
    var mask := MaskX(mark, n);
    var mcx: seq<Gate> := if n > 0 then [OracleMcx(n, anc)] else [];
    assert multiset(Compute(n, anc, mark)) == multiset(mask) + multiset(mcx) + multiset(mask);
    MaskCount(mark, n, q);
    assert multiset(mcx)[X(q)] == 0;
  }

  lemma ComputeMcxCount(n: nat, anc: nat, mark: string)
    requires anc >= 1 && n == |mark|
    ensures multiset(Compute(n, anc, mark))[OracleMcx(n, anc)] == if n > 0 then 1 else 0
    ensures multiset(Compute(n, anc, mark))[Z(n)] == 0
  {
    var mask := MaskX(mark, n);
    var mcx: seq<Gate> := if n > 0 then [OracleMcx(n, anc)] else [];
    assert multiset(Compute(n, anc, mark)) == multiset(mask) + multiset(mcx) + multiset(mask);
    assert OracleMcx(n, anc) !in mask;
    assert Z(n) !in mask;
  }

  /**
   * Gate counts: every search qubit receives four X gates when the marked
   * state has a 0 there and none otherwise (so an even number), the result
   * qubit gets exactly one Z, and the oracle's MCX appears twice when there
   * is a search qubit and not at all otherwise.
   */
  lemma OracleGateCounts(n: int, anc: int, mark: string)
    requires BuildOracle(n, anc, mark).Ok?
    ensures var gs := BuildOracle(n, anc, mark).value.gates;
            && (forall q: nat :: multiset(gs)[X(q)] == if q < n && !TargetBit(mark, q) then 4 else 0)
            && multiset(gs)[Z(n)] == 1
            && multiset(gs)[OracleMcx(n, anc)] == if n > 0 then 2 else 0
  {
    var half := Compute(n, anc, mark);
    var gs := BuildOracle(n, anc, mark).value.gates;
    assert multiset(gs) == multiset(half) + multiset{Z(n)} + multiset(half);
    forall q: nat ensures multiset(gs)[X(q)] == if q < n && !TargetBit(mark, q) then 4 else 0 {
      ComputeXCount(n, anc, mark, q);
    }
    ComputeMcxCount(n, anc, mark);
  }
}
