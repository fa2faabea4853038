/**
 * `build_diffuser`: H on every qubit, X on every qubit, a barrier, a phase
 * flip of |1...1>, a barrier, X on every qubit, H on every qubit. The phase
 * flip is Z on qubit 0 for one qubit, and H·MCX·H on the last qubit,
 * controlled by all the others, for more.
 */
module Diffuser {
  import opened Wrappers
  import opened Circuits
  import opened Basis

  /** Stage 3: the multi-controlled Z on |1...1>. It touches only the diffuser's own n qubits. */
  function MiddleStage(n: nat): (r: seq<Gate>)
    requires n >= 1
    ensures AllFit(r, n)
  {
    if n == 1 then
      assert Qubits(Z(0))[0] == 0;
      [Z(0)]
    else
      var g := MCX(Range(0, n - 1), n - 1, None, LibraryDefault);
      assert Qubits(g) == Range(0, n - 1) + [n - 1] + [];
      assert Qubits(H(n - 1))[0] == n - 1;
      [H(n - 1), g, H(n - 1)]
  }

  /** The barrier `qc.barrier()` places: all n qubits, no label. */
  function Fence(n: nat): Gate
  {
    Barrier(Range(0, n), Unlabelled)
  }

  lemma FenceFits(n: nat)
    ensures GateFits(Fence(n), n)
  {
  }

  /** Stages 1 and 2: H on every qubit, then X on every qubit. */
  function Prepare(n: nat): seq<Gate>
  {
    HLayer(n) + XLayer(n)
  }

  /** Stage 3 between its two barriers. */
  function Reflect(n: nat): seq<Gate>
    requires n >= 1
  {
    [Fence(n)] + MiddleStage(n) + [Fence(n)]
  }

  /** Stages 4 and 5: X on every qubit, then H on every qubit. */
  function Unprepare(n: nat): seq<Gate>
  {
    XLayer(n) + HLayer(n)
  }

  /** `build_diffuser(n)`. */
  function BuildDiffuser(n: int): (r: Result<Circuit>)
    ensures r.Ok? <==> n >= 1
    ensures r.Err? ==> r.error == DiffuserQubitsNotPositive
    ensures r.Ok? ==> r.value.width == n && WellFormed(r.value)
  {
    if n < 1 then Err(DiffuserQubitsNotPositive)
    else
      FenceFits(n);
      Ok(Circuit(n, Prepare(n) + Reflect(n) + Unprepare(n)))
  }

  // ---- Gate-level layout ----

  lemma PrepareAt(n: nat, i: nat)
    requires i < n
    ensures |Prepare(n)| == 2 * n && |Unprepare(n)| == 2 * n
    ensures Prepare(n)[i] == H(i) && Prepare(n)[n + i] == X(i)
    ensures Unprepare(n)[i] == X(i) && Unprepare(n)[n + i] == H(i)
  {
  }

  lemma PrepareNoBarrier(n: nat, j: nat)
    requires j < 2 * n
    ensures |Prepare(n)| == 2 * n && |Unprepare(n)| == 2 * n
    ensures !Prepare(n)[j].Barrier? && !Unprepare(n)[j].Barrier?
  {
    if j < n {
      PrepareAt(n, j);
    } else {
      PrepareAt(n, j - n);
    }
  }

  lemma ReflectLayout(n: nat)
    requires n >= 1
    ensures |Reflect(n)| == (if n == 1 then 3 else 5)
    ensures Reflect(n)[0] == Fence(n) && Reflect(n)[|Reflect(n)| - 1] == Fence(n)
    ensures forall j :: 0 < j < |Reflect(n)| - 1 ==> !Reflect(n)[j].Barrier?
    ensures n == 1 ==> Reflect(n)[1] == Z(0)
    ensures n > 1 ==> Reflect(n)[1..4] == [H(n - 1), MCX(Range(0, n - 1), n - 1, None, LibraryDefault), H(n - 1)]
  {
  }

  lemma DiffuserGates(n: int)
    requires n >= 1
    ensures BuildDiffuser(n).value.gates == Prepare(n) + Reflect(n) + Unprepare(n)
  {
  }

  lemma OuterLayout(gs: seq<Gate>, n: nat)
    requires n >= 1 && gs == Prepare(n) + Reflect(n) + Unprepare(n)
    ensures |gs| == 4 * n + (if n == 1 then 3 else 5)
    ensures forall i :: 0 <= i < n ==> gs[i] == H(i) && gs[n + i] == X(i)
    ensures forall i {:trigger gs[|gs| - 2 * n..][i]} :: 0 <= i < n ==> gs[|gs| - 2 * n..][i] == X(i) && gs[|gs| - 2 * n..][n + i] == H(i)
  {
    var p, r, u := Prepare(n), Reflect(n), Unprepare(n);
    assert |r| == (if n == 1 then 3 else 5) by { ReflectLayout(n); }
    assert |p| == 2 * n && |u| == 2 * n;
    forall i | 0 <= i < n ensures gs[i] == H(i) && gs[n + i] == X(i) {
      PrepareAt(n, i);
      At3(p, r, u, i);
      At3(p, r, u, n + i);
    }
    assert gs[|gs| - 2 * n..] == u;
    forall i | 0 <= i < n ensures u[i] == X(i) && u[n + i] == H(i) {
      PrepareAt(n, i);
    }
  }

  /** The diffuser has 4n gates in its outer stages and 3 or 5 in stage 3 with its barriers. */
  lemma DiffuserLength(n: int)
    requires n >= 1
    ensures |BuildDiffuser(n).value.gates| == 4 * n + (if n == 1 then 3 else 5)
  {
    DiffuserGates(n);
    OuterLayout(BuildDiffuser(n).value.gates, n);
  }

  /** Stages 1 and 2 by position: H then X on qubits 0..n-1 in ascending order. */
  lemma DiffuserHead(n: int)
    requires n >= 1
    ensures var gs := BuildDiffuser(n).value.gates;
            forall i :: 0 <= i < n ==> gs[i] == H(i) && gs[n + i] == X(i)
  {
    DiffuserGates(n);
    OuterLayout(BuildDiffuser(n).value.gates, n);
  }

  /** Stages 4 and 5 by position: X then H on qubits 0..n-1, undoing stages 1 and 2. */
  lemma DiffuserTail(n: int)
    requires n >= 1
    ensures var gs := BuildDiffuser(n).value.gates;
            && 2 * n <= |gs|
            && forall i {:trigger gs[|gs| - 2 * n..][i]} :: 0 <= i < n ==> gs[|gs| - 2 * n..][i] == X(i) && gs[|gs| - 2 * n..][n + i] == H(i)
  {
    DiffuserGates(n);
    OuterLayout(BuildDiffuser(n).value.gates, n);
  }

  /**
   * Stage 3 by position: one barrier right before and one right after the
   * middle stage, and no other barrier; the middle stage is Z(0) for one
   * qubit, and H, MCX controlled by 0..n-2 onto n-1, H otherwise.
   */
  lemma DiffuserMiddleStage(n: int)
    requires n >= 1
    ensures var gs := BuildDiffuser(n).value.gates;
            && |gs| == 4 * n + (if n == 1 then 3 else 5)
            && gs[2 * n] == Fence(n) && gs[|gs| - 2 * n - 1] == Fence(n)
            && (forall j :: 0 <= j < |gs| && gs[j].Barrier? ==> j == 2 * n || j == |gs| - 2 * n - 1)
            && (n == 1 ==> gs[2 * n + 1] == Z(0))
            && (n > 1 ==> gs[2 * n + 1..2 * n + 4]
                          == [H(n - 1), MCX(Range(0, n - 1), n - 1, None, LibraryDefault), H(n - 1)])
  {
    var gs := BuildDiffuser(n).value.gates;
    var p, r, u := Prepare(n), Reflect(n), Unprepare(n);
    assert gs == p + r + u by { DiffuserGates(n); }
    ReflectLayout(n);
    assert |p| == 2 * n && |u| == 2 * n;
    At3(p, r, u, 2 * n);
    At3(p, r, u, 2 * n + |r| - 1);
    assert gs[2 * n..2 * n + |r|] == r by { SliceMiddle(p, r, u); }
    forall j | 0 <= j < |gs| && gs[j].Barrier? ensures j == 2 * n || j == |gs| - 2 * n - 1 {
      At3(p, r, u, j);
      if j < 2 * n {
        PrepareNoBarrier(n, j);
      } else if j >= 2 * n + |r| {
        PrepareNoBarrier(n, j - 2 * n - |r|);
      }
    }
  }

  /** The MCX of the middle stage for n > 1. */
  function DiffuserMcx(n: nat): Gate
    requires n > 1
  {
    MCX(Range(0, n - 1), n - 1, None, LibraryDefault)
  }

  lemma OnQubitMcx(n: nat, q: nat)
    requires n > 1
    ensures OnQubit([DiffuserMcx(n)], q) == if q < n then [DiffuserMcx(n)] else []
  {
    OnQubitSingle(DiffuserMcx(n), q);
    InRange(0, n - 1, q);
    assert Qubits(DiffuserMcx(n)) == Range(0, n - 1) + [n - 1] + [];
  }

  lemma OnQubitPhaseFlip(n: nat, q: nat)
    requires n >= 1
    ensures OnQubit(MiddleStage(n), q) == if q >= n then []
                                          else if n == 1 then [Z(0)]
                                          else if q < n - 1 then [DiffuserMcx(n)]
                                          else [H(q), DiffuserMcx(n), H(q)]
  {
    if n == 1 {
      OnQubitSingle(Z(0), q);
    } else {
      var mcx, h := DiffuserMcx(n), [H(n - 1)];
      assert MiddleStage(n) == h + [mcx] + h;
      OnQubitAppend(h, [mcx], q);
      OnQubitAppend(h + [mcx], h, q);
      OnQubitSingle(H(n - 1), q);
      OnQubitMcx(n, q);
    }
  }

  lemma OnQubitMiddle(n: nat, q: nat)
    requires n >= 1
    ensures OnQubit(Reflect(n), q) == OnQubit(MiddleStage(n), q)
  {
    var mid, f := MiddleStage(n), [Fence(n)];
    OnQubitAppend(f + mid, f, q);
    OnQubitAppend(f, mid, q);
    OnQubitSingle(Fence(n), q);
  }

  lemma OnQubitSplit(n: int, q: nat)
    requires n >= 1
    ensures var hq, xq := OnQubit(HLayer(n), q), OnQubit(XLayer(n), q);
            OnQubit(BuildDiffuser(n).value.gates, q) == hq + xq + OnQubit(MiddleStage(n), q) + xq + hq
  {
    var hl, xl := HLayer(n), XLayer(n);
    DiffuserGates(n);
    OnQubitAppend(Prepare(n) + Reflect(n), Unprepare(n), q);
    OnQubitAppend(Prepare(n), Reflect(n), q);
    OnQubitAppend(hl, xl, q);
    OnQubitAppend(xl, hl, q);
    OnQubitMiddle(n, q);
  }

  /**
   * The gates other than barriers that touch qubit q, in order: the
   * H^n·X^n·MCZ·X^n·H^n structure seen from one qubit. A qubit outside the
   * register is never touched.
   */
  lemma DiffuserOnQubit(n: int, q: nat)
    requires n >= 1
    ensures OnQubit(BuildDiffuser(n).value.gates, q)
            == if q >= n then []
               else if n == 1 then [H(0), X(0), Z(0), X(0), H(0)]
               else if q < n - 1 then [H(q), X(q), DiffuserMcx(n), X(q), H(q)]
               else [H(q), X(q), H(q), DiffuserMcx(n), H(q), X(q), H(q)]
  {
    var view := OnQubit(BuildDiffuser(n).value.gates, q);
    var hq, xq, mq := OnQubit(HLayer(n), q), OnQubit(XLayer(n), q), OnQubit(MiddleStage(n), q);
    assert view == hq + xq + mq + xq + hq by { OnQubitSplit(n, q); }
    OnQubitHLayer(n, q);
    OnQubitXLayer(n, q);
    OnQubitPhaseFlip(n, q);
    ViewParts(view, hq, xq, mq, n, q);
  }

  /** Putting together the per-stage views of qubit q. */
  lemma ViewParts(view: seq<Gate>, hq: seq<Gate>, xq: seq<Gate>, mq: seq<Gate>, n: nat, q: nat)
    requires n >= 1
    requires view == hq + xq + mq + xq + hq
    requires hq == if q < n then [H(q)] else []
    requires xq == if q < n then [X(q)] else []
    requires mq == if q >= n then []
                   else if n == 1 then [Z(0)]
                   else if q < n - 1 then [DiffuserMcx(n)]
                   else [H(q), DiffuserMcx(n), H(q)]
    ensures view == if q >= n then []
                    else if n == 1 then [H(0), X(0), Z(0), X(0), H(0)]
                    else if q < n - 1 then [H(q), X(q), DiffuserMcx(n), X(q), H(q)]
                    else [H(q), X(q), H(q), DiffuserMcx(n), H(q), X(q), H(q)]
  {
    if q >= n {
      assert view == [];
    } else if n == 1 {
      assert view == [H(0), X(0), Z(0), X(0), H(0)];
    } else if q < n - 1 {
      assert view == [H(q), X(q), DiffuserMcx(n), X(q), H(q)];
    } else {
      assert view == [H(q), X(q), H(q), DiffuserMcx(n), H(q), X(q), H(q)];
    }
  }

  /** For every qubit, the non-barrier gates touching it read the same forwards and backwards. */
  lemma DiffuserPalindrome(n: int, q: nat)
    requires n >= 1
    ensures Palindrome(OnQubit(BuildDiffuser(n).value.gates, q))
  {
    DiffuserOnQubit(n, q);
    QubitViewPalindrome(OnQubit(BuildDiffuser(n).value.gates, q), n, q);
  }

  /** Every per-qubit view the diffuser can produce reads the same both ways. */
  lemma QubitViewPalindrome(s: seq<Gate>, n: nat, q: nat)
    requires n >= 1
    requires s == if q >= n then []
                  else if n == 1 then [H(0), X(0), Z(0), X(0), H(0)]
                  else if q < n - 1 then [H(q), X(q), DiffuserMcx(n), X(q), H(q)]
                  else [H(q), X(q), H(q), DiffuserMcx(n), H(q), X(q), H(q)]
    ensures Palindrome(s)
  {
    if q >= n {
    } else if n == 1 {
      PalindromeWrap(X(0), [Z(0)]);
      PalindromeWrap(H(0), [X(0), Z(0), X(0)]);
      assert s == [H(0)] + [X(0), Z(0), X(0)] + [H(0)];
    } else if q < n - 1 {
      var m := DiffuserMcx(n);
      PalindromeWrap(X(q), [m]);
      PalindromeWrap(H(q), [X(q), m, X(q)]);
      assert s == [H(q)] + [X(q), m, X(q)] + [H(q)];
    } else {
      var m := DiffuserMcx(n);
      PalindromeWrap(H(q), [m]);
      PalindromeWrap(X(q), [H(q), m, H(q)]);
      PalindromeWrap(H(q), [X(q), H(q), m, H(q), X(q)]);
      assert s == [H(q)] + [X(q), H(q), m, H(q), X(q)] + [H(q)];
    }
  }

  // ---- Basis-state behaviour of the phase flip ----

  /** Stages 2 to 4: the X layer, the barriers and the middle stage, without the H layers. */
  function Core(n: nat): seq<Gate>
    requires n >= 1
  {
    XLayer(n) + Reflect(n) + XLayer(n)
  }

  lemma CoreSlice(n: int)
    requires n >= 1
    ensures var gs := BuildDiffuser(n).value.gates;
            n <= |gs| - n && gs[n..|gs| - n] == Core(n)
  {
    var gs := BuildDiffuser(n).value.gates;
    var hl, xl, r := HLayer(n), XLayer(n), Reflect(n);
    assert gs == hl + (xl + r + xl) + hl;
  }

  lemma ReadFenced(n: nat)
    requires n >= 1
    ensures Read(XLayer(n)).Some?
    ensures Read([Fence(n)] + XLayer(n)) == Read(XLayer(n))
    ensures Read(XLayer(n) + [Fence(n)]) == Read(XLayer(n))
  {
    var xl, f := XLayer(n), [Fence(n)];
    XLayerNoH(n);
    ReadSingle(Fence(n));
    ReadAppend(f, xl);
    ReadAppend(xl, f);
    assert Read(xl).value + [] == Read(xl).value;
    assert [] + Read(xl).value == Read(xl).value;
  }

  /** The middle stage reads as one phase flip on all-ones over qubits 0..n-1. */
  lemma ReadPhaseFlip(n: nat, rest: seq<Gate>)
    requires n >= 1 && Read(rest).Some?
    ensures Read(MiddleStage(n) + rest) == Some([CPhase(Range(0, n))] + Read(rest).value)
  {
    var mid := MiddleStage(n);
    if n == 1 {
      ReadAppend(mid, rest);
      ReadSingle(Z(0));
      assert Range(0, 1) == [0];
    } else {
      InRange(0, n - 1, n - 1);
      assert McZAt(mid + rest);
      assert (mid + rest)[3..] == rest;
      assert Range(0, n - 1) + [n - 1] == Range(0, n);
    }
  }

  lemma Regroup(a: seq<Gate>, b: seq<Gate>, c: seq<Gate>, d: seq<Gate>, e: seq<Gate>)
    ensures a + (b + c + d) + e == (a + b) + (c + (d + e))
  {
  }

  /** Reading H·MCX·H as a multi-controlled Z, stages 2 to 4 are X^n, a phase flip on all-ones, X^n. */
  lemma CoreReads(n: nat)
    requires n >= 1
    ensures Read(XLayer(n)).Some? && Read(Core(n)).Some?
    ensures Read(Core(n)).value == Read(XLayer(n)).value + [CPhase(Range(0, n))] + Read(XLayer(n)).value
  {
    var xl, f, mid := XLayer(n), [Fence(n)], MiddleStage(n);
    ReadFenced(n);
    var opsX := Read(xl).value;
    ReadPhaseFlip(n, f + xl);
    assert NoH(xl + f) by { XLayerNoH(n); }
    ReadAppend(xl + f, mid + (f + xl));
    Regroup(xl, f, mid, f, xl);
    assert opsX + ([CPhase(Range(0, n))] + opsX) == opsX + [CPhase(Range(0, n))] + opsX;
  }

  /**
   * Stages 2 to 4 negate the sign of exactly one basis state, the all-zero
   * one, and leave every qubit as it was.
   */
  lemma CoreFlipsAllZero(n: int, bits: seq<bool>, flipped: bool)
    requires n >= 1 && |bits| == n
    ensures var gs := BuildDiffuser(n).value.gates;
            Simulate(gs[n..|gs| - n], State(bits, flipped)) == Some(State(bits, flipped != (true !in bits)))
  {
    var gs := BuildDiffuser(n).value.gates;
    CoreSlice(n);
    CoreReads(n);
    var opsX := Read(XLayer(n)).value;
    var s := State(bits, flipped);
    var phase := CPhase(Range(0, n));
    RunAppend(opsX + [phase], opsX, s);
    RunAppend(opsX, [phase], s);
    XLayerRun(n, s);
    var neg := FlipPrefix(bits, n);
    var s2 := Run([phase], State(neg, flipped));
    RunSingle(phase, State(neg, flipped));
    assert AllOnes(neg, Range(0, n)) <==> true !in bits by {
      if AllOnes(neg, Range(0, n)) {
        forall i | 0 <= i < n ensures !bits[i] { assert Range(0, n)[i] == i; }
      }
    }
    XLayerRun(n, s2);
    assert FlipPrefix(neg, n) == bits;
  }
}
