/**
 * Circuits as immutable values: a register width plus the ordered list of
 * gates appended to it. Appending a Qiskit gate to a `QuantumCircuit` is
 * modelled as appending a `Gate` to the sequence.
 */
module Circuits {
  import opened Wrappers

  /**
   * The `mode` tag handed to Qiskit's `mcx`; its decomposition is not
   * modelled. `LibraryDefault` stands for a call that passes no mode, which
   * Qiskit resolves to its own default (`'noancilla'` in the releases this
   * code targets); the tag stays separate because the model never
   * interprets modes.
   */
  datatype McxMode = NoAncilla | Recursion | LibraryDefault

  /** Barrier labels used by the builders (`barrier()` carries none). */
  datatype BarrierLabel = Unlabelled | InitH | OracleDone(round: nat) | DiffuserDone(round: nat)

  datatype Gate =
    | H(q: nat)
    | X(q: nat)
    | Z(q: nat)
    | MCX(controls: seq<nat>, target: nat, ancillas: Option<seq<nat>>, mode: McxMode)
    | Barrier(span: seq<nat>, tag: BarrierLabel)

  datatype Circuit = Circuit(width: nat, gates: seq<Gate>)

  /** Python's `list(range(lo, hi))`. */
  function Range(lo: nat, hi: nat): (r: seq<nat>)
    ensures |r| == if lo <= hi then hi - lo else 0
    ensures forall i :: 0 <= i < |r| ==> r[i] == lo + i
  {
    if lo < hi then seq(hi - lo, i requires 0 <= i < hi - lo => lo + i) else []
  }

  lemma InRange(lo: nat, hi: nat, q: nat)
    ensures q in Range(lo, hi) <==> lo <= q < hi
  {
    if lo <= q < hi {
      assert Range(lo, hi)[q - lo] == q;
    }
  }

  /** Every qubit a gate names, including MCX ancillas and a barrier's span. */
  function Qubits(g: Gate): seq<nat>
  {
    match g
    case H(q) => [q]
    case X(q) => [q]
    case Z(q) => [q]
    case MCX(cs, t, anc, _) => cs + [t] + (if anc.Some? then anc.value else [])
    case Barrier(span, _) => span
  }

  predicate Within(qs: seq<nat>, w: nat)
  {
    forall i :: 0 <= i < |qs| ==> qs[i] < w
  }

  predicate GateFits(g: Gate, w: nat)
  {
    Within(Qubits(g), w)
  }

  predicate AllFit(gs: seq<Gate>, w: nat)
  {
    forall i {:trigger GateFits(gs[i], w)} :: 0 <= i < |gs| ==> GateFits(gs[i], w)
  }

  /** A Qiskit circuit never holds a gate on a qubit outside its register. */
  predicate WellFormed(c: Circuit)
  {
    AllFit(c.gates, c.width)
  }

  lemma AllFitAppend(a: seq<Gate>, b: seq<Gate>, w: nat)
    requires AllFit(a, w) && AllFit(b, w)
    ensures AllFit(a + b, w)
  {
  }

  /** `for q in range(n): qc.h(q)` */
  function HLayer(n: nat): (r: seq<Gate>)
    ensures |r| == n
    ensures forall i :: 0 <= i < n ==> r[i] == H(i)
    ensures AllFit(r, n)
  {
    if n == 0 then [] else HLayer(n - 1) + [H(n - 1)]
  }

  /** `for q in range(n): qc.x(q)` */
  function XLayer(n: nat): (r: seq<Gate>)
    ensures |r| == n
    ensures forall i :: 0 <= i < n ==> r[i] == X(i)
    ensures AllFit(r, n)
  {
    if n == 0 then [] else XLayer(n - 1) + [X(n - 1)]
  }

  lemma AllFitWiden(gs: seq<Gate>, w: nat, w': nat)
    requires AllFit(gs, w) && w <= w'
    ensures AllFit(gs, w')
  {
    forall i | 0 <= i < |gs|
      ensures GateFits(gs[i], w')
    {
      assert GateFits(gs[i], w);
    }
  }

  /** `qc.barrier(label=...)` with no qubit arguments spans the whole register. */
  function AddBarrier(c: Circuit, tag: BarrierLabel): (r: Circuit)
    ensures r.width == c.width
    ensures WellFormed(c) ==> WellFormed(r)
    ensures |r.gates| == |c.gates| + 1 && r.gates[..|c.gates|] == c.gates
    ensures r.gates[|c.gates|].Barrier? && r.gates[|c.gates|].tag == tag
    ensures forall q: nat :: q in r.gates[|c.gates|].span <==> q < c.width
  {
    forall q: nat ensures q in Range(0, c.width) <==> q < c.width {
      InRange(0, c.width, q);
    }
    Circuit(c.width, c.gates + [Barrier(Range(0, c.width), tag)])
  }

  /** Relabel the qubits of a list: index `q` becomes `qmap[q]`. */
  function MapQubits(qs: seq<nat>, qmap: seq<nat>): (r: seq<nat>)
    requires Within(qs, |qmap|)
    ensures |r| == |qs|
    ensures forall i :: 0 <= i < |qs| ==> r[i] == qmap[qs[i]]
  {
    seq(|qs|, i requires 0 <= i < |qs| => qmap[qs[i]])
  }

  lemma WithinSplit(a: seq<nat>, b: seq<nat>, w: nat)
    requires Within(a + b, w)
    ensures Within(a, w) && Within(b, w)
  {
    forall i | 0 <= i < |a| ensures a[i] < w {
      assert (a + b)[i] == a[i];
    }
    forall i | 0 <= i < |b| ensures b[i] < w {
      assert (a + b)[|a| + i] == b[i];
    }
  }

  lemma McxParts(cs: seq<nat>, t: nat, anc: Option<seq<nat>>, mode: McxMode, w: nat)
    requires GateFits(MCX(cs, t, anc, mode), w)
    ensures Within(cs, w) && t < w
    ensures anc.Some? ==> Within(anc.value, w)
  {
    var extra := if anc.Some? then anc.value else [];
    WithinSplit(cs + [t], extra, w);
    WithinSplit(cs, [t], w);
    assert [t][0] == t;
  }

  /** The image of one gate under the qubit map `qmap`, as `compose(..., qubits=qmap)` places it. */
  function RemapGate(g: Gate, qmap: seq<nat>): (r: Gate)
    requires GateFits(g, |qmap|)
    ensures Qubits(r) == MapQubits(Qubits(g), qmap)
  {
    match g
    case H(q) => assert Qubits(g)[0] == q; H(qmap[q])
    case X(q) => assert Qubits(g)[0] == q; X(qmap[q])
    case Z(q) => assert Qubits(g)[0] == q; Z(qmap[q])
    case MCX(cs, t, anc, mode) =>
      McxParts(cs, t, anc, mode, |qmap|);
      var r := MCX(MapQubits(cs, qmap), qmap[t],
                   if anc.Some? then Some(MapQubits(anc.value, qmap)) else None, mode);
      assert Qubits(r) == MapQubits(Qubits(g), qmap);
      r
    case Barrier(span, tag) => Barrier(MapQubits(span, qmap), tag)
  }

  function Remap(gs: seq<Gate>, qmap: seq<nat>): (r: seq<Gate>)
    requires AllFit(gs, |qmap|)
    ensures |r| == |gs|
    ensures forall i :: 0 <= i < |gs| ==> r[i] == RemapGate(gs[i], qmap)
  {
    seq(|gs|, i requires 0 <= i < |gs| => RemapGate(gs[i], qmap))
  }

  lemma RemapFits(gs: seq<Gate>, qmap: seq<nat>, w: nat)
    requires AllFit(gs, |qmap|) && Within(qmap, w)
    ensures AllFit(Remap(gs, qmap), w)
  {
    forall i | 0 <= i < |gs| ensures GateFits(Remap(gs, qmap)[i], w) {
      assert GateFits(gs[i], |qmap|);
      assert Qubits(Remap(gs, qmap)[i]) == MapQubits(Qubits(gs[i]), qmap);
    }
  }

  /**
   * `host.compose(sub, qubits=qmap, inplace=True)`: the gates of `sub`,
   * relabelled through `qmap`, are appended to `host`.
   */
  function Compose(host: Circuit, sub: Circuit, qmap: seq<nat>): (r: Circuit)
    requires WellFormed(sub) && |qmap| == sub.width && Within(qmap, host.width)
    ensures r.width == host.width
    ensures WellFormed(host) ==> WellFormed(r)
    ensures |r.gates| == |host.gates| + |sub.gates|
    ensures r.gates[..|host.gates|] == host.gates
    ensures forall i :: 0 <= i < |sub.gates| ==>
              r.gates[|host.gates| + i] == RemapGate(sub.gates[i], qmap)
  {
    RemapFits(sub.gates, qmap, host.width);
    Circuit(host.width, host.gates + Remap(sub.gates, qmap))
  }

  /** Composing through the identity map `0..w-1` appends the gates unchanged. */
  lemma {:induction false} RemapIdentity(gs: seq<Gate>, w: nat)
    requires AllFit(gs, w)
    ensures Remap(gs, Range(0, w)) == gs
  {
    forall i | 0 <= i < |gs| ensures RemapGate(gs[i], Range(0, w)) == gs[i] {
      RemapGateIdentity(gs[i], w);
    }
  }

  lemma MapIdentity(qs: seq<nat>, w: nat)
    requires Within(qs, w)
    ensures MapQubits(qs, Range(0, w)) == qs
  {
  }

  lemma RemapGateIdentity(g: Gate, w: nat)
    requires GateFits(g, w)
    ensures RemapGate(g, Range(0, w)) == g
  {
    match g
    case MCX(cs, t, anc, mode) =>
      McxParts(cs, t, anc, mode, w);
      MapIdentity(cs, w);
      if anc.Some? { MapIdentity(anc.value, w); }
    case Barrier(span, _) => MapIdentity(span, w);
    case H(q) => assert Qubits(g)[0] == q;
    case X(q) => assert Qubits(g)[0] == q;
    case Z(q) => assert Qubits(g)[0] == q;
  }

  lemma ConcatAssoc(a: seq<Gate>, b: seq<Gate>, c: seq<Gate>)
    ensures a + b + c == a + (b + c)
  {
  }

  lemma SliceMiddle(a: seq<Gate>, m: seq<Gate>, c: seq<Gate>)
    ensures (a + m + c)[|a|..|a| + |m|] == m
  {
  }

  /** Indexing into a three-part concatenation. */
  lemma At3(a: seq<Gate>, b: seq<Gate>, c: seq<Gate>, j: int)
    requires 0 <= j < |a| + |b| + |c|
    ensures (a + b + c)[j] == if j < |a| then a[j] else if j < |a| + |b| then b[j - |a|] else c[j - |a| - |b|]
  {
  }

  /** The gates other than barriers that touch qubit `q`, in circuit order. */
  function OnQubit(gs: seq<Gate>, q: nat): seq<Gate>
    decreases |gs|
  {
    if |gs| == 0 then []
    else Touching(gs[0], q) + OnQubit(gs[1..], q)
  }

  /** The gate itself if it is not a barrier and acts on `q`, otherwise nothing. */
  function Touching(g: Gate, q: nat): seq<Gate>
  {
    if !g.Barrier? && q in Qubits(g) then [g] else []
  }

  lemma {:induction false} OnQubitAppend(a: seq<Gate>, b: seq<Gate>, q: nat)
    ensures OnQubit(a + b, q) == OnQubit(a, q) + OnQubit(b, q)
    decreases |a|
  {
    if |a| == 0 {
      assert a + b == b;
    } else {
      OnQubitStep(a, b, q);
      OnQubitAppend(a[1..], b, q);
      ConcatAssoc(Touching(a[0], q), OnQubit(a[1..], q), OnQubit(b, q));
    }
  }

  /** Peeling the first gate off a non-empty list, alone and followed by more gates. */
  lemma OnQubitStep(a: seq<Gate>, b: seq<Gate>, q: nat)
    requires |a| > 0
    ensures OnQubit(a, q) == Touching(a[0], q) + OnQubit(a[1..], q)
    ensures OnQubit(a + b, q) == Touching(a[0], q) + OnQubit(a[1..] + b, q)
  {
    assert (a + b)[0] == a[0];
    assert (a + b)[1..] == a[1..] + b;
  }

  lemma OnQubitSingle(g: Gate, q: nat)
    ensures OnQubit([g], q) == if !g.Barrier? && q in Qubits(g) then [g] else []
  {
    assert [g][1..] == [];
  }

  /** A layer over qubits 0..n-1 touches qubit q once, with the gate on q. */
  lemma {:induction false} OnQubitHLayer(n: nat, q: nat)
    ensures OnQubit(HLayer(n), q) == if q < n then [H(q)] else []
    decreases n
  {
    if n > 0 {
      OnQubitHLayer(n - 1, q);
      assert HLayer(n) == HLayer(n - 1) + [H(n - 1)];
      OnQubitAppend(HLayer(n - 1), [H(n - 1)], q);
      OnQubitSingle(H(n - 1), q);
      assert q in Qubits(H(n - 1)) <==> q == n - 1;
    }
  }

  lemma {:induction false} OnQubitXLayer(n: nat, q: nat)
    ensures OnQubit(XLayer(n), q) == if q < n then [X(q)] else []
    decreases n
  {
    if n > 0 {
      OnQubitXLayer(n - 1, q);
      assert XLayer(n) == XLayer(n - 1) + [X(n - 1)];
      OnQubitAppend(XLayer(n - 1), [X(n - 1)], q);
      OnQubitSingle(X(n - 1), q);
      assert q in Qubits(X(n - 1)) <==> q == n - 1;
    }
  }

  predicate Palindrome(s: seq<Gate>)
  {
    forall i :: 0 <= i < |s| ==> s[i] == s[|s| - 1 - i]
  }

  /** Wrapping a palindrome in the same gate on both sides keeps it a palindrome. */
  lemma PalindromeWrap(g: Gate, mid: seq<Gate>)
    requires Palindrome(mid)
    ensures Palindrome([g] + mid + [g])
  {
    var s := [g] + mid + [g];
    forall i | 0 <= i < |s| ensures s[i] == s[|s| - 1 - i] {
      if 0 < i < |s| - 1 {
        assert s[i] == mid[i - 1] && s[|s| - 1 - i] == mid[|mid| - 1 - (i - 1)];
      }
    }
  }
}
