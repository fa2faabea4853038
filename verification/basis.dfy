/**
 * Basis-state semantics for the gates the builders emit. X, Z and an
 * idealised MCX map a computational basis state to a basis state, possibly
 * negating its amplitude, so a state is a bit per qubit plus a sign.
 * Hadamard gates have no such reading, except that H(t)·MCX(cs, t)·H(t)
 * acts as a multi-controlled Z on cs + [t], which is how the diffuser
 * realises its phase flip.
 */
module Basis {
  import opened Wrappers
  import opened Circuits

  /** A basis state: bit `bits[q]` for qubit `q`, and whether the amplitude's sign is negated. */
  datatype State = State(bits: seq<bool>, flipped: bool)

  /** Basis-state actions: a NOT, a controlled NOT, and a phase flip when all listed qubits are 1. */
  datatype Op = Flip(q: nat) | CFlip(controls: seq<nat>, target: nat) | CPhase(qubits: seq<nat>)

  predicate AllOnes(bits: seq<bool>, qs: seq<nat>)
  {
    forall i :: 0 <= i < |qs| ==> qs[i] < |bits| && bits[qs[i]]
  }

  /** Negate bit `q`; a qubit outside the register is left alone. */
  function Toggle(bits: seq<bool>, q: nat): (r: seq<bool>)
    ensures |r| == |bits|
    ensures forall i :: 0 <= i < |bits| ==> r[i] == (if i == q then !bits[i] else bits[i])
  {
    if q < |bits| then bits[q := !bits[q]] else bits
  }

  function Apply(op: Op, s: State): (r: State)
    ensures |r.bits| == |s.bits|
  {
    match op
    case Flip(q) => s.(bits := Toggle(s.bits, q))
    case CFlip(cs, t) => if AllOnes(s.bits, cs) then s.(bits := Toggle(s.bits, t)) else s
    case CPhase(qs) => if AllOnes(s.bits, qs) then s.(flipped := !s.flipped) else s
  }

  /** Apply the operations left to right, as a circuit runs its gates in order. */
  function Run(ops: seq<Op>, s: State): (r: State)
    ensures |r.bits| == |s.bits|
    decreases |ops|
  {
    if |ops| == 0 then s else Run(ops[1..], Apply(ops[0], s))
  }

  lemma {:induction false} RunAppend(a: seq<Op>, b: seq<Op>, s: State)
    ensures Run(a + b, s) == Run(b, Run(a, s))
    decreases |a|
  {
    if |a| == 0 {
      assert a + b == b;
    } else {
      assert (a + b)[1..] == a[1..] + b;
      RunAppend(a[1..], b, Apply(a[0], s));
    }
  }

  lemma RunSingle(op: Op, s: State)
    ensures Run([op], s) == Apply(op, s)
  {
    assert [op][1..] == [];
  }

  /** H(t), then an MCX onto t whose controls exclude t, then H(t). */
  predicate McZAt(gs: seq<Gate>)
  {
    && |gs| >= 3
    && gs[0].H? && gs[1].MCX? && gs[2] == gs[0]
    && gs[1].target == gs[0].q && gs[0].q !in gs[1].controls
  }

  function Prepend(op: Op, rest: Option<seq<Op>>): Option<seq<Op>>
  {
    if rest.Some? then Some([op] + rest.value) else None
  }

  /**
   * The basis-state reading of a gate list, or None when it holds a
   * Hadamard outside an H·MCX·H pattern. Barriers do nothing; MCX ancillas
   * are idealised away.
   */
  function Read(gs: seq<Gate>): Option<seq<Op>>
    decreases |gs|
  {
    if |gs| == 0 then Some([])
    else if McZAt(gs) then Prepend(CPhase(gs[1].controls + [gs[0].q]), Read(gs[3..]))
    else match gs[0]
      case H(_) => None
      case X(q) => Prepend(Flip(q), Read(gs[1..]))
      case Z(q) => Prepend(CPhase([q]), Read(gs[1..]))
      case MCX(cs, t, _, _) => Prepend(CFlip(cs, t), Read(gs[1..]))
      case Barrier(_, _) => Read(gs[1..])
  }

  predicate NoH(gs: seq<Gate>)
  {
    forall i :: 0 <= i < |gs| ==> !gs[i].H?
  }

  /** A list without Hadamards always has a reading, and reading distributes over appending it. */
  lemma {:induction false} ReadAppend(a: seq<Gate>, b: seq<Gate>)
    requires NoH(a)
    ensures Read(a).Some?
    ensures Read(a + b) == if Read(b).Some? then Some(Read(a).value + Read(b).value) else None
    decreases |a|
  {
    if |a| == 0 {
      assert a + b == b;
      if Read(b).Some? {
        assert Read(a).value + Read(b).value == Read(b).value;
      }
    } else {
      assert (a + b)[0] == a[0];
      assert (a + b)[1..] == a[1..] + b;
      ReadAppend(a[1..], b);
      if Read(b).Some? {
        match a[0]
        case X(q) => assert [Flip(q)] + (Read(a[1..]).value + Read(b).value) == ([Flip(q)] + Read(a[1..]).value) + Read(b).value;
        case Z(q) => assert [CPhase([q])] + (Read(a[1..]).value + Read(b).value) == ([CPhase([q])] + Read(a[1..]).value) + Read(b).value;
        case MCX(cs, t, _, _) => assert [CFlip(cs, t)] + (Read(a[1..]).value + Read(b).value) == ([CFlip(cs, t)] + Read(a[1..]).value) + Read(b).value;
        case Barrier(_, _) =>
      }
    }
  }

  /** The reading of a single gate that is not a Hadamard. */
  function OpsOf(g: Gate): seq<Op>
    requires !g.H?
  {
    match g
    case X(q) => [Flip(q)]
    case Z(q) => [CPhase([q])]
    case MCX(cs, t, _, _) => [CFlip(cs, t)]
    case Barrier(_, _) => []
  }

  lemma ReadSingle(g: Gate)
    requires !g.H?
    ensures Read([g]) == Some(OpsOf(g))
  {
    assert [g][1..] == [];
    assert !McZAt([g]);
    assert Read([]) == Some([]);
    assert OpsOf(g) + [] == OpsOf(g);
  }

  /** Run a gate list on a basis state, when it has a basis-state reading. */
  function Simulate(gs: seq<Gate>, s: State): Option<State>
  {
    match Read(gs)
    case Some(ops) => Some(Run(ops, s))
    case None => None
  }

  /** The bits with qubits 0..k-1 negated. */
  function FlipPrefix(bits: seq<bool>, k: nat): (r: seq<bool>)
    ensures |r| == |bits|
  {
    seq(|bits|, i requires 0 <= i < |bits| => if i < k then !bits[i] else bits[i])
  }

  lemma XLayerNoH(k: nat)
    ensures NoH(XLayer(k))
  {
  }

  /** A layer of X gates on qubits 0..k-1 negates exactly those bits and leaves the sign alone. */
  lemma {:induction false} XLayerRun(k: nat, s: State)
    ensures Read(XLayer(k)).Some?
    ensures Run(Read(XLayer(k)).value, s) == State(FlipPrefix(s.bits, k), s.flipped)
    decreases k
  {
    if k == 0 {
      assert FlipPrefix(s.bits, 0) == s.bits;
    } else {
      var prev := XLayer(k - 1);
      assert XLayer(k) == prev + [X(k - 1)];
      XLayerRun(k - 1, s);
      XLayerNoH(k - 1);
      ReadAppend(prev, [X(k - 1)]);
      ReadSingle(X(k - 1));
      var mid := State(FlipPrefix(s.bits, k - 1), s.flipped);
      RunAppend(Read(prev).value, [Flip(k - 1)], s);
      RunSingle(Flip(k - 1), mid);
      assert Toggle(FlipPrefix(s.bits, k - 1), k - 1) == FlipPrefix(s.bits, k);
    }
  }
}
