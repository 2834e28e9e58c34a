/** The circular return-address stack of bpred.c. */
module ReturnStack {
  import opened Arith

  datatype Ras = Ras(stack: seq<nat>, tos: nat)

  predicate Shaped(s: Ras) { 0 < |s.stack| && s.tos < |s.stack| }

  /** What a fetched branch does to the stack: bpred_lookup pushes for a call, pops for a return. */
  datatype Op = Call(ret: nat) | Return | Other

  function Step(s: Ras, op: Op): (r: Ras)
    requires Shaped(s)
    ensures Shaped(r) && |r.stack| == |s.stack|
  {
    var n := |s.stack|;
    match op
    case Call(a) => Ras(s.stack[(s.tos + 1) % n := a], (s.tos + 1) % n)
    case Return => s.(tos := (s.tos + n - 1) % n)
    case Other => s
  }

  /** The address a return is predicted to go to. */
  function Top(s: Ras): nat
    requires Shaped(s)
  {
    s.stack[s.tos]
  }

  /** The entry k below the top. */
  function Below(s: Ras, k: nat): nat
    requires Shaped(s) && k < |s.stack|
  {
    s.stack[(s.tos + |s.stack| - k) % |s.stack|]
  }

  /** bpred_recover with the index bpred_lookup gave out. */
  function Recover(s: Ras, idx: nat): (r: Ras)
    requires Shaped(s) && idx < |s.stack|
    ensures Shaped(r)
  {
    s.(tos := idx)
  }

  /** bpred_create */
  function Create(n: nat): Ras { Ras(seq(n, _ => 0), if n == 0 then 0 else n - 1) }

  function Run(s: Ras, ops: seq<Op>): (r: Ras)
    requires Shaped(s)
    ensures Shaped(r) && |r.stack| == |s.stack|
    decreases |ops|
  {
    if ops == [] then s else Step(Run(s, ops[..|ops| - 1]), ops[|ops| - 1])
  }

  // ---- nesting ----

  function Delta(op: Op): int {
    match op
    case Call(_) => 1
    case Return => -1
    case Other => 0
  }

  /** How many more calls than returns. */
  function Height(ops: seq<Op>): int {
    if ops == [] then 0 else Height(ops[..|ops| - 1]) + Delta(ops[|ops| - 1])
  }

  /** The run never returns past its start. */
  predicate StaysUp(ops: seq<Op>) {
    ops == [] || (StaysUp(ops[..|ops| - 1]) && Height(ops) >= 0)
  }

  /** The deepest nesting reached. */
  function Deepest(ops: seq<Op>): (d: nat)
    ensures Height(ops) <= d
  {
    if ops == [] then 0
    else
      var d := Deepest(ops[..|ops| - 1]);
      if Height(ops) > d then Height(ops) else d
  }

  /** The return address last pushed at a nesting depth that is a multiple of n, or a if none was: what is left
      in the slot a call used. */
  function SlotAfter(ops: seq<Op>, n: nat, a: nat): nat
    requires 0 < n
  {
    if ops == [] then a
    else
      var op := ops[|ops| - 1];
      if op.Call? && Height(ops) % n == 0 then op.ret else SlotAfter(ops[..|ops| - 1], n, a)
  }

  lemma StepIndex(s: Ras, op: Op)
    requires Shaped(s)
    ensures Step(s, op).tos == (s.tos + Delta(op)) % |s.stack|
  {
    var n := |s.stack|;
    match op
    case Call(_) =>
    case Return =>
      if s.tos == 0 {
        DivModUnique(n - 1, 0, n - 1, n);
        DivModUnique(-1, -1, n - 1, n);
      } else {
        DivModUnique(s.tos + n - 1, 1, s.tos - 1, n);
        DivModUnique(s.tos - 1, 0, s.tos - 1, n);
      }
    case Other => DivModUnique(s.tos, 0, s.tos, n);
  }

  /** The top moves with the nesting height, modulo the size. */
  lemma {:induction false} TosIs(s: Ras, ops: seq<Op>)
    requires Shaped(s)
    ensures Run(s, ops).tos == (s.tos + Height(ops)) % |s.stack|
    decreases |ops|
  {
    hide Step;
    var n := |s.stack|;
    if ops == [] {
      DivModUnique(s.tos, 0, s.tos, n);
    } else {
      var r := Run(s, ops[..|ops| - 1]);
      TosIs(s, ops[..|ops| - 1]);
      StepIndex(r, ops[|ops| - 1]);
      ModPlus(s.tos + Height(ops[..|ops| - 1]), Delta(ops[|ops| - 1]), n);
    }
  }

  lemma ModPlus(x: int, d: int, n: int)
    requires 0 < n
    ensures (x % n + d) % n == (x + d) % n
  {
    assert x == x / n * n + x % n;
    ModAddMultiple(x % n + d, x / n, n);
  }

  lemma ModZero(x: int, h: int, n: int)
    requires 0 < n && 0 <= x < n
    ensures (x + h) % n == x <==> h % n == 0
  {
    assert h == h / n * n + h % n;
    ModAddMultiple(x + h % n, h / n, n);
    if x + h % n < n {
      DivModUnique(x + h % n, 0, x + h % n, n);
    } else {
      DivModUnique(x + h % n, 1, x + h % n - n, n);
    }
  }

  /** What any run leaves in the slot at the top of the stack it started from. */
  lemma {:induction false} SlotIs(s: Ras, ops: seq<Op>)
    requires Shaped(s)
    ensures Run(s, ops).stack[s.tos] == SlotAfter(ops, |s.stack|, s.stack[s.tos])
    decreases |ops|
  {
    var n := |s.stack|;
    if ops != [] {
      var rest, op := ops[..|ops| - 1], ops[|ops| - 1];
      SlotIs(s, rest);
      TosIs(s, rest);
      if op.Call? {
        ModPlus(s.tos + Height(rest), 1, n);
        ModZero(s.tos, Height(rest) + 1, n);
      }
    }
  }

  /** A return is predicted to the address in the slot of its matching call: with m the calls and returns
      between them, nested within, that is the last address pushed at a depth that is a multiple of the size. */
  lemma ReturnPrediction(s: Ras, a: nat, m: seq<Op>)
    requires Shaped(s) && Height(m) == 0
    ensures Top(Run(Step(s, Call(a)), m)) == SlotAfter(m, |s.stack|, a)
  {
    hide Run, Height, SlotAfter;
    var c := Step(s, Call(a));
    TosIs(c, m);
    SlotIs(c, m);
    DivModUnique(c.tos, 0, c.tos, |s.stack|);
  }

  lemma {:induction false} ShallowKeepsSlot(m: seq<Op>, n: nat, a: nat)
    requires 0 < n && StaysUp(m) && Deepest(m) < n
    ensures SlotAfter(m, n, a) == a
    decreases |m|
  {
    if m != [] {
      var rest, op := m[..|m| - 1], m[|m| - 1];
      ShallowKeepsSlot(rest, n, a);
      UpNonNegative(rest);
      if op.Call? { DivModUnique(Height(m), 0, Height(m), n); }
    }
  }

  lemma {:induction false} UpNonNegative(m: seq<Op>)
    requires StaysUp(m)
    ensures Height(m) >= 0
  {
  }

  /** Returns are predicted right while at most `size` addresses are outstanding, the matching call's among
      them. */
  lemma ReturnIsRight(s: Ras, a: nat, m: seq<Op>)
    requires Shaped(s) && StaysUp(m) && Height(m) == 0 && 1 + Deepest(m) <= |s.stack|
    ensures Top(Run(Step(s, Call(a)), m)) == a
    ensures Step(Run(Step(s, Call(a)), m), Return).tos == s.tos
  {
    hide Run, Height, SlotAfter, StaysUp, Deepest;
    var c := Step(s, Call(a));
    ReturnPrediction(s, a, m);
    ShallowKeepsSlot(m, |s.stack|, a);
    TosIs(c, m);
    StepIndex(Run(c, m), Return);
    StepIndex(s, Call(a));
    ModPlus(c.tos, 0, |s.stack|);
    ModPlus(c.tos, -1, |s.stack|);
    ModPlus(s.tos + 1, -1, |s.stack|);
    DivModUnique(s.tos, 0, s.tos, |s.stack|);
    DivModUnique(c.tos, 0, c.tos, |s.stack|);
  }

  /** One call too deep: the outermost return is then predicted to the address of the call that took its slot,
      so it is right exactly when the two addresses are the same. */
  lemma OneTooDeep(s: Ras, a: nat, calls: seq<nat>, b: nat)
    requires Shaped(s) && |calls| + 1 == |s.stack|
    ensures var m := Calls(calls) + [Call(b)] + Returns(|calls| + 1);
            Height(m) == 0 && (Top(Run(Step(s, Call(a)), m)) == a <==> b == a)
  {
    hide Run, SlotAfter, Height;
    var n := |s.stack|;
    var up := Calls(calls) + [Call(b)];
    CallsHeight(calls);
    HeightSnoc(Calls(calls), Call(b));
    SlotSnoc(Calls(calls), Call(b), n, a);
    DivModUnique(n, 1, 0, n);
    ReturnsKeep(up, n, n, a);
    ReturnPrediction(s, a, up + Returns(n));
  }

  function Calls(addrs: seq<nat>): seq<Op> {
    if addrs == [] then [] else Calls(addrs[..|addrs| - 1]) + [Call(addrs[|addrs| - 1])]
  }

  function Returns(k: nat): seq<Op> { if k == 0 then [] else Returns(k - 1) + [Return] }

  lemma HeightSnoc(ops: seq<Op>, op: Op)
    ensures Height(ops + [op]) == Height(ops) + Delta(op)
  {
    assert (ops + [op])[..|ops|] == ops;
  }

  lemma SlotSnoc(ops: seq<Op>, op: Op, n: nat, a: nat)
    requires 0 < n
    ensures SlotAfter(ops + [op], n, a) == if op.Call? && Height(ops + [op]) % n == 0 then op.ret else SlotAfter(ops, n, a)
  {
    assert (ops + [op])[..|ops|] == ops;
  }

  lemma {:induction false} CallsHeight(addrs: seq<nat>)
    ensures Height(Calls(addrs)) == |addrs|
  {
    if addrs != [] {
      CallsHeight(addrs[..|addrs| - 1]);
      HeightSnoc(Calls(addrs[..|addrs| - 1]), Call(addrs[|addrs| - 1]));
    }
  }

  lemma {:induction false} ReturnsKeep(ops: seq<Op>, k: nat, n: nat, a: nat)
    requires 0 < n
    ensures Height(ops + Returns(k)) == Height(ops) - k && SlotAfter(ops + Returns(k), n, a) == SlotAfter(ops, n, a)
  {
    if k == 0 {
      assert ops + [] == ops;
    } else {
      ReturnsKeep(ops, k - 1, n, a);
      assert ops + Returns(k) == (ops + Returns(k - 1)) + [Return];
      HeightSnoc(ops + Returns(k - 1), Return);
      SlotSnoc(ops + Returns(k - 1), Return, n, a);
    }
  }

  // ---- recovery ----

  /** Which slots a run that stays up may overwrite. */
  lemma {:induction false} UntouchedSlot(s: Ras, ops: seq<Op>, k: nat)
    requires Shaped(s) && StaysUp(ops) && k + Deepest(ops) < |s.stack|
    ensures var j := (s.tos + |s.stack| - k) % |s.stack|; Run(s, ops).stack[j] == s.stack[j]
    decreases |ops|
  {
    var n := |s.stack|;
    var j := (s.tos + n - k) % n;
    if ops != [] {
      var rest, op := ops[..|ops| - 1], ops[|ops| - 1];
      UntouchedSlot(s, rest, k);
      TosIs(s, rest);
      UpNonNegative(rest);
      if op.Call? {
        ModPlus(s.tos + Height(rest), 1, n);
        ModDiffer(s.tos + n - k, s.tos + n + Height(ops), n);
        ModAddMultiple(s.tos + Height(ops), 1, n);
      }
    }
  }

  /** A wrong path that never returns past its start is undone by bpred_recover for every entry it does not
      wrap around to: with d its deepest nesting, the top size - d entries read as before. */
  lemma RecoveryRestores(s: Ras, ops: seq<Op>, k: nat)
    requires Shaped(s) && StaysUp(ops) && k + Deepest(ops) < |s.stack|
    ensures var r := Recover(Run(s, ops), s.tos); r.tos == s.tos && Below(r, k) == Below(s, k)
  {
    hide Run, StaysUp, Deepest;
    UntouchedSlot(s, ops, k);
  }

  /** The index bpred_lookup gives out is the one before the branch's own push or pop, so recovering a
      mispredicted branch leaves the stack where the right path has it exactly when the branch is neither a
      call nor a return. */
  lemma RecoverIgnoresBranch(s: Ras, op: Op)
    requires Shaped(s) && 1 < |s.stack|
    ensures Recover(Step(s, op), s.tos).tos == Step(s, op).tos <==> op.Other?
  {
    StepIndex(s, op);
    ModZero(s.tos, Delta(op), |s.stack|);
    if op.Call? { DivModUnique(1, 0, 1, |s.stack|); }
    if op.Return? { DivModUnique(-1, -1, |s.stack| - 1, |s.stack|); }
  }

  /** Calls and returns nested within each other leave the top of the stack. */
  lemma KeepsTop(s: Ras, m: seq<Op>)
    requires Shaped(s) && StaysUp(m) && Height(m) == 0 && Deepest(m) < |s.stack|
    ensures Run(s, m).tos == s.tos && Top(Run(s, m)) == Top(s)
  {
    hide Run, Height, Deepest, StaysUp;
    TosIs(s, m);
    ModZero(s.tos, 0, |s.stack|);
    UntouchedSlot(s, m, 0);
    ModPlus(s.tos, |s.stack|, |s.stack|);
    SameSlot(s.tos, |s.stack|);
  }

  lemma SameSlot(x: nat, n: nat)
    requires x < n
    ensures x % n == x && (x + n) % n == x
  {
    DivModUnique(x, 0, x, n);
    DivModUnique(x + n, 1, x, n);
  }

  /** After a mispredicted return has been recovered, calls and returns nested within each other leave the next
      return predicted to the same address again, though the right path is one level further out: it is right exactly
      when the two levels return to the same address. */
  lemma ReturnNotUndone(s: Ras, m: seq<Op>)
    requires Shaped(s) && 1 < |s.stack| && StaysUp(m) && Height(m) == 0 && 1 + Deepest(m) < |s.stack|
    ensures var r := Run(Recover(Step(s, Return), s.tos), m); var right := Run(Step(s, Return), m);
            && Top(r) == Top(s) && Top(right) == Below(s, 1)
            && (Top(r) == Top(right) <==> Top(s) == Below(s, 1))
  {
    hide Run, Height, Deepest, StaysUp;
    KeepsTop(s, m);
    KeepsTop(Step(s, Return), m);
  }

  // ---- the stack in place ----

  class RasUnit {
    const stack: array<nat>
    var tos: nat

    ghost function Snap(): Ras
      reads this, stack
    {
      Ras(stack[..], tos)
    }

    ghost predicate Valid()
      reads this, stack
    {
      Shaped(Snap())
    }

    constructor (n: nat)
      requires 0 < n
      ensures Valid() && Snap() == Create(n) && fresh(stack)
    {
      stack := new nat[n](_ => 0);
      tos := n - 1;
      new;
      assert stack[..] == Create(n).stack;
    }

    /** The part of bpred_lookup about the return stack: the predicted target of a return, and the index to
        recover to. */
    method Lookup(op: Op) returns (recover: nat, target: nat)
      requires Valid()
      modifies this, stack
      ensures Valid() && Snap() == Step(old(Snap()), op) && recover == old(tos)
      ensures op.Return? ==> target == Top(old(Snap()))
    {
      recover, target := tos, 0;
      match op
      case Return =>
        target := stack[tos];
        tos := (tos + stack.Length - 1) % stack.Length;
      case Call(a) =>
        tos := (tos + 1) % stack.Length;
        stack[tos] := a;
        assert stack[..] == old(stack[..])[tos := a];
      case Other =>
    }

    /** bpred_recover */
    method RecoverTo(idx: nat)
      requires Valid() && idx < stack.Length
      modifies `tos
      ensures Valid() && Snap() == Recover(old(Snap()), idx)
    {
      tos := idx;
    }
  }
}
