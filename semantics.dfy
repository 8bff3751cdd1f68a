/** What the emitted fragments of `instructions` (src/lib.rs) do on the
    Hack computer.  The stack pointer lives at RAM[0] (`SP`), the stack
    grows upwards, and a fragment is run with the assembler's resolution of
    its symbols (`Honours`).  Each lemma states the RAM after a fragment in
    terms of the RAM before it: the VM command's meaning. */
module Semantics {
  import opened Strings
  import opened Hack
  import opened Instructions
  import opened InstructionLaws

  function SP(ram: Ram): Word {
    Read(ram, 0)
  }

  // ---------------------------------------------------------------- running straight code

  /** Straight code of one to five instructions run step by step through
      the machines given. */
  lemma Trace1(c: Code, m0: Machine, m1: Machine, table: Symbols)
    requires |c| == 1 && Exec(c[0], m0, table) == m1
    ensures ExecAll(c, m0, table) == m1
  {
    assert c[1..] == [];
  }

  lemma Trace2(c: Code, m0: Machine, m1: Machine, m2: Machine, table: Symbols)
    requires |c| == 2 && Exec(c[0], m0, table) == m1 && Exec(c[1], m1, table) == m2
    ensures ExecAll(c, m0, table) == m2
  {
    Trace1(c[1..], m1, m2, table);
  }

  lemma Trace3(c: Code, m0: Machine, m1: Machine, m2: Machine, m3: Machine, table: Symbols)
    requires |c| == 3 && Exec(c[0], m0, table) == m1
    requires Exec(c[1], m1, table) == m2 && Exec(c[2], m2, table) == m3
    ensures ExecAll(c, m0, table) == m3
  {
    Trace2(c[1..], m1, m2, m3, table);
  }

  lemma Trace4(c: Code, m0: Machine, m1: Machine, m2: Machine, m3: Machine, m4: Machine, table: Symbols)
    requires |c| == 4 && Exec(c[0], m0, table) == m1 && Exec(c[1], m1, table) == m2
    requires Exec(c[2], m2, table) == m3 && Exec(c[3], m3, table) == m4
    ensures ExecAll(c, m0, table) == m4
  {
    Trace3(c[1..], m1, m2, m3, m4, table);
  }

  lemma Trace5(c: Code, m0: Machine, m1: Machine, m2: Machine, m3: Machine, m4: Machine, m5: Machine, table: Symbols)
    requires |c| == 5 && Exec(c[0], m0, table) == m1 && Exec(c[1], m1, table) == m2
    requires Exec(c[2], m2, table) == m3 && Exec(c[3], m3, table) == m4 && Exec(c[4], m4, table) == m5
    ensures ExecAll(c, m0, table) == m5
  {
    Trace4(c[1..], m1, m2, m3, m4, m5, table);
  }

  /** Running `a` then `b`. */
  lemma Then(a: Code, b: Code, m: Machine, m1: Machine, m2: Machine, table: Symbols)
    requires ExecAll(a, m, table) == m1 && ExecAll(b, m1, table) == m2
    ensures ExecAll(a + b, m, table) == m2
  {
    ExecAllAppend(a, b, m, table);
  }

  /** Running `i` and then `rest`. */
  lemma Step(i: Instr, rest: Code, m: Machine, m1: Machine, m2: Machine, table: Symbols)
    requires Exec(i, m, table) == m1 && ExecAll(rest, m1, table) == m2
    ensures ExecAll([i] + rest, m, table) == m2
  {
    assert ([i] + rest)[1..] == rest;
  }

  lemma ExecOne(i: Instr, m: Machine, table: Symbols)
    ensures ExecAll([i], m, table) == Exec(i, m, table)
  {
    assert [i][1..] == [];
  }

  lemma CommentEffect(t: string, m: Machine, table: Symbols)
    ensures ExecAll([Comment(t)], m, table) == m
  {
    ExecOne(Comment(t), m, table);
  }

  // ---------------------------------------------------------------- stack pieces

  /** "@SP M=M-1 A=M D=M": SP goes down by one and D holds the word that
      was on top. */
  lemma PopDEffect(m: Machine, table: Symbols)
    requires Registers(table) && SP(m.ram) >= 2
    ensures var sp := SP(m.ram);
      ExecAll(PopD(), m, table) == Machine(sp - 1, Read(m.ram, sp - 1), m.ram[0 := sp - 1])
  {
    var sp := SP(m.ram);
    var m1 := m.(a := 0);
    var m2 := m1.(ram := m.ram[0 := sp - 1]);
    var m3 := m2.(a := sp - 1);
    var m4 := m3.(d := Read(m.ram, sp - 1));
    StoreValue(Assign(ToM, MMinus1), MMinus1, sp - 1, m1, table);
    AddrValue(Assign(ToA, OfM), OfM, sp - 1, m2, table);
    LoadValue(Assign(ToD, OfM), OfM, Read(m.ram, sp - 1), m3, table);
    Trace4(PopD(), m, m1, m2, m3, m4, table);
  }

  /** "@SP M=M-1 A=M": SP goes down by one and A points at the new top. */
  lemma PointSecondEffect(m: Machine, table: Symbols)
    requires Registers(table) && SP(m.ram) >= 1
    ensures var sp := SP(m.ram);
      ExecAll(PointSecond(), m, table) == Machine(sp - 1, m.d, m.ram[0 := sp - 1])
  {
    var sp := SP(m.ram);
    var m1 := m.(a := 0);
    var m2 := m1.(ram := m.ram[0 := sp - 1]);
    var m3 := m2.(a := sp - 1);
    StoreValue(Assign(ToM, MMinus1), MMinus1, sp - 1, m1, table);
    AddrValue(Assign(ToA, OfM), OfM, sp - 1, m2, table);
    Trace3(PointSecond(), m, m1, m2, m3, table);
  }

  /** "@SP M=M+1". */
  lemma IncSPEffect(m: Machine, table: Symbols)
    requires Registers(table) && SP(m.ram) < 0xFFFF
    ensures ExecAll(IncSP(), m, table) == Machine(0, m.d, m.ram[0 := SP(m.ram) + 1])
  {
    var m1 := m.(a := 0);
    var m2 := m1.(ram := m.ram[0 := SP(m.ram) + 1]);
    StoreValue(Assign(ToM, MPlus1), MPlus1, SP(m.ram) + 1, m1, table);
    Trace2(IncSP(), m, m1, m2, table);
  }

  /** "@SP A=M M=D": D is written just above the stack. */
  lemma StoreDEffect(m: Machine, table: Symbols)
    requires Registers(table) && 1 <= SP(m.ram)
    ensures ExecAll([At("SP"), Assign(ToA, OfM), Assign(ToM, OfD)], m, table)
         == Machine(SP(m.ram), m.d, m.ram[SP(m.ram) := m.d])
  {
    var sp := SP(m.ram);
    var m1 := m.(a := 0);
    var m2 := m1.(a := sp);
    var m3 := m2.(ram := m.ram[sp := m.d]);
    Trace3([At("SP"), Assign(ToA, OfM), Assign(ToM, OfD)], m, m1, m2, m3, table);
  }

  /** "@SP A=M M=D @SP M=M+1": D goes on top of the stack. */
  lemma PushDEffect(m: Machine, table: Symbols)
    requires Registers(table) && 1 <= SP(m.ram) < 0xFFFF
    ensures var sp := SP(m.ram);
      ExecAll(PushD(), m, table) == Machine(0, m.d, m.ram[sp := m.d][0 := sp + 1])
  {
    var sp := SP(m.ram);
    var m3 := Machine(sp, m.d, m.ram[sp := m.d]);
    StoreDEffect(m, table);
    assert SP(m3.ram) == sp;
    IncSPEffect(m3, table);
    ExecAllAppend([At("SP"), Assign(ToA, OfM), Assign(ToM, OfD)], IncSP(), m, table);
  }

  // ---------------------------------------------------------------- arithmetic

  predicate IsBinary(op: ArithOp) {
    op != NegOp && op != NotOp
  }

  /** The meaning of a two-operand VM command on 16-bit words: x is the
      deeper operand, y the top one. */
  function Binary(op: ArithOp, x: Word, y: Word): Word
    requires IsBinary(op)
  {
    match op
    case AddOp => Wrap(x + y)
    case SubOp => Wrap(x - y)
    case AndOp => BitAnd(x, y)
    case OrOp => BitOr(x, y)
  }

  /** The meaning of `neg` and `not`. */
  function Unary(op: ArithOp, y: Word): Word
    requires !IsBinary(op)
  {
    match op
    case NegOp => Wrap(0 - y)
    case NotOp => 0xFFFF - y
  }

  /** The computing instruction of an arithmetic command. */
  function Operation(op: ArithOp): Instr {
    match op
    case AddOp => Assign(ToM, MPlusD)
    case SubOp => Assign(ToM, MMinusD)
    case AndOp => Assign(ToM, DAndM)
    case OrOp => Assign(ToM, DOrM)
    case NegOp => Assign(ToM, NegM)
    case NotOp => Assign(ToM, NotM)
  }

  /** Every arithmetic fragment is its comment, the operand pops, the
      operation written into the deeper slot, and the SP increment. */
  lemma ArithmeticShape(op: ArithOp)
    ensures IsBinary(op) ==>
      ArithmeticCode(op) == [Comment(ArithName(op))] + PopD() + PointSecond() + [Operation(op)] + IncSP()
    ensures !IsBinary(op) ==>
      ArithmeticCode(op) == [Comment(ArithName(op))] + PointSecond() + [Operation(op)] + IncSP()
  {
  }

  /** With A at x's slot and y in D, the operation writes x op y there. */
  lemma OperationEffect(op: ArithOp, m: Machine, table: Symbols)
    requires IsBinary(op)
    ensures Exec(Operation(op), m, table) == m.(ram := m.ram[m.a := Binary(op, Read(m.ram, m.a), m.d)])
  {
    var x := Read(m.ram, m.a);
    match op
    case AddOp => StoreValue(Operation(op), MPlusD, Binary(op, x, m.d), m, table);
    case SubOp => StoreValue(Operation(op), MMinusD, Binary(op, x, m.d), m, table);
    case AndOp => StoreValue(Operation(op), DAndM, Binary(op, x, m.d), m, table);
    case OrOp => StoreValue(Operation(op), DOrM, Binary(op, x, m.d), m, table);
  }

  /** "M=comp" writes the ALU's value where A points. */
  lemma StoreValue(i: Instr, comp: Comp, v: Word, m: Machine, table: Symbols)
    requires i == Assign(ToM, comp) && Value(comp, m) == v
    ensures Exec(i, m, table) == m.(ram := m.ram[m.a := v])
  {
  }

  /** "A=comp". */
  lemma AddrValue(i: Instr, comp: Comp, v: Word, m: Machine, table: Symbols)
    requires i == Assign(ToA, comp) && Value(comp, m) == v
    ensures Exec(i, m, table) == m.(a := v)
  {
  }

  /** "D=comp". */
  lemma LoadValue(i: Instr, comp: Comp, v: Word, m: Machine, table: Symbols)
    requires i == Assign(ToD, comp) && Value(comp, m) == v
    ensures Exec(i, m, table) == m.(d := v)
  {
  }

  /** With A at y's slot, the operation writes op y there. */
  lemma UnaryOperationEffect(op: ArithOp, m: Machine, table: Symbols)
    requires !IsBinary(op)
    ensures Exec(Operation(op), m, table) == m.(ram := m.ram[m.a := Unary(op, Read(m.ram, m.a))])
  {
    var y := Read(m.ram, m.a);
    match op
    case NegOp => StoreValue(Operation(op), NegM, Unary(op, y), m, table);
    case NotOp => StoreValue(Operation(op), NotM, Unary(op, y), m, table);
  }

  /** "//op", then popping y into D and pointing A at x. */
  lemma OperandsEffect(t: string, m: Machine, table: Symbols)
    requires Registers(table) && SP(m.ram) >= 3
    ensures var sp := SP(m.ram);
      ExecAll([Comment(t)] + PopD() + PointSecond(), m, table)
        == Machine(sp - 2, Read(m.ram, sp - 1), m.ram[0 := sp - 2])
  {
    var sp := SP(m.ram);
    CommentEffect(t, m, table);
    PopDEffect(m, table);
    var m1 := Machine(sp - 1, Read(m.ram, sp - 1), m.ram[0 := sp - 1]);
    Then([Comment(t)], PopD(), m, m, m1, table);
    assert SP(m1.ram) == sp - 1;
    PointSecondEffect(m1, table);
    assert m1.ram[0 := sp - 2] == m.ram[0 := sp - 2];
    Then([Comment(t)] + PopD(), PointSecond(), m, m1, Machine(sp - 2, Read(m.ram, sp - 1), m.ram[0 := sp - 2]), table);
  }

  lemma BinaryCodeEffect(t: string, op: ArithOp, m: Machine, table: Symbols)
    requires IsBinary(op) && Registers(table) && SP(m.ram) >= 3
    ensures var sp := SP(m.ram);
      var x, y := Read(m.ram, sp - 2), Read(m.ram, sp - 1);
      ExecAll([Comment(t)] + PopD() + PointSecond() + [Operation(op)] + IncSP(), m, table).ram
        == m.ram[sp - 2 := Binary(op, x, y)][0 := sp - 1]
  {
    var sp := SP(m.ram);
    var x, y := Read(m.ram, sp - 2), Read(m.ram, sp - 1);
    var p2 := [Comment(t)] + PopD() + PointSecond();
    OperandsEffect(t, m, table);
    var m2 := Machine(sp - 2, y, m.ram[0 := sp - 2]);
    assert Read(m2.ram, m2.a) == x;
    OperationEffect(op, m2, table);
    var r3 := m.ram[0 := sp - 2][sp - 2 := Binary(op, x, y)];
    var m3 := m2.(ram := r3);
    ExecOne(Operation(op), m2, table);
    Then(p2, [Operation(op)], m, m2, m3, table);
    assert SP(r3) == sp - 2;
    IncSPEffect(m3, table);
    var m4 := Machine(0, y, r3[0 := sp - 1]);
    Then(p2 + [Operation(op)], IncSP(), m, m3, m4, table);
    assert r3[0 := sp - 1] == m.ram[sp - 2 := Binary(op, x, y)][0 := sp - 1];
  }

  /** `add`, `sub`, `and`, `or`: the two top words x (below) and y (top)
      are replaced by x op y, and SP goes down by one. */
  lemma BinaryEffect(op: ArithOp, m: Machine, table: Symbols)
    requires IsBinary(op) && Registers(table) && SP(m.ram) >= 3
    ensures var sp := SP(m.ram);
      var x, y := Read(m.ram, sp - 2), Read(m.ram, sp - 1);
      ExecAll(ArithmeticCode(op), m, table).ram == m.ram[sp - 2 := Binary(op, x, y)][0 := sp - 1]
  {
    ArithmeticShape(op);
    BinaryCodeEffect(ArithName(op), op, m, table);
  }

  lemma UnaryCodeEffect(t: string, op: ArithOp, m: Machine, table: Symbols)
    requires !IsBinary(op) && Registers(table) && 2 <= SP(m.ram) < 0xFFFF
    ensures var sp := SP(m.ram);
      ExecAll([Comment(t)] + PointSecond() + [Operation(op)] + IncSP(), m, table).ram
        == m.ram[sp - 1 := Unary(op, Read(m.ram, sp - 1))][0 := sp]
  {
    var sp := SP(m.ram);
    var y := Read(m.ram, sp - 1);
    CommentEffect(t, m, table);
    PointSecondEffect(m, table);
    var m1 := Machine(sp - 1, m.d, m.ram[0 := sp - 1]);
    Then([Comment(t)], PointSecond(), m, m, m1, table);
    assert Read(m1.ram, m1.a) == y;
    var r2 := m.ram[0 := sp - 1][sp - 1 := Unary(op, y)];
    var m2 := m1.(ram := r2);
    UnaryOperationEffect(op, m1, table);
    ExecOne(Operation(op), m1, table);
    Then([Comment(t)] + PointSecond(), [Operation(op)], m, m1, m2, table);
    assert SP(r2) == sp - 1;
    IncSPEffect(m2, table);
    Then([Comment(t)] + PointSecond() + [Operation(op)], IncSP(), m, m2, Machine(0, m.d, r2[0 := sp]), table);
    assert r2[0 := sp] == m.ram[sp - 1 := Unary(op, y)][0 := sp];
  }

  /** `neg`, `not`: the top word y is replaced by op y; SP is unchanged. */
  lemma UnaryEffect(op: ArithOp, m: Machine, table: Symbols)
    requires !IsBinary(op) && Registers(table) && 2 <= SP(m.ram) < 0xFFFF
    ensures var sp := SP(m.ram);
      ExecAll(ArithmeticCode(op), m, table).ram == m.ram[sp - 1 := Unary(op, Read(m.ram, sp - 1))][0 := sp]
  {
    ArithmeticShape(op);
    UnaryCodeEffect(ArithName(op), op, m, table);
  }

  // ---------------------------------------------------------------- push and pop

  /** The RAM address a `push`/`pop` of a memory segment reaches: the base
      pointer's value plus the index for local/argument/this/that, the fixed
      base plus the index for temp/pointer, the static variable's own
      address, and for saveCaller the register it names. */
  function SegmentAddress(segment: string, index: string, m: Machine, table: Symbols): Word
    requires PushSegment(segment) && segment != "constant"
  {
    if BasePointer(segment).Some? then Wrap(Read(m.ram, table(BasePointer(segment).value)) + table(index))
    else if FixedBase(segment).Some? then Wrap(table(FixedBase(segment).value) + table(index))
    else if segment == "static" then table(StaticSymbol(index))
    else table(index)
  }

  /** The word `push segment index` puts on the stack. */
  function Pushed(segment: string, index: string, m: Machine, table: Symbols): Word
    requires PushSegment(segment)
  {
    if segment == "constant" then table(index) else Read(m.ram, SegmentAddress(segment, index, m, table))
  }

  /** "//text @sym D=A": D and A hold the operand's value. */
  lemma LoadImmediate(t: string, sym: string, m: Machine, table: Symbols)
    ensures ExecAll([Comment(t), At(sym), Assign(ToD, OfA)], m, table)
         == m.(a := table(sym), d := table(sym))
  {
    var m1 := m.(a := table(sym));
    Trace3([Comment(t), At(sym), Assign(ToD, OfA)], m, m, m1, m1.(d := table(sym)), table);
  }

  /** "//text @sym D=M": D holds the word at the operand's address. */
  lemma LoadDirect(t: string, sym: string, m: Machine, table: Symbols)
    ensures ExecAll([Comment(t), At(sym), Assign(ToD, OfM)], m, table)
         == m.(a := table(sym), d := Read(m.ram, table(sym)))
  {
    var m1 := m.(a := table(sym));
    Trace3([Comment(t), At(sym), Assign(ToD, OfM)], m, m, m1, m1.(d := Read(m.ram, table(sym))), table);
  }

  /** "@base A=M+D D=M" (`indirect`) or "@base A=A+D D=M": D holds the word
      at the base, or the base pointer's value, plus D. */
  lemma LoadOffset(base: string, indirect: bool, m: Machine, table: Symbols)
    ensures var b := if indirect then Read(m.ram, table(base)) else table(base);
      var addr := Wrap(b + m.d);
      ExecAll([At(base), Assign(ToA, if indirect then MPlusD else APlusD), Assign(ToD, OfM)], m, table)
        == m.(a := addr, d := Read(m.ram, addr))
  {
    var b := if indirect then Read(m.ram, table(base)) else table(base);
    var addr := Wrap(b + m.d);
    var m1 := m.(a := table(base));
    var m2 := m1.(a := addr);
    Trace3([At(base), Assign(ToA, if indirect then MPlusD else APlusD), Assign(ToD, OfM)],
      m, m1, m2, m2.(d := Read(m.ram, addr)), table);
  }

  /** Code that only loads D, followed by "@SP A=M M=D @SP M=M+1". */
  lemma PushAfter(pre: Code, m: Machine, m1: Machine, table: Symbols)
    requires Registers(table) && 1 <= SP(m.ram) < 0xFFFF
    requires ExecAll(pre, m, table) == m1 && m1.ram == m.ram
    ensures var sp := SP(m.ram);
      ExecAll(pre + PushD(), m, table).ram == m.ram[sp := m1.d][0 := sp + 1]
  {
    var sp := SP(m.ram);
    PushDEffect(m1, table);
    Then(pre, PushD(), m, m1, Machine(0, m1.d, m.ram[sp := m1.d][0 := sp + 1]), table);
  }

  /** The based and fixed-base branches of `push`. */
  lemma PushOffsetEffect(t: string, index: string, base: string, indirect: bool, m: Machine, table: Symbols)
    requires Registers(table) && 1 <= SP(m.ram) < 0xFFFF
    ensures var sp := SP(m.ram);
      var b := if indirect then Read(m.ram, table(base)) else table(base);
      var addr := Wrap(b + table(index));
      ExecAll([Comment(t), At(index), Assign(ToD, OfA),
               At(base), Assign(ToA, if indirect then MPlusD else APlusD), Assign(ToD, OfM)] + PushD(), m, table).ram
        == m.ram[sp := Read(m.ram, addr)][0 := sp + 1]
  {
    var load := [Comment(t), At(index), Assign(ToD, OfA)];
    var offset := [At(base), Assign(ToA, if indirect then MPlusD else APlusD), Assign(ToD, OfM)];
    var m1 := m.(a := table(index), d := table(index));
    LoadImmediate(t, index, m, table);
    LoadOffset(base, indirect, m1, table);
    var b := if indirect then Read(m.ram, table(base)) else table(base);
    var addr := Wrap(b + table(index));
    var m2 := m.(a := addr, d := Read(m.ram, addr));
    Then(load, offset, m, m1, m2, table);
    assert load + offset == [Comment(t), At(index), Assign(ToD, OfA),
      At(base), Assign(ToA, if indirect then MPlusD else APlusD), Assign(ToD, OfM)];
    PushAfter(load + offset, m, m2, table);
  }

  /** `push segment index`: the segment's word goes on top of the stack and
      SP goes up by one; nothing else in the RAM changes. */
  lemma PushEffect(segment: string, index: string, m: Machine, table: Symbols)
    requires PushSegment(segment) && Registers(table) && 1 <= SP(m.ram) < 0xFFFF
    ensures var sp := SP(m.ram);
      ExecAll(Push(segment, index), m, table).ram
        == m.ram[sp := Pushed(segment, index, m, table)][0 := sp + 1]
  {
    if segment == "constant" || BasePointer(segment).Some? || FixedBase(segment).Some? {
      PushIndexedEffect(segment, index, m, table);
    } else {
      PushDirectEffect(segment, index, m, table);
    }
  }

  lemma PushIndexedEffect(segment: string, index: string, m: Machine, table: Symbols)
    requires segment == "constant" || BasePointer(segment).Some? || FixedBase(segment).Some?
    requires Registers(table) && 1 <= SP(m.ram) < 0xFFFF
    ensures PushSegment(segment)
    ensures var sp := SP(m.ram);
      ExecAll(Push(segment, index), m, table).ram
        == m.ram[sp := Pushed(segment, index, m, table)][0 := sp + 1]
  {
    var t := "push " + segment + " " + index;
    if segment == "constant" {
      var c := "push constant " + index;
      LoadImmediate(c, index, m, table);
      PushAfter([Comment(c), At(index), Assign(ToD, OfA)], m, m.(a := table(index), d := table(index)), table);
    } else if BasePointer(segment).Some? {
      PushOffsetEffect(t, index, BasePointer(segment).value, true, m, table);
    } else {
      PushOffsetEffect(t, index, FixedBase(segment).value, false, m, table);
    }
  }

  lemma PushDirectEffect(segment: string, index: string, m: Machine, table: Symbols)
    requires segment == "static" || segment == "saveCaller"
    requires Registers(table) && 1 <= SP(m.ram) < 0xFFFF
    ensures PushSegment(segment)
    ensures var sp := SP(m.ram);
      ExecAll(Push(segment, index), m, table).ram
        == m.ram[sp := Pushed(segment, index, m, table)][0 := sp + 1]
  {
    var t, sym := if segment == "static" then "push static" else "push saveCaller " + index,
                  if segment == "static" then StaticSymbol(index) else index;
    assert Push(segment, index) == [Comment(t), At(sym), Assign(ToD, OfM)] + PushD();
    LoadDirect(t, sym, m, table);
    PushAfter([Comment(t), At(sym), Assign(ToD, OfM)], m, m.(a := table(sym), d := Read(m.ram, table(sym))), table);
  }

  /** `push constant n` for a decimal n below 2^16 pushes n itself. */
  lemma PushConstantEffect(n: nat, m: Machine, table: Symbols)
    requires n < 0x1_0000 && Honours(table) && 1 <= SP(m.ram) < 0xFFFF
    ensures var sp := SP(m.ram);
      ExecAll(Push("constant", NatToString(n)), m, table).ram == m.ram[sp := n][0 := sp + 1]
  {
    PushEffect("constant", NatToString(n), m, table);
  }

  /** "@base D=M+D" (`indirect`) or "@base D=A+D": D is the base pointer's
      value, or the base, plus D. */
  lemma OffsetIntoD(base: string, indirect: bool, m: Machine, table: Symbols)
    ensures var b := if indirect then Read(m.ram, table(base)) else table(base);
      ExecAll([At(base), Assign(ToD, if indirect then MPlusD else APlusD)], m, table)
        == m.(a := table(base), d := Wrap(b + m.d))
  {
    var b := if indirect then Read(m.ram, table(base)) else table(base);
    var m1 := m.(a := table(base));
    Trace2([At(base), Assign(ToD, if indirect then MPlusD else APlusD)], m, m1, m1.(d := Wrap(b + m.d)), table);
  }

  /** "@index D=A @base D=M+D (or D=A+D) @R13 M=D": R13 holds the target
      address. */
  lemma AddressToR13(index: string, base: string, indirect: bool, m: Machine, table: Symbols)
    requires Registers(table)
    ensures var b := if indirect then Read(m.ram, table(base)) else table(base);
      var addr := Wrap(b + table(index));
      ExecAll([At(index), Assign(ToD, OfA), At(base), Assign(ToD, if indirect then MPlusD else APlusD),
               At("R13"), Assign(ToM, OfD)], m, table)
        == Machine(13, addr, m.ram[13 := addr])
  {
    var comp := if indirect then MPlusD else APlusD;
    var b := if indirect then Read(m.ram, table(base)) else table(base);
    var addr := Wrap(b + table(index));
    var m1 := m.(a := table(index), d := table(index));
    var m2 := m1.(a := table(base), d := addr);
    var m3 := Machine(13, addr, m.ram[13 := addr]);
    LoadValue(Assign(ToD, OfA), OfA, table(index), m.(a := table(index)), table);
    Trace2([At(index), Assign(ToD, OfA)], m, m.(a := table(index)), m1, table);
    OffsetIntoD(base, indirect, m1, table);
    StoreValue(Assign(ToM, OfD), OfD, addr, m2.(a := 13), table);
    Trace2([At("R13"), Assign(ToM, OfD)], m2, m2.(a := 13), m3, table);
    Then([At(index), Assign(ToD, OfA)], [At(base), Assign(ToD, comp)], m, m1, m2, table);
    Then([At(index), Assign(ToD, OfA)] + [At(base), Assign(ToD, comp)], [At("R13"), Assign(ToM, OfD)], m, m2, m3, table);
    assert [At(index), Assign(ToD, OfA)] + [At(base), Assign(ToD, comp)] + [At("R13"), Assign(ToM, OfD)]
      == [At(index), Assign(ToD, OfA), At(base), Assign(ToD, comp), At("R13"), Assign(ToM, OfD)];
  }

  /** "@SP M=M-1 A=M D=M @R13 A=M M=D": the top word moves to the address
      kept in R13.  The stack lies above the registers R0-R15. */
  lemma PopToR13Effect(m: Machine, table: Symbols)
    requires Registers(table) && SP(m.ram) >= 16
    ensures var sp := SP(m.ram);
      ExecAll(PopToR13(), m, table).ram == m.ram[0 := sp - 1][Read(m.ram, 13) := Read(m.ram, sp - 1)]
  {
    var sp := SP(m.ram);
    var top := Read(m.ram, sp - 1);
    var target := Read(m.ram, 13);
    PopDEffect(m, table);
    var m1 := Machine(sp - 1, top, m.ram[0 := sp - 1]);
    var m2 := Machine(target, top, m.ram[0 := sp - 1][target := top]);
    Trace3([At("R13"), Assign(ToA, OfM), Assign(ToM, OfD)], m1, m1.(a := 13), m1.(a := target), m2, table);
    Then(PopD(), [At("R13"), Assign(ToA, OfM), Assign(ToM, OfD)], m, m1, m2, table);
  }

  /** `pop segment index`: the top word is written to the segment's
      address and SP goes down by one; the based and fixed segments also
      leave that address in R13. */
  lemma PopEffect(segment: string, index: string, m: Machine, table: Symbols)
    requires PopSegment(segment) && Registers(table) && SP(m.ram) >= 16
    ensures var sp := SP(m.ram);
      var addr, top := SegmentAddress(segment, index, m, table), Read(m.ram, sp - 1);
      ExecAll(Pop(segment, index), m, table).ram
        == if segment == "static" then m.ram[0 := sp - 1][addr := top]
           else m.ram[13 := addr][0 := sp - 1][addr := top]
  {
    if segment == "static" {
      PopStaticEffect(index, m, table);
    } else if BasePointer(segment).Some? {
      PopOffsetEffect(index, BasePointer(segment).value, true, m, table);
    } else {
      PopOffsetEffect(index, FixedBase(segment).value, false, m, table);
    }
  }

  /** The based and fixed-base branches of `pop`. */
  lemma PopOffsetEffect(index: string, base: string, indirect: bool, m: Machine, table: Symbols)
    requires Registers(table) && SP(m.ram) >= 16
    ensures var sp := SP(m.ram);
      var b := if indirect then Read(m.ram, table(base)) else table(base);
      var addr := Wrap(b + table(index));
      ExecAll([At(index), Assign(ToD, OfA), At(base), Assign(ToD, if indirect then MPlusD else APlusD),
               At("R13"), Assign(ToM, OfD)] + PopToR13(), m, table).ram
        == m.ram[13 := addr][0 := sp - 1][addr := Read(m.ram, sp - 1)]
  {
    var sp := SP(m.ram);
    var b := if indirect then Read(m.ram, table(base)) else table(base);
    var addr := Wrap(b + table(index));
    var pre := [At(index), Assign(ToD, OfA), At(base), Assign(ToD, if indirect then MPlusD else APlusD),
                At("R13"), Assign(ToM, OfD)];
    AddressToR13(index, base, indirect, m, table);
    var m1 := Machine(13, addr, m.ram[13 := addr]);
    assert SP(m1.ram) == sp && Read(m1.ram, 13) == addr && Read(m1.ram, sp - 1) == Read(m.ram, sp - 1);
    PopToR13Effect(m1, table);
    ExecAllAppend(pre, PopToR13(), m, table);
  }

  /** `pop static index`. */
  lemma PopStaticEffect(index: string, m: Machine, table: Symbols)
    requires Registers(table) && SP(m.ram) >= 2
    ensures var sp := SP(m.ram);
      var addr := table(StaticSymbol(index));
      ExecAll(Pop("static", index), m, table).ram == m.ram[0 := sp - 1][addr := Read(m.ram, sp - 1)]
  {
    var sp := SP(m.ram);
    var addr := table(StaticSymbol(index));
    var top := Read(m.ram, sp - 1);
    PopDEffect(m, table);
    var m1 := Machine(sp - 1, top, m.ram[0 := sp - 1]);
    var m2 := Machine(addr, top, m.ram[0 := sp - 1][addr := top]);
    Trace2([At(StaticSymbol(index)), Assign(ToM, OfD)], m1, m1.(a := addr), m2, table);
    Then(PopD(), [At(StaticSymbol(index)), Assign(ToM, OfD)], m, m1, m2, table);
  }

  // ---------------------------------------------------------------- comparisons

  /** The fragment of a comparison, position by position: the operands
      (0-9), the conditional jump (10), the false branch (11-15), the label
      of the true branch (16), the true branch (17-19), the end label (20)
      and the increment of SP (21-22). */
  lemma CompareLayout(kind: Comparison, t: string, e: string)
    ensures var c := Compare(kind, t, e);
      |c| == 23
      && c[..10] == [Comment(Mnemonic(kind))] + PopD() + PointSecond() + [Assign(ToD, MMinusD), At(t)]
      && c[10] == Compute(ToNone, OfD, Condition(kind))
      && c[11..15] == [At("SP"), Assign(ToA, OfM), Assign(ToM, Zero), At(e)]
      && c[15] == Compute(ToNone, Zero, JMP)
      && c[16..] == [LabelDecl(t), At("SP"), Assign(ToA, OfM), Assign(ToM, MinusOne), LabelDecl(e)] + IncSP()
      && c[20..] == [LabelDecl(e)] + IncSP()
      && forall k :: 0 <= k < 23 && c[k].LabelDecl? ==> k == 16 || k == 20
  {
    var c := Compare(kind, t, e);
    var head := [Comment(Mnemonic(kind))] + PopD() + PointSecond() + [Assign(ToD, MMinusD), At(t)];
    var jumps := [Compute(ToNone, OfD, Condition(kind)),
                  At("SP"), Assign(ToA, OfM), Assign(ToM, Zero), At(e), Compute(ToNone, Zero, JMP)];
    var tail := [LabelDecl(t), At("SP"), Assign(ToA, OfM), Assign(ToM, MinusOne), LabelDecl(e)] + IncSP();
    assert c == head + jumps + tail;
    assert head == [Comment(Mnemonic(kind)), At("SP"), Assign(ToM, MMinus1), Assign(ToA, OfM), Assign(ToD, OfM),
                    At("SP"), Assign(ToM, MMinus1), Assign(ToA, OfM), Assign(ToD, MMinusD), At(t)];
    assert tail == [LabelDecl(t), At("SP"), Assign(ToA, OfM), Assign(ToM, MinusOne), LabelDecl(e),
                    At("SP"), Assign(ToM, MPlus1)];
    Slices(head, jumps, tail);
  }

  /** Positions in a fragment of ten, six and seven instructions. */
  lemma Slices(head: Code, jumps: Code, tail: Code)
    requires |head| == 10 && |jumps| == 6 && |tail| == 7
    ensures var c := head + jumps + tail;
      |c| == 23 && c[..10] == head && c[10] == jumps[0] && c[11..15] == jumps[1..5] && c[15] == jumps[5]
      && c[16..] == tail && c[20..] == tail[4..]
      && (forall k :: 0 <= k < 10 ==> c[k] == head[k])
      && (forall k :: 10 <= k < 16 ==> c[k] == jumps[k - 10])
      && (forall k :: 16 <= k < 23 ==> c[k] == tail[k - 16])
  {
    var c := head + jumps + tail;
    assert c[..10] == head;
    assert c[16..] == tail;
    assert c[20..] == tail[4..];
    assert c[11..15] == jumps[1..5];
  }


  /** With its two labels at different addresses, the conditional jump of a
      comparison lands on its true branch and the unconditional one on its
      end. */
  lemma CompareTargets(kind: Comparison, t: string, e: string, table: Symbols)
    requires table(t) != table(e)
    ensures LabelAt(Compare(kind, t, e), table, table(t)) == Some(16)
    ensures LabelAt(Compare(kind, t, e), table, table(e)) == Some(20)
  {
    var c := Compare(kind, t, e);
    CompareLayout(kind, t, e);
    assert c[16] == c[16..][0] == LabelDecl(t);
    assert c[20] == c[20..][0] == LabelDecl(e);
  }

  /** Positions 0-9: x - y in D and the true label's address in A. */
  lemma CompareOperandsEffect(kind: Comparison, t: string, m: Machine, table: Symbols)
    requires Registers(table) && SP(m.ram) >= 3
    ensures var sp := SP(m.ram);
      var x, y := Read(m.ram, sp - 2), Read(m.ram, sp - 1);
      ExecAll([Comment(Mnemonic(kind))] + PopD() + PointSecond() + [Assign(ToD, MMinusD), At(t)], m, table)
        == Machine(table(t), Wrap(x as int - y), m.ram[0 := sp - 2])
  {
    var sp := SP(m.ram);
    var x, y := Read(m.ram, sp - 2), Read(m.ram, sp - 1);
    OperandsEffect(Mnemonic(kind), m, table);
    var m2 := Machine(sp - 2, y, m.ram[0 := sp - 2]);
    var m3 := m2.(d := Wrap(x as int - y));
    var m4 := m3.(a := table(t));
    Trace2([Assign(ToD, MMinusD), At(t)], m2, m3, m4, table);
    Then([Comment(Mnemonic(kind))] + PopD() + PointSecond(), [Assign(ToD, MMinusD), At(t)], m, m2, m4, table);
  }

  /** "(t) @SP A=M M=-1 (e) @SP M=M+1": true is written just above the
      stack and SP goes up by one. */
  lemma TrueBranchEffect(t: string, e: string, m: Machine, table: Symbols)
    requires Registers(table) && 1 <= SP(m.ram) < 0xFFFF
    ensures var sp := SP(m.ram);
      ExecAll([LabelDecl(t), At("SP"), Assign(ToA, OfM), Assign(ToM, MinusOne), LabelDecl(e)] + IncSP(), m, table).ram
        == m.ram[sp := 0xFFFF][0 := sp + 1]
  {
    var sp := SP(m.ram);
    var m2 := m.(a := 0);
    var m3 := m2.(a := sp);
    var m4 := m3.(ram := m.ram[sp := 0xFFFF]);
    var body := [LabelDecl(t), At("SP"), Assign(ToA, OfM), Assign(ToM, MinusOne), LabelDecl(e)];
    Trace5(body, m, m, m2, m3, m4, m4, table);
    assert SP(m4.ram) == sp;
    IncSPEffect(m4, table);
    Then(body, IncSP(), m, m4, Machine(0, m.d, m.ram[sp := 0xFFFF][0 := sp + 1]), table);
  }

  /** "@SP A=M M=0 @e": false is written just above the stack and A holds
      the end label's address. */
  lemma FalseBranchEffect(e: string, m: Machine, table: Symbols)
    requires Registers(table) && 1 <= SP(m.ram)
    ensures ExecAll([At("SP"), Assign(ToA, OfM), Assign(ToM, Zero), At(e)], m, table)
         == Machine(table(e), m.d, m.ram[SP(m.ram) := 0])
  {
    var sp := SP(m.ram);
    var m1 := m.(a := 0);
    var m2 := m1.(a := sp);
    var m3 := m2.(ram := m.ram[sp := 0]);
    var m4 := m3.(a := table(e));
    Trace4([At("SP"), Assign(ToA, OfM), Assign(ToM, Zero), At(e)], m, m1, m2, m3, m4, table);
  }

  /** "(e) @SP M=M+1". */
  lemma EndEffect(e: string, m: Machine, table: Symbols)
    requires Registers(table) && SP(m.ram) < 0xFFFF
    ensures ExecAll([LabelDecl(e)] + IncSP(), m, table).ram == m.ram[0 := SP(m.ram) + 1]
  {
    ExecOne(LabelDecl(e), m, table);
    IncSPEffect(m, table);
    Then([LabelDecl(e)], IncSP(), m, m, Machine(0, m.d, m.ram[0 := SP(m.ram) + 1]), table);
  }

  /** From the conditional jump on, when the condition holds. */
  lemma CompareTrueRun(kind: Comparison, t: string, e: string, m: Machine, table: Symbols, fuel: nat)
    requires Registers(table) && table(t) != table(e) && 1 <= SP(m.ram) < 0xFFFF && fuel >= 1
    requires m.a == table(t) && Taken(Condition(kind), m.d)
    ensures Run(Compare(kind, t, e), table, 10, m, fuel)
         == Done(ExecAll(Compare(kind, t, e)[16..], m, table))
  {
    var c := Compare(kind, t, e);
    CompareLayout(kind, t, e);
    CompareTargets(kind, t, e, table);
    assert Exec(c[10], m, table) == m;
    assert c[16..23] == c[16..];
    RunStraight(c, table, 16, 23, m, fuel - 1);
  }

  /** From the conditional jump on, when the condition fails. */
  lemma CompareFalseRun(kind: Comparison, t: string, e: string, m: Machine, table: Symbols, fuel: nat)
    requires Registers(table) && table(t) != table(e) && 1 <= SP(m.ram) < 0xFFFF && fuel >= 1
    requires !Taken(Condition(kind), m.d)
    ensures var m4 := Machine(table(e), m.d, m.ram[SP(m.ram) := 0]);
      Run(Compare(kind, t, e), table, 10, m, fuel)
        == Done(ExecAll(Compare(kind, t, e)[20..], m4, table))
  {
    var c := Compare(kind, t, e);
    CompareLayout(kind, t, e);
    assert Exec(c[10], m, table) == m;
    FalseBranchEffect(e, m, table);
    RunStraight(c, table, 11, 15, m, fuel);
    CompareEndRun(kind, t, e, Machine(table(e), m.d, m.ram[SP(m.ram) := 0]), table, fuel);
  }

  /** The jump at position 15 to the end label. */
  lemma CompareEndRun(kind: Comparison, t: string, e: string, m: Machine, table: Symbols, fuel: nat)
    requires table(t) != table(e) && m.a == table(e) && fuel >= 1
    ensures Run(Compare(kind, t, e), table, 15, m, fuel)
         == Done(ExecAll(Compare(kind, t, e)[20..], m, table))
  {
    var c := Compare(kind, t, e);
    CompareLayout(kind, t, e);
    CompareTargets(kind, t, e, table);
    assert Exec(c[15], m, table) == m;
    assert c[20..23] == c[20..];
    RunStraight(c, table, 20, 23, m, fuel - 1);
  }

  /** `eq`, `gt`, `lt`: the two top words x (below) and y (top) are
      replaced by -1 (true) when the condition holds of x - y and by 0
      (false) otherwise, and SP goes down by one.  One jump between the
      fragment's own labels is made, so one unit of fuel suffices. */
  lemma CompareEffect(kind: Comparison, t: string, e: string, m: Machine, table: Symbols, fuel: nat)
    requires Registers(table) && table(t) != table(e) && SP(m.ram) >= 3 && fuel >= 1
    ensures var sp := SP(m.ram);
      var x, y := Read(m.ram, sp - 2), Read(m.ram, sp - 1);
      var r := Run(Compare(kind, t, e), table, 0, m, fuel);
      r.Done? && r.m.ram == m.ram[sp - 2 := if Taken(Condition(kind), Wrap(x as int - y)) then 0xFFFF else 0][0 := sp - 1]
  {
    var sp := SP(m.ram);
    var x, y := Read(m.ram, sp - 2), Read(m.ram, sp - 1);
    var m10 := Machine(table(t), Wrap(x as int - y), m.ram[0 := sp - 2]);
    CompareHeadRun(kind, t, e, m, table, fuel);
    assert SP(m10.ram) == sp - 2;
    CompareJumpRun(kind, t, e, m10, table, fuel);
    var v := if Taken(Condition(kind), m10.d) then 0xFFFF else 0;
    assert m10.ram[sp - 2 := v][0 := sp - 1] == m.ram[sp - 2 := v][0 := sp - 1];
  }

  /** The ten instructions before the conditional jump run straight. */
  lemma CompareHeadRun(kind: Comparison, t: string, e: string, m: Machine, table: Symbols, fuel: nat)
    requires Registers(table) && SP(m.ram) >= 3
    ensures var sp := SP(m.ram);
      var x, y := Read(m.ram, sp - 2), Read(m.ram, sp - 1);
      Run(Compare(kind, t, e), table, 0, m, fuel)
        == Run(Compare(kind, t, e), table, 10, Machine(table(t), Wrap(x as int - y), m.ram[0 := sp - 2]), fuel)
  {
    var c := Compare(kind, t, e);
    CompareLayout(kind, t, e);
    CompareOperandsEffect(kind, t, m, table);
    assert c[0..10] == c[..10];
    RunStraight(c, table, 0, 10, m, fuel);
  }

  /** From the conditional jump on: the truth value of D is written just
      above the stack and SP goes up by one. */
  lemma CompareJumpRun(kind: Comparison, t: string, e: string, m: Machine, table: Symbols, fuel: nat)
    requires Registers(table) && table(t) != table(e) && 1 <= SP(m.ram) < 0xFFFF && fuel >= 1
    requires m.a == table(t)
    ensures var r := Run(Compare(kind, t, e), table, 10, m, fuel);
      r.Done? && r.m.ram == m.ram[SP(m.ram) := if Taken(Condition(kind), m.d) then 0xFFFF else 0][0 := SP(m.ram) + 1]
  {
    var c := Compare(kind, t, e);
    var sp := SP(m.ram);
    if Taken(Condition(kind), m.d) {
      CompareTrueRun(kind, t, e, m, table, fuel);
      CompareLayout(kind, t, e);
      TrueBranchEffect(t, e, m, table);
    } else {
      CompareFalseRun(kind, t, e, m, table, fuel);
      var m4 := Machine(table(e), m.d, m.ram[sp := 0]);
      assert SP(m4.ram) == sp;
      CompareLayout(kind, t, e);
      EndEffect(e, m4, table);
    }
  }

  /** A word read as a two's complement number. */
  function Signed(w: Word): int {
    if Negative(w) then w - 0x1_0000 else w
  }

  /** What the VM promises of each comparison, on two's complement values. */
  predicate Holds(kind: Comparison, x: Word, y: Word) {
    match kind
    case Eq => x == y
    case Gt => Signed(x) > Signed(y)
    case Lt => Signed(x) < Signed(y)
  }

  /** The jump condition on x - y decides the comparison: always for `eq`,
      and for `gt` and `lt` whenever the difference of the two values fits
      in a 16-bit two's complement word. */
  lemma CompareTruth(kind: Comparison, x: Word, y: Word)
    requires kind == Eq || -0x8000 <= Signed(x) - Signed(y) < 0x8000
    ensures Taken(Condition(kind), Wrap(x as int - y)) <==> Holds(kind, x, y)
  {
  }

  /** Beyond that range the subtraction overflows: 32767 > -32768, yet `gt`
      pushes false for them. */
  lemma GtOverflow()
    ensures Holds(Gt, 0x7FFF, 0x8000) && !Taken(Condition(Gt), Wrap(0x7FFF - 0x8000))
  {
  }

  // ---------------------------------------------------------------- branching

  /** `label l` changes nothing: its comment and its label do not run. */
  lemma LabelEffect(l: string, m: Machine, table: Symbols, fuel: nat)
    ensures Run(Label(l), table, 0, m, fuel) == Done(m)
  {
    var c := Label(l);
    Trace2(c, m, m, m, table);
    assert c[0..2] == c;
    RunStraight(c, table, 0, 2, m, fuel);
  }

  /** `goto l` leaves for the address of l, with A holding it; the RAM and
      D are unchanged. */
  lemma GotoEffect(l: string, m: Machine, table: Symbols, fuel: nat)
    ensures Run(Goto(l), table, 0, m, fuel) == Left(m.(a := table(l)), table(l))
  {
    var c := Goto(l);
    var m2 := m.(a := table(l));
    Trace2(c[..2], m, m, m2, table);
    RunStraight(c, table, 0, 2, m, fuel);
    assert LabelAt(c, table, table(l)) == None by {
      assert forall k :: 0 <= k < |c| ==> !c[k].LabelDecl?;
    }
  }

  /** "//if_goto l", an empty line, "@SP AM=M-1 D=M @l": SP goes down by one,
      D holds the popped word and A the address of l. */
  lemma IfGotoHead(l: string, m: Machine, table: Symbols)
    requires Registers(table) && SP(m.ram) >= 2
    ensures var sp := SP(m.ram);
      ExecAll(IfGoto(l)[..6], m, table) == Machine(table(l), Read(m.ram, sp - 1), m.ram[0 := sp - 1])
  {
    var c := IfGoto(l);
    var sp := SP(m.ram);
    var r := m.ram[0 := sp - 1];
    var m1 := Machine(0, m.d, m.ram);
    var m2 := Machine(sp - 1, m.d, r);
    var m3 := Machine(sp - 1, Read(m.ram, sp - 1), r);
    var m4 := Machine(table(l), Read(m.ram, sp - 1), r);
    assert c[..6] == [c[0], c[1]] + [c[2], c[3], c[4], c[5]];
    Trace2([c[0], c[1]], m, m, m, table);
    assert Exec(c[3], m1, table) == m2;
    LoadValue(c[4], OfM, Read(m.ram, sp - 1), m2, table);
    Trace4([c[2], c[3], c[4], c[5]], m, m1, m2, m3, m4, table);
    Then([c[0], c[1]], [c[2], c[3], c[4], c[5]], m, m, m4, table);
  }

  /** `if-goto l`: the top word is popped, SP going down by one whatever it
      is, and control leaves for l exactly when that word is not zero. */
  lemma IfGotoEffect(l: string, m: Machine, table: Symbols, fuel: nat)
    requires Registers(table) && SP(m.ram) >= 2
    ensures var sp := SP(m.ram);
      var top := Read(m.ram, sp - 1);
      var popped := Machine(table(l), top, m.ram[0 := sp - 1]);
      Run(IfGoto(l), table, 0, m, fuel) == if top != 0 then Left(popped, table(l)) else Done(popped)
  {
    var c := IfGoto(l);
    var sp := SP(m.ram);
    var popped := Machine(table(l), Read(m.ram, sp - 1), m.ram[0 := sp - 1]);
    IfGotoHead(l, m, table);
    assert c[0..6] == c[..6];
    RunStraight(c, table, 0, 6, m, fuel);
    assert Exec(c[6], popped, table) == popped;
    assert LabelAt(c, table, table(l)) == None by {
      assert forall k :: 0 <= k < |c| ==> !c[k].LabelDecl?;
    }
  }
}
