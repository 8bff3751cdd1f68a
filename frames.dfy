/** The calling convention of the emitted code: what `function`, `call` and
    `return_` of `instructions` (src/lib.rs) do on the Hack computer, and
    that `return_` restores the frame `call` saved. */
module Frames {
  import opened Strings
  import opened Hack
  import opened Instructions
  import opened InstructionLaws
  import opened Semantics

  // ---------------------------------------------------------------- function

  /** The RAM with the `k` words from `sp` on set to zero. */
  function Zeros(ram: Ram, sp: Word, k: nat): Ram
    requires sp + k <= 0x1_0000
  {
    if k == 0 then ram else Zeros(ram, sp, k - 1)[sp + k - 1 := 0]
  }

  lemma {:induction false} ReadZeros(ram: Ram, sp: Word, k: nat, a: Word)
    requires sp + k <= 0x1_0000
    ensures Read(Zeros(ram, sp, k), a) == if sp <= a < sp + k then 0 else Read(ram, a)
  {
    if k > 0 {
      ReadZeros(ram, sp, k - 1, a);
    }
  }

  /** `k` pushes of the constant 0 put k zeros on the stack. */
  lemma {:induction false} ZeroPushesEffect(k: nat, m: Machine, table: Symbols)
    requires Registers(table) && table("0") == 0 && 1 <= SP(m.ram) && SP(m.ram) + k < 0x1_0000
    ensures var sp := SP(m.ram);
      ExecAll(ZeroPushes(k), m, table).ram == Zeros(m.ram, sp, k)[0 := sp + k]
  {
    var sp := SP(m.ram);
    if k == 0 {
      assert m.ram[0 := sp] == m.ram;
    } else {
      ZeroPushesEffect(k - 1, m, table);
      var m1 := ExecAll(ZeroPushes(k - 1), m, table);
      ZerosStep(m.ram, sp, k);
      PushZero(m1, table);
      ExecAllAppend(ZeroPushes(k - 1), Push("constant", "0"), m, table);
    }
  }

  /** "push constant 0". */
  lemma PushZero(m: Machine, table: Symbols)
    requires Registers(table) && table("0") == 0 && 1 <= SP(m.ram) < 0xFFFF
    ensures var sp := SP(m.ram);
      ExecAll(Push("constant", "0"), m, table).ram == m.ram[sp := 0][0 := sp + 1]
  {
    PushEffect("constant", "0", m, table);
  }

  /** One more zero above the k - 1 before it. */
  lemma ZerosStep(ram: Ram, sp: Word, k: nat)
    requires 1 <= sp && 1 <= k && sp + k < 0x1_0000
    ensures var r := Zeros(ram, sp, k - 1)[0 := sp + k - 1];
      SP(r) == sp + k - 1 && r[sp + k - 1 := 0][0 := sp + k] == Zeros(ram, sp, k)[0 := sp + k]
  {
  }


  /** `function f n`: the n locals (none when n is not positive) are pushed
      as zeros, SP goes up by their number, and nothing else changes. */
  lemma FunctionEffect(f: string, n: int, m: Machine, table: Symbols)
    requires Honours(table) && 1 <= SP(m.ram) && SP(m.ram) + n < 0x1_0000
    ensures var sp, k := SP(m.ram), if n > 0 then n else 0;
      forall a: Word :: Read(ExecAll(FunctionCode(f, n), m, table).ram, a)
        == if a == 0 then sp + k else if sp <= a < sp + k then 0 else Read(m.ram, a)
  {
    var k := if n > 0 then n else 0;
    var header := [Comment("function " + f + " " + IntToString(n))] + Label(f);
    TableNumeral(0, table);
    assert IntToString(0) == "0";
    Trace3(header, m, m, m, m, table);
    ZeroPushesEffect(k, m, table);
    ExecAllAppend(header, ZeroPushes(k), m, table);
    forall a: Word
      ensures Read(ExecAll(FunctionCode(f, n), m, table).ram, a)
        == if a == 0 then SP(m.ram) + k else if SP(m.ram) <= a < SP(m.ram) + k then 0 else Read(m.ram, a)
    {
      ReadZeros(m.ram, SP(m.ram), k, a);
    }
  }

  // ---------------------------------------------------------------- call

  /** Code that neither declares a label nor jumps. */
  predicate Plain(c: Code) {
    forall k :: 0 <= k < |c| ==> !c[k].LabelDecl? && NeverJumps(c[k])
  }

  lemma PlainAppend(a: Code, b: Code)
    requires Plain(a) && Plain(b)
    ensures Plain(a + b)
  {
  }

  /** A load into D followed by "@SP A=M M=D @SP M=M+1". */
  lemma PlainLoadPush(t: string, sym: string, comp: Comp)
    ensures Plain([Comment(t), At(sym), Assign(ToD, comp)] + PushD())
  {
  }

  lemma PlainSavePush(segment: string, index: string)
    requires segment == "constant" || segment == "saveCaller"
    ensures Plain(Push(segment, index))
  {
    if segment == "constant" {
      PlainLoadPush("push constant " + index, index, OfA);
    } else {
      PlainLoadPush("push saveCaller " + index, index, OfM);
    }
  }

  lemma PlainSaveFrame(ret: string)
    ensures Plain(SaveFrame(ret))
  {
    var p0, p1, p2 := Push("constant", ret), Push("saveCaller", "LCL"), Push("saveCaller", "ARG");
    var p3, p4 := Push("saveCaller", "THIS"), Push("saveCaller", "THAT");
    PlainSavePush("constant", ret);
    PlainSavePush("saveCaller", "LCL");
    PlainSavePush("saveCaller", "ARG");
    PlainSavePush("saveCaller", "THIS");
    PlainSavePush("saveCaller", "THAT");
    PlainAppend(p0, p1);
    PlainAppend(p0 + p1, p2);
    PlainAppend(p0 + p1 + p2, p3);
    PlainAppend(p0 + p1 + p2 + p3, p4);
  }

  /** The RAM after the five pushes of `call`: the return address and the
      caller's LCL, ARG, THIS, THAT from `sp` on, and SP above them. */
  function SavedFrame(ram: Ram, sp: Word, retAddr: Word): Ram
    requires sp + 5 < 0x1_0000
  {
    ram[sp := retAddr][sp + 1 := Read(ram, 1)][sp + 2 := Read(ram, 2)]
       [sp + 3 := Read(ram, 3)][sp + 4 := Read(ram, 4)][0 := sp + 5]
  }

  /** "push saveCaller reg": the word at the register goes on the stack. */
  lemma SaveRegister(reg: string, m: Machine, table: Symbols)
    requires Registers(table) && 1 <= SP(m.ram) < 0xFFFF
    ensures var sp := SP(m.ram);
      ExecAll(Push("saveCaller", reg), m, table).ram == m.ram[sp := Read(m.ram, table(reg))][0 := sp + 1]
  {
    PushDirectEffect("saveCaller", reg, m, table);
  }

  /** The five pushes write the frame one word at a time; before the push
      of a register its word is still the caller's. */
  lemma SavingSteps(ram: Ram, sp: Word, retAddr: Word)
    requires 5 <= sp && sp + 5 < 0x1_0000
    ensures var r1 := ram[sp := retAddr][0 := sp + 1];
      var r2 := r1[sp + 1 := Read(ram, 1)][0 := sp + 2];
      var r3 := r2[sp + 2 := Read(ram, 2)][0 := sp + 3];
      var r4 := r3[sp + 3 := Read(ram, 3)][0 := sp + 4];
      SP(r1) == sp + 1 && Read(r1, 1) == Read(ram, 1)
      && SP(r2) == sp + 2 && Read(r2, 2) == Read(ram, 2)
      && SP(r3) == sp + 3 && Read(r3, 3) == Read(ram, 3)
      && SP(r4) == sp + 4 && Read(r4, 4) == Read(ram, 4)
      && r4[sp + 4 := Read(ram, 4)][0 := sp + 5] == SavedFrame(ram, sp, retAddr)
  {
  }

  /** Code leaving the RAM `r`, then "push saveCaller reg". */
  lemma SaveAfter(pre: Code, reg: string, m: Machine, r: Ram, table: Symbols)
    requires Registers(table) && ExecAll(pre, m, table).ram == r && 1 <= SP(r) < 0xFFFF
    ensures ExecAll(pre + Push("saveCaller", reg), m, table).ram == r[SP(r) := Read(r, table(reg))][0 := SP(r) + 1]
  {
    SaveRegister(reg, ExecAll(pre, m, table), table);
    ExecAllAppend(pre, Push("saveCaller", reg), m, table);
  }

  lemma SaveFrameEffect(ret: string, m: Machine, table: Symbols)
    requires Registers(table) && 5 <= SP(m.ram) && SP(m.ram) + 5 < 0x1_0000
    ensures ExecAll(SaveFrame(ret), m, table).ram == SavedFrame(m.ram, SP(m.ram), table(ret))
  {
    var sp, ram := SP(m.ram), m.ram;
    var p0 := Push("constant", ret);
    var p1 := p0 + Push("saveCaller", "LCL");
    var p2 := p1 + Push("saveCaller", "ARG");
    var p3 := p2 + Push("saveCaller", "THIS");
    var r1 := ram[sp := table(ret)][0 := sp + 1];
    var r2 := r1[sp + 1 := Read(ram, 1)][0 := sp + 2];
    var r3 := r2[sp + 2 := Read(ram, 2)][0 := sp + 3];
    var r4 := r3[sp + 3 := Read(ram, 3)][0 := sp + 4];
    SavingSteps(ram, sp, table(ret));
    PushEffect("constant", ret, m, table);
    SaveAfter(p0, "LCL", m, r1, table);
    SaveAfter(p1, "ARG", m, r2, table);
    SaveAfter(p2, "THIS", m, r3, table);
    SaveAfter(p3, "THAT", m, r4, table);
  }

  /** A numeral the assembler honours loads its value. */
  lemma TableNumeral(n: nat, table: Symbols)
    requires Honours(table) && n < 0x1_0000
    ensures table("5") == 5 && table(IntToString(n)) == n
  {
    assert NatToString(5) == "5";
    assert IntToString(n) == NatToString(n);
  }

  /** "@SP D=M @5 D=D-A". */
  function FrameBase(): Code {
    [At("SP"), Assign(ToD, OfM), At("5"), Assign(ToD, DMinusA)]
  }

  /** "@n D=D-A @ARG M=D", with the numeral n written `count`. */
  function ArgBelow(count: string): Code {
    [At(count), Assign(ToD, DMinusA), At("ARG"), Assign(ToM, OfD)]
  }

  /** D := SP - 5. */
  lemma FrameBaseEffect(m: Machine, table: Symbols)
    requires Registers(table) && table("5") == 5 && 5 <= SP(m.ram)
    ensures ExecAll(FrameBase(), m, table) == Machine(5, SP(m.ram) - 5, m.ram)
  {
    var s := SP(m.ram);
    var m2 := Machine(0, s, m.ram);
    var m4 := Machine(5, s - 5, m.ram);
    Trace2([At("SP"), Assign(ToD, OfM)], m, m.(a := 0), m2, table);
    Trace2([At("5"), Assign(ToD, DMinusA)], m2, m2.(a := 5), m4, table);
    Then([At("SP"), Assign(ToD, OfM)], [At("5"), Assign(ToD, DMinusA)], m, m2, m4, table);
    assert FrameBase() == [At("SP"), Assign(ToD, OfM)] + [At("5"), Assign(ToD, DMinusA)];
  }

  /** ARG := D - n. */
  lemma ArgBelowEffect(count: string, n: nat, m: Machine, table: Symbols)
    requires Registers(table) && table(count) == n && n <= m.d
    ensures ExecAll(ArgBelow(count), m, table) == Machine(2, m.d - n, m.ram[2 := m.d - n])
  {
    var m1 := m.(a := n);
    var m2 := m1.(d := m.d - n);
    var m3 := m2.(a := 2);
    Trace4(ArgBelow(count), m, m1, m2, m3, m3.(ram := m.ram[2 := m.d - n]), table);
  }

  /** The two together, for any spelling of n. */
  lemma FrameArgEffect(count: string, n: nat, m: Machine, table: Symbols)
    requires Registers(table) && table("5") == 5 && table(count) == n && 5 + n <= SP(m.ram)
    ensures var v := SP(m.ram) - 5 - n;
      ExecAll(FrameBase() + ArgBelow(count), m, table) == Machine(2, v, m.ram[2 := v])
  {
    FrameBaseEffect(m, table);
    var m4 := ExecAll(FrameBase(), m, table);
    ArgBelowEffect(count, n, m4, table);
    Then(FrameBase(), ArgBelow(count), m, m4, ExecAll(ArgBelow(count), m4, table), table);
  }

  /** "@SP D=M @5 D=D-A @n D=D-A @ARG M=D" for a count n that fits below
      SP - 5. */
  lemma SetArgEffect(n: nat, m: Machine, table: Symbols)
    requires Registers(table) && table("5") == 5 && table(IntToString(n)) == n && 5 + n <= SP(m.ram)
    ensures var v := SP(m.ram) - 5 - n;
      ExecAll(SetArg(n), m, table) == Machine(2, v, m.ram[2 := v])
  {
    assert SetArg(n) == FrameBase() + ArgBelow(IntToString(n));
    FrameArgEffect(IntToString(n), n, m, table);
  }

  /** "@SP D=M @LCL M=D". */
  lemma SetLclEffect(m: Machine, table: Symbols)
    requires Registers(table)
    ensures ExecAll(SetLcl(), m, table) == Machine(1, SP(m.ram), m.ram[1 := SP(m.ram)])
  {
    var m1 := m.(a := 0);
    var m2 := m1.(d := SP(m.ram));
    var m3 := m2.(a := 1);
    Trace4(SetLcl(), m, m1, m2, m3, m3.(ram := m.ram[1 := SP(m.ram)]), table);
  }

  /** The part of `call f n` before its jump. */
  function CallHead(f: string, n: int, ret: string): Code {
    CallSave(f, n, ret) + Reposition(f, n)
  }

  /** "//call f n" and the five pushes. */
  function CallSave(f: string, n: int, ret: string): Code {
    [Comment("call " + f + " " + IntToString(n))] + SaveFrame(ret)
  }

  /** ARG := SP - 5 - n, LCL := SP, "//goto f @f". */
  function Reposition(f: string, n: int): Code {
    SetArg(n) + SetLcl() + [Comment("goto " + f), At(f)]
  }

  lemma PlainSetters(n: int)
    ensures Plain(SetArg(n)) && Plain(SetLcl())
  {
  }

  lemma CallShape(f: string, n: int, ret: string)
    ensures Call(f, n, ret) == CallHead(f, n, ret) + ([Compute(ToNone, Zero, JMP)] + Label(ret))
    ensures Plain(CallHead(f, n, ret))
  {
    CallSplit(f, n, ret);
    PlainCallHead(f, n, ret);
  }

  lemma CallSplit(f: string, n: int, ret: string)
    ensures Call(f, n, ret) == CallHead(f, n, ret) + ([Compute(ToNone, Zero, JMP)] + Label(ret))
  {
    var g := [Comment("goto " + f), At(f)];
    var j := [Compute(ToNone, Zero, JMP)];
    assert Goto(f) == g + j;
    Regroup([Comment("call " + f + " " + IntToString(n))], SaveFrame(ret), SetArg(n), SetLcl(), g, j, Label(ret));
  }

  lemma Regroup(a: Code, b: Code, s: Code, l: Code, g: Code, j: Code, r: Code)
    ensures a + b + s + l + (g + j) + r == (a + b) + (s + l + g) + (j + r)
  {
  }

  lemma PlainCallHead(f: string, n: int, ret: string)
    ensures Plain(CallHead(f, n, ret))
  {
    var h := [Comment("call " + f + " " + IntToString(n))];
    var g := [Comment("goto " + f), At(f)];
    PlainSaveFrame(ret);
    PlainSetters(n);
    PlainAppend(h, SaveFrame(ret));
    PlainAppend(SetArg(n), SetLcl());
    assert Plain(g);
    PlainAppend(SetArg(n) + SetLcl(), g);
    PlainAppend(CallSave(f, n, ret), Reposition(f, n));
  }


  /** The RAM `call` leaves: the saved frame, ARG at the first argument and
      LCL just above the frame. */
  function CalledRam(ram: Ram, sp: Word, n: nat, retAddr: Word): Ram
    requires n <= sp && sp + 5 < 0x1_0000
  {
    var s := sp + 5;
    SavedFrame(ram, sp, retAddr)[2 := s - 5 - n][1 := s]
  }

  lemma CallSaveEffect(f: string, n: int, ret: string, m: Machine, table: Symbols)
    requires Registers(table) && 5 <= SP(m.ram) && SP(m.ram) + 5 < 0x1_0000
    ensures ExecAll(CallSave(f, n, ret), m, table).ram == SavedFrame(m.ram, SP(m.ram), table(ret))
  {
    var h := [Comment("call " + f + " " + IntToString(n))];
    CommentEffect("call " + f + " " + IntToString(n), m, table);
    SaveFrameEffect(ret, m, table);
    ExecAllAppend(h, SaveFrame(ret), m, table);
  }

  lemma RepositionEffect(f: string, n: nat, m: Machine, r: Ram, s: Word, table: Symbols)
    requires Registers(table) && table("5") == 5 && table(IntToString(n)) == n
    requires m.ram == r && SP(r) == s && 5 + n <= s
    ensures ExecAll(Reposition(f, n), m, table) == Machine(table(f), s, r[2 := s - 5 - n][1 := s])
  {
    var g := [Comment("goto " + f), At(f)];
    SetArgEffect(n, m, table);
    var m2 := Machine(2, s - 5 - n, r[2 := s - 5 - n]);
    assert SP(m2.ram) == s;
    SetLclEffect(m2, table);
    var m3 := Machine(1, s, r[2 := s - 5 - n][1 := s]);
    Then(SetArg(n), SetLcl(), m, m2, m3, table);
    Trace2(g, m3, m3, m3.(a := table(f)), table);
    Then(SetArg(n) + SetLcl(), g, m, m3, m3.(a := table(f)), table);
  }

  lemma CalledRamIs(ram: Ram, sp: Word, n: nat, retAddr: Word)
    requires n <= sp && sp + 5 < 0x1_0000
    ensures SavedFrame(ram, sp, retAddr)[2 := sp + 5 - 5 - n][1 := sp + 5] == CalledRam(ram, sp, n, retAddr)
  {
  }

  lemma CallHeadEffect(f: string, n: nat, ret: string, m: Machine, table: Symbols)
    requires Registers(table) && table("5") == 5 && table(IntToString(n)) == n
    requires 5 <= SP(m.ram) && SP(m.ram) + 5 < 0x1_0000 && n <= SP(m.ram)
    ensures var sp := SP(m.ram);
      ExecAll(CallHead(f, n, ret), m, table) == Machine(table(f), sp + 5, CalledRam(m.ram, sp, n, table(ret)))
  {
    var sp := SP(m.ram);
    CallSaveEffect(f, n, ret, m, table);
    var m1 := ExecAll(CallSave(f, n, ret), m, table);
    var r1 := SavedFrame(m.ram, sp, table(ret));
    assert SP(r1) == sp + 5;
    var s := sp + 5;
    RepositionEffect(f, n, m1, r1, s, table);
    var res := Machine(table(f), s, r1[2 := s - 5 - n][1 := s]);
    assert ExecAll(Reposition(f, n), m1, table) == res;
    CalledRamIs(m.ram, sp, n, table(ret));
    assert res == Machine(table(f), sp + 5, CalledRam(m.ram, sp, n, table(ret)));
    Then(CallSave(f, n, ret), Reposition(f, n), m, m1, res, table);
  }

  /** No label of plain code followed by `tail` is at `target` when none of
      the tail's is. */
  lemma NoLabelAt(x: Code, tail: Code, table: Symbols, target: Word)
    requires Plain(x)
    requires forall k :: 0 <= k < |tail| && tail[k].LabelDecl? ==> table(tail[k].name) != target
    ensures LabelAt(x + tail, table, target) == None
  {
    var c := x + tail;
    forall k | 0 <= k < |c|
      ensures c[k].LabelDecl? ==> table(c[k].name) != target
    {
      if k < |x| {
        assert c[k] == x[k];
      } else {
        assert c[k] == tail[k - |x|];
      }
    }
  }

  /** The only label of `call` is its return label, so its jump to `f`
      leaves the fragment unless the two share an address. */
  lemma CallTarget(f: string, n: int, ret: string, table: Symbols)
    requires table(f) != table(ret)
    ensures LabelAt(Call(f, n, ret), table, table(f)) == None
  {
    var tail := [Compute(ToNone, Zero, JMP)] + Label(ret);
    CallShape(f, n, ret);
    CallTailLabels(ret, table, table(f));
    NoLabelAt(CallHead(f, n, ret), tail, table, table(f));
  }

  /** The only label after the jump of `call` is its return label. */
  lemma CallTailLabels(ret: string, table: Symbols, target: Word)
    requires table(ret) != target
    ensures var tail := [Compute(ToNone, Zero, JMP)] + Label(ret);
      forall k :: 0 <= k < |tail| && tail[k].LabelDecl? ==> table(tail[k].name) != target
  {
    var tail := [Compute(ToNone, Zero, JMP)] + Label(ret);
    assert tail == [Compute(ToNone, Zero, JMP), Comment("label " + ret), LabelDecl(ret)];
  }

  /** The jump of `call` once the head has run. */
  lemma CallJump(f: string, n: int, ret: string, m: Machine, table: Symbols, fuel: nat)
    requires table(f) != table(ret) && m.a == table(f)
    ensures Run(Call(f, n, ret), table, |CallHead(f, n, ret)|, m, fuel) == Left(m, table(f))
  {
    var c := Call(f, n, ret);
    CallShape(f, n, ret);
    CallTarget(f, n, ret, table);
    assert c[|CallHead(f, n, ret)|] == Compute(ToNone, Zero, JMP);
    JumpOut(c, |CallHead(f, n, ret)|, m, table, fuel);
  }

  /** An unconditional jump to an address no label of the fragment has. */
  lemma JumpOut(c: Code, pc: nat, m: Machine, table: Symbols, fuel: nat)
    requires pc < |c| && c[pc] == Compute(ToNone, Zero, JMP) && LabelAt(c, table, m.a) == None
    ensures Run(c, table, pc, m, fuel) == Left(m, m.a)
  {
  }

  /** `call f n`: the caller's frame is saved above its stack, ARG points
      at the first of the n arguments, LCL just above the saved frame, and
      control leaves for `f`. */
  lemma CallEffect(f: string, n: int, ret: string, m: Machine, table: Symbols, fuel: nat)
    requires Honours(table) && table(f) != table(ret)
    requires 0 <= n <= SP(m.ram) && 5 <= SP(m.ram) && SP(m.ram) + 5 < 0x1_0000
    ensures var sp := SP(m.ram);
      Run(Call(f, n, ret), table, 0, m, fuel)
        == Left(Machine(table(f), sp + 5, CalledRam(m.ram, sp, n, table(ret))), table(f))
  {
    TableNumeral(n, table);
    CallRun(f, n, ret, m, table, fuel);
  }

  lemma CallRun(f: string, n: nat, ret: string, m: Machine, table: Symbols, fuel: nat)
    requires Registers(table) && table("5") == 5 && table(IntToString(n)) == n && table(f) != table(ret)
    requires n <= SP(m.ram) && 5 <= SP(m.ram) && SP(m.ram) + 5 < 0x1_0000
    ensures var sp := SP(m.ram);
      Run(Call(f, n, ret), table, 0, m, fuel)
        == Left(Machine(table(f), sp + 5, CalledRam(m.ram, sp, n, table(ret))), table(f))
  {
    var sp := SP(m.ram);
    var head := CallHead(f, n, ret);
    var c := Call(f, n, ret);
    CallShape(f, n, ret);
    CallHeadEffect(f, n, ret, m, table);
    var mh := Machine(table(f), sp + 5, CalledRam(m.ram, sp, n, table(ret)));
    assert c[0..|head|] == head;
    assert Straight(head);
    RunStraight(c, table, 0, |head|, m, fuel);
    CallJump(f, n, ret, mh, table, fuel);
  }

  // ---------------------------------------------------------------- return

  lemma KeepFrameEffect(m: Machine, table: Symbols)
    requires Registers(table)
    ensures var fr := Read(m.ram, 1);
      ExecAll(KeepFrame(), m, table) == Machine(13, fr, m.ram[13 := fr])
  {
    var fr := Read(m.ram, 1);
    var m1 := m.(a := 1);
    var m2 := m1.(d := fr);
    var m3 := m2.(a := 13);
    Trace4(KeepFrame(), m, m1, m2, m3, m3.(ram := m.ram[13 := fr]), table);
  }

  /** With FRAME in D and at least 21, the word at FRAME - 5 goes to R14. */
  lemma KeepReturnEffect(m: Machine, table: Symbols)
    requires Registers(table) && table("5") == 5 && 21 <= m.d
    ensures var v := Read(m.ram, m.d - 5);
      ExecAll(KeepReturn(), m, table) == Machine(14, v, m.ram[14 := v])
  {
    var v := Read(m.ram, m.d - 5);
    var m2 := m.(a := m.d - 5);
    var m3 := m2.(d := v);
    var m5 := Machine(14, v, m.ram[14 := v]);
    Trace2([At("5"), Assign(ToA, DMinusA)], m, m.(a := 5), m2, table);
    Trace3([Assign(ToD, OfM), At("R14"), Assign(ToM, OfD)], m2, m3, m3.(a := 14), m5, table);
    Then([At("5"), Assign(ToA, DMinusA)], [Assign(ToD, OfM), At("R14"), Assign(ToM, OfD)], m, m2, m5, table);
  }


  /** The top of the stack goes to where ARG points. */
  lemma PopToArgEffect(m: Machine, table: Symbols)
    requires Registers(table) && SP(m.ram) >= 2
    ensures var sp, arg := SP(m.ram), Read(m.ram, 2);
      var top := Read(m.ram, sp - 1);
      ExecAll(PopToArg(), m, table) == Machine(arg, top, m.ram[0 := sp - 1][arg := top])
  {
    var sp, arg := SP(m.ram), Read(m.ram, 2);
    var top := Read(m.ram, sp - 1);
    PopDEffect(m, table);
    var m1 := Machine(sp - 1, top, m.ram[0 := sp - 1]);
    var m2 := m1.(a := 2);
    var m3 := m2.(a := arg);
    var m4 := m3.(ram := m.ram[0 := sp - 1][arg := top]);
    Trace3([At("ARG"), Assign(ToA, OfM), Assign(ToM, OfD)], m1, m2, m3, m4, table);
    Then(PopD(), [At("ARG"), Assign(ToA, OfM), Assign(ToM, OfD)], m, m1, m4, table);
  }

  lemma ResetSPEffect(m: Machine, table: Symbols)
    requires Registers(table) && Read(m.ram, 2) < 0xFFFF
    ensures var v := Read(m.ram, 2) + 1;
      ExecAll(ResetSP(), m, table) == Machine(0, v, m.ram[0 := v])
  {
    var v: Word := Read(m.ram, 2) + 1;
    var m2 := Machine(2, v, m.ram);
    var m4 := Machine(0, v, m.ram[0 := v]);
    Trace2([At("ARG"), Assign(ToD, MPlus1)], m, m.(a := 2), m2, table);
    Trace2([At("SP"), Assign(ToM, OfD)], m2, m2.(a := 0), m4, table);
    Then([At("ARG"), Assign(ToD, MPlus1)], [At("SP"), Assign(ToM, OfD)], m, m2, m4, table);
  }

  /** FRAME in R13 steps down by one and the word it then points at goes
      to the register. */
  lemma RestoreEffect(reg: string, m: Machine, table: Symbols)
    requires Registers(table) && 15 <= Read(m.ram, 13)
    ensures var q := Read(m.ram, 13) - 1;
      var v := Read(m.ram, q);
      ExecAll(Restore(reg), m, table) == Machine(table(reg), v, m.ram[13 := q][table(reg) := v])
  {
    var q := Read(m.ram, 13) - 1;
    var v := Read(m.ram, q);
    var m1 := m.(a := 13);
    var m2 := Machine(q, m.d, m.ram[13 := q]);
    var m3 := m2.(d := v);
    var m4 := m3.(a := table(reg));
    Trace5(Restore(reg), m, m1, m2, m3, m4, m4.(ram := m.ram[13 := q][table(reg) := v]), table);
  }

  /** The four restores of `return_`, THAT first. */
  function Restores(): Code {
    Restore("THAT") + Restore("THIS") + Restore("ARG") + Restore("LCL")
  }

  /** The RAM after the four restores from FRAME = q in R13: THAT, THIS,
      ARG, LCL get the words just below FRAME and R13 ends at q - 4. */
  function Restored(ram: Ram): Ram
    requires 19 <= Read(ram, 13)
  {
    var q := Read(ram, 13);
    ram[4 := Read(ram, q - 1)][3 := Read(ram, q - 2)][2 := Read(ram, q - 3)][1 := Read(ram, q - 4)][13 := q - 4]
  }

  /** A restore after code that left the RAM `r`. */
  lemma RestoreAfter(pre: Code, reg: string, m: Machine, r: Ram, table: Symbols)
    requires Registers(table) && ExecAll(pre, m, table).ram == r && 15 <= Read(r, 13)
    ensures var q := Read(r, 13) - 1;
      ExecAll(pre + Restore(reg), m, table).ram == r[13 := q][table(reg) := Read(r, q)]
  {
    RestoreEffect(reg, ExecAll(pre, m, table), table);
    ExecAllAppend(pre, Restore(reg), m, table);
  }

  /** The RAM after each restore; the words below FRAME are not among the
      registers written. */
  lemma RestoreSteps(ram: Ram)
    requires 19 <= Read(ram, 13)
    ensures var q := Read(ram, 13);
      var r1 := ram[13 := q - 1][4 := Read(ram, q - 1)];
      var r2 := r1[13 := q - 2][3 := Read(ram, q - 2)];
      var r3 := r2[13 := q - 3][2 := Read(ram, q - 3)];
      Read(r1, 13) == q - 1 && Read(r1, q - 2) == Read(ram, q - 2)
      && Read(r2, 13) == q - 2 && Read(r2, q - 3) == Read(ram, q - 3)
      && Read(r3, 13) == q - 3 && Read(r3, q - 4) == Read(ram, q - 4)
      && r3[13 := q - 4][1 := Read(ram, q - 4)] == Restored(ram)
  {
  }

  lemma RestoresEffect(m: Machine, table: Symbols)
    requires Registers(table) && 19 <= Read(m.ram, 13)
    ensures ExecAll(Restores(), m, table).ram == Restored(m.ram)
  {
    var ram := m.ram;
    var q := Read(ram, 13);
    var r1: Ram := ram[13 := q - 1][4 := Read(ram, q - 1)];
    var r2: Ram := r1[13 := q - 2][3 := Read(ram, q - 2)];
    var r3: Ram := r2[13 := q - 3][2 := Read(ram, q - 3)];
    var p1 := Restore("THAT");
    var p2 := p1 + Restore("THIS");
    var p3 := p2 + Restore("ARG");
    RestoreSteps(ram);
    RestoreEffect("THAT", m, table);
    RestoreAfter(p1, "THIS", m, r1, table);
    RestoreAfter(p2, "ARG", m, r2, table);
    RestoreAfter(p3, "LCL", m, r3, table);
  }

  /** "// return" up to SP := ARG + 1. */
  function ReturnPrologue(): Code {
    [Comment(" return")] + KeepFrame() + KeepReturn() + PopToArg() + ResetSP()
  }

  /** The frame `return_` expects: the arguments start at ARG above the
      registers, the saved frame takes the five words below LCL, above the
      arguments, and the return value is on the stack above the frame. */
  predicate ReturnFrame(ram: Ram) {
    var fr, arg := Read(ram, 1), Read(ram, 2);
    16 <= arg && arg + 5 <= fr && fr < SP(ram)
  }

  /** The RAM after the prologue: FRAME in R13, RET in R14, the return
      value at ARG and SP just above it. */
  function Unwound(ram: Ram): Ram
    requires ReturnFrame(ram)
  {
    var fr, arg, sp := Read(ram, 1), Read(ram, 2), SP(ram);
    ram[13 := fr][14 := Read(ram, fr - 5)][0 := sp - 1][arg := Read(ram, sp - 1)][0 := arg + 1]
  }

  lemma PrologueSteps(ram: Ram)
    requires ReturnFrame(ram)
    ensures var fr, arg, sp := Read(ram, 1), Read(ram, 2), SP(ram);
      var r2 := ram[13 := fr][14 := Read(ram, fr - 5)];
      var r3 := r2[0 := sp - 1][arg := Read(ram, sp - 1)];
      Read(ram[13 := fr], fr - 5) == Read(ram, fr - 5)
      && SP(r2) == sp && Read(r2, 2) == arg && Read(r2, sp - 1) == Read(ram, sp - 1)
      && Read(r3, 2) == arg
      && r3[0 := arg + 1] == Unwound(ram)
  {
  }

  lemma PrologueEffect(m: Machine, table: Symbols)
    requires Registers(table) && table("5") == 5 && ReturnFrame(m.ram)
    ensures ExecAll(ReturnPrologue(), m, table) == Machine(0, Read(m.ram, 2) + 1, Unwound(m.ram))
  {
    var ram := m.ram;
    var fr, arg, sp := Read(ram, 1), Read(ram, 2), SP(ram);
    var ret, top := Read(ram, fr - 5), Read(ram, sp - 1);
    PrologueSteps(ram);
    var c0 := [Comment(" return")];
    CommentEffect(" return", m, table);
    KeepFrameEffect(m, table);
    var m1 := Machine(13, fr, ram[13 := fr]);
    Then(c0, KeepFrame(), m, m, m1, table);
    KeepReturnEffect(m1, table);
    var m2 := Machine(14, ret, ram[13 := fr][14 := ret]);
    Then(c0 + KeepFrame(), KeepReturn(), m, m1, m2, table);
    PopToArgEffect(m2, table);
    var r3 := m2.ram[0 := sp - 1][arg := top];
    var m3 := Machine(arg, top, r3);
    Then(c0 + KeepFrame() + KeepReturn(), PopToArg(), m, m2, m3, table);
    ResetSPEffect(m3, table);
    Then(c0 + KeepFrame() + KeepReturn() + PopToArg(), ResetSP(), m, m3, Machine(0, arg + 1, r3[0 := arg + 1]), table);
  }

  /** `return` up to its jump: the prologue, the restores and A := RET. */
  function ReturnHead(): Code {
    ReturnPrologue() + Restores() + [At("R14"), Assign(ToA, OfM)]
  }

  lemma PlainReturnPieces()
    ensures Plain([Comment(" return")] + KeepFrame() + KeepReturn())
    ensures Plain(PopToArg() + ResetSP())
    ensures Plain(Restore("THAT") + Restore("THIS")) && Plain(Restore("ARG") + Restore("LCL"))
    ensures Plain([At("R14"), Assign(ToA, OfM)])
  {
  }

  lemma ReturnShape()
    ensures Return() == ReturnHead() + [Compute(ToNone, Zero, JMP)]
    ensures Plain(ReturnHead())
  {
    var p1 := [Comment(" return")] + KeepFrame() + KeepReturn();
    var p2 := PopToArg() + ResetSP();
    var q1 := Restore("THAT") + Restore("THIS");
    var q2 := Restore("ARG") + Restore("LCL");
    var tail := [At("R14"), Assign(ToA, OfM)];
    PlainReturnPieces();
    assert ReturnPrologue() == p1 + p2;
    assert Restores() == q1 + q2;
    PlainAppend(p1, p2);
    PlainAppend(q1, q2);
    PlainAppend(ReturnPrologue(), Restores());
    PlainAppend(ReturnPrologue() + Restores(), tail);
    assert JumpToReturn() == tail + [Compute(ToNone, Zero, JMP)];
  }

  /** The RAM `return` leaves behind. */
  function Returned(ram: Ram): Ram
    requires ReturnFrame(ram)
  {
    Restored(Unwound(ram))
  }

  lemma ReturnHeadEffect(m: Machine, table: Symbols)
    requires Registers(table) && table("5") == 5 && ReturnFrame(m.ram)
    ensures var r := ExecAll(ReturnHead(), m, table);
      r.a == Read(m.ram, Read(m.ram, 1) - 5) && r.ram == Returned(m.ram)
  {
    var ram := m.ram;
    var fr := Read(ram, 1);
    PrologueEffect(m, table);
    var m1 := Machine(0, Read(ram, 2) + 1, Unwound(ram));
    RestoresEffect(m1, table);
    var m2 := ExecAll(Restores(), m1, table);
    Then(ReturnPrologue(), Restores(), m, m1, m2, table);
    var tail := [At("R14"), Assign(ToA, OfM)];
    var ret := Read(m2.ram, 14);
    assert ret == Read(ram, fr - 5);
    Trace2(tail, m2, m2.(a := 14), m2.(a := ret), table);
    Then(ReturnPrologue() + Restores(), tail, m, m2, m2.(a := ret), table);
  }

  /** `return` has no label, so its jump through R14 always leaves it. */
  lemma ReturnTarget(table: Symbols, target: Word)
    ensures LabelAt(Return(), table, target) == None
  {
    ReturnShape();
    NoLabelAt(ReturnHead(), [Compute(ToNone, Zero, JMP)], table, target);
  }

  /** `return`: the return value replaces the first argument, SP is left
      just above it, the caller's LCL, ARG, THIS and THAT come back from
      the frame, and control leaves for the return address saved there. */
  lemma ReturnEffect(m: Machine, table: Symbols, fuel: nat)
    requires Honours(table) && ReturnFrame(m.ram)
    ensures var r := Run(Return(), table, 0, m, fuel);
      var ret := Read(m.ram, Read(m.ram, 1) - 5);
      r.Left? && r.target == ret && r.m.a == ret && r.m.ram == Returned(m.ram)
  {
    TableNumeral(0, table);
    ReturnRun(m, table, fuel);
  }

  lemma ReturnRun(m: Machine, table: Symbols, fuel: nat)
    requires Registers(table) && table("5") == 5 && ReturnFrame(m.ram)
    ensures var r := Run(Return(), table, 0, m, fuel);
      var ret := Read(m.ram, Read(m.ram, 1) - 5);
      r.Left? && r.target == ret && r.m.a == ret && r.m.ram == Returned(m.ram)
  {
    var c := Return();
    var head := ReturnHead();
    ReturnShape();
    ReturnHeadEffect(m, table);
    var mh := ExecAll(head, m, table);
    assert c[0..|head|] == head;
    RunStraight(c, table, 0, |head|, m, fuel);
    ReturnTarget(table, mh.a);
    assert c[|head|] == Compute(ToNone, Zero, JMP);
    JumpOut(c, |head|, mh, table, fuel);
  }

  /** What `return` leaves, address by address: SP just above ARG, the
      return value at ARG, the four registers from below FRAME, FRAME - 4
      in R13, RET in R14, and every other word as it was. */
  lemma ReturnedReads(ram: Ram)
    requires ReturnFrame(ram)
    ensures var fr, arg, sp := Read(ram, 1), Read(ram, 2), SP(ram);
      var r := Returned(ram);
      SP(r) == arg + 1 && Read(r, arg) == Read(ram, sp - 1)
      && Read(r, 1) == Read(ram, fr - 4) && Read(r, 2) == Read(ram, fr - 3)
      && Read(r, 3) == Read(ram, fr - 2) && Read(r, 4) == Read(ram, fr - 1)
      && Read(r, 13) == fr - 4 && Read(r, 14) == Read(ram, fr - 5)
      && forall a: Word :: 5 <= a && a != 13 && a != 14 && a != arg ==> Read(r, a) == Read(ram, a)
  {
  }

  // ---------------------------------------------------------- call and return

  /** The words `call` wrote, as `return` reads them. */
  lemma CalledReads(ram: Ram, sp: Word, n: nat, retAddr: Word)
    requires 16 <= sp && n <= sp && sp + 5 < 0x1_0000
    ensures var c := CalledRam(ram, sp, n, retAddr);
      Read(c, 1) == sp + 5 && Read(c, 2) == sp - n && Read(c, sp) == retAddr
      && Read(c, sp + 1) == Read(ram, 1) && Read(c, sp + 2) == Read(ram, 2)
      && Read(c, sp + 3) == Read(ram, 3) && Read(c, sp + 4) == Read(ram, 4)
  {
  }

  /** The callee left LCL, ARG and the saved frame of `called` as they
      were; `sp` is the caller's SP, where the frame starts. */
  predicate KeepsFrame(called: Ram, callee: Ram, sp: Word) {
    Read(callee, 1) == Read(called, 1) && Read(callee, 2) == Read(called, 2)
    && forall a: Word :: sp <= a < sp + 5 ==> Read(callee, a) == Read(called, a)
  }

  /** Whatever the callee does to the rest of memory, returning with its
      result on top of the stack hands the caller back its registers, the
      result in place of the arguments and the return address. */
  lemma ReturnToCaller(ram: Ram, n: nat, retAddr: Word, callee: Ram)
    requires 16 <= SP(ram) - n && SP(ram) + 5 < 0x1_0000
    requires KeepsFrame(CalledRam(ram, SP(ram), n, retAddr), callee, SP(ram))
    requires SP(ram) + 5 < SP(callee)
    ensures ReturnFrame(callee)
    ensures var sp, r := SP(ram), Returned(callee);
      Read(callee, Read(callee, 1) - 5) == retAddr
      && SP(r) == sp - n + 1 && Read(r, sp - n) == Read(callee, SP(callee) - 1)
      && Read(r, 1) == Read(ram, 1) && Read(r, 2) == Read(ram, 2)
      && Read(r, 3) == Read(ram, 3) && Read(r, 4) == Read(ram, 4)
  {
    var sp := SP(ram);
    var called := CalledRam(ram, sp, n, retAddr);
    CalledReads(ram, sp, n, retAddr);
    assert Read(callee, sp) == Read(called, sp);
    assert Read(callee, sp + 1) == Read(called, sp + 1);
    assert Read(callee, sp + 2) == Read(called, sp + 2);
    assert Read(callee, sp + 3) == Read(called, sp + 3);
    assert Read(callee, sp + 4) == Read(called, sp + 4);
    ReturnedReads(callee);
  }

  /** What the caller finds after `return`: SP one above where the first
      of the n arguments was, the callee's result there, and its own LCL,
      ARG, THIS and THAT. */
  predicate Resumed(caller: Ram, n: nat, result: Word, back: Ram)
    requires n <= SP(caller)
  {
    var sp := SP(caller);
    SP(back) == sp - n + 1 && Read(back, sp - n) == result
    && Read(back, 1) == Read(caller, 1) && Read(back, 2) == Read(caller, 2)
    && Read(back, 3) == Read(caller, 3) && Read(back, 4) == Read(caller, 4)
  }

  /** `call f n` followed, after the callee has run, by its `return`: the
      caller resumes at the return label with its registers restored and
      the callee's result in place of the arguments. */
  lemma CallReturn(f: string, n: int, ret: string, m: Machine, callee: Machine, table: Symbols, fuel: nat)
    requires Honours(table) && table(f) != table(ret)
    requires 0 <= n && 16 <= SP(m.ram) - n && SP(m.ram) + 5 < 0x1_0000
    requires KeepsFrame(CalledRam(m.ram, SP(m.ram), n, table(ret)), callee.ram, SP(m.ram))
    requires SP(m.ram) + 5 < SP(callee.ram)
    ensures var sp := SP(m.ram);
      Run(Call(f, n, ret), table, 0, m, fuel)
        == Left(Machine(table(f), sp + 5, CalledRam(m.ram, sp, n, table(ret))), table(f))
    ensures var r := Run(Return(), table, 0, callee, fuel);
      r.Left? && r.target == table(ret) && Resumed(m.ram, n, Read(callee.ram, SP(callee.ram) - 1), r.m.ram)
  {
    CallEffect(f, n, ret, m, table, fuel);
    BackInCaller(n, table(ret), m.ram, callee, table, fuel);
  }

  lemma BackInCaller(n: nat, retAddr: Word, caller: Ram, callee: Machine, table: Symbols, fuel: nat)
    requires Honours(table)
    requires 16 <= SP(caller) - n && SP(caller) + 5 < 0x1_0000
    requires KeepsFrame(CalledRam(caller, SP(caller), n, retAddr), callee.ram, SP(caller))
    requires SP(caller) + 5 < SP(callee.ram)
    ensures var r := Run(Return(), table, 0, callee, fuel);
      r.Left? && r.target == retAddr && Resumed(caller, n, Read(callee.ram, SP(callee.ram) - 1), r.m.ram)
  {
    ReturnToCaller(caller, n, retAddr, callee.ram);
    ReturnEffect(callee, table, fuel);
  }
}
