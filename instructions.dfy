/** `instructions` (src/lib.rs): the translation of one VM command into a
    fragment of Hack assembly, the label counter that keeps the labels of
    the comparisons and of the return addresses apart, and the translation
    of a whole sanitised file.

    A fragment is modelled as `Code` (a sequence of Hack instructions); the
    string the translator returns is `Text(code)`. */
module Instructions {
  import opened Strings
  import opened Hack

  // ---------------------------------------------------------------- pieces

  /** "@SP M=M-1 A=M D=M": pop the top of the stack into D. */
  function PopD(): Code {
    [At("SP"), Assign(ToM, MMinus1), Assign(ToA, OfM), Assign(ToD, OfM)]
  }

  /** "@SP M=M-1 A=M": point A at the element below the top. */
  function PointSecond(): Code {
    [At("SP"), Assign(ToM, MMinus1), Assign(ToA, OfM)]
  }

  /** "@SP M=M+1". */
  function IncSP(): Code {
    [At("SP"), Assign(ToM, MPlus1)]
  }

  /** "@SP A=M M=D @SP M=M+1": push D. */
  function PushD(): Code {
    [At("SP"), Assign(ToA, OfM), Assign(ToM, OfD)] + IncSP()
  }

  // ---------------------------------------------------------------- arithmetic

  function Add(): Code {
    [Comment("add")] + PopD() + PointSecond() + [Assign(ToM, MPlusD)] + IncSP()
  }

  function Sub(): Code {
    [Comment("sub")] + PopD() + PointSecond() + [Assign(ToM, MMinusD)] + IncSP()
  }

  function Neg(): Code {
    [Comment("neg")] + PointSecond() + [Assign(ToM, NegM)] + IncSP()
  }

  function Not(): Code {
    [Comment("not")] + PointSecond() + [Assign(ToM, NotM)] + IncSP()
  }

  function And(): Code {
    [Comment("and")] + PopD() + PointSecond() + [Assign(ToM, DAndM)] + IncSP()
  }

  function Or(): Code {
    [Comment("or")] + PopD() + PointSecond() + [Assign(ToM, DOrM)] + IncSP()
  }

  // ---------------------------------------------------------------- comparisons

  /** `eq`, `gt` and `lt` differ only in their name, their label prefix and
      the jump condition. */
  datatype Comparison = Eq | Gt | Lt

  function Mnemonic(kind: Comparison): string {
    match kind
    case Eq => "eq"
    case Gt => "gt"
    case Lt => "lt"
  }

  function LabelStem(kind: Comparison): string {
    match kind
    case Eq => "EQ"
    case Gt => "GT"
    case Lt => "LT"
  }

  function Condition(kind: Comparison): Jump {
    match kind
    case Eq => JEQ
    case Gt => JGT
    case Lt => JLT
  }

  function TruePrefix(kind: Comparison): string {
    LabelStem(kind) + "_TRUE"
  }

  function EndPrefix(kind: Comparison): string {
    LabelStem(kind) + "_END"
  }

  /** The fragment of `eq`/`gt`/`lt` with its two labels: compute x - y,
      write -1 (true) when the condition holds of it and 0 otherwise. */
  function Compare(kind: Comparison, t: string, e: string): Code {
    [Comment(Mnemonic(kind))] + PopD() + PointSecond()
    + [Assign(ToD, MMinusD), At(t), Compute(ToNone, OfD, Condition(kind)),
       At("SP"), Assign(ToA, OfM), Assign(ToM, Zero), At(e), Compute(ToNone, Zero, JMP),
       LabelDecl(t),
       At("SP"), Assign(ToA, OfM), Assign(ToM, MinusOne),
       LabelDecl(e)]
    + IncSP()
  }

  // ---------------------------------------------------------------- memory access

  /** The segments reached through a base pointer, and that pointer. */
  function BasePointer(segment: string): Option<string> {
    if segment == "local" then Some("LCL")
    else if segment == "argument" then Some("ARG")
    else if segment == "this" then Some("THIS")
    else if segment == "that" then Some("THAT")
    else None
  }

  /** The segments at a fixed address (temp at R5, pointer at R3). */
  function FixedBase(segment: string): Option<string> {
    if segment == "temp" then Some("5")
    else if segment == "pointer" then Some("3")
    else None
  }

  /** The assembler variable of a static slot; the file name is fixed to "test". */
  function StaticSymbol(index: string): string {
    "test." + index
  }

  /** `push`: an unknown segment gives no code at all. */
  function Push(segment: string, index: string): Code {
    if segment == "constant" then
      [Comment("push constant " + index), At(index), Assign(ToD, OfA)] + PushD()
    else if BasePointer(segment).Some? then
      [Comment("push " + segment + " " + index), At(index), Assign(ToD, OfA),
       At(BasePointer(segment).value), Assign(ToA, MPlusD), Assign(ToD, OfM)] + PushD()
    else if FixedBase(segment).Some? then
      [Comment("push " + segment + " " + index), At(index), Assign(ToD, OfA),
       At(FixedBase(segment).value), Assign(ToA, APlusD), Assign(ToD, OfM)] + PushD()
    else if segment == "static" then
      [Comment("push static"), At(StaticSymbol(index)), Assign(ToD, OfM)] + PushD()
    else if segment == "saveCaller" then
      [Comment("push saveCaller " + index), At(index), Assign(ToD, OfM)] + PushD()
    else []
  }

  /** "@SP M=M-1 A=M D=M @R13 A=M M=D": pop into the address kept in R13. */
  function PopToR13(): Code {
    PopD() + [At("R13"), Assign(ToA, OfM), Assign(ToM, OfD)]
  }

  /** `pop`: no comment line; an unknown segment (constant among them)
      gives no code at all. */
  function Pop(segment: string, index: string): Code {
    if BasePointer(segment).Some? then
      [At(index), Assign(ToD, OfA), At(BasePointer(segment).value), Assign(ToD, MPlusD),
       At("R13"), Assign(ToM, OfD)] + PopToR13()
    else if FixedBase(segment).Some? then
      [At(index), Assign(ToD, OfA), At(FixedBase(segment).value), Assign(ToD, APlusD),
       At("R13"), Assign(ToM, OfD)] + PopToR13()
    else if segment == "static" then
      PopD() + [At(StaticSymbol(index)), Assign(ToM, OfD)]
    else []
  }

  // ---------------------------------------------------------------- branching

  function Label(l: string): Code {
    [Comment("label " + l), LabelDecl(l)]
  }

  function Goto(l: string): Code {
    [Comment("goto " + l), At(l), Compute(ToNone, Zero, JMP)]
  }

  /** `if_goto`: its format string breaks the first line without a
      continuation, so an empty line and an "@SP" indented by twelve spaces
      follow the comment. */
  function IfGoto(l: string): Code {
    [Comment("if_goto " + l), Blank, Indented(12, At("SP")),
     Assign(ToAM, MMinus1), Assign(ToD, OfM), At(l), Compute(ToNone, OfD, JNE)]
  }

  // ---------------------------------------------------------------- functions

  function RetPrefix(f: string): string {
    f + "$retAddr"
  }

  /** `call f n` with return label `ret`: save the caller's frame, then
      ARG := SP - 5 - n, LCL := SP, jump to f, and the return label. */
  function Call(f: string, n: int, ret: string): Code {
    [Comment("call " + f + " " + IntToString(n))]
    + SaveFrame(ret) + SetArg(n) + SetLcl()
    + Goto(f)
    + Label(ret)
  }

  /** Push the return address and the caller's LCL, ARG, THIS, THAT. */
  function SaveFrame(ret: string): Code {
    Push("constant", ret)
    + Push("saveCaller", "LCL") + Push("saveCaller", "ARG")
    + Push("saveCaller", "THIS") + Push("saveCaller", "THAT")
  }

  /** "@SP D=M @5 D=D-A @n D=D-A @ARG M=D": ARG := SP - 5 - n. */
  function SetArg(n: int): Code {
    [At("SP"), Assign(ToD, OfM), At("5"), Assign(ToD, DMinusA),
     At(IntToString(n)), Assign(ToD, DMinusA), At("ARG"), Assign(ToM, OfD)]
  }

  /** "@SP D=M @LCL M=D": LCL := SP. */
  function SetLcl(): Code {
    [At("SP"), Assign(ToD, OfM), At("LCL"), Assign(ToM, OfD)]
  }

  /** `k` copies of `push constant 0`. */
  function ZeroPushes(k: nat): (code: Code)
  {
    if k == 0 then [] else ZeroPushes(k - 1) + Push("constant", "0")
  }

  /** `function f n`: the entry label, then one zero per local; the range
      `0..n` is empty when n is not positive. */
  function FunctionCode(f: string, n: int): Code {
    [Comment("function " + f + " " + IntToString(n))] + Label(f)
    + ZeroPushes(if n > 0 then n else 0)
  }

  /** `function`, the loop that appends the zero pushes. */
  method Function(f: string, n: int) returns (code: Code)
    ensures code == FunctionCode(f, n)
  {
    code := [Comment("function " + f + " " + IntToString(n))] + Label(f);
    ghost var header := code;
    var i := 0;
    while i < n
      invariant 0 <= i <= (if n > 0 then n else 0)
      invariant code == header + ZeroPushes(i)
    {
      code := code + Push("constant", "0");
      i := i + 1;
    }
  }

  /** `return_`: FRAME := LCL (in R13), RET := *(FRAME - 5) (in R14),
      *ARG := pop, SP := ARG + 1, then THAT, THIS, ARG, LCL restored from
      *(FRAME - 1) .. *(FRAME - 4), and a jump to RET. */
  function Return(): Code {
    [Comment(" return")] + KeepFrame() + KeepReturn() + PopToArg() + ResetSP()
    + Restore("THAT") + Restore("THIS") + Restore("ARG") + Restore("LCL")
    + JumpToReturn()
  }

  /** "@LCL D=M @R13 M=D": FRAME := LCL. */
  function KeepFrame(): Code {
    [At("LCL"), Assign(ToD, OfM), At("R13"), Assign(ToM, OfD)]
  }

  /** "@5 A=D-A D=M @R14 M=D": RET := *(FRAME - 5). */
  function KeepReturn(): Code {
    [At("5"), Assign(ToA, DMinusA), Assign(ToD, OfM), At("R14"), Assign(ToM, OfD)]
  }

  /** "@SP M=M-1 A=M D=M @ARG A=M M=D": *ARG := pop. */
  function PopToArg(): Code {
    PopD() + [At("ARG"), Assign(ToA, OfM), Assign(ToM, OfD)]
  }

  /** "@ARG D=M+1 @SP M=D": SP := ARG + 1. */
  function ResetSP(): Code {
    [At("ARG"), Assign(ToD, MPlus1), At("SP"), Assign(ToM, OfD)]
  }

  /** "@R14 A=M 0;JMP": goto RET. */
  function JumpToReturn(): Code {
    [At("R14"), Assign(ToA, OfM), Compute(ToNone, Zero, JMP)]
  }

  /** "@R13 AM=M-1 D=M @reg M=D": step FRAME down and restore `reg`. */
  function Restore(reg: string): Code {
    [At("R13"), Assign(ToAM, MMinus1), Assign(ToD, OfM), At(reg), Assign(ToM, OfD)]
  }

  // ---------------------------------------------------------------- parse_line

  datatype ArithOp = AddOp | SubOp | NegOp | NotOp | AndOp | OrOp

  /** The command word of an arithmetic command. */
  function ArithName(op: ArithOp): string {
    match op
    case AddOp => "add"
    case SubOp => "sub"
    case NegOp => "neg"
    case NotOp => "not"
    case AndOp => "and"
    case OrOp => "or"
  }

  /** A VM command as `parse_line` reads it: the command word picks the
      case, the operands are the next words (`i16` for `call` and
      `function`), and any other command word is `Unknown`. */
  datatype Command =
    | Arithmetic(op: ArithOp)
    | Comparing(kind: Comparison)
    | PushCmd(segment: string, index: string)
    | PopCmd(segment: string, index: string)
    | LabelCmd(name: string)
    | GotoCmd(name: string)
    | IfGotoCmd(name: string)
    | CallCmd(name: string, nArgs: int)
    | FunctionCmd(name: string, nLocals: int)
    | ReturnCmd
    | Unknown

  /** The number of operands `parse_line` takes after a command word. */
  function Arity(c: string): nat {
    if c == "push" || c == "pop" || c == "call" || c == "function" then 2
    else if c == "label" || c == "goto" || c == "if-goto" then 1
    else 0
  }

  /** The lines `parse_line` translates without a panic: a command word,
      as many operands as the command takes (more are ignored), and an
      operand of `call` and `function` that parses as an `i16`. */
  predicate WellFormed(line: string) {
    WellFormedWords(Tokens(line))
  }

  predicate WellFormedWords(ws: seq<string>) {
    ws != [] && |ws| > Arity(ws[0])
    && ((ws[0] == "call" || ws[0] == "function") ==> ParseI16(ws[2]).Some?)
  }

  /** The command of a well-formed line. */
  function Parse(line: string): Command
    requires WellFormed(line)
  {
    ParseWords(Tokens(line))
  }

  /** The command its words spell. */
  function ParseWords(ws: seq<string>): Command
    requires WellFormedWords(ws)
  {
    var c := ws[0];
    if c == "add" then Arithmetic(AddOp)
    else if c == "sub" then Arithmetic(SubOp)
    else if c == "push" then PushCmd(ws[1], ws[2])
    else if c == "pop" then PopCmd(ws[1], ws[2])
    else if c == "neg" then Arithmetic(NegOp)
    else if c == "not" then Arithmetic(NotOp)
    else if c == "and" then Arithmetic(AndOp)
    else if c == "or" then Arithmetic(OrOp)
    else if c == "eq" then Comparing(Eq)
    else if c == "gt" then Comparing(Gt)
    else if c == "lt" then Comparing(Lt)
    else if c == "label" then LabelCmd(ws[1])
    else if c == "goto" then GotoCmd(ws[1])
    else if c == "if-goto" then IfGotoCmd(ws[1])
    else if c == "call" then CallCmd(ws[1], ParseI16(ws[2]).value)
    else if c == "function" then FunctionCmd(ws[1], ParseI16(ws[2]).value)
    else if c == "return" then ReturnCmd
    else Unknown
  }

  function ArithmeticCode(op: ArithOp): Code {
    match op
    case AddOp => Add()
    case SubOp => Sub()
    case NegOp => Neg()
    case NotOp => Not()
    case AndOp => And()
    case OrOp => Or()
  }

  /** How many labels a command takes from the counter. */
  function LabelsUsed(cmd: Command): (k: nat)
    ensures k <= 2
  {
    match cmd
    case Comparing(_) => 2
    case CallCmd(_, _) => 1
    case _ => 0
  }

  /** The fragment of a command when the counter stands at `n`. */
  function CommandCode(cmd: Command, n: nat): Code {
    match cmd
    case Arithmetic(op) => ArithmeticCode(op)
    case Comparing(kind) =>
      Compare(kind, TruePrefix(kind) + NatToString(n), EndPrefix(kind) + NatToString(n + 1))
    case PushCmd(segment, index) => Push(segment, index)
    case PopCmd(segment, index) => Pop(segment, index)
    case LabelCmd(l) => Label(l)
    case GotoCmd(l) => Goto(l)
    case IfGotoCmd(l) => IfGoto(l)
    case CallCmd(f, k) => Call(f, k, RetPrefix(f) + NatToString(n))
    case FunctionCmd(f, k) => FunctionCode(f, k)
    case ReturnCmd => Return()
    case Unknown => []
  }

  // ---------------------------------------------------------------- parse_file

  /** The commands of a sequence of well-formed lines, in order. */
  function Commands(ls: seq<string>): (cs: seq<Command>)
    requires forall i :: 0 <= i < |ls| ==> WellFormed(ls[i])
    ensures |cs| == |ls| && forall i :: 0 <= i < |ls| ==> cs[i] == Parse(ls[i])
  {
    seq(|ls|, i requires 0 <= i < |ls| => Parse(ls[i]))
  }

  /** The counter after the commands `cs`, starting from `n`. */
  function CounterAfter(cs: seq<Command>, n: nat): (k: nat)
    ensures n <= k
  {
    if cs == [] then n else CounterAfter(cs[..|cs| - 1], n) + LabelsUsed(cs[|cs| - 1])
  }

  /** The fragment texts of a sequence of commands, the counter starting
      at `n`. */
  function FileTexts(cs: seq<Command>, n: nat): (ts: seq<string>)
    ensures |ts| == |cs|
  {
    if cs == [] then []
    else
      var init := cs[..|cs| - 1];
      FileTexts(init, n) + [Text(CommandCode(cs[|cs| - 1], CounterAfter(init, n)))]
  }

  // ---------------------------------------------------------------- the counter

  /** `unique_label` and its counter `LABEL_COUNT`, made an object.  The
      ghost field `issued` records every label handed out so far. */
  class LabelAllocator {
    var count: nat
    ghost var issued: seq<string>

    /** Label number i is the i-th label handed out, and its trailing
        digits are i. */
    ghost predicate Valid()
      reads this
    {
      |issued| == count
      && forall i :: 0 <= i < |issued| ==> LabelNumber(issued[i]) == i
    }

    constructor ()
      ensures Valid() && count == 0 && issued == []
    {
      count := 0;
      issued := [];
    }

    /** `unique_label`: the prefix followed by the counter, which then goes
        up by one.  Every prefix the translator passes ends in a letter, so
        the number can be read back from the label. */
    method UniqueLabel(prefix: string) returns (l: string)
      requires Valid()
      requires prefix == [] || !IsDigit(prefix[|prefix| - 1])
      modifies this
      ensures Valid()
      ensures l == prefix + NatToString(old(count))
      ensures count == old(count) + 1 && issued == old(issued) + [l]
      ensures l !in old(issued)
    {
      l := prefix + NatToString(count);
      LabelNumberOf(prefix, count);
      IssuedFresh(issued, l);
      issued := issued + [l];
      count := count + 1;
    }

    /** `eq`, `gt`, `lt`: the true label is taken first, then the end label. */
    method CompareCommand(kind: Comparison) returns (code: Code)
      requires Valid()
      modifies this
      ensures Valid()
      ensures code == Compare(kind, TruePrefix(kind) + NatToString(old(count)),
                                    EndPrefix(kind) + NatToString(old(count) + 1))
      ensures count == old(count) + 2 && old(issued) <= issued
    {
      var t := UniqueLabel(TruePrefix(kind));
      var e := UniqueLabel(EndPrefix(kind));
      code := Compare(kind, t, e);
    }

    /** `call`: the return label is `f$retAddr` and the counter. */
    method CallCommand(f: string, n: int) returns (code: Code)
      requires Valid()
      modifies this
      ensures Valid()
      ensures code == Call(f, n, RetPrefix(f) + NatToString(old(count)))
      ensures count == old(count) + 1 && old(issued) <= issued
    {
      var ret := UniqueLabel(RetPrefix(f));
      code := Call(f, n, ret);
    }

    /** The arms of the `match` of `parse_line`: each command's translator,
        the comparisons and `call` taking their labels from the counter. */
    method Translate(cmd: Command) returns (code: Code)
      requires Valid()
      modifies this
      ensures Valid()
      ensures code == CommandCode(cmd, old(count))
      ensures count == old(count) + LabelsUsed(cmd) && old(issued) <= issued
    {
      match cmd
      case Arithmetic(op) => code := ArithmeticCode(op);
      case Comparing(kind) => code := CompareCommand(kind);
      case PushCmd(segment, index) => code := Push(segment, index);
      case PopCmd(segment, index) => code := Pop(segment, index);
      case LabelCmd(l) => code := Label(l);
      case GotoCmd(l) => code := Goto(l);
      case IfGotoCmd(l) => code := IfGoto(l);
      case CallCmd(f, n) => code := CallCommand(f, n);
      case FunctionCmd(f, n) => code := Function(f, n);
      case ReturnCmd => code := Return();
      case Unknown => code := [];
    }

    /** `parse_line`: read the command of the line, then translate it. */
    method ParseLine(line: string) returns (code: Code)
      requires Valid() && WellFormed(line)
      modifies this
      ensures Valid()
      ensures code == CommandCode(Parse(line), old(count))
      ensures count == old(count) + LabelsUsed(Parse(line)) && old(issued) <= issued
    {
      code := Translate(Parse(line));
    }

    /** `parse_file`: each line's text and a "\n", then the last character
        removed. */
    method ParseFile(fileContent: string) returns (parsed: string)
      requires Valid()
      requires forall i :: 0 <= i < |Lines(fileContent)| ==> WellFormed(Lines(fileContent)[i])
      modifies this
      ensures Valid()
      ensures parsed == JoinLines(FileTexts(Commands(Lines(fileContent)), old(count)))
      ensures count == CounterAfter(Commands(Lines(fileContent)), old(count)) && old(issued) <= issued
    {
      parsed := ParseLines(Lines(fileContent));
      if |parsed| > 0 {
        DropLastOfRender(FileTexts(Commands(Lines(fileContent)), old(count)));
        parsed := parsed[..|parsed| - 1];
      }
    }

    /** The loop of `parse_file` over the lines of the file. */
    method ParseLines(lines: seq<string>) returns (parsed: string)
      requires Valid()
      requires forall i :: 0 <= i < |lines| ==> WellFormed(lines[i])
      modifies this
      ensures Valid()
      ensures parsed == Render(FileTexts(Commands(lines), old(count)))
      ensures count == CounterAfter(Commands(lines), old(count)) && old(issued) <= issued
    {
      parsed := "";
      ghost var n0 := count;
      ghost var cs := Commands(lines);
      for i := 0 to |lines|
        invariant Valid() && old(issued) <= issued
        invariant count == CounterAfter(cs[..i], n0)
        invariant parsed == Render(FileTexts(cs[..i], n0))
      {
        ghost var before := parsed;
        var code := ParseLine(lines[i]);
        parsed := parsed + Text(code) + "\n";
        FileTextsStep(cs, i, n0, before, code);
      }
      assert cs[..|lines|] == cs;
    }
  }

  /** A label whose number is the length of a valid record is new to it,
      and recording it keeps the record valid. */
  lemma IssuedFresh(issued: seq<string>, l: string)
    requires forall i :: 0 <= i < |issued| ==> LabelNumber(issued[i]) == i
    requires LabelNumber(l) == |issued|
    ensures l !in issued
    ensures forall i :: 0 <= i < |issued + [l]| ==> LabelNumber((issued + [l])[i]) == i
  {
    forall i | 0 <= i < |issued| ensures issued[i] != l {
      assert LabelNumber(issued[i]) == i;
    }
  }

  /** The step of the loop of `parse_file`. */
  lemma FileTextsStep(cs: seq<Command>, i: nat, n: nat, parsed: string, code: Code)
    requires i < |cs|
    requires parsed == Render(FileTexts(cs[..i], n))
    requires code == CommandCode(cs[i], CounterAfter(cs[..i], n))
    ensures parsed + Text(code) + "\n" == Render(FileTexts(cs[..i + 1], n))
    ensures CounterAfter(cs[..i + 1], n) == CounterAfter(cs[..i], n) + LabelsUsed(cs[i])
  {
    PrefixSnoc(cs, i);
    FileTextsUnfold(cs[..i + 1], n);
    RenderSnoc(FileTexts(cs[..i], n), Text(code));
  }

  lemma FileTextsUnfold(cs: seq<Command>, n: nat)
    requires cs != []
    ensures FileTexts(cs, n) == FileTexts(cs[..|cs| - 1], n) + [Text(CommandCode(cs[|cs| - 1], CounterAfter(cs[..|cs| - 1], n)))]
    ensures CounterAfter(cs, n) == CounterAfter(cs[..|cs| - 1], n) + LabelsUsed(cs[|cs| - 1])
  {
  }
}
