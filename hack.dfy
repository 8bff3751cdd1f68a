/** The target language: Hack assembly as the translator writes it.
    An emitted fragment is a sequence of instructions (`Code`); its text is
    every instruction's mnemonic line followed by "\n".  The second half of
    the module gives the instructions their meaning on the Hack computer
    (16-bit A and D registers, a RAM of 16-bit words), so that what a
    fragment does can be stated and proved, and not only what it prints. */
module Hack {
  import opened Strings

  // ---------------------------------------------------------------- syntax

  /** The destination part of a C-instruction ("M=", "D=", "A=", "AM=" or none). */
  datatype Dest = ToNone | ToM | ToD | ToA | ToAM

  /** The computations the translator uses, named after the mnemonic. */
  datatype Comp =
    | Zero | MinusOne | OfA | OfD | OfM
    | MPlus1 | MMinus1 | NegM | NotM
    | MPlusD | MMinusD | DAndM | DOrM | APlusD | DMinusA

  datatype Jump = NoJump | JEQ | JGT | JLT | JNE | JMP

  datatype Instr =
    | At(symbol: string)                            // "@symbol"
    | Compute(dest: Dest, comp: Comp, jump: Jump)   // "dest=comp;jump"
    | LabelDecl(name: string)                       // "(name)"
    | Comment(text: string)                         // "//text"
    | Blank                                         // an empty line
    | Indented(spaces: nat, instr: Instr)           // leading spaces, then instr

  type Code = seq<Instr>

  /** A C-instruction without a jump. */
  function Assign(d: Dest, c: Comp): Instr {
    Compute(d, c, NoJump)
  }

  function DestText(d: Dest): string {
    match d
    case ToNone => ""
    case ToM => "M="
    case ToD => "D="
    case ToA => "A="
    case ToAM => "AM="
  }

  function CompText(c: Comp): string {
    match c
    case Zero => "0"
    case MinusOne => "-1"
    case OfA => "A"
    case OfD => "D"
    case OfM => "M"
    case MPlus1 => "M+1"
    case MMinus1 => "M-1"
    case NegM => "-M"
    case NotM => "!M"
    case MPlusD => "M+D"
    case MMinusD => "M-D"
    case DAndM => "D&M"
    case DOrM => "D|M"
    case APlusD => "A+D"
    case DMinusA => "D-A"
  }

  function JumpText(j: Jump): string {
    match j
    case NoJump => ""
    case JEQ => ";JEQ"
    case JGT => ";JGT"
    case JLT => ";JLT"
    case JNE => ";JNE"
    case JMP => ";JMP"
  }

  function Spaces(n: nat): (s: string)
    ensures |s| == n && forall i :: 0 <= i < n ==> s[i] == ' '
  {
    if n == 0 then "" else Spaces(n - 1) + " "
  }

  /** The line of assembly text of one instruction. */
  function Show(i: Instr): string {
    match i
    case At(sym) => "@" + sym
    case Compute(d, c, j) => DestText(d) + CompText(c) + JumpText(j)
    case LabelDecl(name) => "(" + name + ")"
    case Comment(t) => "//" + t
    case Blank => ""
    case Indented(n, j) => Spaces(n) + Show(j)
  }

  function Listing(code: Code): (ls: seq<string>)
    ensures |ls| == |code|
    ensures forall k :: 0 <= k < |code| ==> ls[k] == Show(code[k])
  {
    if code == [] then [] else [Show(code[0])] + Listing(code[1..])
  }

  /** The text of a fragment: one line per instruction, each ending in "\n". */
  function Text(code: Code): string {
    Render(Listing(code))
  }

  lemma ListingAppend(a: Code, b: Code)
    ensures Listing(a + b) == Listing(a) + Listing(b)
  {
  }

  lemma TextAppend(a: Code, b: Code)
    ensures Text(a + b) == Text(a) + Text(b)
  {
    ListingAppend(a, b);
    RenderAppend(Listing(a), Listing(b));
  }

  lemma TextCons(i: Instr, rest: Code)
    ensures Text([i] + rest) == Show(i) + "\n" + Text(rest)
  {
    TextAppend([i], rest);
    assert Listing([i]) == [Show(i)];
    RenderSingle(Show(i));
  }

  // ---------------------------------------------------------------- machine

  /** A 16-bit word, as the unsigned number its bits spell. */
  type Word = w: int | 0 <= w < 0x1_0000

  /** The word of a sum or difference of two words: its value modulo 2^16,
      as the ALU wraps. */
  function Wrap(i: int): Word
    requires -0x1_0000 < i < 0x2_0000
  {
    if i < 0 then i + 0x1_0000 else if i < 0x1_0000 then i else i - 0x1_0000
  }

  /** Wrapping is reduction modulo 2^16. */
  lemma WrapIsModulo(i: int)
    requires -0x1_0000 < i < 0x2_0000
    ensures Wrap(i) == i % 0x1_0000
  {
  }

  /** Bitwise and/or of two words, on their 16 bits. */
  function BitAnd(x: Word, y: Word): Word {
    ((x as bv16) & (y as bv16)) as int
  }

  function BitOr(x: Word, y: Word): Word {
    ((x as bv16) | (y as bv16)) as int
  }

  /** The RAM, one word per address; an address never written reads as 0. */
  type Ram = map<Word, Word>

  datatype Machine = Machine(a: Word, d: Word, ram: Ram)

  /** A symbol table: the word each symbol stands for.  The machine below
      takes the assembler's resolution of every A-instruction operand
      (`Resolve` with the addresses the assembler gives the program's labels
      and variables, such as the static variables `test.i`). */
  type Symbols = string -> Word

  function Read(ram: Ram, x: Word): Word {
    if x in ram then ram[x] else 0
  }

  /** The predefined symbols of the Hack assembler. */
  function Predefined(sym: string): Option<Word> {
    if sym == "SP" then Some(0)
    else if sym == "LCL" then Some(1)
    else if sym == "ARG" then Some(2)
    else if sym == "THIS" then Some(3)
    else if sym == "THAT" then Some(4)
    else if sym == "SCREEN" then Some(16384)
    else if sym == "KBD" then Some(24576)
    else if |sym| >= 2 && sym[0] == 'R' && Canonical(sym[1..]) && DigitsValue(sym[1..]) < 16 then
      Some(DigitsValue(sym[1..]))
    else None
  }

  /** The value an A-instruction loads: a decimal constant (kept to 16 bits),
      a predefined register, or the address the assembler gives one of the
      program's own symbols. */
  function Resolve(sym: string, user: Symbols): Word {
    if sym != [] && AllDigits(sym) then DigitsValue(sym) % 0x1_0000
    else match Predefined(sym)
      case Some(w) => w
      case None => user(sym)
  }

  /** What the translated code needs of the assembler: the registers it
      names get their fixed addresses and a decimal constant loads its
      value.  `addr` gives the value of the operand of every A-instruction. */
  predicate Honours(addr: Symbols) {
    Registers(addr) && forall n: nat :: n < 0x1_0000 ==> addr(NatToString(n)) == n
  }

  /** The registers the translated code names. */
  predicate Registers(addr: Symbols) {
    addr("SP") == 0 && addr("LCL") == 1 && addr("ARG") == 2
    && addr("THIS") == 3 && addr("THAT") == 4
    && addr("R13") == 13 && addr("R14") == 14
  }

  /** The Hack assembler honours the registers and constants, whatever
      addresses it gives the program's own symbols. */
  lemma ResolveHonours(user: Symbols)
    ensures Honours(sym => Resolve(sym, user))
  {
    NamedRegister("SP", 0, user);
    NamedRegister("LCL", 1, user);
    NamedRegister("ARG", 2, user);
    NamedRegister("THIS", 3, user);
    NamedRegister("THAT", 4, user);
    NumberedRegister("13", user);
    assert "R" + "13" == "R13";
    NumberedRegister("14", user);
    assert "R" + "14" == "R14";
    forall n: nat | n < 0x1_0000 ensures Resolve(NatToString(n), user) == n {
      ResolveNumeral(n, user);
    }
  }

  /** A symbol that is neither a number nor predefined is the program's own. */
  lemma ResolveOwn(sym: string, user: Symbols)
    requires sym != [] && !IsDigit(sym[0]) && Predefined(sym).None?
    ensures Resolve(sym, user) == user(sym)
  {
  }

  lemma NamedRegister(sym: string, w: Word, table: Symbols)
    requires sym != [] && !IsDigit(sym[0]) && Predefined(sym) == Some(w)
    ensures Resolve(sym, table) == w
  {
  }

  lemma NumberedRegister(n: string, table: Symbols)
    requires n == "13" || n == "14"
    ensures Resolve("R" + n, table) == (if n == "13" then 13 else 14)
  {
    var sym := "R" + n;
    assert sym[1..] == n;
    assert n[..1] == "1" && "1"[..0] == [];
    assert DigitsValue("1") == 1;
    assert DigitsValue(n) == (if n == "13" then 13 else 14);
    assert Canonical(n);
    assert !IsDigit(sym[0]) && |sym| == 3;
    assert sym[0] == 'R';
    assert sym != "SP" && sym != "SCREEN" && sym != "KBD" && sym != "THIS" && sym != "THAT";
    assert sym != "LCL" by { assert "LCL"[0] == 'L'; }
    assert sym != "ARG" by { assert "ARG"[0] == 'A'; }
    assert Predefined(sym) == Some(DigitsValue(n));
  }

  /** A decimal constant that fits in 16 bits loads its own value. */
  lemma ResolveNumeral(n: nat, table: Symbols)
    requires n < 0x1_0000
    ensures Resolve(NatToString(n), table) == n
  {
    DigitsValueOfNatToString(n);
  }

  /** The value the ALU computes. */
  function Value(c: Comp, m: Machine): Word {
    var x := Read(m.ram, m.a);
    match c
    case Zero => 0
    case MinusOne => 0xFFFF
    case OfA => m.a
    case OfD => m.d
    case OfM => x
    case MPlus1 => Wrap(x + 1)
    case MMinus1 => Wrap(x - 1)
    case NegM => Wrap(0 - x)
    case NotM => 0xFFFF - x
    case MPlusD => Wrap(x + m.d)
    case MMinusD => Wrap(x - m.d)
    case DAndM => BitAnd(x, m.d)
    case DOrM => BitOr(x, m.d)
    case APlusD => Wrap(m.a + m.d)
    case DMinusA => Wrap(m.d - m.a)
  }

  /** Two's complement sign of a word. */
  predicate Negative(w: Word) {
    w >= 0x8000
  }

  predicate Taken(j: Jump, v: Word) {
    match j
    case NoJump => false
    case JEQ => v == 0
    case JGT => v != 0 && !Negative(v)
    case JLT => Negative(v)
    case JNE => v != 0
    case JMP => true
  }

  /** The effect of one instruction on the registers and the RAM; `table`
      gives the value each A-instruction operand resolves to. */
  function Exec(i: Instr, m: Machine, table: Symbols): Machine {
    match i
    case At(sym) => m.(a := table(sym))
    case Compute(dest, comp, _) =>
      var v := Value(comp, m);
      Machine(if dest == ToA || dest == ToAM then v else m.a,
              if dest == ToD then v else m.d,
              if dest == ToM || dest == ToAM then m.ram[m.a := v] else m.ram)
    case Indented(_, j) => Exec(j, m, table)
    case _ => m
  }

  /** Whether the instruction jumps (to the address in A) from state `m`. */
  predicate Jumps(i: Instr, m: Machine) {
    match i
    case Compute(_, comp, j) => Taken(j, Value(comp, m))
    case Indented(_, k) => Jumps(k, m)
    case _ => false
  }

  predicate NeverJumps(i: Instr) {
    match i
    case Compute(_, _, j) => j == NoJump
    case Indented(_, k) => NeverJumps(k)
    case _ => true
  }

  predicate Straight(code: Code) {
    forall k :: 0 <= k < |code| ==> NeverJumps(code[k])
  }

  lemma NeverJumpsSound(i: Instr, m: Machine)
    requires NeverJumps(i)
    ensures !Jumps(i, m)
  {
  }

  /** The position of a label of the fragment that the symbol table puts at
      `target`, if there is one. */
  function LabelAt(code: Code, table: Symbols, target: Word): (r: Option<nat>)
    ensures r.Some? ==> r.value < |code| && code[r.value].LabelDecl? && table(code[r.value].name) == target
    ensures r.None? ==> forall k :: 0 <= k < |code| && code[k].LabelDecl? ==> table(code[k].name) != target
  {
    if code == [] then None
    else if code[0].LabelDecl? && table(code[0].name) == target then Some(0)
    else match LabelAt(code[1..], table, target)
      case Some(k) => Some(k + 1)
      case None => None
  }

  /** How running a fragment ends: it falls off its end, it jumps to an
      address outside itself, or it used up its allowance of jumps. */
  datatype Outcome = Done(m: Machine) | Left(m: Machine, target: Word) | OutOfFuel

  /** Runs `code` from position `pc`.  A jump to a label of the fragment
      continues there and costs one unit of `fuel`; a jump elsewhere ends
      the run. */
  function Run(code: Code, table: Symbols, pc: nat, m: Machine, fuel: nat): Outcome
    decreases fuel, |code| - pc
  {
    if pc >= |code| then Done(m)
    else
      var i := code[pc];
      var next := Exec(i, m, table);
      if Jumps(i, m) then
        match LabelAt(code, table, m.a)
        case None => Left(next, m.a)
        case Some(k) => if fuel == 0 then OutOfFuel else Run(code, table, k, next, fuel - 1)
      else Run(code, table, pc + 1, next, fuel)
  }

  /** Straight-line execution. */
  function ExecAll(code: Code, m: Machine, table: Symbols): Machine
  {
    if code == [] then m else ExecAll(code[1..], Exec(code[0], m, table), table)
  }

  lemma {:induction false} ExecAllAppend(a: Code, b: Code, m: Machine, table: Symbols)
    ensures ExecAll(a + b, m, table) == ExecAll(b, ExecAll(a, m, table), table)
    decreases |a|
  {
    if a != [] {
      assert (a + b)[1..] == a[1..] + b;
      ExecAllAppend(a[1..], b, Exec(a[0], m, table), table);
    } else {
      assert a + b == b;
    }
  }

  /** Straight-line code runs to its end without consulting the labels. */
  lemma {:induction false} RunStraight(code: Code, table: Symbols, pc: nat, k: nat, m: Machine, fuel: nat)
    requires pc <= k <= |code|
    requires Straight(code[pc..k])
    ensures Run(code, table, pc, m, fuel) == Run(code, table, k, ExecAll(code[pc..k], m, table), fuel)
    decreases k - pc
  {
    if pc < k {
      assert code[pc..k][0] == code[pc];
      NeverJumpsSound(code[pc], m);
      assert code[pc..k][1..] == code[pc + 1..k];
      RunStraight(code, table, pc + 1, k, Exec(code[pc], m, table), fuel);
    } else {
      assert code[pc..k] == [];
    }
  }

  lemma RunWhole(code: Code, table: Symbols, m: Machine, fuel: nat)
    requires Straight(code)
    ensures Run(code, table, 0, m, fuel) == Done(ExecAll(code, m, table))
  {
    assert code[0..|code|] == code;
    RunStraight(code, table, 0, |code|, m, fuel);
  }
}
