/** What the translation of `instructions` (src/lib.rs) promises beyond
    producing each fragment: the counter never hands out a label twice,
    `parse_line` reads back the command a VM line spells, an unknown command
    or segment gives no code, and translating a file piece by piece is
    translating it whole. */
module InstructionLaws {
  import opened Strings
  import opened Hack
  import opened Instructions

  // ---------------------------------------------------------------- labels

  /** The record of a valid allocator holds no label twice. */
  lemma {:induction false} IssuedDistinct(issued: seq<string>)
    requires forall i :: 0 <= i < |issued| ==> LabelNumber(issued[i]) == i
    ensures forall i, j :: 0 <= i < j < |issued| ==> issued[i] != issued[j]
  {
    forall i, j | 0 <= i < j < |issued| ensures issued[i] != issued[j] {
      assert LabelNumber(issued[i]) == i && LabelNumber(issued[j]) == j;
    }
  }

  /** Two labels taken at different counter values differ, whatever their
      prefixes (every prefix the translator uses ends in a letter). */
  lemma LabelsDiffer(p: string, q: string, i: nat, j: nat)
    requires p == [] || !IsDigit(p[|p| - 1])
    requires q == [] || !IsDigit(q[|q| - 1])
    requires i != j
    ensures p + NatToString(i) != q + NatToString(j)
  {
    LabelNumberOf(p, i);
    LabelNumberOf(q, j);
  }

  /** The two labels of a comparison are distinct; the true label carries
      the counter and the end label the counter plus one. */
  lemma CompareLabels(kind: Comparison, n: nat)
    ensures var t, e := TruePrefix(kind) + NatToString(n), EndPrefix(kind) + NatToString(n + 1);
      t != e && LabelNumber(t) == n && LabelNumber(e) == n + 1
  {
    var tp, ep := TruePrefix(kind), EndPrefix(kind);
    assert tp[|tp| - 1] == 'E' && ep[|ep| - 1] == 'D';
    LabelNumberOf(tp, n);
    LabelNumberOf(ep, n + 1);
  }

  /** A return label of `call` and a comparison label never coincide when
      they were taken at different counter values. */
  lemma ReturnLabelFresh(f: string, kind: Comparison, i: nat, j: nat)
    requires i != j
    ensures RetPrefix(f) + NatToString(i) != TruePrefix(kind) + NatToString(j)
    ensures RetPrefix(f) + NatToString(i) != EndPrefix(kind) + NatToString(j)
  {
    var rp, tp, ep := RetPrefix(f), TruePrefix(kind), EndPrefix(kind);
    assert rp[|rp| - 1] == 'r' && tp[|tp| - 1] == 'E' && ep[|ep| - 1] == 'D';
    LabelsDiffer(rp, tp, i, j);
    LabelsDiffer(rp, ep, i, j);
  }

  // ---------------------------------------------------------------- empty fragments

  predicate PushSegment(segment: string) {
    segment in {"constant", "local", "argument", "this", "that", "temp", "pointer", "static", "saveCaller"}
  }

  predicate PopSegment(segment: string) {
    segment in {"local", "argument", "this", "that", "temp", "pointer", "static"}
  }

  /** `push` gives code exactly for the segments it knows, and that code
      always ends by raising the stack pointer. */
  lemma PushEmptyIff(segment: string, index: string)
    ensures Push(segment, index) == [] <==> !PushSegment(segment)
    ensures Push(segment, index) != [] ==>
      var c := Push(segment, index);
      |c| >= 2 && c[|c| - 2..] == IncSP()
  {
  }

  /** `pop` gives code exactly for the segments it knows; `pop constant`
      gives none. */
  lemma PopEmptyIff(segment: string, index: string)
    ensures Pop(segment, index) == [] <==> !PopSegment(segment)
  {
  }

  /** A command gives no code exactly when its word is unknown or it names
      a segment its `push` or `pop` does not know. */
  lemma CommandCodeEmptyIff(cmd: Command, n: nat)
    ensures CommandCode(cmd, n) == [] <==>
      cmd.Unknown? || (cmd.PushCmd? && !PushSegment(cmd.segment))
      || (cmd.PopCmd? && !PopSegment(cmd.segment))
  {
    match cmd
    case PushCmd(s, i) => PushEmptyIff(s, i);
    case PopCmd(s, i) => PopEmptyIff(s, i);
    case FunctionCmd(f, k) =>
      assert FunctionCode(f, k)[0] == Comment("function " + f + " " + IntToString(k));
    case _ =>
  }

  // ---------------------------------------------------------------- parse_line

  predicate IsWord(w: string) {
    w != [] && NoWhitespace(w)
  }

  /** The commands a VM line can spell: operands are single words and the
      counts of `call` and `function` fit in an `i16`. */
  predicate Spellable(cmd: Command) {
    match cmd
    case PushCmd(s, i) => IsWord(s) && IsWord(i)
    case PopCmd(s, i) => IsWord(s) && IsWord(i)
    case LabelCmd(l) => IsWord(l)
    case GotoCmd(l) => IsWord(l)
    case IfGotoCmd(l) => IsWord(l)
    case CallCmd(f, k) => IsWord(f) && I16Min <= k <= I16Max
    case FunctionCmd(f, k) => IsWord(f) && I16Min <= k <= I16Max
    case Unknown => false
    case _ => true
  }

  /** The words of the VM line of a command. */
  function Words(cmd: Command): seq<string>
    requires Spellable(cmd)
  {
    match cmd
    case Arithmetic(op) => [ArithName(op)]
    case Comparing(kind) => [Mnemonic(kind)]
    case PushCmd(s, i) => ["push", s, i]
    case PopCmd(s, i) => ["pop", s, i]
    case LabelCmd(l) => ["label", l]
    case GotoCmd(l) => ["goto", l]
    case IfGotoCmd(l) => ["if-goto", l]
    case CallCmd(f, k) => ["call", f, IntToString(k)]
    case FunctionCmd(f, k) => ["function", f, IntToString(k)]
    case ReturnCmd => ["return"]
  }

  /** The VM line of a command, its words one space apart. */
  function Spell(cmd: Command): string
    requires Spellable(cmd)
  {
    Unwords(Words(cmd))
  }

  /** `parse_line` reads back the command a line spells, without a panic. */
  lemma ParseSpell(cmd: Command)
    requires Spellable(cmd)
    ensures WellFormed(Spell(cmd)) && Parse(Spell(cmd)) == cmd
  {
    WordsAreWords(cmd);
    TokensOfUnwords(Words(cmd));
    ParseWordsOfWords(cmd);
  }

  /** Every word of a command's line is a nonempty run of non-blanks. */
  lemma WordsAreWords(cmd: Command)
    requires Spellable(cmd)
    ensures forall i :: 0 <= i < |Words(cmd)| ==> Words(cmd)[i] != [] && NoWhitespace(Words(cmd)[i])
  {
    match cmd
    case Arithmetic(op) => LowerIsWord(ArithName(op));
    case Comparing(kind) => LowerIsWord(Mnemonic(kind));
    case PushCmd(s, i) => LowerIsWord("push");
    case PopCmd(s, i) => LowerIsWord("pop");
    case LabelCmd(l) => LowerIsWord("label");
    case GotoCmd(l) => LowerIsWord("goto");
    case IfGotoCmd(l) => LowerIsWord("if-goto");
    case CallCmd(f, k) => LowerIsWord("call"); IntToStringIsWord(k);
    case FunctionCmd(f, k) => LowerIsWord("function"); IntToStringIsWord(k);
    case ReturnCmd => LowerIsWord("return");
  }

  /** A word of lower-case letters and hyphens has no blank in it. */
  lemma LowerIsWord(w: string)
    requires forall i :: 0 <= i < |w| ==> 'a' <= w[i] <= 'z' || w[i] == '-'
    ensures NoWhitespace(w)
  {
  }

  /** The dispatch of `parse_line` on the words of a command. */
  lemma ParseWordsOfWords(cmd: Command)
    requires Spellable(cmd)
    ensures WellFormedWords(Words(cmd)) && ParseWords(Words(cmd)) == cmd
  {
    match cmd
    case Arithmetic(op) => ParseArithmeticWords(op);
    case Comparing(kind) => ParseCompareWords(kind);
    case PushCmd(s, i) => ParseAccessWords(s, i);
    case PopCmd(s, i) => ParseAccessWords(s, i);
    case LabelCmd(l) => ParseBranchWords(l);
    case GotoCmd(l) => ParseBranchWords(l);
    case IfGotoCmd(l) => ParseBranchWords(l);
    case CallCmd(f, k) => ParseFunctionWords(f, k);
    case FunctionCmd(f, k) => ParseFunctionWords(f, k);
    case ReturnCmd =>
  }

  lemma ParseArithmeticWords(op: ArithOp)
    ensures WellFormedWords([ArithName(op)]) && ParseWords([ArithName(op)]) == Arithmetic(op)
  {
  }

  lemma ParseCompareWords(kind: Comparison)
    ensures WellFormedWords([Mnemonic(kind)]) && ParseWords([Mnemonic(kind)]) == Comparing(kind)
  {
  }

  lemma ParseAccessWords(s: string, i: string)
    ensures WellFormedWords(["push", s, i]) && ParseWords(["push", s, i]) == PushCmd(s, i)
    ensures WellFormedWords(["pop", s, i]) && ParseWords(["pop", s, i]) == PopCmd(s, i)
  {
  }

  lemma ParseBranchWords(l: string)
    ensures WellFormedWords(["label", l]) && ParseWords(["label", l]) == LabelCmd(l)
    ensures WellFormedWords(["goto", l]) && ParseWords(["goto", l]) == GotoCmd(l)
    ensures WellFormedWords(["if-goto", l]) && ParseWords(["if-goto", l]) == IfGotoCmd(l)
  {
  }

  lemma ParseFunctionWords(f: string, k: int)
    requires I16Min <= k <= I16Max
    ensures var ws := ["call", f, IntToString(k)];
      WellFormedWords(ws) && ParseWords(ws) == CallCmd(f, k)
    ensures var ws := ["function", f, IntToString(k)];
      WellFormedWords(ws) && ParseWords(ws) == FunctionCmd(f, k)
  {
    ParseI16OfIntToString(k);
  }

  // ---------------------------------------------------------------- parse_file

  /** The commands of two pieces of a file are those of the whole. */
  lemma CommandsAppend(a: seq<string>, b: seq<string>)
    requires forall i :: 0 <= i < |a| ==> WellFormed(a[i])
    requires forall i :: 0 <= i < |b| ==> WellFormed(b[i])
    ensures forall i :: 0 <= i < |a + b| ==> WellFormed((a + b)[i])
    ensures Commands(a + b) == Commands(a) + Commands(b)
  {
    forall i | 0 <= i < |a + b| ensures WellFormed((a + b)[i]) {
      if i < |a| { assert (a + b)[i] == a[i]; } else { assert (a + b)[i] == b[i - |a|]; }
    }
  }

  /** The labels the commands of two pieces use add up. */
  lemma {:induction false} CounterAfterAppend(a: seq<Command>, b: seq<Command>, n: nat)
    ensures CounterAfter(a + b, n) == CounterAfter(b, CounterAfter(a, n))
    decreases |b|
  {
    if b == [] {
      assert a + b == a;
    } else {
      var c := a + b;
      var b' := b[..|b| - 1];
      assert c[..|c| - 1] == a + b';
      assert c[|c| - 1] == b[|b| - 1];
      CounterAfterAppend(a, b', n);
    }
  }

  /** Translating two pieces of a file one after the other, the counter
      carried from the first to the second, is translating the whole. */
  lemma {:induction false} FileTextsAppend(a: seq<Command>, b: seq<Command>, n: nat)
    ensures FileTexts(a + b, n) == FileTexts(a, n) + FileTexts(b, CounterAfter(a, n))
    decreases |b|
  {
    if b == [] {
      assert a + b == a;
    } else {
      var c := a + b;
      var b' := b[..|b| - 1];
      assert c[..|c| - 1] == a + b';
      assert c[|c| - 1] == b[|b| - 1];
      var m := CounterAfter(a, n);
      FileTextsAppend(a, b', n);
      CounterAfterAppend(a, b', n);
      FileTextsUnfold(c, n);
      FileTextsUnfold(b, m);
      var last := Text(CommandCode(b[|b| - 1], CounterAfter(b', m)));
      calc {
        FileTexts(c, n);
        FileTexts(a + b', n) + [last];
        FileTexts(a, n) + FileTexts(b', m) + [last];
        { AppendAssoc(FileTexts(a, n), FileTexts(b', m), [last]); }
        FileTexts(a, n) + (FileTexts(b', m) + [last]);
        FileTexts(a, n) + FileTexts(b, m);
      }
    }
  }

  lemma AppendAssoc<T>(x: seq<T>, y: seq<T>, z: seq<T>)
    ensures x + y + z == x + (y + z)
  {
  }
}
