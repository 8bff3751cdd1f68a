/** The text of every fragment, line by line, is the string the functions of
    `instructions` (src/lib.rs) return: each line there ends in "\n", which
    is what `Text(code) == Render(Listing(code))` writes. */
module TextLaws {
  import opened Strings
  import opened Hack
  import opened Instructions
  import opened InstructionLaws

  /** A fragment's listing, line by line. */
  lemma ListingIs(c: Code, ls: seq<string>)
    requires |c| == |ls| && forall k :: 0 <= k < |c| ==> Show(c[k]) == ls[k]
    ensures Listing(c) == ls
  {
  }

  /** The listing of two fragments, one after the other. */
  lemma ListingPieces(a: Code, b: Code, la: seq<string>, lb: seq<string>)
    requires Listing(a) == la && Listing(b) == lb
    ensures Listing(a + b) == la + lb
  {
    ListingAppend(a, b);
  }

  // ---------------------------------------------------------------- stack pieces

  lemma PopDListing()
    ensures Listing(PopD()) == ["@SP", "M=M-1", "A=M", "D=M"]
  {
    var c := PopD();
    assert Show(c[0]) == "@" + "SP";
    assert Show(c[1]) == "M=" + "M-1" + "";
    assert Show(c[2]) == "A=" + "M" + "";
    assert Show(c[3]) == "D=" + "M" + "";
    ListingIs(c, ["@SP", "M=M-1", "A=M", "D=M"]);
  }

  lemma PointSecondListing()
    ensures Listing(PointSecond()) == ["@SP", "M=M-1", "A=M"]
  {
    var c := PointSecond();
    assert Show(c[0]) == "@" + "SP";
    assert Show(c[1]) == "M=" + "M-1" + "";
    assert Show(c[2]) == "A=" + "M" + "";
    ListingIs(c, ["@SP", "M=M-1", "A=M"]);
  }

  lemma IncSPListing()
    ensures Listing(IncSP()) == ["@SP", "M=M+1"]
  {
    var c := IncSP();
    assert Show(c[0]) == "@" + "SP";
    assert Show(c[1]) == "M=" + "M+1" + "";
    ListingIs(c, ["@SP", "M=M+1"]);
  }

  lemma PushDListing()
    ensures Listing(PushD()) == ["@SP", "A=M", "M=D", "@SP", "M=M+1"]
  {
    var c := [At("SP"), Assign(ToA, OfM), Assign(ToM, OfD)];
    assert Show(c[0]) == "@" + "SP";
    assert Show(c[1]) == "A=" + "M" + "";
    assert Show(c[2]) == "M=" + "D" + "";
    ListingIs(c, ["@SP", "A=M", "M=D"]);
    IncSPListing();
    ListingPieces(c, IncSP(), ["@SP", "A=M", "M=D"], ["@SP", "M=M+1"]);
  }

  // ---------------------------------------------------------------- arithmetic

  /** The shape of `add`, `sub`, `and`, `or`. */
  lemma BinaryListing(t: string, first: string, op: Instr, line: string)
    requires "//" + t == first && Show(op) == line
    ensures Listing([Comment(t)] + PopD() + PointSecond() + [op] + IncSP())
         == [first, "@SP", "M=M-1", "A=M", "D=M", "@SP", "M=M-1", "A=M", line, "@SP", "M=M+1"]
  {
    var head := [Comment(t)] + PopD() + PointSecond();
    var lh := [first, "@SP", "M=M-1", "A=M", "D=M", "@SP", "M=M-1", "A=M"];
    OperandsListing(t, first);
    IncSPListing();
    ListingIs([op], [line]);
    ListingPieces(head, [op], lh, [line]);
    ListingPieces(head + [op], IncSP(), lh + [line], ["@SP", "M=M+1"]);
    assert lh + [line] + ["@SP", "M=M+1"]
        == [first, "@SP", "M=M-1", "A=M", "D=M", "@SP", "M=M-1", "A=M", line, "@SP", "M=M+1"];
  }

  /** The shape of `neg`, `not`. */
  lemma UnaryListing(t: string, first: string, op: Instr, line: string)
    requires "//" + t == first && Show(op) == line
    ensures Listing([Comment(t)] + PointSecond() + [op] + IncSP())
         == [first, "@SP", "M=M-1", "A=M", line, "@SP", "M=M+1"]
  {
    var head := [Comment(t)];
    ListingIs(head, [first]);
    PointSecondListing();
    IncSPListing();
    ListingIs([op], [line]);
    ListingPieces(head, PointSecond(), [first], ["@SP", "M=M-1", "A=M"]);
    ListingPieces(head + PointSecond(), [op], [first, "@SP", "M=M-1", "A=M"], [line]);
    ListingPieces(head + PointSecond() + [op], IncSP(), [first, "@SP", "M=M-1", "A=M", line], ["@SP", "M=M+1"]);
  }

  /** `add`, `sub`, `and`, `or` return these lines. */
  lemma BinaryText()
    ensures Text(Add()) == Render(["//add", "@SP", "M=M-1", "A=M", "D=M", "@SP", "M=M-1", "A=M", "M=M+D", "@SP", "M=M+1"])
    ensures Text(Sub()) == Render(["//sub", "@SP", "M=M-1", "A=M", "D=M", "@SP", "M=M-1", "A=M", "M=M-D", "@SP", "M=M+1"])
    ensures Text(And()) == Render(["//and", "@SP", "M=M-1", "A=M", "D=M", "@SP", "M=M-1", "A=M", "M=D&M", "@SP", "M=M+1"])
    ensures Text(Or()) == Render(["//or", "@SP", "M=M-1", "A=M", "D=M", "@SP", "M=M-1", "A=M", "M=D|M", "@SP", "M=M+1"])
  {
    BinaryLines();
    BinaryListing("add", "//add", Assign(ToM, MPlusD), "M=M+D");
    BinaryListing("sub", "//sub", Assign(ToM, MMinusD), "M=M-D");
    BinaryListing("and", "//and", Assign(ToM, DAndM), "M=D&M");
    BinaryListing("or", "//or", Assign(ToM, DOrM), "M=D|M");
  }

  /** The first and the operating line of each binary command. */
  lemma BinaryLines()
    ensures "//" + "add" == "//add" && Show(Assign(ToM, MPlusD)) == "M=M+D"
    ensures "//" + "sub" == "//sub" && Show(Assign(ToM, MMinusD)) == "M=M-D"
    ensures "//" + "and" == "//and" && Show(Assign(ToM, DAndM)) == "M=D&M"
    ensures "//" + "or" == "//or" && Show(Assign(ToM, DOrM)) == "M=D|M"
  {
    assert Show(Assign(ToM, MPlusD)) == "M=" + "M+D" + "";
    assert Show(Assign(ToM, MMinusD)) == "M=" + "M-D" + "";
    assert Show(Assign(ToM, DAndM)) == "M=" + "D&M" + "";
    assert Show(Assign(ToM, DOrM)) == "M=" + "D|M" + "";
  }

  /** `neg`, `not` return these lines. */
  lemma UnaryText()
    ensures Text(Neg()) == Render(["//neg", "@SP", "M=M-1", "A=M", "M=-M", "@SP", "M=M+1"])
    ensures Text(Not()) == Render(["//not", "@SP", "M=M-1", "A=M", "M=!M", "@SP", "M=M+1"])
  {
    assert "M=" + "-M" + "" == "M=-M";
    UnaryListing("neg", "//neg", Assign(ToM, NegM), "M=-M");
    assert "M=" + "!M" + "" == "M=!M";
    UnaryListing("not", "//not", Assign(ToM, NotM), "M=!M");
  }

  // ---------------------------------------------------------------- comparisons

  /** The lines of a comparison after the operand pops: x - y, the
      conditional jump, and false written, then the jump to the end. */
  lemma CompareJumpsListing(t: string, e: string, cond: Instr, condLine: string)
    requires Show(cond) == condLine
    ensures Listing([Assign(ToD, MMinusD), At(t), cond,
                     At("SP"), Assign(ToA, OfM), Assign(ToM, Zero), At(e), Compute(ToNone, Zero, JMP)])
         == ["D=M-D", "@" + t, condLine, "@SP", "A=M", "M=0", "@" + e, "0;JMP"]
  {
    var c := [Assign(ToD, MMinusD), At(t), cond,
              At("SP"), Assign(ToA, OfM), Assign(ToM, Zero), At(e), Compute(ToNone, Zero, JMP)];
    assert Show(c[0]) == "D=" + "M-D" + "";
    assert Show(c[3]) == "@" + "SP";
    assert Show(c[4]) == "A=" + "M" + "";
    assert Show(c[5]) == "M=" + "0" + "";
    assert Show(c[7]) == "" + "0" + ";JMP";
    ListingIs(c, ["D=M-D", "@" + t, condLine, "@SP", "A=M", "M=0", "@" + e, "0;JMP"]);
  }

  /** The true branch: true written, and the end label. */
  lemma CompareTrueListing(t: string, e: string)
    ensures Listing([LabelDecl(t), At("SP"), Assign(ToA, OfM), Assign(ToM, MinusOne), LabelDecl(e)])
         == ["(" + t + ")", "@SP", "A=M", "M=-1", "(" + e + ")"]
  {
    var c := [LabelDecl(t), At("SP"), Assign(ToA, OfM), Assign(ToM, MinusOne), LabelDecl(e)];
    assert Show(c[1]) == "@" + "SP";
    assert Show(c[2]) == "A=" + "M" + "";
    assert Show(c[3]) == "M=" + "-1" + "";
    ListingIs(c, ["(" + t + ")", "@SP", "A=M", "M=-1", "(" + e + ")"]);
  }

  /** The shape of `eq`, `gt`, `lt` with their two labels. */
  lemma CompareListing(kind: Comparison, t: string, e: string, first: string, condLine: string)
    requires "//" + Mnemonic(kind) == first && Show(Compute(ToNone, OfD, Condition(kind))) == condLine
    ensures Listing(Compare(kind, t, e))
         == [first, "@SP", "M=M-1", "A=M", "D=M", "@SP", "M=M-1", "A=M"]
            + ["D=M-D", "@" + t, condLine, "@SP", "A=M", "M=0", "@" + e, "0;JMP"]
            + ["(" + t + ")", "@SP", "A=M", "M=-1", "(" + e + ")"]
            + ["@SP", "M=M+1"]
  {
    var head := [Comment(Mnemonic(kind))] + PopD() + PointSecond();
    var jumps := [Assign(ToD, MMinusD), At(t), Compute(ToNone, OfD, Condition(kind)),
                  At("SP"), Assign(ToA, OfM), Assign(ToM, Zero), At(e), Compute(ToNone, Zero, JMP)];
    var truth := [LabelDecl(t), At("SP"), Assign(ToA, OfM), Assign(ToM, MinusOne), LabelDecl(e)];
    OperandsListing(Mnemonic(kind), first);
    CompareJumpsListing(t, e, Compute(ToNone, OfD, Condition(kind)), condLine);
    CompareTrueListing(t, e);
    IncSPListing();
    ListingPieces(head, jumps, [first, "@SP", "M=M-1", "A=M", "D=M", "@SP", "M=M-1", "A=M"],
      ["D=M-D", "@" + t, condLine, "@SP", "A=M", "M=0", "@" + e, "0;JMP"]);
    ListingPieces(head + jumps, truth, Listing(head + jumps), ["(" + t + ")", "@SP", "A=M", "M=-1", "(" + e + ")"]);
    ListingPieces(head + jumps + truth, IncSP(), Listing(head + jumps + truth), ["@SP", "M=M+1"]);
    CompareGroups(kind, t, e);
  }

  /** A comparison, cut where its lines are grouped. */
  lemma CompareGroups(kind: Comparison, t: string, e: string)
    ensures Compare(kind, t, e)
         == [Comment(Mnemonic(kind))] + PopD() + PointSecond()
            + [Assign(ToD, MMinusD), At(t), Compute(ToNone, OfD, Condition(kind)),
               At("SP"), Assign(ToA, OfM), Assign(ToM, Zero), At(e), Compute(ToNone, Zero, JMP)]
            + [LabelDecl(t), At("SP"), Assign(ToA, OfM), Assign(ToM, MinusOne), LabelDecl(e)]
            + IncSP()
  {
    var head := [Comment(Mnemonic(kind))] + PopD() + PointSecond();
    var jumps := [Assign(ToD, MMinusD), At(t), Compute(ToNone, OfD, Condition(kind)),
                  At("SP"), Assign(ToA, OfM), Assign(ToM, Zero), At(e), Compute(ToNone, Zero, JMP)];
    var truth := [LabelDecl(t), At("SP"), Assign(ToA, OfM), Assign(ToM, MinusOne), LabelDecl(e)];
    assert jumps + truth == [Assign(ToD, MMinusD), At(t), Compute(ToNone, OfD, Condition(kind)),
       At("SP"), Assign(ToA, OfM), Assign(ToM, Zero), At(e), Compute(ToNone, Zero, JMP),
       LabelDecl(t),
       At("SP"), Assign(ToA, OfM), Assign(ToM, MinusOne),
       LabelDecl(e)];
    assert head + jumps + truth == head + (jumps + truth);
  }

  /** The four groups of lines of a comparison, joined. */
  lemma CompareLines(first: string, t: string, e: string, condLine: string)
    ensures [first, "@SP", "M=M-1", "A=M", "D=M", "@SP", "M=M-1", "A=M"]
            + ["D=M-D", "@" + t, condLine, "@SP", "A=M", "M=0", "@" + e, "0;JMP"]
            + ["(" + t + ")", "@SP", "A=M", "M=-1", "(" + e + ")"]
            + ["@SP", "M=M+1"]
         == [first, "@SP", "M=M-1", "A=M", "D=M", "@SP", "M=M-1", "A=M",
             "D=M-D", "@" + t, condLine, "@SP", "A=M", "M=0", "@" + e, "0;JMP",
             "(" + t + ")", "@SP", "A=M", "M=-1", "(" + e + ")", "@SP", "M=M+1"]
  {
  }

  /** The comment and the two operand pops of a comparison. */
  lemma OperandsListing(t: string, first: string)
    requires "//" + t == first
    ensures Listing([Comment(t)] + PopD() + PointSecond())
         == [first, "@SP", "M=M-1", "A=M", "D=M", "@SP", "M=M-1", "A=M"]
  {
    ListingIs([Comment(t)], [first]);
    PopDListing();
    PointSecondListing();
    ListingPieces([Comment(t)], PopD(), [first], ["@SP", "M=M-1", "A=M", "D=M"]);
    assert [first] + ["@SP", "M=M-1", "A=M", "D=M"] == [first, "@SP", "M=M-1", "A=M", "D=M"];
    ListingPieces([Comment(t)] + PopD(), PointSecond(), [first, "@SP", "M=M-1", "A=M", "D=M"], ["@SP", "M=M-1", "A=M"]);
    assert [first, "@SP", "M=M-1", "A=M", "D=M"] + ["@SP", "M=M-1", "A=M"]
        == [first, "@SP", "M=M-1", "A=M", "D=M", "@SP", "M=M-1", "A=M"];
  }

  /** `eq`, `gt`, `lt` return these lines, with the true label t and the
      end label e. */
  lemma CompareText(t: string, e: string)
    ensures Text(Compare(Eq, t, e)) == Render(["//eq", "@SP", "M=M-1", "A=M", "D=M", "@SP", "M=M-1", "A=M",
      "D=M-D", "@" + t, "D;JEQ", "@SP", "A=M", "M=0", "@" + e, "0;JMP",
      "(" + t + ")", "@SP", "A=M", "M=-1", "(" + e + ")", "@SP", "M=M+1"])
    ensures Text(Compare(Gt, t, e)) == Render(["//gt", "@SP", "M=M-1", "A=M", "D=M", "@SP", "M=M-1", "A=M",
      "D=M-D", "@" + t, "D;JGT", "@SP", "A=M", "M=0", "@" + e, "0;JMP",
      "(" + t + ")", "@SP", "A=M", "M=-1", "(" + e + ")", "@SP", "M=M+1"])
    ensures Text(Compare(Lt, t, e)) == Render(["//lt", "@SP", "M=M-1", "A=M", "D=M", "@SP", "M=M-1", "A=M",
      "D=M-D", "@" + t, "D;JLT", "@SP", "A=M", "M=0", "@" + e, "0;JMP",
      "(" + t + ")", "@SP", "A=M", "M=-1", "(" + e + ")", "@SP", "M=M+1"])
  {
    assert "" + "D" + ";JEQ" == "D;JEQ";
    CompareListing(Eq, t, e, "//eq", "D;JEQ");
    CompareLines("//eq", t, e, "D;JEQ");
    assert "" + "D" + ";JGT" == "D;JGT";
    CompareListing(Gt, t, e, "//gt", "D;JGT");
    CompareLines("//gt", t, e, "D;JGT");
    assert "" + "D" + ";JLT" == "D;JLT";
    CompareListing(Lt, t, e, "//lt", "D;JLT");
    CompareLines("//lt", t, e, "D;JLT");
  }

  // ---------------------------------------------------------------- branching

  /** `label` and `goto` return these lines. */
  lemma BranchText(l: string)
    ensures Text(Label(l)) == Render(["//label " + l, "(" + l + ")"])
    ensures Text(Goto(l)) == Render(["//goto " + l, "@" + l, "0;JMP"])
  {
    BranchListing(l);
  }

  lemma BranchListing(l: string)
    ensures Listing(Label(l)) == ["//label " + l, "(" + l + ")"]
    ensures Listing(Goto(l)) == ["//goto " + l, "@" + l, "0;JMP"]
  {
    ListingIs(Label(l), ["//label " + l, "(" + l + ")"]);
    assert Show(Compute(ToNone, Zero, JMP)) == "" + "0" + ";JMP";
    ListingIs(Goto(l), ["//goto " + l, "@" + l, "0;JMP"]);
  }

  /** `if_goto` returns these lines: the line after its comment is empty
      and its "@SP" is indented by twelve spaces. */
  lemma IfGotoText(l: string)
    ensures Text(IfGoto(l)) == Render(["//if_goto " + l, "", "            @SP", "AM=M-1", "D=M", "@" + l, "D;JNE"])
  {
    var c := IfGoto(l);
    assert Spaces(12) == "            ";
    assert Show(c[2]) == "            " + ("@" + "SP");
    assert Show(c[3]) == "AM=" + "M-1" + "";
    assert Show(c[4]) == "D=" + "M" + "";
    assert Show(c[6]) == "" + "D" + ";JNE";
    ListingIs(c, ["//if_goto " + l, "", "            @SP", "AM=M-1", "D=M", "@" + l, "D;JNE"]);
  }

  // ---------------------------------------------------------------- memory access

  /** The lines of a load into D, then the push of D. */
  lemma LoadPushListing(pre: Code, lp: seq<string>)
    requires Listing(pre) == lp
    ensures Listing(pre + PushD()) == lp + ["@SP", "A=M", "M=D", "@SP", "M=M+1"]
  {
    PushDListing();
    ListingPieces(pre, PushD(), lp, ["@SP", "A=M", "M=D", "@SP", "M=M+1"]);
  }

  /** The lines of `push constant index`. */
  lemma PushConstantListing(index: string)
    ensures Listing(Push("constant", index))
         == ["//push constant " + index, "@" + index, "D=A"] + ["@SP", "A=M", "M=D", "@SP", "M=M+1"]
  {
    var pre := [Comment("push constant " + index), At(index), Assign(ToD, OfA)];
    assert Show(pre[2]) == "D=" + "A" + "";
    ListingIs(pre, ["//push constant " + index, "@" + index, "D=A"]);
    LoadPushListing(pre, ["//push constant " + index, "@" + index, "D=A"]);
  }

  /** The lines of a push through a base: "A=M+D" from a pointer, "A=A+D"
      from a fixed address. */
  lemma PushOffsetListing(segment: string, index: string, b: string, comp: Comp, compLine: string)
    requires Show(Assign(ToA, comp)) == compLine
    ensures Listing([Comment("push " + segment + " " + index), At(index), Assign(ToD, OfA),
                     At(b), Assign(ToA, comp), Assign(ToD, OfM)] + PushD())
         == ["//push " + segment + " " + index, "@" + index, "D=A", "@" + b, compLine, "D=M"]
            + ["@SP", "A=M", "M=D", "@SP", "M=M+1"]
  {
    var pre := [Comment("push " + segment + " " + index), At(index), Assign(ToD, OfA),
                At(b), Assign(ToA, comp), Assign(ToD, OfM)];
    var lp := ["//push " + segment + " " + index, "@" + index, "D=A", "@" + b, compLine, "D=M"];
    assert Show(pre[2]) == "D=" + "A" + "";
    assert Show(pre[5]) == "D=" + "M" + "";
    ListingIs(pre, lp);
    LoadPushListing(pre, lp);
  }

  /** The lines of a push of a word read directly at a symbol. */
  lemma PushDirectListing(first: string, sym: string)
    ensures Listing([Comment(first), At(sym), Assign(ToD, OfM)] + PushD())
         == ["//" + first, "@" + sym, "D=M"] + ["@SP", "A=M", "M=D", "@SP", "M=M+1"]
  {
    var pre := [Comment(first), At(sym), Assign(ToD, OfM)];
    assert Show(pre[2]) == "D=" + "M" + "";
    ListingIs(pre, ["//" + first, "@" + sym, "D=M"]);
    LoadPushListing(pre, ["//" + first, "@" + sym, "D=M"]);
  }

  /** The lines of `push` for a segment reached through a pointer. */
  lemma PushBasedListing(segment: string, index: string)
    requires BasePointer(segment).Some?
    ensures Listing(Push(segment, index))
         == ["//push " + segment + " " + index, "@" + index, "D=A", "@" + BasePointer(segment).value, "A=M+D", "D=M"]
            + ["@SP", "A=M", "M=D", "@SP", "M=M+1"]
  {
    assert Show(Assign(ToA, MPlusD)) == "A=" + "M+D" + "";
    PushOffsetListing(segment, index, BasePointer(segment).value, MPlusD, "A=M+D");
  }

  /** The lines of `push` for a segment at a fixed address. */
  lemma PushFixedListing(segment: string, index: string)
    requires FixedBase(segment).Some?
    ensures Listing(Push(segment, index))
         == ["//push " + segment + " " + index, "@" + index, "D=A", "@" + FixedBase(segment).value, "A=A+D", "D=M"]
            + ["@SP", "A=M", "M=D", "@SP", "M=M+1"]
  {
    assert Show(Assign(ToA, APlusD)) == "A=" + "A+D" + "";
    PushOffsetListing(segment, index, FixedBase(segment).value, APlusD, "A=A+D");
  }

  /** The lines of `push static index`. */
  lemma PushStaticListing(index: string)
    ensures Listing(Push("static", index))
         == ["//push static", "@" + StaticSymbol(index), "D=M"] + ["@SP", "A=M", "M=D", "@SP", "M=M+1"]
  {
    PushDirectListing("push static", StaticSymbol(index));
    assert "//" + "push static" == "//push static";
  }

  /** The lines of `push saveCaller reg`. */
  lemma PushSavedListing(index: string)
    ensures Listing(Push("saveCaller", index))
         == ["//push saveCaller " + index, "@" + index, "D=M"] + ["@SP", "A=M", "M=D", "@SP", "M=M+1"]
  {
    PushDirectListing("push saveCaller " + index, index);
    assert "//" + ("push saveCaller " + index) == "//push saveCaller " + index;
  }

  /** The segment classes `push` and `pop` tell apart do not overlap. */
  lemma SegmentClasses(segment: string)
    ensures BasePointer(segment).Some? ==>
      FixedBase(segment).None? && segment !in {"constant", "static", "saveCaller"}
    ensures FixedBase(segment).Some? ==> segment !in {"constant", "static", "saveCaller"}
  {
  }

  /** `push` returns these lines for each segment it knows, and nothing
      for any other. */
  lemma PushText(segment: string, index: string)
    ensures segment == "constant" ==>
      Text(Push(segment, index))
        == Render(["//push constant " + index, "@" + index, "D=A"] + ["@SP", "A=M", "M=D", "@SP", "M=M+1"])
    ensures BasePointer(segment).Some? ==>
      Text(Push(segment, index))
        == Render(["//push " + segment + " " + index, "@" + index, "D=A", "@" + BasePointer(segment).value, "A=M+D", "D=M"]
                  + ["@SP", "A=M", "M=D", "@SP", "M=M+1"])
    ensures FixedBase(segment).Some? ==>
      Text(Push(segment, index))
        == Render(["//push " + segment + " " + index, "@" + index, "D=A", "@" + FixedBase(segment).value, "A=A+D", "D=M"]
                  + ["@SP", "A=M", "M=D", "@SP", "M=M+1"])
    ensures segment == "static" ==>
      Text(Push(segment, index))
        == Render(["//push static", "@" + StaticSymbol(index), "D=M"] + ["@SP", "A=M", "M=D", "@SP", "M=M+1"])
    ensures segment == "saveCaller" ==>
      Text(Push(segment, index))
        == Render(["//push saveCaller " + index, "@" + index, "D=M"] + ["@SP", "A=M", "M=D", "@SP", "M=M+1"])
    ensures !PushSegment(segment) ==> Text(Push(segment, index)) == ""
  {
    SegmentClasses(segment);
    if segment == "constant" {
      PushConstantListing(index);
    } else if BasePointer(segment).Some? {
      PushBasedListing(segment, index);
    } else if FixedBase(segment).Some? {
      PushFixedListing(segment, index);
    } else if segment == "static" {
      PushStaticListing(index);
    } else if segment == "saveCaller" {
      PushSavedListing(index);
    }
  }

  /** "@SP M=M-1 A=M D=M @R13 A=M M=D". */
  lemma PopToR13Listing()
    ensures Listing(PopToR13()) == ["@SP", "M=M-1", "A=M", "D=M"] + ["@R13", "A=M", "M=D"]
  {
    var c := [At("R13"), Assign(ToA, OfM), Assign(ToM, OfD)];
    assert Show(c[1]) == "A=" + "M" + "";
    assert Show(c[2]) == "M=" + "D" + "";
    ListingIs(c, ["@R13", "A=M", "M=D"]);
    PopDListing();
    ListingPieces(PopD(), c, ["@SP", "M=M-1", "A=M", "D=M"], ["@R13", "A=M", "M=D"]);
  }

  /** The lines of a pop through a base: "D=M+D" from a pointer, "D=A+D"
      from a fixed address. */
  lemma PopOffsetListing(index: string, b: string, comp: Comp, compLine: string)
    requires Show(Assign(ToD, comp)) == compLine
    ensures Listing([At(index), Assign(ToD, OfA), At(b), Assign(ToD, comp), At("R13"), Assign(ToM, OfD)] + PopToR13())
         == ["@" + index, "D=A", "@" + b, compLine, "@R13", "M=D"]
            + (["@SP", "M=M-1", "A=M", "D=M"] + ["@R13", "A=M", "M=D"])
  {
    var pre := [At(index), Assign(ToD, OfA), At(b), Assign(ToD, comp), At("R13"), Assign(ToM, OfD)];
    var lp := ["@" + index, "D=A", "@" + b, compLine, "@R13", "M=D"];
    assert Show(pre[1]) == "D=" + "A" + "";
    assert Show(pre[5]) == "M=" + "D" + "";
    ListingIs(pre, lp);
    PopToR13Listing();
    ListingPieces(pre, PopToR13(), lp, ["@SP", "M=M-1", "A=M", "D=M"] + ["@R13", "A=M", "M=D"]);
  }

  /** The lines of `pop static index`. */
  lemma PopStaticListing(index: string)
    ensures Listing(Pop("static", index)) == ["@SP", "M=M-1", "A=M", "D=M"] + ["@" + StaticSymbol(index), "M=D"]
  {
    var c := [At(StaticSymbol(index)), Assign(ToM, OfD)];
    assert Show(c[1]) == "M=" + "D" + "";
    ListingIs(c, ["@" + StaticSymbol(index), "M=D"]);
    PopDListing();
    ListingPieces(PopD(), c, ["@SP", "M=M-1", "A=M", "D=M"], ["@" + StaticSymbol(index), "M=D"]);
  }

  /** The lines of `pop` for a segment reached through a pointer. */
  lemma PopBasedListing(segment: string, index: string)
    requires BasePointer(segment).Some?
    ensures Listing(Pop(segment, index))
         == ["@" + index, "D=A", "@" + BasePointer(segment).value, "D=M+D", "@R13", "M=D"]
            + (["@SP", "M=M-1", "A=M", "D=M"] + ["@R13", "A=M", "M=D"])
  {
    assert Show(Assign(ToD, MPlusD)) == "D=" + "M+D" + "";
    PopOffsetListing(index, BasePointer(segment).value, MPlusD, "D=M+D");
  }

  /** The lines of `pop` for a segment at a fixed address. */
  lemma PopFixedListing(segment: string, index: string)
    requires FixedBase(segment).Some?
    ensures Listing(Pop(segment, index))
         == ["@" + index, "D=A", "@" + FixedBase(segment).value, "D=A+D", "@R13", "M=D"]
            + (["@SP", "M=M-1", "A=M", "D=M"] + ["@R13", "A=M", "M=D"])
  {
    assert Show(Assign(ToD, APlusD)) == "D=" + "A+D" + "";
    PopOffsetListing(index, FixedBase(segment).value, APlusD, "D=A+D");
  }

  /** `pop` returns these lines for each segment it knows, and nothing for
      any other. */
  lemma PopText(segment: string, index: string)
    ensures BasePointer(segment).Some? ==>
      Text(Pop(segment, index))
        == Render(["@" + index, "D=A", "@" + BasePointer(segment).value, "D=M+D", "@R13", "M=D"]
                  + (["@SP", "M=M-1", "A=M", "D=M"] + ["@R13", "A=M", "M=D"]))
    ensures FixedBase(segment).Some? ==>
      Text(Pop(segment, index))
        == Render(["@" + index, "D=A", "@" + FixedBase(segment).value, "D=A+D", "@R13", "M=D"]
                  + (["@SP", "M=M-1", "A=M", "D=M"] + ["@R13", "A=M", "M=D"]))
    ensures segment == "static" ==>
      Text(Pop(segment, index)) == Render(["@SP", "M=M-1", "A=M", "D=M"] + ["@" + StaticSymbol(index), "M=D"])
    ensures !PopSegment(segment) ==> Text(Pop(segment, index)) == ""
  {
    SegmentClasses(segment);
    if BasePointer(segment).Some? {
      PopBasedListing(segment, index);
    } else if FixedBase(segment).Some? {
      PopFixedListing(segment, index);
    } else if segment == "static" {
      PopStaticListing(index);
    }
  }

  // ---------------------------------------------------------------- return

  lemma KeepListing()
    ensures Listing(KeepFrame()) == ["@LCL", "D=M", "@R13", "M=D"]
    ensures Listing(KeepReturn()) == ["@5", "A=D-A", "D=M", "@R14", "M=D"]
  {
    var c := KeepFrame();
    assert Show(c[1]) == "D=" + "M" + "";
    assert Show(c[3]) == "M=" + "D" + "";
    ListingIs(c, ["@LCL", "D=M", "@R13", "M=D"]);
    var k := KeepReturn();
    assert Show(k[1]) == "A=" + "D-A" + "";
    assert Show(k[2]) == "D=" + "M" + "";
    assert Show(k[4]) == "M=" + "D" + "";
    ListingIs(k, ["@5", "A=D-A", "D=M", "@R14", "M=D"]);
  }

  lemma PopToArgListing()
    ensures Listing(PopToArg()) == ["@SP", "M=M-1", "A=M", "D=M"] + ["@ARG", "A=M", "M=D"]
  {
    var c := [At("ARG"), Assign(ToA, OfM), Assign(ToM, OfD)];
    assert Show(c[1]) == "A=" + "M" + "";
    assert Show(c[2]) == "M=" + "D" + "";
    ListingIs(c, ["@ARG", "A=M", "M=D"]);
    PopDListing();
    ListingPieces(PopD(), c, ["@SP", "M=M-1", "A=M", "D=M"], ["@ARG", "A=M", "M=D"]);
  }

  lemma ResetListing()
    ensures Listing(ResetSP()) == ["@ARG", "D=M+1", "@SP", "M=D"]
    ensures Listing(JumpToReturn()) == ["@R14", "A=M", "0;JMP"]
  {
    var c := ResetSP();
    assert Show(c[1]) == "D=" + "M+1" + "";
    assert Show(c[3]) == "M=" + "D" + "";
    ListingIs(c, ["@ARG", "D=M+1", "@SP", "M=D"]);
    var j := JumpToReturn();
    assert Show(j[1]) == "A=" + "M" + "";
    assert Show(j[2]) == "" + "0" + ";JMP";
    ListingIs(j, ["@R14", "A=M", "0;JMP"]);
  }

  lemma RestoreListing(reg: string)
    ensures Listing(Restore(reg)) == ["@R13", "AM=M-1", "D=M", "@" + reg, "M=D"]
  {
    var c := Restore(reg);
    assert Show(c[1]) == "AM=" + "M-1" + "";
    assert Show(c[2]) == "D=" + "M" + "";
    assert Show(c[4]) == "M=" + "D" + "";
    ListingIs(c, ["@R13", "AM=M-1", "D=M", "@" + reg, "M=D"]);
  }

  /** The four restores, THAT first. */
  lemma RestoreLines()
    ensures Listing(Restore("THAT")) == ["@R13", "AM=M-1", "D=M", "@THAT", "M=D"]
    ensures Listing(Restore("THIS")) == ["@R13", "AM=M-1", "D=M", "@THIS", "M=D"]
    ensures Listing(Restore("ARG")) == ["@R13", "AM=M-1", "D=M", "@ARG", "M=D"]
    ensures Listing(Restore("LCL")) == ["@R13", "AM=M-1", "D=M", "@LCL", "M=D"]
  {
    Addresses();
    RestoreAt("THAT", "@THAT");
    RestoreAt("THIS", "@THIS");
    RestoreAt("ARG", "@ARG");
    RestoreAt("LCL", "@LCL");
  }

  /** The "@" lines of the saved pointers. */
  lemma Addresses()
    ensures "@" + "THAT" == "@THAT" && "@" + "THIS" == "@THIS"
    ensures "@" + "ARG" == "@ARG" && "@" + "LCL" == "@LCL"
  {
  }

  lemma RestoreAt(reg: string, at: string)
    requires "@" + reg == at
    ensures Listing(Restore(reg)) == ["@R13", "AM=M-1", "D=M", at, "M=D"]
  {
    RestoreListing(reg);
  }

  /** The lines up to SP := ARG + 1. */
  lemma PrologueListing()
    ensures Listing([Comment(" return")] + KeepFrame() + KeepReturn() + PopToArg() + ResetSP())
         == ["// return"] + ["@LCL", "D=M", "@R13", "M=D"] + ["@5", "A=D-A", "D=M", "@R14", "M=D"]
            + (["@SP", "M=M-1", "A=M", "D=M"] + ["@ARG", "A=M", "M=D"]) + ["@ARG", "D=M+1", "@SP", "M=D"]
  {
    var l0 := ["// return"];
    var l1 := ["@LCL", "D=M", "@R13", "M=D"];
    var l2 := ["@5", "A=D-A", "D=M", "@R14", "M=D"];
    var l3 := ["@SP", "M=M-1", "A=M", "D=M"] + ["@ARG", "A=M", "M=D"];
    ListingIs([Comment(" return")], l0);
    KeepListing();
    PopToArgListing();
    ResetListing();
    ListingPieces([Comment(" return")], KeepFrame(), l0, l1);
    ListingPieces([Comment(" return")] + KeepFrame(), KeepReturn(), l0 + l1, l2);
    ListingPieces([Comment(" return")] + KeepFrame() + KeepReturn(), PopToArg(), l0 + l1 + l2, l3);
    ListingPieces([Comment(" return")] + KeepFrame() + KeepReturn() + PopToArg(), ResetSP(),
      l0 + l1 + l2 + l3, ["@ARG", "D=M+1", "@SP", "M=D"]);
  }

  /** `return_` returns these lines, one group per `push_str`. */
  lemma ReturnText()
    ensures Text(Return())
         == Render(["// return"] + ["@LCL", "D=M", "@R13", "M=D"] + ["@5", "A=D-A", "D=M", "@R14", "M=D"]
                   + (["@SP", "M=M-1", "A=M", "D=M"] + ["@ARG", "A=M", "M=D"]) + ["@ARG", "D=M+1", "@SP", "M=D"]
                   + ["@R13", "AM=M-1", "D=M", "@THAT", "M=D"] + ["@R13", "AM=M-1", "D=M", "@THIS", "M=D"]
                   + ["@R13", "AM=M-1", "D=M", "@ARG", "M=D"] + ["@R13", "AM=M-1", "D=M", "@LCL", "M=D"]
                   + ["@R14", "A=M", "0;JMP"])
  {
    var pro := [Comment(" return")] + KeepFrame() + KeepReturn() + PopToArg() + ResetSP();
    var lp := ["// return"] + ["@LCL", "D=M", "@R13", "M=D"] + ["@5", "A=D-A", "D=M", "@R14", "M=D"]
              + (["@SP", "M=M-1", "A=M", "D=M"] + ["@ARG", "A=M", "M=D"]) + ["@ARG", "D=M+1", "@SP", "M=D"];
    PrologueListing();
    RestoreLines();
    ResetListing();
    ListingPieces(pro, Restore("THAT"), lp, ["@R13", "AM=M-1", "D=M", "@THAT", "M=D"]);
    ListingPieces(pro + Restore("THAT"), Restore("THIS"), Listing(pro + Restore("THAT")),
      ["@R13", "AM=M-1", "D=M", "@THIS", "M=D"]);
    ListingPieces(pro + Restore("THAT") + Restore("THIS"), Restore("ARG"),
      Listing(pro + Restore("THAT") + Restore("THIS")), ["@R13", "AM=M-1", "D=M", "@ARG", "M=D"]);
    ListingPieces(pro + Restore("THAT") + Restore("THIS") + Restore("ARG"), Restore("LCL"),
      Listing(pro + Restore("THAT") + Restore("THIS") + Restore("ARG")), ["@R13", "AM=M-1", "D=M", "@LCL", "M=D"]);
    ListingPieces(pro + Restore("THAT") + Restore("THIS") + Restore("ARG") + Restore("LCL"), JumpToReturn(),
      Listing(pro + Restore("THAT") + Restore("THIS") + Restore("ARG") + Restore("LCL")), ["@R14", "A=M", "0;JMP"]);
  }

  // ---------------------------------------------------------------- call, function

  /** The "//" and "@" lines of the saved pointers. */
  lemma SavedLines()
    ensures "//push saveCaller " + "LCL" == "//push saveCaller LCL" && "@" + "LCL" == "@LCL"
    ensures "//push saveCaller " + "ARG" == "//push saveCaller ARG" && "@" + "ARG" == "@ARG"
    ensures "//push saveCaller " + "THIS" == "//push saveCaller THIS" && "@" + "THIS" == "@THIS"
    ensures "//push saveCaller " + "THAT" == "//push saveCaller THAT" && "@" + "THAT" == "@THAT"
  {
  }

  /** The lines of the return address push and four saved pointers. */
  lemma SavePushesListing(ret: string, r1: string, r2: string, r3: string, r4: string)
    ensures Listing(Push("constant", ret) + Push("saveCaller", r1) + Push("saveCaller", r2)
                    + Push("saveCaller", r3) + Push("saveCaller", r4))
         == ["//push constant " + ret, "@" + ret, "D=A"] + ["@SP", "A=M", "M=D", "@SP", "M=M+1"]
            + (["//push saveCaller " + r1, "@" + r1, "D=M"] + ["@SP", "A=M", "M=D", "@SP", "M=M+1"])
            + (["//push saveCaller " + r2, "@" + r2, "D=M"] + ["@SP", "A=M", "M=D", "@SP", "M=M+1"])
            + (["//push saveCaller " + r3, "@" + r3, "D=M"] + ["@SP", "A=M", "M=D", "@SP", "M=M+1"])
            + (["//push saveCaller " + r4, "@" + r4, "D=M"] + ["@SP", "A=M", "M=D", "@SP", "M=M+1"])
  {
    var p1 := Push("constant", ret);
    var p2 := Push("saveCaller", r1);
    var p3 := Push("saveCaller", r2);
    var p4 := Push("saveCaller", r3);
    var p5 := Push("saveCaller", r4);
    PushConstantListing(ret);
    PushSavedListing(r1);
    PushSavedListing(r2);
    PushSavedListing(r3);
    PushSavedListing(r4);
    ListingPieces(p1, p2, Listing(p1), Listing(p2));
    ListingPieces(p1 + p2, p3, Listing(p1 + p2), Listing(p3));
    ListingPieces(p1 + p2 + p3, p4, Listing(p1 + p2 + p3), Listing(p4));
    ListingPieces(p1 + p2 + p3 + p4, p5, Listing(p1 + p2 + p3 + p4), Listing(p5));
  }

  /** The lines that save the caller's frame: the return address, then LCL,
      ARG, THIS and THAT. */
  lemma SaveFrameListing(ret: string)
    ensures Listing(SaveFrame(ret))
         == ["//push constant " + ret, "@" + ret, "D=A"] + ["@SP", "A=M", "M=D", "@SP", "M=M+1"]
            + (["//push saveCaller LCL", "@LCL", "D=M"] + ["@SP", "A=M", "M=D", "@SP", "M=M+1"])
            + (["//push saveCaller ARG", "@ARG", "D=M"] + ["@SP", "A=M", "M=D", "@SP", "M=M+1"])
            + (["//push saveCaller THIS", "@THIS", "D=M"] + ["@SP", "A=M", "M=D", "@SP", "M=M+1"])
            + (["//push saveCaller THAT", "@THAT", "D=M"] + ["@SP", "A=M", "M=D", "@SP", "M=M+1"])
  {
    SavePushesListing(ret, "LCL", "ARG", "THIS", "THAT");
    SavedLines();
  }

  lemma SetArgListing(n: int)
    ensures Listing(SetArg(n)) == ["@SP", "D=M", "@5", "D=D-A", "@" + IntToString(n), "D=D-A", "@ARG", "M=D"]
  {
    var c := SetArg(n);
    assert Show(c[0]) == "@" + "SP";
    assert Show(c[1]) == "D=" + "M" + "";
    assert Show(c[2]) == "@" + "5";
    assert Show(c[3]) == "D=" + "D-A" + "";
    assert Show(c[5]) == "D=" + "D-A" + "";
    assert Show(c[6]) == "@" + "ARG";
    assert Show(c[7]) == "M=" + "D" + "";
    ListingIs(c, ["@SP", "D=M", "@5", "D=D-A", "@" + IntToString(n), "D=D-A", "@ARG", "M=D"]);
  }

  lemma SetLclListing()
    ensures Listing(SetLcl()) == ["@SP", "D=M", "@LCL", "M=D"]
  {
    var c := SetLcl();
    assert Show(c[0]) == "@" + "SP";
    assert Show(c[1]) == "D=" + "M" + "";
    assert Show(c[2]) == "@" + "LCL";
    assert Show(c[3]) == "M=" + "D" + "";
    ListingIs(c, ["@SP", "D=M", "@LCL", "M=D"]);
  }

  /** `call f n` returns these lines: the comment, the five pushes of the
      frame, ARG := SP - 5 - n, LCL := SP, the jump to f and the return
      label. */
  lemma CallText(f: string, n: int, ret: string)
    ensures Text(Call(f, n, ret))
         == Render(["//call " + f + " " + IntToString(n)]
                   + (["//push constant " + ret, "@" + ret, "D=A"] + ["@SP", "A=M", "M=D", "@SP", "M=M+1"]
                      + (["//push saveCaller LCL", "@LCL", "D=M"] + ["@SP", "A=M", "M=D", "@SP", "M=M+1"])
                      + (["//push saveCaller ARG", "@ARG", "D=M"] + ["@SP", "A=M", "M=D", "@SP", "M=M+1"])
                      + (["//push saveCaller THIS", "@THIS", "D=M"] + ["@SP", "A=M", "M=D", "@SP", "M=M+1"])
                      + (["//push saveCaller THAT", "@THAT", "D=M"] + ["@SP", "A=M", "M=D", "@SP", "M=M+1"]))
                   + ["@SP", "D=M", "@5", "D=D-A", "@" + IntToString(n), "D=D-A", "@ARG", "M=D"]
                   + ["@SP", "D=M", "@LCL", "M=D"]
                   + ["//goto " + f, "@" + f, "0;JMP"]
                   + ["//label " + ret, "(" + ret + ")"])
  {
    var c := [Comment("call " + f + " " + IntToString(n))];
    ListingIs(c, ["//call " + f + " " + IntToString(n)]);
    SaveFrameListing(ret);
    SetArgListing(n);
    SetLclListing();
    BranchListing(f);
    BranchListing(ret);
    var s1 := c + SaveFrame(ret);
    var s2 := s1 + SetArg(n);
    var s3 := s2 + SetLcl();
    var s4 := s3 + Goto(f);
    ListingPieces(c, SaveFrame(ret), Listing(c), Listing(SaveFrame(ret)));
    ListingPieces(s1, SetArg(n), Listing(s1), Listing(SetArg(n)));
    ListingPieces(s2, SetLcl(), Listing(s2), Listing(SetLcl()));
    ListingPieces(s3, Goto(f), Listing(s3), Listing(Goto(f)));
    ListingPieces(s4, Label(ret), Listing(s4), Listing(Label(ret)));
  }

  /** The lines of `k` pushes of the constant 0. */
  function ZeroLines(k: nat): (ls: seq<string>)
    ensures |ls| == 8 * k
  {
    if k == 0 then []
    else ZeroLines(k - 1) + (["//push constant 0", "@0", "D=A"] + ["@SP", "A=M", "M=D", "@SP", "M=M+1"])
  }

  lemma {:induction false} ZeroPushesListing(k: nat)
    ensures Listing(ZeroPushes(k)) == ZeroLines(k)
  {
    if k > 0 {
      ZeroPushesListing(k - 1);
      ZeroPushListing();
      ListingPieces(ZeroPushes(k - 1), Push("constant", "0"), ZeroLines(k - 1),
        ["//push constant 0", "@0", "D=A"] + ["@SP", "A=M", "M=D", "@SP", "M=M+1"]);
    }
  }

  lemma ZeroPushListing()
    ensures Listing(Push("constant", "0"))
         == ["//push constant 0", "@0", "D=A"] + ["@SP", "A=M", "M=D", "@SP", "M=M+1"]
  {
    PushConstantListing("0");
    ZeroLiterals();
  }

  lemma ZeroLiterals()
    ensures "//push constant " + "0" == "//push constant 0" && "@" + "0" == "@0"
  {
  }

  /** `function f n` returns the comment, the entry label of f, then one
      `push constant 0` per local (none when n is not positive). */
  lemma FunctionText(f: string, n: int)
    ensures Text(FunctionCode(f, n))
         == Render(["//function " + f + " " + IntToString(n), "//label " + f, "(" + f + ")"]
                   + ZeroLines(if n > 0 then n else 0))
  {
    var k := if n > 0 then n else 0;
    var head := [Comment("function " + f + " " + IntToString(n))] + Label(f);
    ListingIs(head, ["//function " + f + " " + IntToString(n), "//label " + f, "(" + f + ")"]);
    ZeroPushesListing(k);
    ListingAppend(head, ZeroPushes(k));
  }
}
