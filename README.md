# hack-vm-translator in Dafny

A model of the core of `hack-vm-translator`. The tool translates programs for the
Nand2Tetris stack virtual machine (VM) into Hack assembly. The model covers
two parts of `src/lib.rs`:

- `load::sanitize` trims every line of a `.vm` file. It drops blank lines and
  comment lines, and cuts a trailing `//` comment off the rest.
- The module `instructions` translates one VM command into a fragment of
  assembly text. Its functions are `add` … `or`, `eq`/`gt`/`lt`, `push`/`pop`,
  `label`/`goto`/`if_goto`, `call`/`function`/`return_`, `parse_line` and
  `parse_file`. It also owns the global label counter `LABEL_COUNT` and
  `unique_label`.

The project has eight modules, one file each:

| file | module | what it holds |
|---|---|---|
| `strings.dfy` | `Strings` | `str::trim`, `str::lines`, `split_whitespace`, `find("//")`, the decimal formatting of counters and of `i16` values, and `parse::<i16>` |
| `load.dfy` | `Load` | `sanitize`: one method with the source's loop, specified by a function over the lines |
| `hack.dfy` | `Hack` | Hack instructions (`Instr`), their text (`Show`, `Listing`, `Text`), and a small Hack machine (`Exec`, `Run`) on which the emitted code is given a meaning |
| `instructions.dfy` | `Instructions` | every translator as a function returning `Code` (a sequence of `Instr`). The class `LabelAllocator` stands for `LABEL_COUNT`, and its methods do what `unique_label`, `eq`/`gt`/`lt`, `call`, `parse_line` and `parse_file` do. The method `Function` is the loop of `function`. |
| `instruction_laws.dfy` | `InstructionLaws` | label uniqueness, which commands give empty code, `parse_line` reading back the line a command is spelled as, and how `parse_file` composes over files |
| `text_laws.dfy` | `TextLaws` | each translator's exact output string, line by line, as written in `lib.rs` |
| `semantics.dfy` | `Semantics` | what the fragments of the arithmetic, comparison, memory-access and branching commands do to the RAM |
| `frames.dfy` | `Frames` | what `function`, `call` and `return_` do. The main result is that `return_` gives the caller back exactly the frame that `call` saved. |

A fragment is `Code`, and the string the Rust function returns is `Text(code)`.
That is each instruction's line followed by `"\n"`. The `TextLaws` lemmas fix
these strings character for character, so both views describe the same
output.

## Model

| member | source | states |
|---|---|---|
| `Load.Sanitize` | src/lib.rs:19-39 | The output is the kept lines, each followed by `"\n"`, in input order: `Render(CleanLines(Lines(content)))`. The loop invariant makes it hold for every prefix of the lines. |
| `Load.CleanLine` | src/lib.rs:22-35 | A line is dropped exactly when it is blank after trimming or starts with `//`. Otherwise the kept text is a non-empty prefix of the trimmed line. It has no `//`, does not start with whitespace, and ends where the first `//` begins or at the end of the line: no `//` starts at any position before its end. |
| `Load.CutComment` | src/lib.rs:23-35 | On a trimmed line: `None` exactly for an empty line or a line starting with `//`. Otherwise the prefix before the first `//`: no `//` starts at any of its positions, and it ends where one starts or at the end of the line. |
| `Load.CutCommentSteps` | src/lib.rs:23-35 | The four branches of the loop body, as written (`is_empty`, `starts_with("//")`, `contains`/`find`, else), agree with `CutComment`. |
| `Load.CleanLinesAppend` | src/lib.rs:21-37 | Sanitising works line by line: the lines kept from `a + b` are those kept from `a` followed by those kept from `b`. |
| `Load.SanitizedLines` | src/lib.rs:19-39 | Splitting the sanitised text into lines gives back the kept lines (a trailing `"\r"` removed). Every such line has a first word, so the first `unwrap` of `parse_line` cannot fail on it. |
| `Strings.Trim` | src/lib.rs:22 | The result is empty exactly when the line is all whitespace. Otherwise it starts and ends with a non-whitespace character. It is the line with its leading and trailing whitespace removed. |
| `Strings.TrimEmptyIff` | src/lib.rs:22-25 | A trimmed line is empty exactly when the line is all whitespace. |
| `Strings.FindSlashes` | src/lib.rs:29-30 | The position of the first `//`, or the length of the line when there is none. |
| `Strings.Lines` | src/lib.rs:21 | No line contains `"\n"`. There are no lines exactly when the text is empty. |
| `Strings.LinesOfRender` | src/lib.rs:36 | Lines written each followed by `"\n"` are read back by `lines()` as those lines (a trailing `"\r"` removed). |
| `Strings.DropLastOfRender` | src/lib.rs:415-418 | Removing the last character of texts each followed by `"\n"` gives the texts joined by `"\n"`. |
| `Strings.Tokens` | src/lib.rs:339 | `split_whitespace` gives non-empty words without whitespace. |
| `Strings.TokensOfUnwords` | src/lib.rs:339-340 | Words joined by spaces split back into the same words. |
| `Strings.NatToStringInjective` | src/lib.rs:61 | Two counter values have the same decimal text exactly when they are equal. |
| `Strings.DigitsValueOfNatToString` | src/lib.rs:61 | The decimal text of the counter reads back as the counter. |
| `Strings.LabelNumberOf` | src/lib.rs:59-65 | The counter can be read back from the trailing digits of a label whose prefix does not end in a digit. |
| `Strings.ParseI16` | src/lib.rs:393 | A parsed count lies in the `i16` range. |
| `Strings.ParseI16Accepts` | src/lib.rs:393 | Text that parses as an `i16` is a non-empty run of digits, optionally signed. |
| `Strings.ParseI16OfIntToString` | src/lib.rs:393 | Parsing the formatted text of an `i16` gives it back. |
| `Strings.IntToStringIsWord` | src/lib.rs:285 | A formatted count is one word: non-empty, without whitespace. |
| `Hack.TextAppend` | src/lib.rs:285-298 | The text of two fragments in a row is the concatenation of their texts. This is what each `push_str` does. |
| `Instructions.LabelAllocator.constructor` | src/lib.rs:57 | The counter starts at 0 and no label has been issued. |
| `Instructions.LabelAllocator.UniqueLabel` | src/lib.rs:59-65 | The label is the prefix followed by the old counter, and the counter goes up by one. The label is new: it differs from every label issued before. |
| `Instructions.LabelAllocator.CompareCommand` | src/lib.rs:83-171 | The true label takes the counter first and the end label takes the next value. The fragment is `Compare` with those labels, and the counter goes up by two. |
| `Instructions.LabelAllocator.CallCommand` | src/lib.rs:282-300 | The return label is `f$retAddr` followed by the counter, and the counter goes up by one. |
| `Instructions.LabelAllocator.Translate` | src/lib.rs:341-407 | Each `match` arm gives its translator's code. The counter goes up by the number of labels the command takes: 2 for a comparison, 1 for `call`, 0 otherwise. |
| `Instructions.LabelAllocator.ParseLine` | src/lib.rs:338-409 | The code of a well-formed line is its parsed command's code, with the counter advanced as in `Translate`. |
| `Instructions.LabelAllocator.ParseLines` | src/lib.rs:414-417 | The loop output is each line's text followed by `"\n"`, the counter threaded through the lines in order. |
| `Instructions.LabelAllocator.ParseFile` | src/lib.rs:412-420 | The output is the texts of the lines joined by `"\n"`, the last `"\n"` popped. The counter ends where the file's comparisons and calls leave it. |
| `Instructions.Function` | src/lib.rs:302-310 | The loop emits the header, the entry label and one `push constant 0` per local. It emits none when the count is not positive. |
| `Instructions.IssuedFresh` | src/lib.rs:59-65 | A label numbered by the count of labels issued so far is new, and recording it keeps label i numbered i. |
| `InstructionLaws.IssuedDistinct` | src/lib.rs:57-65 | The labels the counter hands out are pairwise distinct. |
| `InstructionLaws.LabelsDiffer` | src/lib.rs:59-65 | Labels built from different counter values differ, whatever their prefixes. |
| `InstructionLaws.CompareLabels` | src/lib.rs:84-85 | A comparison's two labels differ, and their numbers are n and n + 1. |
| `InstructionLaws.ReturnLabelFresh` | src/lib.rs:283 | A return label never equals a comparison label taken at another counter value. |
| `InstructionLaws.PushEmptyIff` | src/lib.rs:174-218 | `push` gives empty code exactly for an unknown segment. Otherwise its code ends with `@SP M=M+1`. |
| `InstructionLaws.PopEmptyIff` | src/lib.rs:221-258 | `pop` gives empty code exactly for a segment other than local, argument, this, that, temp, pointer and static. |
| `InstructionLaws.CommandCodeEmptyIff` | src/lib.rs:338-409 | The function `Instructions.CommandCode` models the match arms of `parse_line`. A line gives empty code exactly when its command is unknown or it pushes or pops an unknown segment. |
| `InstructionLaws.ParseWordsOfWords` | src/lib.rs:338-406 | The function `Instructions.ParseWords` models how `parse_line` reads a line's words. The words of any command the VM language can spell are well formed and parse back to that command. |
| `InstructionLaws.ParseSpell` | src/lib.rs:338-406 | The function `Instructions.Parse` models how `parse_line` reads a line. Every command written as a VM line parses back to itself. |
| `InstructionLaws.CommandsAppend` | src/lib.rs:414-417 | The commands of two runs of lines are those of the first followed by those of the second. |
| `InstructionLaws.CounterAfterAppend` | src/lib.rs:57-65 | The counter after two runs of commands is the counter after the second, started where the first left it. |
| `InstructionLaws.FileTextsAppend` | src/lib.rs:412-420 | Translating two runs of commands gives the first's texts, then the second's texts from the counter the first left. |
| `TextLaws.BinaryText` | src/lib.rs:49-81 | The functions `Instructions.Add`, `Sub`, `And`, `Or` model `add`, `sub`, `and`, `or`. Each returns exactly its eleven lines; they differ only in the comment and the computing line. |
| `TextLaws.UnaryText` | src/lib.rs:67-73 | The functions `Instructions.Neg` and `Not` model `neg` and `not`, which return exactly their seven lines. |
| `TextLaws.CompareText` | src/lib.rs:83-171 | The function `Instructions.Compare` models `eq`, `gt` and `lt`, which return exactly their 23 lines, with their labels and `D;JEQ`, `D;JGT`, `D;JLT`. |
| `TextLaws.BranchText` | src/lib.rs:261-267 | The functions `Instructions.Label` and `Goto` model `label` and `goto`, which return exactly their lines. |
| `TextLaws.IfGotoText` | src/lib.rs:269-280 | The function `Instructions.IfGoto` models `if_goto`, which returns exactly its lines, including the empty second line and the `@SP` indented by twelve spaces. |
| `TextLaws.PushText` | src/lib.rs:174-218 | The function `Instructions.Push` models `push`, which returns exactly the lines of each segment's arm, and `""` for an unknown segment. |
| `TextLaws.PopText` | src/lib.rs:221-258 | The function `Instructions.Pop` models `pop`, which returns exactly the lines of each segment's arm, and `""` for an unknown segment. |
| `TextLaws.CallText` | src/lib.rs:282-300 | The function `Instructions.Call` models `call` once its return label is chosen. It returns exactly its comment, the five pushes, the ARG and LCL updates, the `goto` and the return label. |
| `TextLaws.ZeroPushesListing` | src/lib.rs:306-308 | The function `Instructions.ZeroPushes` models the loop of `function`: k zero pushes give k copies of the eight lines of `push constant 0`. |
| `TextLaws.FunctionText` | src/lib.rs:302-310 | The function `Instructions.FunctionCode` models `function`, which returns its comment, the entry label and one `push constant 0` per local. |
| `TextLaws.ReturnText` | src/lib.rs:312-334 | The function `Instructions.Return` models `return_`, which returns exactly its lines, in its order. |
| `Semantics.ArithmeticShape` | src/lib.rs:49-81 | Every arithmetic fragment is its comment, the operand pops, one computing instruction and the SP increment. |
| `Semantics.BinaryEffect` | src/lib.rs:49-81 | `add`, `sub`, `and`, `or` replace the top two words x (below) and y with x op y on 16-bit words. SP goes down by one; no other word changes. |
| `Semantics.UnaryEffect` | src/lib.rs:67-73 | `neg`, `not` replace the top word with its negation or bitwise complement. No other word changes. |
| `Semantics.CompareLayout` | src/lib.rs:86-110 | The position of every instruction of a comparison fragment. Its only labels are at positions 16 and 20. |
| `Semantics.CompareTargets` | src/lib.rs:95-106 | With distinct label addresses, the conditional jump lands on the true branch and the unconditional one on the end label. |
| `Semantics.CompareEffect` | src/lib.rs:83-171 | `eq`, `gt`, `lt` replace the top two words with -1 when the jump condition holds of x - y, and with 0 otherwise. SP goes down by one; no other word changes. |
| `Semantics.CompareTruth` | src/lib.rs:83-171 | The jump condition on x - y holds exactly when the comparison holds of x and y as two's complement numbers. For `eq` this is always so. For `gt` and `lt` it needs the difference to fit in 16 bits. |
| `Semantics.GtOverflow` | src/lib.rs:113-141 | For x = 32767 and y = -32768, `gt` holds, yet the fragment's condition on x - y fails. |
| `Semantics.PushEffect` | src/lib.rs:174-218 | `push` writes the segment's word just above the stack and raises SP by one; no other word changes. |
| `Semantics.PushConstantEffect` | src/lib.rs:178-181 | `push constant n` pushes n itself. |
| `Semantics.PopEffect` | src/lib.rs:221-258 | `pop` writes the top word at the segment's address and lowers SP by one. The based and fixed segments also leave that address in R13. |
| `Semantics.PopStaticEffect` | src/lib.rs:249-252 | `pop static i` writes the top word to the variable `test.i`. |
| `Semantics.LabelEffect` | src/lib.rs:261-263 | `label` changes nothing. |
| `Semantics.GotoEffect` | src/lib.rs:265-267 | `goto l` leaves for the address of l and changes no word. |
| `Semantics.IfGotoEffect` | src/lib.rs:269-280 | `if-goto l` pops the top word, lowering SP by one whatever that word is. Control leaves for l exactly when the word is not zero, and otherwise falls through. |
| `Frames.ZeroPushesEffect` | src/lib.rs:306-308 | k zero pushes write k zeros just above the stack and raise SP by k. |
| `Frames.FunctionEffect` | src/lib.rs:302-310 | `function f n` zeroes the n words above the stack, none when n is not positive, and raises SP by that number. Every other word is unchanged. |
| `Frames.SaveFrameEffect` | src/lib.rs:286-290 | The five pushes of `call` store the return address and the caller's LCL, ARG, THIS, THAT above the stack. |
| `Frames.SetArgEffect` | src/lib.rs:292 | ARG := SP - 5 - n. |
| `Frames.SetLclEffect` | src/lib.rs:294 | LCL := SP. |
| `Frames.CallTarget` | src/lib.rs:296-298 | The only label of `call` is its return label, so the jump to f leaves the fragment. |
| `Frames.CallEffect` | src/lib.rs:282-300 | `call f n` saves the frame, points ARG at the first of the n arguments and LCL just above the frame, then leaves for f. |
| `Frames.KeepFrameEffect` | src/lib.rs:316 | FRAME := LCL, kept in R13. |
| `Frames.KeepReturnEffect` | src/lib.rs:318 | RET := *(FRAME - 5), kept in R14. |
| `Frames.PopToArgEffect` | src/lib.rs:320 | *ARG := the popped return value. |
| `Frames.ResetSPEffect` | src/lib.rs:322 | SP := ARG + 1. |
| `Frames.RestoresEffect` | src/lib.rs:324-330 | THAT, THIS, ARG and LCL come back from FRAME - 1 … FRAME - 4. |
| `Frames.ReturnTarget` | src/lib.rs:312-334 | `return_` has no label, so its jump through R14 always leaves the fragment. |
| `Frames.ReturnEffect` | src/lib.rs:312-334 | `return_` leaves for the saved return address with the RAM `Returned` describes. |
| `Frames.ReturnedReads` | src/lib.rs:312-334 | Word by word after `return_`: SP is just above ARG, the result is at ARG, the four registers hold their saved values, R13 and R14 are as stated, and nothing else changes. |
| `Frames.CalledReads` | src/lib.rs:282-300 | The words `call` wrote, as `return_` reads them. |
| `Frames.ReturnToCaller` | src/lib.rs:282-334 | Assume the callee leaves the frame and LCL/ARG alone and returns with its result on top. Then `return_` gives the caller back its LCL, ARG, THIS and THAT, puts the result where the arguments began, and leaves for the return address. |
| `Frames.CallReturn` | src/lib.rs:282-334 | `call f n`, then the callee's `return_`: the caller resumes at the return label with its registers restored and the result in place of the arguments. |

## Left out

- `load_file` and `write_file` (src/lib.rs:8-16, 41-44) and all of `src/main.rs` are file and process I/O. `Sanitize` takes the file's contents as a string. `ParseFile` returns the output as a string.
- The `println!` diagnostics for an invalid segment or command are left out. The model keeps only the value returned: empty code.
- `LABEL_COUNT` is a `usize`. Its wrap-around after 2^64 labels is not modelled; the counter is a `nat`.
- The `unwrap` calls of `parse_line` panic on a line with too few words or a count that is not an `i16`. The model does not cover the panic. `ParseLine` and `ParseFile` require `WellFormed` lines instead: the lines the source translates without panicking.
- `Instructions.LabelAllocator.UniqueLabel`: requires a prefix that does not end in a digit. Every caller in `lib.rs` passes one (`EQ_TRUE`, `GT_END`, `f$retAddr`, …). Without that, labels built from different prefixes could coincide.
- User labels and function names may coincide with generated labels (`EQ_TRUE0`, `f$retAddr3`). The source does not prevent it. `CompareEffect` and `CallEffect` therefore assume the addresses they need are distinct.
- The static variables use the fixed prefix `test.` (src/lib.rs:207, 251). The model keeps this as written, not the input file's name.
- The Hack machine is the model's own reference. The assembler is abstracted to a symbol table: `Registers` gives the registers, `Honours` adds decimal constants. Jumps inside a fragment cost fuel. The RAM is a map in which an unwritten word reads 0.
- `Semantics.PopEffect`: requires SP ≥ 16, above R13-R15, which the code writes. It does not cover `pop` on a smaller stack.
- `Semantics.CompareTruth`: stated for `gt` and `lt` only when x - y fits in 16 bits. The code compares by the sign of x - y, so a larger difference overflows; `GtOverflow` exhibits one pair.
- `Frames.CallEffect`: requires 0 ≤ n ≤ SP. A negative count, which `i16` allows, would put ARG above SP and is not covered.
- `Frames.ReturnEffect`: requires the frame `ReturnFrame` describes (ARG ≥ 16, the five saved words between ARG and LCL, the result above LCL). It does not cover `return_` from any other RAM.
