/** The pieces of Rust's standard string library that the translator relies on:
    `char::is_whitespace`, `str::trim`, `str::lines`, `str::split_whitespace`,
    `str::find("//")`, the `Display` of unsigned and signed integers and
    `str::parse::<i16>`.  Each is given as a function with the property that
    characterises it, and the formatting functions are paired with their
    parsers by round-trip lemmas. */
module Strings {

  datatype Option<T> = None | Some(value: T)

  // ---------------------------------------------------------------- whitespace

  /** Rust's `char::is_whitespace`: the Unicode White_Space property. */
  predicate IsWhitespace(c: char) {
    ('\t' <= c <= '\r') || c == ' ' || c == '\U{85}' || c == '\U{A0}' || c == '\U{1680}'
    || ('\U{2000}' <= c <= '\U{200A}') || c == '\U{2028}' || c == '\U{2029}'
    || c == '\U{202F}' || c == '\U{205F}' || c == '\U{3000}'
  }

  predicate NoWhitespace(s: string) {
    forall i :: 0 <= i < |s| ==> !IsWhitespace(s[i])
  }

  predicate AllWhitespace(s: string) {
    forall i :: 0 <= i < |s| ==> IsWhitespace(s[i])
  }

  /** `str::trim_start`: drops the leading whitespace and nothing else. */
  function TrimStart(s: string): (r: string)
    ensures |r| <= |s| && r == s[|s| - |r|..]
    ensures r == [] || !IsWhitespace(r[0])
    ensures AllWhitespace(s[..|s| - |r|])
  {
    if s != [] && IsWhitespace(s[0]) then TrimStart(s[1..]) else s
  }

  /** `str::trim_end`: drops the trailing whitespace and nothing else. */
  function TrimEnd(s: string): (r: string)
    ensures |r| <= |s| && r == s[..|r|]
    ensures r == [] || !IsWhitespace(r[|r| - 1])
    ensures AllWhitespace(s[|r|..])
  {
    if s != [] && IsWhitespace(s[|s| - 1]) then
      var p := s[..|s| - 1];
      var r := TrimEnd(p);
      assert p[..|r|] == s[..|r|];
      assert s[|r|..] == p[|r|..] + [s[|s| - 1]];
      r
    else s
  }

  /** `str::trim`. */
  function Trim(s: string): (r: string)
    ensures r == [] <==> AllWhitespace(s)
    ensures r == [] || (!IsWhitespace(r[0]) && !IsWhitespace(r[|r| - 1]))
  {
    TrimEmptyIff(s);
    TrimEnd(TrimStart(s))
  }

  lemma TrimEmptyIff(s: string)
    ensures TrimEnd(TrimStart(s)) == [] <==> AllWhitespace(s)
  {
    var t := TrimStart(s);
    var n := |s| - |t|;
    if t == [] {
      assert s[..n] == s;
    } else {
      assert t[0] == s[n];
      TrimEndKeepsFirst(t);
    }
  }

  /** Trimming the end of a string that starts with a non-whitespace
      character leaves that character. */
  lemma TrimEndKeepsFirst(t: string)
    requires t != [] && !IsWhitespace(t[0])
    ensures TrimEnd(t) != []
  {
    assert !AllWhitespace(t[0..]) by { assert t[0..][0] == t[0]; }
  }

  // ---------------------------------------------------------------- lines

  /** Index of the first occurrence of `c`, or `|s|` when there is none. */
  function IndexOf(s: string, c: char): (k: nat)
    ensures k <= |s|
    ensures k < |s| ==> s[k] == c
    ensures forall i :: 0 <= i < k ==> s[i] != c
  {
    if s == [] || s[0] == c then 0 else 1 + IndexOf(s[1..], c)
  }

  /** Drops one trailing carriage return. */
  function StripCR(l: string): (r: string)
  {
    if l != [] && l[|l| - 1] == '\r' then l[..|l| - 1] else l
  }

  function StripCRs(ls: seq<string>): (rs: seq<string>)
    ensures |rs| == |ls|
    ensures forall i :: 0 <= i < |ls| ==> rs[i] == StripCR(ls[i])
  {
    if ls == [] then [] else [StripCR(ls[0])] + StripCRs(ls[1..])
  }

  /** Rust's `str::lines`: the text is cut after every "\n"; a final piece
      without "\n" is a line too, an empty final piece is not; a line ending
      in "\r\n" loses the "\r" as well. */
  function Lines(s: string): (ls: seq<string>)
    ensures ls == [] <==> s == []
    ensures forall i :: 0 <= i < |ls| ==> '\n' !in ls[i]
    decreases |s|
  {
    if s == [] then []
    else
      var k := IndexOf(s, '\n');
      if k == |s| then [s] else [StripCR(s[..k])] + Lines(s[k + 1..])
  }

  /** Every line followed by "\n": the text `sanitize` and `parse_file`
      accumulate with `push_str(line); push_str("\n")`. */
  function Render(ls: seq<string>): (s: string)
    ensures ls != [] ==> s != [] && s[|s| - 1] == '\n'
  {
    if ls == [] then [] else Render(ls[..|ls| - 1]) + ls[|ls| - 1] + "\n"
  }

  lemma {:induction false} RenderAppend(a: seq<string>, b: seq<string>)
    ensures Render(a + b) == Render(a) + Render(b)
    decreases |b|
  {
    if b == [] {
      assert a + b == a;
    } else {
      var c := a + b;
      var b' := b[..|b| - 1];
      assert c[..|c| - 1] == a + b';
      assert c[|c| - 1] == b[|b| - 1];
      RenderAppend(a, b');
      calc {
        Render(c);
        Render(a + b') + b[|b| - 1] + "\n";
        Render(a) + Render(b') + b[|b| - 1] + "\n";
        Render(a) + (Render(b') + b[|b| - 1] + "\n");
        Render(a) + Render(b);
      }
    }
  }

  lemma RenderSingle(l: string)
    ensures Render([l]) == l + "\n"
  {
    assert [l][..0] == [];
  }

  lemma RenderCons(l: string, rest: seq<string>)
    ensures Render([l] + rest) == l + "\n" + Render(rest)
  {
    RenderAppend([l], rest);
    assert [l][..0] == [];
  }

  /** Rust's `lines()` undoes `Render` (up to a "\r" at the end of a line). */
  lemma {:induction false} LinesOfRender(ls: seq<string>)
    requires forall i :: 0 <= i < |ls| ==> '\n' !in ls[i]
    ensures Lines(Render(ls)) == StripCRs(ls)
    decreases |ls|
  {
    if ls != [] {
      var s := Render(ls);
      RenderCons(ls[0], ls[1..]);
      assert ls == [ls[0]] + ls[1..];
      assert s == ls[0] + "\n" + Render(ls[1..]);
      var k := IndexOf(s, '\n');
      assert s[|ls[0]|] == '\n';
      assert forall j :: 0 <= j < |ls[0]| ==> s[j] == ls[0][j];
      assert k == |ls[0]|;
      assert s[..k] == ls[0];
      assert s[k + 1..] == Render(ls[1..]);
      LinesOfRender(ls[1..]);
    }
  }

  /** A line that `sanitize` and the emitters produce never ends in "\r"; for
      such lines the round trip is exact. */
  lemma LinesOfRenderExact(ls: seq<string>)
    requires forall i :: 0 <= i < |ls| ==> '\n' !in ls[i]
    requires forall i :: 0 <= i < |ls| ==> ls[i] == [] || ls[i][|ls[i]| - 1] != '\r'
    ensures Lines(Render(ls)) == ls
  {
    LinesOfRender(ls);
  }

  lemma PrefixSnoc<T>(s: seq<T>, i: nat)
    requires i < |s|
    ensures s[..i + 1] == s[..i] + [s[i]]
  {
  }

  /** One more line adds it and a "\n". */
  lemma RenderSnoc(ls: seq<string>, l: string)
    ensures Render(ls + [l]) == Render(ls) + l + "\n"
  {
    assert (ls + [l])[..|ls|] == ls;
  }

  /** `parse_file`'s output: the pieces with a single "\n" between them. */
  function JoinLines(ts: seq<string>): (s: string)
  {
    if ts == [] then []
    else if |ts| == 1 then ts[0]
    else JoinLines(ts[..|ts| - 1]) + "\n" + ts[|ts| - 1]
  }

  /** Dropping the final character of `Render` (`String::pop` after the loop
      of `parse_file`) leaves the lines joined by single newlines. */
  lemma {:induction false} DropLastOfRender(ts: seq<string>)
    requires ts != []
    ensures Render(ts)[..|Render(ts)| - 1] == JoinLines(ts)
    decreases |ts|
  {
    var init := ts[..|ts| - 1];
    if |ts| == 1 {
      assert init == [];
    } else {
      DropLastOfRender(init);
      assert Render(init) == JoinLines(init) + "\n";
    }
  }

  // ---------------------------------------------------------------- "//"

  predicate SlashesAt(s: string, k: int) {
    0 <= k && k + 1 < |s| && s[k] == '/' && s[k + 1] == '/'
  }

  /** `str::contains("//")`. */
  predicate HasSlashes(s: string) {
    exists k :: 0 <= k < |s| && SlashesAt(s, k)
  }

  /** `str::find("//")`: the first position of "//", or `|s|` when there is none. */
  function FindSlashes(s: string): (k: nat)
    ensures k <= |s|
    ensures k < |s| ==> SlashesAt(s, k)
    ensures forall j :: 0 <= j < k ==> !SlashesAt(s, j)
    ensures k == |s| ==> !HasSlashes(s)
  {
    if |s| < 2 then |s|
    else if s[0] == '/' && s[1] == '/' then 0
    else
      var k := 1 + FindSlashes(s[1..]);
      assert forall j :: 1 <= j < |s| ==> (SlashesAt(s, j) <==> SlashesAt(s[1..], j - 1));
      k
  }

  // ---------------------------------------------------------------- tokens

  /** Length of the leading run of non-whitespace characters. */
  function WordEnd(s: string): (k: nat)
    ensures k <= |s|
    ensures NoWhitespace(s[..k])
    ensures k < |s| ==> IsWhitespace(s[k])
  {
    if s == [] || IsWhitespace(s[0]) then 0 else 1 + WordEnd(s[1..])
  }

  /** Rust's `str::split_whitespace`: the maximal runs of non-whitespace
      characters, in order. */
  function Tokens(s: string): (ts: seq<string>)
    ensures forall i :: 0 <= i < |ts| ==> ts[i] != [] && NoWhitespace(ts[i])
    decreases |s|
  {
    if s == [] then []
    else if IsWhitespace(s[0]) then Tokens(s[1..])
    else
      var k := WordEnd(s);
      [s[..k]] + Tokens(s[k..])
  }

  /** A line starting with a non-whitespace character has a first token. */
  lemma TokensOfNonBlank(s: string)
    requires s != [] && !IsWhitespace(s[0])
    ensures Tokens(s) != []
  {
  }

  /** Words with one space between them: what a VM command looks like. */
  function Unwords(ws: seq<string>): string
  {
    if ws == [] then []
    else if |ws| == 1 then ws[0]
    else ws[0] + (" " + Unwords(ws[1..]))
  }

  lemma {:induction false} TokensSkipSpace(s: string)
    ensures Tokens(" " + s) == Tokens(s)
  {
    assert (" " + s)[1..] == s;
  }

  lemma {:induction false} TokensOfWord(w: string, rest: string)
    requires w != [] && NoWhitespace(w)
    requires rest == [] || IsWhitespace(rest[0])
    ensures Tokens(w + rest) == [w] + Tokens(rest)
    decreases |w|
  {
    var s := w + rest;
    var k := WordEnd(s);
    assert forall j :: 0 <= j < |w| ==> s[j] == w[j];
    assert |w| < |s| ==> s[|w|] == rest[0];
    assert k == |w|;
    assert s[..k] == w;
    assert s[k..] == rest;
  }

  /** `split_whitespace` undoes `Unwords`. */
  lemma {:induction false} TokensOfUnwords(ws: seq<string>)
    requires forall i :: 0 <= i < |ws| ==> ws[i] != [] && NoWhitespace(ws[i])
    ensures Tokens(Unwords(ws)) == ws
    decreases |ws|
  {
    if ws == [] {
    } else if |ws| == 1 {
      TokensOfWord(ws[0], []);
      assert ws[0] + [] == ws[0];
    } else {
      var tail := Unwords(ws[1..]);
      TokensOfWord(ws[0], " " + tail);
      TokensSkipSpace(tail);
      TokensOfUnwords(ws[1..]);
      assert Tokens(Unwords(ws)) == [ws[0]] + ws[1..];
      assert ws == [ws[0]] + ws[1..];
    }
  }

  // ---------------------------------------------------------------- decimal

  predicate IsDigit(c: char) {
    '0' <= c <= '9'
  }

  predicate AllDigits(s: string) {
    forall i :: 0 <= i < |s| ==> IsDigit(s[i])
  }

  /** The canonical decimal form: at least one digit, no leading zero. */
  predicate Canonical(s: string) {
    s != [] && AllDigits(s) && (|s| > 1 ==> s[0] != '0')
  }

  function DigitChar(d: nat): (c: char)
    requires d < 10
    ensures IsDigit(c) && (c as int) - ('0' as int) == d
  {
    (48 + d) as char
  }

  function DigitValue(c: char): (d: nat)
    requires IsDigit(c)
    ensures d < 10
  {
    (c as int) - ('0' as int)
  }

  /** The number a string of decimal digits denotes. */
  function DigitsValue(s: string): nat
    requires AllDigits(s)
  {
    if s == [] then 0 else 10 * DigitsValue(s[..|s| - 1]) + DigitValue(s[|s| - 1])
  }

  /** `Display` of an unsigned integer (`usize`, the label counter). */
  function NatToString(n: nat): (s: string)
    ensures Canonical(s)
  {
    if n < 10 then [DigitChar(n)] else NatToString(n / 10) + [DigitChar(n % 10)]
  }

  lemma {:induction false} DigitsValueOfNatToString(n: nat)
    ensures DigitsValue(NatToString(n)) == n
  {
    if n >= 10 {
      var s := NatToString(n);
      assert s[..|s| - 1] == NatToString(n / 10);
      DigitsValueOfNatToString(n / 10);
    }
  }

  lemma {:induction false} LeadingDigitPositive(s: string)
    requires s != [] && AllDigits(s) && s[0] != '0'
    ensures DigitsValue(s) > 0
    decreases |s|
  {
    if |s| > 1 {
      LeadingDigitPositive(s[..|s| - 1]);
    }
  }

  /** Parsing then formatting gives back a canonical numeral. */
  lemma {:induction false} NatToStringOfDigitsValue(s: string)
    requires Canonical(s)
    ensures NatToString(DigitsValue(s)) == s
    decreases |s|
  {
    if |s| > 1 {
      var p := s[..|s| - 1];
      LeadingDigitPositive(p);
      NatToStringOfDigitsValue(p);
      var v := DigitsValue(s);
      assert v / 10 == DigitsValue(p) && v % 10 == DigitValue(s[|s| - 1]);
      assert s == p + [s[|s| - 1]];
    } else {
      assert s == [s[0]];
    }
  }

  lemma NatToStringInjective(m: nat, n: nat)
    ensures NatToString(m) == NatToString(n) <==> m == n
  {
    DigitsValueOfNatToString(m);
    DigitsValueOfNatToString(n);
  }

  /** The longest suffix made only of decimal digits. */
  function TrailingDigits(s: string): (r: string)
    ensures AllDigits(r) && |r| <= |s| && r == s[|s| - |r|..]
    ensures |r| < |s| ==> !IsDigit(s[|s| - |r| - 1])
  {
    if s != [] && IsDigit(s[|s| - 1]) then TrailingDigits(s[..|s| - 1]) + [s[|s| - 1]] else []
  }

  /** A prefix that does not end in a digit is separated from the number
      written after it: the number can be read back from the end. */
  lemma TrailingDigitsOfSuffix(p: string, d: string)
    requires AllDigits(d)
    requires p == [] || !IsDigit(p[|p| - 1])
    ensures TrailingDigits(p + d) == d
  {
    var s := p + d;
    var r := TrailingDigits(s);
    assert forall i :: |p| <= i < |s| ==> s[i] == d[i - |p|];
    assert |p| > 0 ==> s[|p| - 1] == p[|p| - 1];
    assert |r| == |d|;
    assert r == s[|p|..] == d;
  }

  /** The number at the end of a generated label. */
  function LabelNumber(l: string): nat
  {
    DigitsValue(TrailingDigits(l))
  }

  lemma LabelNumberOf(prefix: string, n: nat)
    requires prefix == [] || !IsDigit(prefix[|prefix| - 1])
    ensures LabelNumber(prefix + NatToString(n)) == n
  {
    TrailingDigitsOfSuffix(prefix, NatToString(n));
    DigitsValueOfNatToString(n);
  }

  // ---------------------------------------------------------------- i16

  /** `Display` of a signed integer. */
  function IntToString(i: int): (s: string)
    ensures s != []
  {
    if i < 0 then "-" + NatToString(-i) else NatToString(i)
  }

  /** A formatted integer is one word: a sign and digits, no blanks. */
  lemma IntToStringIsWord(i: int)
    ensures IntToString(i) != [] && NoWhitespace(IntToString(i))
  {
    var s := IntToString(i);
    var d := NatToString(if i < 0 then -i else i);
    assert forall k :: 0 <= k < |d| ==> IsDigit(d[k]);
    if i < 0 {
      assert forall k :: 1 <= k < |s| ==> s[k] == d[k - 1];
    }
  }

  const I16Min: int := -32768
  const I16Max: int := 32767

  /** `str::parse::<i16>`: an optional sign, then at least one decimal
      digit and nothing else, with a value that fits in 16 bits. */
  function ParseI16(s: string): (r: Option<int>)
    ensures r.Some? ==> I16Min <= r.value <= I16Max
  {
    if s == [] then None
    else if (s[0] == '+' || s[0] == '-') && |s| == 1 then None
    else
      var digits := if s[0] == '+' || s[0] == '-' then s[1..] else s;
      if !AllDigits(digits) then None
      else
        var v: int := if s[0] == '-' then 0 - (DigitsValue(digits) as int) else DigitsValue(digits);
        if I16Min <= v <= I16Max then Some(v) else None
  }

  /** Formatting a 16-bit value and parsing it back gives the value. */
  lemma ParseI16OfIntToString(i: int)
    requires I16Min <= i <= I16Max
    ensures ParseI16(IntToString(i)) == Some(i)
  {
    var s := IntToString(i);
    if i < 0 {
      DigitsValueOfNatToString(-i);
      assert s[1..] == NatToString(-i);
    } else {
      DigitsValueOfNatToString(i);
    }
  }

  /** An accepted operand is a numeral in the plain sense. */
  lemma ParseI16Accepts(s: string)
    requires ParseI16(s).Some?
    ensures s != [] && AllDigits(if s[0] == '+' || s[0] == '-' then s[1..] else s)
  {
  }
}
