/** `load::sanitize` (src/lib.rs): the clean-up applied to a `.vm` file
    before translation.  Every line is trimmed; blank lines and lines that
    are entirely a `//` comment are dropped; a trailing comment is cut off
    (the text before it is kept as it is, without trimming it again); every
    kept line is written back followed by "\n". */
module Load {
  import opened Strings

  /** A line as `sanitize` writes it: something to translate, no comment. */
  predicate CleanShape(l: string) {
    l != [] && !IsWhitespace(l[0]) && !HasSlashes(l)
  }

  /** What `sanitize` does with a trimmed line: drop it when it is empty or
      starts with "//", otherwise keep what precedes the first "//". */
  function CutComment(t: string): (r: Option<string>)
    ensures r.None? <==> t == [] || SlashesAt(t, 0)
    ensures r.Some? ==> var n := |r.value|;
      0 < n <= |t| && r.value == t[..n] && !HasSlashes(r.value) && (n == |t| || SlashesAt(t, n))
    ensures r.Some? ==> forall j :: 0 <= j < |r.value| ==> !SlashesAt(t, j)
  {
    if t == [] then None
    else if |t| >= 2 && t[..2] == "//" then None
    else
      var k := FindSlashes(t);
      PrefixWithoutSlashes(t, k);
      Some(t[..k])
  }

  /** A prefix that ends before the first "//" holds no "//". */
  lemma PrefixWithoutSlashes(t: string, k: nat)
    requires k <= |t|
    requires forall j :: 0 <= j < k ==> !SlashesAt(t, j)
    ensures !HasSlashes(t[..k])
  {
    forall j | 0 <= j < k ensures !SlashesAt(t[..k], j) {
      assert SlashesAt(t[..k], j) ==> SlashesAt(t, j);
    }
  }

  /** The tests `sanitize` makes, in its own order, decide `CutComment`. */
  lemma CutCommentSteps(t: string)
    ensures t == [] ==> CutComment(t).None?
    ensures t != [] && |t| >= 2 && t[..2] == "//" ==> CutComment(t).None?
    ensures t != [] && !(|t| >= 2 && t[..2] == "//") && HasSlashes(t) ==>
      CutComment(t) == Some(t[..FindSlashes(t)])
    ensures t != [] && !(|t| >= 2 && t[..2] == "//") && !HasSlashes(t) ==>
      CutComment(t) == Some(t)
  {
    if !HasSlashes(t) {
      assert t[..|t|] == t;
    }
  }

  /** What `sanitize` keeps of one input line; `None` when the line is dropped. */
  function CleanLine(line: string): (r: Option<string>)
    ensures r.None? <==> AllWhitespace(line) || SlashesAt(Trim(line), 0)
    ensures r.Some? ==> CleanShape(r.value)
    ensures r.Some? ==> var t := Trim(line); var n := |r.value|;
      n <= |t| && r.value == t[..n] && (n == |t| || SlashesAt(t, n))
    ensures r.Some? ==> forall j :: 0 <= j < |r.value| ==> !SlashesAt(Trim(line), j)
  {
    CutComment(Trim(line))
  }

  /** A kept line is a piece of the input line, so it holds no "\n" when the
      input line holds none. */
  lemma CleanLineNoNewline(line: string)
    requires CleanLine(line).Some?
    ensures '\n' !in line ==> '\n' !in CleanLine(line).value
  {
    var s := TrimStart(line);
    var t := TrimEnd(s);
    var r := CleanLine(line).value;
    assert forall i :: 0 <= i < |r| ==> r[i] == t[i] == s[i] == line[|line| - |s| + i];
  }

  /** Keeps `f(x).value` for every `x` with `f(x).Some?`, in order. */
  function FilterMap<T, U>(f: T -> Option<U>, xs: seq<T>): (ys: seq<U>)
    ensures |ys| <= |xs|
  {
    if xs == [] then []
    else
      var rest := FilterMap(f, xs[..|xs| - 1]);
      match f(xs[|xs| - 1])
      case None => rest
      case Some(y) => rest + [y]
  }

  /** Every kept element comes from some element of the input. */
  lemma {:induction false} FilterMapFrom<T, U>(f: T -> Option<U>, xs: seq<T>)
    ensures forall j :: 0 <= j < |FilterMap(f, xs)| ==>
      exists i :: 0 <= i < |xs| && f(xs[i]) == Some(FilterMap(f, xs)[j])
    decreases |xs|
  {
    if xs == [] {
      assert FilterMap(f, xs) == [];
    } else {
      var init := xs[..|xs| - 1];
      var last := xs[|xs| - 1];
      FilterMapFrom(f, init);
      var ys, rest := FilterMap(f, xs), FilterMap(f, init);
      forall j | 0 <= j < |ys|
        ensures exists i :: 0 <= i < |xs| && f(xs[i]) == Some(ys[j])
      {
        if j < |rest| {
          assert ys[j] == rest[j];
          var i :| 0 <= i < |init| && f(init[i]) == Some(rest[j]);
          assert xs[i] == init[i];
        } else {
          assert f(last) == Some(ys[j]);
        }
      }
    }
  }

  /** Filtering two pieces separately and joining the results is filtering
      the whole. */
  lemma {:induction false} FilterMapAppend<T, U>(f: T -> Option<U>, a: seq<T>, b: seq<T>)
    ensures FilterMap(f, a + b) == FilterMap(f, a) + FilterMap(f, b)
    decreases |b|
  {
    if b == [] {
      assert a + b == a;
    } else {
      var c := a + b;
      var b' := b[..|b| - 1];
      assert c[..|c| - 1] == a + b';
      assert c[|c| - 1] == b[|b| - 1];
      FilterMapAppend(f, a, b');
    }
  }

  /** The lines `sanitize` keeps, in input order. */
  function CleanLines(ls: seq<string>): (out: seq<string>)
    ensures |out| <= |ls|
  {
    FilterMap(CleanLine, ls)
  }

  /** Every kept line is clean, and none holds a "\n" if no input line did. */
  lemma CleanLinesShape(ls: seq<string>)
    ensures forall j :: 0 <= j < |CleanLines(ls)| ==> CleanShape(CleanLines(ls)[j])
    ensures (forall i :: 0 <= i < |ls| ==> '\n' !in ls[i]) ==>
              forall j :: 0 <= j < |CleanLines(ls)| ==> '\n' !in CleanLines(ls)[j]
  {
    var out := CleanLines(ls);
    FilterMapFrom(CleanLine, ls);
    forall j | 0 <= j < |out|
      ensures CleanShape(out[j])
      ensures (forall i :: 0 <= i < |ls| ==> '\n' !in ls[i]) ==> '\n' !in out[j]
    {
      var i :| 0 <= i < |ls| && CleanLine(ls[i]) == Some(out[j]);
      CleanLineNoNewline(ls[i]);
    }
  }

  /** One more input line adds its cleaned form, if any, at the end. */
  lemma CleanLinesSnoc(ls: seq<string>, line: string)
    ensures CleanLines(ls + [line]) == CleanLines(ls) + match CleanLine(line)
      case None => []
      case Some(l) => [l]
  {
    assert (ls + [line])[..|ls|] == ls;
  }

  /** Dropping lines never reorders the others: cleaning two pieces of a file
      separately and putting the results together is cleaning the file. */
  lemma CleanLinesAppend(a: seq<string>, b: seq<string>)
    ensures CleanLines(a + b) == CleanLines(a) + CleanLines(b)
  {
    FilterMapAppend(CleanLine, a, b);
  }

  /** `load::sanitize`, the loop over `lines()` that appends each kept line
      and a "\n". */
  method Sanitize(fileContent: string) returns (sanitized: string)
    ensures sanitized == Render(CleanLines(Lines(fileContent)))
  {
    sanitized := "";
    var lines := Lines(fileContent);
    for i := 0 to |lines|
      invariant sanitized == Render(CleanLines(lines[..i]))
    {
      PrefixSnoc(lines, i);
      CleanLinesSnoc(lines[..i], lines[i]);
      ghost var before := sanitized;
      var line := Trim(lines[i]);
      CutCommentSteps(line);
      if line == [] {
        continue;
      }
      if |line| >= 2 && line[..2] == "//" {
        continue;
      }
      if HasSlashes(line) {
        var commentIndex := FindSlashes(line);
        sanitized := sanitized + line[..commentIndex];
      } else {
        sanitized := sanitized + line;
      }
      sanitized := sanitized + "\n";
      assert sanitized == before + CutComment(line).value + "\n";
    }
    assert lines[..|lines|] == lines;
  }

  /** A clean line keeps its first character when a trailing "\r" is dropped,
      so it still starts with a command word. */
  lemma CleanLineHasWord(k: string)
    requires CleanShape(k)
    ensures Tokens(StripCR(k)) != []
  {
    var l := StripCR(k);
    assert l != [] && l[0] == k[0];
    TokensOfNonBlank(l);
  }

  /** The sanitised text, read back with `lines()`, gives the kept lines
      (a line that happens to end in "\r" loses it), and every one of them
      starts with a command word, so the first `unwrap` of `parse_line`
      cannot fail on it. */
  lemma SanitizedLines(fileContent: string)
    ensures var kept := CleanLines(Lines(fileContent));
      Lines(Render(kept)) == StripCRs(kept)
    ensures forall l :: l in Lines(Render(CleanLines(Lines(fileContent)))) ==> Tokens(l) != []
  {
    var kept := CleanLines(Lines(fileContent));
    CleanLinesShape(Lines(fileContent));
    LinesOfRender(kept);
    forall j | 0 <= j < |kept| ensures Tokens(StripCRs(kept)[j]) != [] {
      CleanLineHasWord(kept[j]);
    }
  }
}
