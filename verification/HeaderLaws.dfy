/** What parsing header text means: it composes, it stops, and it undoes folding. */
module HeaderLaws {
  import opened Headers

  /** Text that ends where a line ends. */
  predicate CompleteLines(text: string) {
    text == "" || text[|text| - 1] == '\n'
  }

  predicate HasBlankLine(text: string) {
    "" in Lines(text)
  }

  predicate StartsBlank(text: string) {
    text != "" && (text[0] == ' ' || text[0] == '\t')
  }

  /** The first line of a text that has a line feed, and what follows it. */
  lemma SplitFirstLine(a: string) returns (line: string, rest: string)
    requires '\n' in a
    ensures a == line + "\n" + rest && '\n' !in line
    ensures CompleteLines(a) ==> CompleteLines(rest)
  {
    var i := Find(a, '\n');
    assert a[..|a|] == a;
    line, rest := a[..i], a[i + 1..];
  }

  lemma {:induction false} LinesConcat(a: string, b: string)
    requires CompleteLines(a)
    ensures Lines(a + b) == Lines(a) + Lines(b)
    decreases |a|
  {
    if a == "" {
      assert a + b == b;
    } else {
      assert a[|a| - 1] in a;
      var line, rest := SplitFirstLine(a);
      LinesConcat(rest, b);
      OneLineMore(line, rest, b);
    }
  }

  lemma OneLineMore(line: string, rest: string, b: string)
    requires '\n' !in line && Lines(rest + b) == Lines(rest) + Lines(b)
    ensures Lines(line + "\n" + rest + b) == Lines(line + "\n" + rest) + Lines(b)
  {
    Associate(line, rest, b);
    LinesStep(line, rest);
    LinesStep(line, rest + b);
    AssociateLines([StripCr(line)], Lines(rest), Lines(b));
  }

  lemma AssociateLines(a: seq<string>, b: seq<string>, c: seq<string>)
    ensures a + (b + c) == a + b + c
  {
  }

  lemma Associate(line: string, rest: string, b: string)
    ensures line + "\n" + rest + b == line + "\n" + (rest + b)
  {
  }

  // ---------- composition ----------

  /** Lines that start a field do not touch the ones already there. */
  lemma {:induction false} UnfoldedAfter(lines: seq<string>, done: seq<string>, more: seq<string>)
    requires more != [] || lines == [] || !IsContinuation(lines[0])
    ensures Unfolded(lines, done + more) == done + Unfolded(lines, more)
    decreases |lines|
  {
    if lines != [] && lines[0] != "" {
      var all := done + more;
      if IsContinuation(lines[0]) {
        var last := more[|more| - 1] + " " + TrimStart(lines[0]);
        assert all[|all| - 1 := last] == done + more[|more| - 1 := last];
        UnfoldedAfter(lines[1..], done, more[|more| - 1 := last]);
      } else {
        assert all + [lines[0]] == done + (more + [lines[0]]);
        UnfoldedAfter(lines[1..], done, more + [lines[0]]);
      }
    }
  }

  lemma {:induction false} UnfoldedConcat(a: seq<string>, b: seq<string>, done: seq<string>)
    ensures Unfolded(a + b, done) == if "" in a then Unfolded(a, done) else Unfolded(b, Unfolded(a, done))
    decreases |a|
  {
    if a == [] {
      assert a + b == b;
    } else {
      assert (a + b)[0] == a[0] && (a + b)[1..] == a[1..] + b;
      assert "" in a <==> a[0] == "" || "" in a[1..];
      if a[0] != "" {
        var done' := if !IsContinuation(a[0]) then done + [a[0]]
                     else if done == [] then []
                     else done[|done| - 1 := done[|done| - 1] + " " + TrimStart(a[0])];
        UnfoldedConcat(a[1..], b, done');
      }
    }
  }

  lemma FirstLineStart(text: string)
    requires text != "" && !StartsBlank(text)
    ensures Lines(text) != [] && !IsContinuation(Lines(text)[0])
  {
    var i := Find(text, '\n');
    if i < |text| && StripCr(text[..i]) != "" {
      assert StripCr(text[..i])[0] == text[0];
    }
  }

  /** Two header blocks, one after the other, parse to the key-by-key merge of the two. */
  lemma ParseComposes(a: string, b: string)
    requires CompleteLines(a) && !HasBlankLine(a) && !StartsBlank(b)
    ensures Parsed(a + b) == Merged(Parsed(a), Parsed(b))
  {
    var first := Unfolded(Lines(a), []);
    LinesConcat(a, b);
    UnfoldedConcat(Lines(a), Lines(b), []);
    if b != "" { FirstLineStart(b); }
    UnfoldedAfter(Lines(b), first, []);
    assert first + [] == first;
    AllFieldsConcat(first, Unfolded(Lines(b), []));
    GroupedConcat(Fields(a), Fields(b));
  }

  /** Text after the first empty line never matters. */
  lemma ParseStopsAtBlankLine(a: string, blank: string, rest: string)
    requires CompleteLines(a) && (blank == "\n" || blank == "\r\n")
    ensures Parsed(a + blank + rest) == Parsed(a)
  {
    var cr := if blank == "\n" then "" else "\r";
    assert a + blank + rest == a + (cr + "\n" + rest);
    LinesConcat(a, cr + "\n" + rest);
    LinesStep(cr, rest);
    assert StripCr(cr) == "";
    UnfoldedConcat(Lines(a), [""] + Lines(rest), []);
  }

  // ---------- folding ----------

  predicate IsLineBreak(s: string) {
    s == "\n" || s == "\r\n"
  }

  predicate IsBlankRun(s: string) {
    s != "" && forall i :: 0 <= i < |s| ==> s[i] == ' ' || s[i] == '\t'
  }

  /** A space with a visible character on either side may be folded. */
  predicate Foldable(before: string, after: string) {
    && before != "" && !IsWhitespace(before[|before| - 1])
    && after != "" && !IsWhitespace(after[0])
  }

  lemma {:induction false} TrimStartOfRun(ws: string, s: string)
    requires (forall i :: 0 <= i < |ws| ==> IsWhitespace(ws[i])) && s != "" && !IsWhitespace(s[0])
    ensures TrimStart(ws + s) == s
  {
    if ws == "" {
      assert ws + s == s;
    } else {
      assert (ws + s)[1..] == ws[1..] + s;
      TrimStartOfRun(ws[1..], s);
    }
  }

  lemma {:induction false} TrimStartBefore(s: string, more: string)
    requires s != "" && !IsWhitespace(s[|s| - 1])
    ensures TrimStart(s + more) == TrimStart(s) + more
  {
    if IsWhitespace(s[0]) {
      assert (s + more)[1..] == s[1..] + more;
      TrimStartBefore(s[1..], more);
    }
  }

  /** One fold leaves the logical lines as they were, whatever came before. */
  lemma FoldedLinesUnfold(q: string, ws: string, b: string, rest: seq<string>, done: seq<string>)
    requires Foldable(q, b) && IsBlankRun(ws)
    ensures Unfolded([q, ws + b] + rest, done) == Unfolded([q + " " + b] + rest, done)
  {
    var whole := q + " " + b;
    var folded := [q, ws + b] + rest;
    assert folded[1..] == [ws + b] + rest && ([ws + b] + rest)[1..] == rest && ([whole] + rest)[1..] == rest;
    assert (ws + b)[0] == ws[0] && IsContinuation(ws + b) && whole[0] == q[0];
    TrimStartOfRun(ws, b);
    if IsContinuation(q) {
      TrimStartBefore(q, " " + b);
      assert whole == q + (" " + b);
      if done != [] {
        var last := done[|done| - 1];
        var step := done[|done| - 1 := last + " " + TrimStart(q)];
        assert step[|step| - 1 := step[|step| - 1] + " " + b] == done[|done| - 1 := last + " " + TrimStart(whole)] by {
          assert last + " " + TrimStart(q) + " " + b == last + " " + (TrimStart(q) + (" " + b));
        }
      }
    } else {
      var step := done + [q];
      assert step[|step| - 1 := q + " " + b] == done + [whole];
    }
  }

  /** The start of the last line of a text. */
  function LastLineStart(a: string): (k: nat)
    ensures k <= |a| && CompleteLines(a[..k]) && '\n' !in a[k..]
  {
    if a == "" then 0
    else if a[|a| - 1] == '\n' then |a|
    else
      var k := LastLineStart(a[..|a| - 1]);
      assert a[k..] == a[..|a| - 1][k..] + [a[|a| - 1]];
      assert a[..k] == a[..|a| - 1][..k];
      k
  }

  /** The first line of `head + b`, when `b` starts with a visible character. */
  lemma FirstLine(head: string, b: string)
    requires '\n' !in head && b != "" && !IsWhitespace(b[0])
    ensures Lines(b) != [] && Lines(b)[0] != "" && Lines(b)[0][0] == b[0]
    ensures Lines(head + b) == [head + Lines(b)[0]] + Lines(b)[1..]
  {
    if '\n' in b {
      var line, rest := SplitFirstLine(b);
      assert b[0] == (line + "\n")[0];
      assert line[0] == b[0];
      Associate2(head, line, rest);
      LinesStep(line, rest);
      LinesStep(head + line, rest);
      StripCrAfter(head, line);
    } else {
      LastLine(b);
      LastLine(head + b);
    }
  }

  lemma Associate2(head: string, line: string, rest: string)
    ensures head + (line + "\n" + rest) == (head + line) + "\n" + rest
  {
  }

  lemma StripCrAfter(head: string, line: string)
    requires line != "" && !IsWhitespace(line[0])
    ensures StripCr(head + line) == head + StripCr(line) && StripCr(line) != "" && StripCr(line)[0] == line[0]
  {
  }

  /** The last line of `a`, which holds a visible character, and what precedes it. */
  lemma SplitLastLine(a: string) returns (p: string, q: string)
    requires a != "" && !IsWhitespace(a[|a| - 1])
    ensures a == p + q && CompleteLines(p) && '\n' !in q
    ensures q != "" && q[|q| - 1] == a[|a| - 1]
  {
    var k := LastLineStart(a);
    p, q := a[..k], a[k..];
    assert a == p + q;
    assert q == "" ==> a == p;
  }

  lemma BreakAfter(q: string, br: string, text: string)
    requires q != "" && !IsWhitespace(q[|q| - 1]) && '\n' !in q && IsLineBreak(br)
    ensures Lines(q + br + text) == [q] + Lines(text)
  {
    if br == "\n" {
      LinesStep(q, text);
    } else {
      LinesStep(q + "\r", text);
      assert q + "\r\n" + text == (q + "\r") + "\n" + text;
      assert (q + "\r")[..|q|] == q;
    }
  }

  /** The lines of a text from its last unfolded line on, folded. */
  lemma FoldedLines(q: string, br: string, ws: string, b: string)
    requires Foldable(q, b) && IsLineBreak(br) && IsBlankRun(ws) && '\n' !in q
    ensures Lines(b) != [] && Lines(b)[0] != "" && Lines(b)[0][0] == b[0]
    ensures Lines(q + br + (ws + b)) == [q, ws + Lines(b)[0]] + Lines(b)[1..]
  {
    FirstLine(ws, b);
    BreakAfter(q, br, ws + b);
    PairThenRest(q, ws + Lines(b)[0], Lines(b)[1..]);
  }

  lemma PairThenRest(a: string, b: string, rest: seq<string>)
    ensures [a] + ([b] + rest) == [a, b] + rest
  {
  }

  /** Replacing one such space by a line break and any run of blanks changes nothing. */
  lemma FoldingOnceIsUndone(a: string, br: string, ws: string, b: string)
    requires Foldable(a, b) && IsLineBreak(br) && IsBlankRun(ws)
    ensures Parsed(a + br + ws + b) == Parsed(a + " " + b)
  {
    var p, q := SplitLastLine(a);
    var folded, plain := q + br + (ws + b), q + " " + b;
    assert a + br + ws + b == p + folded;
    assert a + " " + b == p + plain;
    LinesConcat(p, folded);
    LinesConcat(p, plain);
    FoldedLines(q, br, ws, b);
    FirstLine(q + " ", b);
    UnfoldedConcat(Lines(p), Lines(folded), []);
    UnfoldedConcat(Lines(p), Lines(plain), []);
    FoldedLinesUnfold(q, ws, Lines(b)[0], Lines(b)[1..], Unfolded(Lines(p), []));
  }

  /** One text is another with one space folded. */
  ghost predicate FoldStep(s: string, t: string) {
    exists a, br, ws, b :: Foldable(a, b) && IsLineBreak(br) && IsBlankRun(ws)
                           && s == a + " " + b && t == a + br + ws + b
  }

  /** Each text of the chain is the one before it with one more space folded. */
  ghost predicate FoldChain(texts: seq<string>) {
    forall i :: 0 < i < |texts| ==> FoldStep(texts[i - 1], texts[i])
  }

  /** Folding any number of times is undone by parsing. */
  lemma {:induction false} FoldingIsUndone(texts: seq<string>)
    requires texts != [] && FoldChain(texts)
    ensures Parsed(texts[|texts| - 1]) == Parsed(texts[0])
  {
    if |texts| > 1 {
      var n := |texts| - 1;
      FoldingIsUndone(texts[..n]);
      assert FoldStep(texts[n - 1], texts[n]);
      var a, br, ws, b :| Foldable(a, b) && IsLineBreak(br) && IsBlankRun(ws)
                          && texts[n - 1] == a + " " + b && texts[n] == a + br + ws + b;
      FoldingOnceIsUndone(a, br, ws, b);
    }
  }

  // ---------- one field ----------

  /** `t` is `s` without the whitespace around it: what is cut off is whitespace, and what
      is left neither starts nor ends with any. */
  ghost predicate IsTrimmed(s: string, t: string) {
    && (exists i, j :: 0 <= i <= j <= |s| && t == s[i..j] && AllWhitespace(s[..i]) && AllWhitespace(s[j..]))
    && (t != "" ==> !IsWhitespace(t[0]) && !IsWhitespace(t[|t| - 1]))
  }

  predicate AllWhitespace(s: string) {
    forall k :: 0 <= k < |s| ==> IsWhitespace(s[k])
  }

  /** `t` is `s` with each capital letter from A to Z replaced by its small letter. */
  predicate IsLowered(s: string, t: string) {
    && |t| == |s|
    && (forall k :: 0 <= k < |s| ==>
          t[k] as int == s[k] as int + if 'A' as int <= s[k] as int <= 'Z' as int then 32 else 0)
  }

  lemma {:induction false} TrimStartCuts(s: string)
    ensures var t := TrimStart(s);
            && |t| <= |s| && t == s[|s| - |t|..] && AllWhitespace(s[..|s| - |t|])
            && (t != "" ==> !IsWhitespace(t[0]))
  {
    if s != "" && IsWhitespace(s[0]) {
      TrimStartCuts(s[1..]);
      var n := |s| - |TrimStart(s)|;
      assert s[1..][n - 1..] == s[n..];
      assert forall k :: 0 < k < n ==> s[k] == s[1..][..n - 1][k - 1];
    }
  }

  lemma {:induction false} TrimEndCuts(s: string)
    ensures var t := TrimEnd(s);
            && |t| <= |s| && t == s[..|t|] && AllWhitespace(s[|t|..])
            && (t != "" ==> !IsWhitespace(t[|t| - 1]))
  {
    if s != "" && IsWhitespace(s[|s| - 1]) {
      var init := s[..|s| - 1];
      TrimEndCuts(init);
      var n := |TrimEnd(s)|;
      assert forall k :: n <= k < |init| ==> s[k] == init[n..][k - n];
    }
  }

  lemma TrimIsTrimmed(s: string)
    ensures IsTrimmed(s, Trim(s))
  {
    var u := TrimEnd(s);
    var t := TrimStart(u);
    TrimEndCuts(s);
    TrimStartCuts(u);
    var i, j := |u| - |t|, |u|;
    assert t == s[i..j] && s[..i] == u[..i];
    if t != "" { assert t[|t| - 1] == u[|u| - 1]; }
  }

  lemma LowerIsLowered(s: string)
    ensures IsLowered(s, Lower(s))
  {
  }

  /** A line that is one logical line. */
  lemma OneLine(line: string, br: string)
    requires '\n' !in line && line != "" && !IsContinuation(line) && (br == "" || IsLineBreak(br))
    ensures Fields(line + br) == FieldsOf(line)
  {
    if br == "" {
      assert line + br == line && line[..|line|] == line;
      FindUnique(line, '\n', |line|);
      OneLogicalLine(line);
    } else if br == "\n" {
      LinesOfOne(line);
      OneLogicalLine(StripCr(line));
      FieldDropsCr(line);
    } else {
      assert line + br == (line + "\r") + "\n";
      LinesOfOne(line + "\r");
      assert StripCr(line + "\r") == line;
      OneLogicalLine(line);
    }
  }

  lemma LinesOfOne(line: string)
    requires '\n' !in line
    ensures Lines(line + "\n") == [StripCr(line)]
  {
    assert line + "\n" == line + "\n" + "";
    LinesStep(line, "");
    assert Lines("") == [];
    assert [StripCr(line)] + [] == [StripCr(line)];
  }

  lemma OneLogicalLine(line: string)
    requires !IsContinuation(line) && (line != "" || FieldsOf(line) == [])
    ensures AllFields(Unfolded([line], [])) == FieldsOf(line)
  {
    assert [line][1..] == [];
    if line != "" {
      assert Unfolded([line], []) == [] + [line];
      assert [] + [line] == [line];
      FieldsCons(line, []);
      assert [line] + [] == [line];
    }
  }

  lemma FieldOfPair(name: string, value: string)
    requires ':' !in name
    ensures FieldsOf(name + ":" + value) == [Field(Lower(Trim(name)), Trim(value))]
  {
    var line := name + ":" + value;
    assert line[..|name|] == name && line[|name| + 1..] == value;
    FindUnique(line, ':', |name|);
  }

  /** A line `name:value` parses to one entry: the name, trimmed and in small letters, with
      the trimmed value. */
  lemma OneField(name: string, value: string, br: string) returns (trimmed: string, key: string, v: string)
    requires name != "" && ':' !in name && '\n' !in name && name[0] != ' ' && name[0] != '\t'
    requires '\n' !in value && (br == "" || IsLineBreak(br))
    ensures Parsed(name + ":" + value + br) == map[key := v]
    ensures IsTrimmed(name, trimmed) && IsLowered(trimmed, key) && IsTrimmed(value, v)
  {
    trimmed, key, v := Trim(name), Lower(Trim(name)), Trim(value);
    var line := name + ":" + value;
    assert line[0] == name[0];
    OneLine(line, br);
    FieldOfPair(name, value);
    GroupedOne(Field(key, v));
    TrimIsTrimmed(name);
    TrimIsTrimmed(value);
    LowerIsLowered(trimmed);
  }

  /** A line without a colon adds nothing. */
  lemma NoColonNoField(line: string, br: string)
    requires line != "" && ':' !in line && '\n' !in line && line[0] != ' ' && line[0] != '\t'
    requires br == "" || IsLineBreak(br)
    ensures Parsed(line + br) == map[]
  {
    OneLine(line, br);
    assert line[..|line|] == line;
    FindUnique(line, ':', |line|);
  }

  /** Continuation lines before the first field are ignored. */
  lemma OrphanContinuation(line: string, rest: string)
    requires line != "" && '\n' !in line && (line[0] == ' ' || line[0] == '\t')
    ensures Parsed(line + "\n" + rest) == Parsed(rest)
  {
    LinesStep(line, rest);
    assert IsContinuation(StripCr(line));
    assert ([StripCr(line)] + Lines(rest))[1..] == Lines(rest);
  }
}
