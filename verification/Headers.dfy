/** Parsing of RFC 5322 header fields: unfolding, splitting, grouping. */
module Headers {

  // ---------- text ----------

  /** The characters with the Unicode White_Space property. */
  predicate IsWhitespace(c: char) {
    var n := c as int;
    || 9 <= n <= 13 || n == 32 || n == 0x85 || n == 0xA0 || n == 0x1680
    || 0x2000 <= n <= 0x200A || n == 0x2028 || n == 0x2029 || n == 0x202F || n == 0x205F || n == 0x3000
  }

  function TrimStart(s: string): string {
    if s != "" && IsWhitespace(s[0]) then TrimStart(s[1..]) else s
  }

  function TrimEnd(s: string): string {
    if s != "" && IsWhitespace(s[|s| - 1]) then TrimEnd(s[..|s| - 1]) else s
  }

  function Trim(s: string): string {
    TrimStart(TrimEnd(s))
  }

  function LowerChar(c: char): char {
    if 'A' <= c <= 'Z' then c - 'A' + 'a' else c
  }

  function Lower(s: string): string {
    seq(|s|, i requires 0 <= i < |s| => LowerChar(s[i]))
  }

  /** The position of the first `c`, or the length when there is none. */
  function Find(s: string, c: char): (i: nat)
    ensures i <= |s| && c !in s[..i] && (i < |s| ==> s[i] == c)
  {
    if s == "" || s[0] == c then 0 else
      var i := 1 + Find(s[1..], c);
      assert s[..i] == [s[0]] + s[1..][..i - 1];
      i
  }

  function StripCr(line: string): string {
    if line != "" && line[|line| - 1] == '\r' then line[..|line| - 1] else line
  }

  /** Lines end in LF or CRLF; the last one may lack its end. */
  function Lines(text: string): seq<string>
    decreases |text|
  {
    if text == "" then []
    else
      var i := Find(text, '\n');
      if i == |text| then [text] else [StripCr(text[..i])] + Lines(text[i + 1..])
  }

  // ---------- specification ----------

  predicate IsContinuation(line: string) {
    line != "" && (line[0] == ' ' || line[0] == '\t')
  }

  /** The logical lines before the first empty line, after those in `done`. */
  function Unfolded(lines: seq<string>, done: seq<string>): seq<string>
    decreases |lines|
  {
    if lines == [] || lines[0] == "" then done
    else if IsContinuation(lines[0]) then
      Unfolded(lines[1..],
               if done == [] then []
               else done[|done| - 1 := done[|done| - 1] + " " + TrimStart(lines[0])])
    else
      Unfolded(lines[1..], done + [lines[0]])
  }

  datatype Field = Field(name: string, value: string)

  /** The field a logical line holds; a line without a colon holds none. */
  function FieldsOf(line: string): seq<Field> {
    var i := Find(line, ':');
    if i == |line| then [] else [Field(Lower(Trim(line[..i])), Trim(line[i + 1..]))]
  }

  function AllFields(lines: seq<string>): seq<Field> {
    if lines == [] then [] else FieldsOf(lines[0]) + AllFields(lines[1..])
  }

  function ValuesOf(fields: seq<Field>, name: string): seq<string> {
    if fields == [] then []
    else (if fields[0].name == name then [fields[0].value] else []) + ValuesOf(fields[1..], name)
  }

  function Join(values: seq<string>): string
    requires values != []
  {
    if |values| == 1 then values[0] else values[0] + ", " + Join(values[1..])
  }

  /** Each name that occurs, with its values in order of occurrence. */
  function Grouped(fields: seq<Field>): map<string, string> {
    map i | 0 <= i < |fields| :: fields[i].name := GroupValue(fields, fields[i].name)
  }

  function GroupValue(fields: seq<Field>, name: string): string {
    var values := ValuesOf(fields, name);
    if values == [] then "" else Join(values)
  }

  function Fields(text: string): seq<Field> {
    AllFields(Unfolded(Lines(text), []))
  }

  function Parsed(text: string): map<string, string> {
    Grouped(Fields(text))
  }

  // ---------- the parser ----------

  method ParseHeaders(text: string) returns (headers: map<string, string>)
    ensures headers == Parsed(text)
  {
    var unfolded := Unfold(text);
    LinesOfFlat(Unfolded(Lines(text), []));
    headers := ExtractFields(unfolded);
  }

  /** The first pass: continuation lines are appended to the line they continue. */
  method Unfold(text: string) returns (unfolded: string)
    ensures unfolded == Flat(Unfolded(Lines(text), []))
    ensures AllPlain(Unfolded(Lines(text), []))
  {
    var lines := Lines(text);
    unfolded := "";
    var prevWasHeader := false;
    ghost var done: seq<string> := [];
    var i := 0;
    assert lines[0..] == lines;
    while i < |lines| && lines[i] != ""
      invariant 0 <= i <= |lines|
      invariant prevWasHeader == (done != [])
      invariant unfolded == Flat(done)
      invariant AllPlain(done)
      invariant Unfolded(lines[i..], done) == Unfolded(lines, [])
    {
      var line := lines[i];
      assert lines[i..][1..] == lines[i + 1..];
      LinesHaveNoBreaks(text, i);
      if line[0] == ' ' || line[0] == '\t' {
        if prevWasHeader {
          TrimStartIsSuffix(line);
          FlatExtendLast(done, " " + TrimStart(line));
          ghost var last := done[|done| - 1] + (" " + TrimStart(line));
          assert last == done[|done| - 1] + " " + TrimStart(line);
          assert unfolded + " " + TrimStart(line) == unfolded + (" " + TrimStart(line));
          assert Plain(done[|done| - 1]) && Plain(last);
          done := done[|done| - 1 := last];
          unfolded := unfolded + " ";
          unfolded := unfolded + TrimStart(line);
        }
      } else {
        FlatConcat(done, [line]);
        assert Flat([line]) == "\n" + line;
        done := done + [line];
        unfolded := unfolded + "\n";
        unfolded := unfolded + line;
        prevWasHeader := true;
      }
      i := i + 1;
    }
  }

  /** The second pass: `name: value` pairs, values of one name joined by ", ". */
  method ExtractFields(unfolded: string) returns (headers: map<string, string>)
    ensures headers == Grouped(AllFields(Lines(unfolded)))
  {
    var lines := Lines(unfolded);
    headers := map[];
    var i := 0;
    while i < |lines|
      invariant 0 <= i <= |lines|
      invariant headers == Grouped(AllFields(lines[..i]))
    {
      var line := lines[i];
      GroupOneMore(lines, i);
      if line != "" {
        var colon := Find(line, ':');
        if colon < |line| {
          var name, value := Lower(Trim(line[..colon])), Trim(line[colon + 1..]);
          if name in headers {
            headers := headers[name := headers[name] + ", " + value];
          } else {
            headers := headers[name := value];
          }
        }
      }
      i := i + 1;
    }
    assert lines[..i] == lines;
  }

  predicate Plain(line: string) {
    line != "" && '\n' !in line
  }

  predicate AllPlain(lines: seq<string>) {
    forall i :: 0 <= i < |lines| ==> Plain(lines[i])
  }

  /** The intermediate text: every logical line after a line feed. */
  function Flat(lines: seq<string>): string {
    if lines == [] then "" else "\n" + lines[0] + Flat(lines[1..])
  }

  lemma {:induction false} FlatConcat(a: seq<string>, b: seq<string>)
    ensures Flat(a + b) == Flat(a) + Flat(b)
  {
    if a == [] {
      assert a + b == b;
    } else {
      assert (a + b)[0] == a[0] && (a + b)[1..] == a[1..] + b;
      FlatConcat(a[1..], b);
    }
  }

  lemma FlatExtendLast(lines: seq<string>, more: string)
    requires lines != []
    ensures Flat(lines[|lines| - 1 := lines[|lines| - 1] + more]) == Flat(lines) + more
  {
    var init, last := lines[..|lines| - 1], lines[|lines| - 1];
    assert lines == init + [last];
    assert lines[|lines| - 1 := last + more] == init + [last + more];
    FlatConcat(init, [last]);
    FlatConcat(init, [last + more]);
    assert [last][1..] == [] && [last + more][1..] == [];
  }

  lemma {:induction false} LinesHaveNoBreaks(text: string, i: nat)
    requires i < |Lines(text)|
    ensures '\n' !in Lines(text)[i]
    decreases |text|
  {
    var k := Find(text, '\n');
    if k == |text| {
      assert text[..k] == text;
    } else if i > 0 {
      LinesHaveNoBreaks(text[k + 1..], i - 1);
    } else {
      assert forall c | c in StripCr(text[..k]) :: c in text[..k];
    }
  }

  lemma {:induction false} TrimStartIsSuffix(s: string)
    ensures forall c | c in TrimStart(s) :: c in s
  {
    if s != "" && IsWhitespace(s[0]) { TrimStartIsSuffix(s[1..]); }
  }

  lemma {:induction false} AllFieldsConcat(a: seq<string>, b: seq<string>)
    ensures AllFields(a + b) == AllFields(a) + AllFields(b)
  {
    if a == [] {
      assert a + b == b;
    } else {
      assert (a + b)[0] == a[0] && (a + b)[1..] == a[1..] + b;
      AllFieldsConcat(a[1..], b);
    }
  }

  lemma {:induction false} ValuesOfConcat(a: seq<Field>, b: seq<Field>, name: string)
    ensures ValuesOf(a + b, name) == ValuesOf(a, name) + ValuesOf(b, name)
  {
    if a == [] {
      assert a + b == b;
    } else {
      assert (a + b)[0] == a[0] && (a + b)[1..] == a[1..] + b;
      ValuesOfConcat(a[1..], b, name);
    }
  }

  lemma {:induction false} JoinConcat(a: seq<string>, b: seq<string>)
    requires a != [] && b != []
    ensures Join(a + b) == Join(a) + ", " + Join(b)
  {
    if |a| == 1 {
      assert (a + b)[1..] == b;
    } else {
      assert (a + b)[1..] == a[1..] + b;
      JoinConcat(a[1..], b);
    }
  }

  lemma {:induction false} ValuesOccur(fields: seq<Field>, name: string)
    ensures ValuesOf(fields, name) != [] <==> exists i :: 0 <= i < |fields| && fields[i].name == name
  {
    if fields != [] {
      ValuesOccur(fields[1..], name);
      if fields[0].name != name && ValuesOf(fields, name) != [] {
        var i :| 0 <= i < |fields[1..]| && fields[1..][i].name == name;
        assert fields[i + 1].name == name;
      }
      if i :| 0 <= i < |fields| && fields[i].name == name {
        if i > 0 { assert fields[1..][i - 1].name == name; }
      }
    }
  }

  /** Grouping two runs of fields is merging their groups key by key. */
  lemma GroupedConcat(a: seq<Field>, b: seq<Field>)
    ensures Grouped(a + b) == Merged(Grouped(a), Grouped(b))
  {
    var c, m := a + b, Merged(Grouped(a), Grouped(b));
    forall name ensures name in Grouped(c) <==> name in m {
      GroupedHas(a, name); GroupedHas(b, name); GroupedHas(c, name);
      ValuesOfConcat(a, b, name);
    }
    forall name | name in m ensures Grouped(c)[name] == m[name] {
      GroupedHas(a, name); GroupedHas(b, name); GroupedHas(c, name);
      GroupValueConcat(a, b, name);
    }
  }

  lemma GroupedHas(fields: seq<Field>, name: string)
    ensures name in Grouped(fields) <==> ValuesOf(fields, name) != []
    ensures name in Grouped(fields) ==> Grouped(fields)[name] == GroupValue(fields, name)
  {
    ValuesOccur(fields, name);
  }

  lemma GroupValueConcat(a: seq<Field>, b: seq<Field>, name: string)
    ensures GroupValue(a + b, name) ==
            if ValuesOf(b, name) == [] then GroupValue(a, name)
            else if ValuesOf(a, name) == [] then GroupValue(b, name)
            else GroupValue(a, name) + ", " + GroupValue(b, name)
  {
    var va, vb := ValuesOf(a, name), ValuesOf(b, name);
    ValuesOfConcat(a, b, name);
    assert va + [] == va && [] + vb == vb;
    if va != [] && vb != [] { JoinConcat(va, vb); }
  }

  function Merged(a: map<string, string>, b: map<string, string>): map<string, string> {
    map name | name in a.Keys + b.Keys ::
      if name in a && name in b then a[name] + ", " + b[name] else if name in a then a[name] else b[name]
  }

  lemma GroupedExtend(fields: seq<Field>, f: Field)
    ensures var g := Grouped(fields);
            Grouped(fields + [f]) == g[f.name := if f.name in g then g[f.name] + ", " + f.value else f.value]
  {
    GroupedConcat(fields, [f]);
    GroupedOne(f);
  }

  lemma GroupedOne(f: Field)
    ensures Grouped([f]) == map[f.name := f.value]
  {
    assert ValuesOf([f], f.name) == [f.value] by { assert [f][1..] == []; }
    assert [f][0] == f;
    assert f.name in Grouped([f]);
  }

  lemma GroupOneMore(lines: seq<string>, i: nat)
    requires i < |lines|
    ensures var g, g' := Grouped(AllFields(lines[..i])), Grouped(AllFields(lines[..i + 1]));
            var fs := FieldsOf(lines[i]);
            g' == if fs == [] then g
                  else g[fs[0].name := if fs[0].name in g then g[fs[0].name] + ", " + fs[0].value else fs[0].value]
  {
    var fs := FieldsOf(lines[i]);
    assert lines[..i + 1] == lines[..i] + [lines[i]];
    AllFieldsConcat(lines[..i], [lines[i]]);
    FieldsCons(lines[i], []);
    assert [lines[i]] + [] == [lines[i]] && fs + [] == fs;
    if fs == [] {
      assert AllFields(lines[..i]) + fs == AllFields(lines[..i]);
    } else {
      assert fs == [fs[0]];
      GroupedExtend(AllFields(lines[..i]), fs[0]);
    }
  }

  // ---------- the second pass sees the logical lines ----------

  lemma TrimDropsCr(s: string)
    ensures Trim(StripCr(s)) == Trim(s)
  {
  }

  lemma {:induction false} FindUnique(s: string, c: char, i: nat)
    requires i <= |s| && c !in s[..i] && (i < |s| ==> s[i] == c)
    ensures Find(s, c) == i
  {
    var j := Find(s, c);
    assert forall k :: 0 <= k < j ==> s[k] == s[..j][k];
    assert forall k :: 0 <= k < i ==> s[k] == s[..i][k];
  }

  /** A carriage return left at the end of a line does not change its field. */
  lemma FieldDropsCr(line: string)
    ensures FieldsOf(StripCr(line)) == FieldsOf(line)
  {
    var i := Find(line, ':');
    var short := StripCr(line);
    if short != line {
      if i == |line| {
        assert short[..|short|] == short && forall c | c in short :: c in line[..i];
        FindUnique(short, ':', |short|);
      } else {
        assert short[..i] == line[..i];
        FindUnique(short, ':', i);
        assert short[i + 1..] == StripCr(line[i + 1..]);
        TrimDropsCr(line[i + 1..]);
      }
    }
  }

  lemma LinesStep(line: string, rest: string)
    requires '\n' !in line
    ensures Lines(line + "\n" + rest) == [StripCr(line)] + Lines(rest)
  {
    var text := line + "\n" + rest;
    assert text[..|line|] == line && text[|line| + 1..] == rest;
    FindUnique(text, '\n', |line|);
  }

  lemma LinesOfFlat(lines: seq<string>)
    requires AllPlain(lines)
    ensures AllFields(Lines(Flat(lines))) == AllFields(lines)
  {
    if lines != [] {
      var tail := Flat(lines)[1..];
      assert Flat(lines) == "" + "\n" + tail;
      LinesStep("", tail);
      assert Lines(Flat(lines)) == [""] + Lines(tail);
      FieldsCons("", Lines(tail));
      LinesOfFlatTail(lines);
    }
  }

  lemma FieldsCons(line: string, rest: seq<string>)
    ensures AllFields([line] + rest) == FieldsOf(line) + AllFields(rest)
  {
    assert ([line] + rest)[1..] == rest;
  }

  lemma {:induction false} LinesOfFlatTail(lines: seq<string>)
    requires lines != [] && AllPlain(lines)
    ensures AllFields(Lines(Flat(lines)[1..])) == AllFields(lines)
  {
    var line, rest := lines[0], lines[1..];
    assert Plain(line) && lines == [line] + rest;
    FieldsCons(line, rest);
    if rest == [] {
      assert Flat(lines)[1..] == line;
      LastLine(line);
      FieldsCons(line, []);
    } else {
      var tail := Flat(rest)[1..];
      assert Flat(lines)[1..] == line + "\n" + tail;
      LinesStep(line, tail);
      FieldsCons(StripCr(line), Lines(tail));
      FieldDropsCr(line);
      LinesOfFlatTail(rest);
    }
  }

  lemma LastLine(line: string)
    requires Plain(line)
    ensures Lines(line) == [line]
  {
    assert line[..|line|] == line;
    FindUnique(line, '\n', |line|);
  }
}
