/** Reading `@fluxbase:` annotations from the comment lines of a tool's source. */
module Annotations {
  import opened Options

  /** An annotation without a value is just true; otherwise its value is text. */
  datatype Value = Flag | Text(text: string)

  datatype Annotation = Annotation(key: string, value: Value)

  /** The name override asserts that its value is text, and fails on a bare `name`. */
  datatype Result = Panic | Parsed(name: string, annotations: map<string, Value>)

  // ---------- Strings ----------

  /** White space as Unicode defines it. */
  predicate IsSpace(c: char) {
    var n := c as int;
    n == 32 || 9 <= n <= 13 || n == 0x85 || n == 0xA0 || n == 0x1680 || 0x2000 <= n <= 0x200A ||
    n == 0x2028 || n == 0x2029 || n == 0x202F || n == 0x205F || n == 0x3000
  }

  function TrimLeft(s: string): (r: string)
    ensures |r| <= |s| && s[|s| - |r|..] == r
  {
    if s == "" || !IsSpace(s[0]) then s else TrimLeft(s[1..])
  }

  function TrimRight(s: string): (r: string)
    ensures |r| <= |s| && s[..|r|] == r
    ensures r == "" || !IsSpace(r[|r| - 1])
  {
    if s == "" || !IsSpace(s[|s| - 1]) then s else TrimRight(s[..|s| - 1])
  }

  function Trim(s: string): string {
    TrimRight(TrimLeft(s))
  }

  /** The position of the first blank, or the length. */
  function FirstBlank(s: string): (r: nat)
    ensures r <= |s| && ' ' !in s[..r]
    ensures r < |s| ==> s[r] == ' '
  {
    if s == "" || s[0] == ' ' then 0
    else
      var r := 1 + FirstBlank(s[1..]);
      assert s[..r] == [s[0]] + s[1..][..r - 1];
      r
  }

  function AddChar(lines: seq<string>, c: char): (r: seq<string>)
    requires |lines| >= 1
    ensures |r| >= 1
  {
    if c == '\n' then lines + [""] else lines[..|lines| - 1] + [lines[|lines| - 1] + [c]]
  }

  /** The pieces of the code between newlines. */
  function Lines(code: string): (r: seq<string>)
    ensures |r| >= 1
  {
    if code == "" then [""] else AddChar(Lines(code[..|code| - 1]), code[|code| - 1])
  }

  // ---------- Parsing ----------

  const COMMENT := "//"
  const MARK := "@fluxbase:"

  /** Splits an annotation body at its first blank. */
  function ParseBody(body: string): Annotation {
    var blank := FirstBlank(body);
    Annotation(body[..blank], if blank < |body| then Text(Trim(body[blank + 1..])) else Flag)
  }

  function ParseLine(line: string): Option<Annotation> {
    var trimmed := Trim(line);
    if !(COMMENT <= trimmed) then None
    else
      var comment := Trim(trimmed[|COMMENT|..]);
      if MARK <= comment then Some(ParseBody(comment[|MARK|..])) else None
  }

  function Collect(lines: seq<string>): map<string, Value> {
    if lines == [] then map[]
    else
      var before := Collect(lines[..|lines| - 1]);
      match ParseLine(lines[|lines| - 1])
      case None => before
      case Some(a) => before[a.key := a.value]
  }

  function NameOf(lines: seq<string>, default: string): string {
    if lines == [] then default
    else
      match ParseLine(lines[|lines| - 1])
      case Some(Annotation("name", Text(text))) => text
      case _ => NameOf(lines[..|lines| - 1], default)
  }

  /** Some line is a name annotation without a value. */
  ghost predicate BareName(lines: seq<string>) {
    exists i :: 0 <= i < |lines| && ParseLine(lines[i]) == Some(Annotation("name", Flag))
  }

  function DefaultName(filename: string): string {
    var stem := if |filename| >= 3 && filename[|filename| - 3..] == ".ts" then filename[..|filename| - 3] else filename;
    seq(|stem|, i requires 0 <= i < |stem| => if stem[i] == '-' then '_' else stem[i])
  }

  ghost function Parse(code: string, filename: string): Result {
    if BareName(Lines(code)) then Panic else Parsed(NameOf(Lines(code), DefaultName(filename)), Collect(Lines(code)))
  }

  method ParseMCPAnnotations(code: string, filename: string) returns (r: Result)
    ensures r == Parse(code, filename)
  {
    hide ParseLine, Lines, DefaultName;
    var annotations: map<string, Value> := map[];
    var name := DefaultName(filename);
    var lines := Lines(code);
    for i := 0 to |lines|
      invariant annotations == Collect(lines[..i]) && name == NameOf(lines[..i], DefaultName(filename))
      invariant !BareName(lines[..i])
    {
      assert lines[..i + 1][..i] == lines[..i];
      var found := ParseLine(lines[i]);
      if found.Some? {
        var Annotation(key, value) := found.value;
        annotations := annotations[key := value];
        if key == "name" {
          if value.Flag? {
            return Panic;
          }
          name := value.text;
        }
      }
    }
    assert lines[..|lines|] == lines;
    r := Parsed(name, annotations);
  }

  // ---------- Joining sources ----------

  lemma AddCharConcat(a: seq<string>, b: seq<string>, c: char)
    requires |b| >= 1
    ensures AddChar(a + b, c) == a + AddChar(b, c)
  {
    assert (a + b)[..|a + b| - 1] == a + b[..|b| - 1];
  }

  lemma LinesSnoc(code: string)
    requires code != ""
    ensures Lines(code) == AddChar(Lines(code[..|code| - 1]), code[|code| - 1])
  {
  }

  lemma {:induction false} LinesConcat(a: string, b: string)
    ensures Lines(a + "\n" + b) == Lines(a) + Lines(b)
  {
    var whole := a + "\n" + b;
    if b == "" {
      assert whole[..|whole| - 1] == a;
    } else {
      LinesSnoc(whole);
      LinesSnoc(b);
      hide AddChar, Lines;
      var init := b[..|b| - 1];
      LinesConcat(a, init);
      assert whole[..|whole| - 1] == a + "\n" + init;
      AddCharConcat(Lines(a), Lines(init), b[|b| - 1]);
    }
  }

  lemma {:induction false} CollectConcat(a: seq<string>, b: seq<string>)
    ensures Collect(a + b) == Collect(a) + Collect(b)
  {
    hide ParseLine;
    if b == [] {
      assert a + b == a;
    } else {
      assert (a + b)[..|a + b| - 1] == a + b[..|b| - 1];
      CollectConcat(a, b[..|b| - 1]);
    }
  }

  lemma {:induction false} NameConcat(a: seq<string>, b: seq<string>, default: string)
    ensures NameOf(a + b, default) == NameOf(b, NameOf(a, default))
  {
    hide ParseLine;
    if b == [] {
      assert a + b == a;
    } else {
      assert (a + b)[..|a + b| - 1] == a + b[..|b| - 1];
      NameConcat(a, b[..|b| - 1], default);
    }
  }

  lemma BareConcat(a: seq<string>, b: seq<string>)
    ensures BareName(a + b) <==> BareName(a) || BareName(b)
  {
    hide ParseLine;
    if i :| 0 <= i < |a| && ParseLine(a[i]) == Some(Annotation("name", Flag)) {
      assert (a + b)[i] == a[i];
    }
    if i :| 0 <= i < |b| && ParseLine(b[i]) == Some(Annotation("name", Flag)) {
      assert (a + b)[|a| + i] == b[i];
    }
  }

  lemma {:induction false} CollectedKeys(lines: seq<string>, key: string)
    ensures key in Collect(lines) <==> exists i :: 0 <= i < |lines| && Sets(lines[i], key)
  {
    hide ParseLine;
    if lines != [] {
      var init := lines[..|lines| - 1];
      CollectedKeys(init, key);
      assert forall i :: 0 <= i < |init| ==> init[i] == lines[i];
    }
  }

  /** The last line that sets a key decides its value. */
  lemma {:induction false} LastLineWins(lines: seq<string>, key: string, i: nat)
    requires i < |lines|
    ensures Sets(lines[i], key) && (forall j :: i < j < |lines| ==> !Sets(lines[j], key)) ==>
              key in Collect(lines) && Collect(lines)[key] == ParseLine(lines[i]).value.value
  {
    hide ParseLine;
    if i < |lines| - 1 {
      LastLineWins(lines[..|lines| - 1], key, i);
    }
  }

  ghost predicate Sets(line: string, key: string) {
    ParseLine(line).Some? && ParseLine(line).value.key == key
  }

  // ---------- Rendering and reading back ----------

  function RenderBody(a: Annotation): string {
    match a.value
    case Flag => a.key
    case Text(text) => a.key + " " + text
  }

  function RenderLine(a: Annotation): string {
    COMMENT + " " + MARK + RenderBody(a)
  }

  /** Annotations that survive being written as a comment: a key without blanks, and a value that
      is trimmed text, or no value and no space at the end of the key. */
  predicate Renderable(a: Annotation) {
    ' ' !in a.key &&
    match a.value
    case Flag => TrimRight(a.key) == a.key
    case Text(text) => text != "" && Trim(text) == text
  }

  lemma {:induction false} TrimRightConcat(a: string, b: string)
    ensures TrimRight(a + b) == if TrimRight(b) == "" then TrimRight(a) else a + TrimRight(b)
  {
    if b == "" {
      assert a + b == a;
    } else {
      assert (a + b)[..|a + b| - 1] == a + b[..|b| - 1];
      if IsSpace(b[|b| - 1]) {
        TrimRightConcat(a, b[..|b| - 1]);
      }
    }
  }

  lemma TrimHeaded(head: string, body: string)
    requires head != "" && !IsSpace(head[0]) && !IsSpace(head[|head| - 1])
    ensures Trim(head + body) == head + TrimRight(body)
  {
    TrimRightConcat(head, body);
    assert (head + body)[0] == head[0];
  }

  lemma TrimLeading(c: char, s: string)
    requires IsSpace(c)
    ensures Trim([c] + s) == Trim(s)
  {
    assert ([c] + s)[1..] == s;
  }

  lemma TrimRightTwice(s: string)
    ensures TrimRight(TrimRight(s)) == TrimRight(s)
  {
  }

  /** The comment and annotation marks are stripped, and so is white space at the end of the line. */
  lemma RenderedHead(body: string)
    ensures ParseLine(COMMENT + " " + MARK + body) == Some(ParseBody(TrimRight(body)))
  {
    hide ParseBody, Trim, TrimRight;
    var rest := TrimRight(body);
    var head := COMMENT + " " + MARK;
    TrimHeaded(head, body);
    TrimHeaded(MARK, rest);
    TrimRightTwice(body);
    assert (head + rest)[|COMMENT|..] == [' '] + (MARK + rest);
    TrimLeading(' ', MARK + rest);
    assert (MARK + rest)[|MARK|..] == rest;
  }

  lemma {:induction false} FirstBlankAt(key: string, tail: string)
    requires ' ' !in key
    ensures FirstBlank(key) == |key|
    ensures FirstBlank(key + [' '] + tail) == |key|
  {
    if key != "" {
      FirstBlankAt(key[1..], tail);
      assert (key + [' '] + tail)[1..] == key[1..] + [' '] + tail;
    }
  }

  lemma TrimFixed(s: string)
    ensures Trim(s) == s <==> TrimLeft(s) == s && TrimRight(s) == s
  {
    hide TrimLeft, TrimRight;
    assert |Trim(s)| <= |TrimLeft(s)| <= |s|;
    assert s[|s| - |s|..] == s;
  }

  lemma TrimShort(s: string)
    ensures |Trim(s)| <= |s|
  {
  }

  lemma TrimRightFirst(s: string)
    ensures Trim(TrimRight(s)) == s <==> Trim(s) == s
  {
    TrimFixed(s);
    hide TrimLeft, TrimRight, Trim;
    TrimShort(TrimRight(s));
    assert |TrimRight(s)| == |s| ==> TrimRight(s) == s[..|s|] == s;
  }

  /** A rendered annotation reads back as itself exactly when it is renderable. */
  lemma LineReadsBack(a: Annotation)
    ensures ParseLine(RenderLine(a)) == Some(a) <==> Renderable(a)
  {
    hide ParseLine, ParseBody, TrimRight, Renderable;
    RenderedHead(RenderBody(a));
    match a.value
    case Flag => FlagReadsBack(a.key);
    case Text(text) => TextReadsBack(a.key, text);
  }

  lemma FlagReadsBack(key: string)
    ensures ParseBody(TrimRight(key)) == Annotation(key, Flag) <==> Renderable(Annotation(key, Flag))
  {
    hide TrimRight;
    if ' ' !in key {
      FirstBlankAt(key, "");
    }
  }

  lemma TextReadsBack(key: string, text: string)
    ensures ParseBody(TrimRight(key + " " + text)) == Annotation(key, Text(text)) <==> Renderable(Annotation(key, Text(text)))
  {
    var body := TrimRight(key + " " + text);
    assert body == if TrimRight(text) == "" then TrimRight(key) else key + [' '] + TrimRight(text) by {
      TrimRightConcat(key + " ", text);
      TrimRightConcat(key, " ");
      assert TrimRight(" ") == "";
    }
    hide TrimRight, TrimLeft, Trim;
    TrimFixed(text);
    if ' ' in key {
      assert ParseBody(body).key != key;
    } else if TrimRight(text) == "" {
      BlankFree(body);
    } else {
      SpacedReadsBack(key, TrimRight(text));
      TrimRightFirst(text);
    }
  }

  lemma BlankFree(body: string)
    requires ' ' !in body
    ensures ParseBody(body).value == Flag
  {
    FirstBlankAt(body, "");
  }

  lemma SpacedReadsBack(key: string, text: string)
    requires ' ' !in key
    ensures ParseBody(key + [' '] + text) == Annotation(key, Text(Trim(text)))
  {
    hide Trim;
    FirstBlankAt(key, text);
    var body := key + [' '] + text;
    assert body[..|key|] == key && body[|key| + 1..] == text;
  }

  // ---------- The name ----------

  /** Unless a bare name stops the parser, the tool's name is the value collected for `name`, and
      the one made from the file name only when no line sets it. */
  lemma {:induction false} NameIsCollected(lines: seq<string>, default: string)
    requires !BareName(lines)
    ensures var c := Collect(lines);
            && ("name" in c ==> c["name"].Text?)
            && NameOf(lines, default) == if "name" in c then c["name"].text else default
  {
    hide ParseLine;
    if lines != [] {
      var init, last := lines[..|lines| - 1], lines[|lines| - 1];
      assert lines == init + [last];
      BareConcat(init, [last]);
      assert [last][0] == last;
      NameIsCollected(init, default);
    }
  }

  /** Parsing two sources joined by a newline is parsing both: the second's annotations override the
      first's, the second's name wins if it sets one, and a bare name in either fails the whole. */
  lemma ParseConcat(a: string, b: string, filename: string)
    ensures Parse(a + "\n" + b, filename) ==
            match (Parse(a, filename), Parse(b, filename))
            case (Parsed(first, m), Parsed(second, n)) => Parsed(if "name" in n then second else first, m + n)
            case _ => Panic
  {
    hide ParseLine, Lines, Collect, NameOf, DefaultName, BareName;
    var default := DefaultName(filename);
    LinesConcat(a, b);
    CollectConcat(Lines(a), Lines(b));
    NameConcat(Lines(a), Lines(b), default);
    BareConcat(Lines(a), Lines(b));
    if !BareName(Lines(a)) && !BareName(Lines(b)) {
      NameIsCollected(Lines(b), default);
      NameIsCollected(Lines(b), NameOf(Lines(a), default));
    }
  }

  // ---------- What parsing can yield ----------

  predicate SingleLine(a: Annotation) {
    '\n' !in a.key && (a.value.Text? ==> '\n' !in a.value.text)
  }

  /** Annotations that survive being written as comment lines. */
  predicate Writable(a: Annotation) {
    Renderable(a) && SingleLine(a)
  }

  lemma TrimWithin(s: string)
    ensures forall c :: c in Trim(s) ==> c in s
    ensures Trim(s) == "" || !IsSpace(Trim(s)[|Trim(s)| - 1])
  {
    hide IsSpace;
    var left := TrimLeft(s);
    assert forall i :: 0 <= i < |left| ==> left[i] == s[|s| - |left|..][i];
  }

  lemma {:induction false} TrimLeftTwice(s: string)
    ensures TrimLeft(TrimLeft(s)) == TrimLeft(s)
  {
    if s != "" && IsSpace(s[0]) {
      TrimLeftTwice(s[1..]);
    }
  }

  lemma TrimLeftFirst(s: string)
    ensures TrimLeft(s) == s <==> s == "" || !IsSpace(s[0])
  {
  }

  lemma TrimTwice(s: string)
    ensures Trim(Trim(s)) == Trim(s)
  {
    TrimLeftTwice(s);
    TrimLeftFirst(TrimLeft(s));
    TrimLeftFirst(Trim(s));
    TrimRightTwice(TrimLeft(s));
  }

  lemma {:induction false} TrimNonEmpty(s: string)
    requires s != "" && !IsSpace(s[|s| - 1])
    ensures TrimLeft(s) != "" && TrimLeft(s)[|TrimLeft(s)| - 1] == s[|s| - 1] && Trim(s) != ""
  {
    if IsSpace(s[0]) {
      TrimNonEmpty(s[1..]);
    }
  }

  lemma FlagWritable(key: string)
    requires ' ' !in key && '\n' !in key && (key == "" || !IsSpace(key[|key| - 1]))
    ensures Writable(Annotation(key, Flag))
  {
  }

  lemma TextWritable(key: string, text: string)
    requires ' ' !in key && '\n' !in key && '\n' !in text && text != "" && !IsSpace(text[|text| - 1])
    ensures Writable(Annotation(key, Text(Trim(text))))
  {
    TrimNonEmpty(text);
    TrimTwice(text);
    TrimWithin(text);
    hide TrimLeft, Trim, IsSpace;
  }

  lemma BodyWritable(body: string)
    requires '\n' !in body && (body == "" || !IsSpace(body[|body| - 1]))
    ensures Writable(ParseBody(body))
  {
    hide TrimLeft, TrimRight, Trim, Writable;
    var blank := FirstBlank(body);
    if blank < |body| {
      assert blank < |body| - 1;
      TextWritable(body[..blank], body[blank + 1..]);
    } else {
      assert body[..blank] == body;
      FlagWritable(body);
    }
  }

  lemma LineWritable(line: string)
    requires '\n' !in line && ParseLine(line).Some?
    ensures Writable(ParseLine(line).value)
  {
    hide ParseBody, Trim, Writable, IsSpace;
    var trimmed := Trim(line);
    var comment := Trim(trimmed[|COMMENT|..]);
    TrimWithin(line);
    TrimWithin(trimmed[|COMMENT|..]);
    var body := comment[|MARK|..];
    assert body == "" || body[|body| - 1] == comment[|comment| - 1];
    assert '\n' !in comment;
    BodyWritable(body);
  }

  lemma {:induction false} LinesSingle(code: string)
    ensures forall l :: l in Lines(code) ==> '\n' !in l
  {
    if code != "" {
      LinesSingle(code[..|code| - 1]);
    }
  }

  /** Whatever is collected from a source could have been written as a comment line. */
  lemma {:induction false} CollectWritable(lines: seq<string>, key: string)
    requires forall l :: l in lines ==> '\n' !in l
    ensures key in Collect(lines) ==> Writable(Annotation(key, Collect(lines)[key]))
  {
    hide ParseLine, Writable;
    if key in Collect(lines) {
      var init, last := lines[..|lines| - 1], lines[|lines| - 1];
      if Sets(last, key) {
        LineWritable(last);
        assert ParseLine(last).value == Annotation(key, Collect(lines)[key]);
      } else {
        CollectWritable(init, key);
      }
    }
  }

  // ---------- Writing a whole map ----------

  function Render(all: seq<Annotation>): string {
    if all == [] then ""
    else if |all| == 1 then RenderLine(all[0])
    else Render(all[..|all| - 1]) + "\n" + RenderLine(all[|all| - 1])
  }

  lemma {:induction false} OneLine(s: string)
    requires '\n' !in s
    ensures Lines(s) == [s]
  {
    if s != "" {
      OneLine(s[..|s| - 1]);
      assert s == s[..|s| - 1] + [s[|s| - 1]];
    }
  }

  ghost predicate AllWritable(all: seq<Annotation>) {
    forall i :: 0 <= i < |all| ==> Writable(all[i])
  }

  /** `all` lists the entries of m, each at least once, in any order. */
  ghost predicate Enumerates(all: seq<Annotation>, m: map<string, Value>) {
    && (forall i :: 0 <= i < |all| ==> all[i].key in m && m[all[i].key] == all[i].value)
    && (forall k :: k in m ==> exists i :: 0 <= i < |all| && all[i].key == k)
  }

  lemma WritableLine(a: Annotation)
    requires Writable(a)
    ensures Lines(RenderLine(a)) == [RenderLine(a)] && ParseLine(RenderLine(a)) == Some(a)
  {
    LineReadsBack(a);
    NoNewline(a);
    hide Lines, ParseLine, RenderLine, Renderable;
    OneLine(RenderLine(a));
  }

  lemma NoNewline(a: Annotation)
    requires SingleLine(a)
    ensures '\n' !in RenderLine(a)
  {
  }

  lemma {:induction false} RenderedEntries(all: seq<Annotation>, m: map<string, Value>)
    requires AllWritable(all) && forall i :: 0 <= i < |all| ==> all[i].key in m && m[all[i].key] == all[i].value
    ensures var lines := Lines(Render(all)); var c := Collect(lines);
            && (forall k :: k in c ==> k in m && c[k] == m[k])
            && (forall i :: 0 <= i < |all| ==> all[i].key in c)
            && (BareName(lines) <==> exists i :: 0 <= i < |all| && all[i] == Annotation("name", Flag))
  {
    hide ParseLine, Lines, Writable, RenderLine;
    if all == [] {
      EmptySource();
    } else {
      var init, last := all[..|all| - 1], all[|all| - 1];
      var line := RenderLine(last);
      WritableLine(last);
      assert [line][..0] == [];
      assert Collect([line]) == map[last.key := last.value];
      assert BareName([line]) <==> last == Annotation("name", Flag) by {
        assert [line][0] == line;
      }
      if |all| > 1 {
        RenderedEntries(init, m);
        LinesConcat(Render(init), line);
        CollectConcat(Lines(Render(init)), [line]);
        BareConcat(Lines(Render(init)), [line]);
      }
      assert (exists i :: 0 <= i < |all| && all[i] == Annotation("name", Flag)) <==>
             (exists i :: 0 <= i < |init| && init[i] == Annotation("name", Flag)) || last == Annotation("name", Flag);
    }
  }

  lemma EmptySource()
    ensures Collect(Lines("")) == map[] && !BareName(Lines(""))
  {
    assert ParseLine("") == None;
    assert Lines("") == [""];
  }

  ghost predicate BareNameIn(m: map<string, Value>) {
    "name" in m && m["name"].Flag?
  }

  /** A map written as comment lines, in any order, comes back from the parser exactly when its
      annotations are writable and the name, if there is one, has a value.  With writable annotations
      a bare name fails the parser; otherwise the name is the map's, or made from the file name. */
  lemma MapReadsBack(all: seq<Annotation>, m: map<string, Value>, filename: string)
    requires Enumerates(all, m)
    ensures var r := Parse(Render(all), filename);
            && (r.Parsed? && r.annotations == m <==> AllWritable(all) && !BareNameIn(m))
            && (AllWritable(all) ==>
                  r == if BareNameIn(m) then Panic
                       else Parsed(if "name" in m then m["name"].text else DefaultName(filename), m))
  {
    hide Lines, Collect, NameOf, Writable, BareName, DefaultName, Render;
    var lines := Lines(Render(all));
    if AllWritable(all) {
      RenderedEntries(all, m);
      var c := Collect(lines);
      assert forall k :: k in m ==> k in c;
      assert c == m;
      assert BareName(lines) <==> BareNameIn(m);
      if !BareName(lines) {
        NameIsCollected(lines, DefaultName(filename));
      }
    } else if Collect(lines) == m {
      LinesSingle(Render(all));
      forall i | 0 <= i < |all|
        ensures Writable(all[i])
      {
        var a := all[i];
        CollectWritable(lines, a.key);
        assert a == Annotation(a.key, m[a.key]);
      }
    }
  }

  /** A tool whose source has a name annotation without a value cannot be read at all. */
  lemma BareNamePanics(filename: string)
    ensures Parse("// @fluxbase:name", filename) == Panic
  {
    var a := Annotation("name", Flag);
    assert Writable(a);
    assert RenderLine(a) == "// @fluxbase:name";
    hide Writable, RenderLine, Renderable, ParseLine, Lines;
    WritableLine(a);
    assert [RenderLine(a)][0] == RenderLine(a);
  }

  // ---------- Which lines are annotations ----------

  predicate AllSpace(s: string) {
    forall i :: 0 <= i < |s| ==> IsSpace(s[i])
  }

  lemma {:induction false} SpaceBefore(s: string, i: nat)
    requires i < |s| - |TrimLeft(s)|
    ensures IsSpace(s[i])
  {
    hide IsSpace;
    if i > 0 {
      SpaceBefore(s[1..], i - 1);
    }
  }

  lemma TrimLeftSplits(s: string) returns (a: string)
    ensures s == a + TrimLeft(s) && AllSpace(a)
  {
    hide IsSpace;
    a := s[..|s| - |TrimLeft(s)|];
    forall i | 0 <= i < |a|
      ensures IsSpace(a[i])
    {
      SpaceBefore(s, i);
    }
  }

  lemma SpacesCons(c: char, a: string)
    requires IsSpace(c) && AllSpace(a)
    ensures AllSpace([c] + a) && AllSpace(a + [c])
  {
    hide IsSpace;
  }

  lemma {:induction false} TrimRightSplits(s: string) returns (b: string)
    ensures s == TrimRight(s) + b && AllSpace(b)
  {
    hide IsSpace;
    b := "";
    if s != "" && IsSpace(s[|s| - 1]) {
      var init, c := s[..|s| - 1], s[|s| - 1];
      var rest := TrimRightSplits(init);
      SpacesCons(c, rest);
      b := rest + [c];
      assert s == init + [c];
      hide TrimRight, AllSpace;
      assert (TrimRight(init) + rest) + [c] == TrimRight(init) + b;
    }
  }

  /** Trimming takes off white space at both ends and nothing else. */
  lemma TrimExactly(s: string) returns (a: string, b: string)
    ensures s == a + Trim(s) + b && AllSpace(a) && AllSpace(b)
    ensures Trim(s) != "" ==> !IsSpace(Trim(s)[0]) && !IsSpace(Trim(s)[|Trim(s)| - 1])
  {
    hide IsSpace, TrimLeft, TrimRight, AllSpace;
    TrimEnds(s);
    a := TrimLeftSplits(s);
    b := TrimRightSplits(TrimLeft(s));
    Regroup(a, Trim(s), b);
  }

  lemma Regroup(a: string, mid: string, b: string)
    ensures a + (mid + b) == a + mid + b
  {
  }

  lemma TrimEnds(s: string)
    ensures Trim(s) != "" ==> !IsSpace(Trim(s)[0]) && !IsSpace(Trim(s)[|Trim(s)| - 1])
  {
    TrimTwice(s);
    TrimFixed(Trim(s));
    TrimLeftFirst(Trim(s));
    hide IsSpace, TrimLeft;
  }

  lemma {:induction false} SpacesLead(a: string, s: string)
    requires AllSpace(a)
    ensures Trim(a + s) == Trim(s)
  {
    hide Trim, IsSpace;
    if a == "" {
      assert a + s == s;
    } else {
      SpacesLead(a[1..], s);
      TrimLeading(a[0], a[1..] + s);
      assert a + s == [a[0]] + (a[1..] + s);
    }
  }

  /** A line is an annotation exactly when it is, after white space, a comment that begins, after white
      space, with the mark; the rest of the line without white space at its end is the body. */
  lemma AnnotationLineExactly(line: string)
    ensures ParseLine(line).Some? <==> exists a, b, rest :: IsAnnotation(line, a, b, rest)
    ensures forall a, b, rest :: IsAnnotation(line, a, b, rest) ==> ParseLine(line) == Some(ParseBody(TrimRight(rest)))
  {
    hide ParseBody, ParseLine, TrimRight, AllSpace;
    forall a, b, rest | IsAnnotation(line, a, b, rest)
      ensures ParseLine(line) == Some(ParseBody(TrimRight(rest)))
    {
      MarkedLine(a, b, rest);
    }
    if ParseLine(line).Some? {
      var a, b, rest := FindAnnotation(line);
    }
  }

  ghost predicate IsAnnotation(line: string, a: string, b: string, rest: string) {
    line == a + "//" + b + "@fluxbase:" + rest && AllSpace(a) && AllSpace(b)
  }

  lemma FindAnnotation(line: string) returns (a: string, b: string, rest: string)
    requires ParseLine(line).Some?
    ensures IsAnnotation(line, a, b, rest)
  {
    hide ParseBody, Trim, AllSpace;
    var trimmed := Trim(line);
    var comment := Trim(trimmed[|COMMENT|..]);
    var z, y;
    a, z := TrimExactly(line);
    b, y := TrimExactly(trimmed[|COMMENT|..]);
    var body := comment[|MARK|..];
    rest := body + y + z;
    hide ParseLine;
    assert trimmed == COMMENT + trimmed[|COMMENT|..] && comment == MARK + body;
    assert line == a + (COMMENT + (b + (MARK + body) + y)) + z;
    assert a + (COMMENT + (b + (MARK + body) + y)) + z == a + COMMENT + b + MARK + rest;
  }

  lemma MarkedLine(a: string, b: string, rest: string)
    requires AllSpace(a) && AllSpace(b)
    ensures ParseLine(a + "//" + b + "@fluxbase:" + rest) == Some(ParseBody(TrimRight(rest)))
  {
    hide ParseBody, Trim, TrimLeft, TrimRight, AllSpace;
    var head, body := COMMENT + b + MARK, TrimRight(rest);
    TrimHeaded(head, rest);
    TrimHeaded(MARK, body);
    hide IsSpace;
    TrimRightTwice(rest);
    assert a + "//" + b + "@fluxbase:" + rest == a + (head + rest);
    SpacesLead(a, head + rest);
    assert (head + body)[|COMMENT|..] == b + (MARK + body);
    SpacesLead(b, MARK + body);
    assert (MARK + body)[|MARK|..] == body;
  }

  /** The name made from a file name has its last ".ts" removed and underscores for dashes. */
  lemma DefaultNameExactly(filename: string, stem: string)
    ensures var typed := |filename| >= 3 && filename == filename[..|filename| - 3] + ".ts";
            && |DefaultName(filename)| == |filename| - (if typed then 3 else 0)
            && forall i :: 0 <= i < |DefaultName(filename)| ==>
                 DefaultName(filename)[i] == if filename[i] == '-' then '_' else filename[i]
    ensures DefaultName(stem + ".ts") == DefaultName(stem) || exists root :: stem == root + ".ts"
  {
    assert |filename| >= 3 ==> filename == filename[..|filename| - 3] + filename[|filename| - 3..];
    var whole := stem + ".ts";
    assert whole[|whole| - 3..] == ".ts" && whole[..|whole| - 3] == stem;
    if |stem| >= 3 && stem[|stem| - 3..] == ".ts" {
      assert stem == stem[..|stem| - 3] + ".ts";
    }
  }
}
