/** Rewriting bare import specifiers and validating the result.  A source file is the text
    between import spans and the spans themselves, as leftmost matching finds them. */
module Imports {

  /** An import span is everything up to the opening quote, the specifier, and a closing quote
      that need not be of the same kind. */
  datatype Part = Code(text: string) | Import(before: string, open: char, spec: string, close: char)

  const NPM := "npm:"
  const SHARED := "_shared/"
  const DENO := "Deno"
  const NODE := "node:"
  const PROTOCOLS: seq<string> := [NPM, "jsr:", NODE, "http:", "https:"]

  const BLOCKED: seq<string> := ["child_process", "node:child_process", "vm", "node:vm", "fs", "node:fs", "process", "node:process"]

  predicate IsQuote(c: char) {
    c == '"' || c == '\''
  }

  /** What the specifier group of the import pattern accepts. */
  predicate Matches(spec: string) {
    spec != "" && spec[0] != '.' && spec[0] != '/' && forall i :: 0 <= i < |spec| ==> !IsQuote(spec[i])
  }

  predicate HasProtocol(spec: string) {
    exists i :: 0 <= i < |PROTOCOLS| && PROTOCOLS[i] <= spec
  }

  // ---------- Rewriting ----------

  function RewriteSpec(spec: string): string {
    if HasProtocol(spec) then spec
    else if spec == DENO then spec
    else if SHARED <= spec then "./" + spec
    else NPM + spec
  }

  function RewritePart(p: Part): Part {
    match p
    case Code(_) => p
    case Import(before, open, spec, close) => if Matches(spec) then Import(before, open, RewriteSpec(spec), close) else p
  }

  function Rewrite(parts: seq<Part>): (r: seq<Part>)
    ensures |r| == |parts| && forall i :: 0 <= i < |r| ==> r[i] == RewritePart(parts[i])
  {
    seq(|parts|, i requires 0 <= i < |parts| => RewritePart(parts[i]))
  }

  function PartText(p: Part): string {
    match p
    case Code(text) => text
    case Import(before, open, spec, close) => before + [open] + spec + [close]
  }

  function Source(parts: seq<Part>): string {
    if parts == [] then "" else Source(parts[..|parts| - 1]) + PartText(parts[|parts| - 1])
  }

  /** A file is its parts one after the other, and a span is its text with both quotes. */
  lemma {:induction false} SourceJoins(a: seq<Part>, b: seq<Part>, text: string, before: string, open: char, spec: string, close: char)
    ensures Source(a + b) == Source(a) + Source(b)
    ensures Source([Code(text)]) == text && Source([Import(before, open, spec, close)]) == before + [open] + spec + [close]
  {
    assert [Code(text)][..0] == [] && [Import(before, open, spec, close)][..0] == [];
    if b == [] {
      assert a + b == a;
    } else {
      assert (a + b)[..|a + b| - 1] == a + b[..|b| - 1];
      SourceJoins(a, b[..|b| - 1], text, before, open, spec, close);
    }
  }

  /** A specifier that needs no rewriting: it names a protocol, a local file or the runtime. */
  predicate Resolved(spec: string) {
    HasProtocol(spec) || spec == DENO || "./" <= spec
  }

  /** Rewriting resolves every specifier, changes it only when it was bare, and has nothing left to
      do the second time. */
  lemma RewriteResolves(spec: string)
    requires Matches(spec)
    ensures var r := RewriteSpec(spec);
            && Resolved(r)
            && (r == spec <==> Resolved(spec))
            && RewritePart(RewritePart(Import("", '"', spec, '"'))) == RewritePart(Import("", '"', spec, '"'))
            && r[|r| - |spec|..] == spec
  {
    var r := RewriteSpec(spec);
    assert PROTOCOLS[0] == NPM;
    if r == NPM + spec {
      assert NPM <= r && |r| > |spec|;
    } else if r == "./" + spec {
      assert "./" <= r && !Matches(r);
    }
    assert !("./" <= spec);
  }

  /** Where a bare specifier leads: into the shared directory by a relative path, and anything else that
      names neither the runtime nor a protocol to the package registry. */
  lemma BareLeadsTo(before: string, open: char, spec: string, close: char)
    requires Matches(spec)
    ensures var r := RewritePart(Import(before, open, spec, close));
            && r.Import? && r.before == before && r.open == open && r.close == close
            && (r.spec == "./" + spec <==> "_shared/" <= spec)
            && (r.spec == "npm:" + spec <==>
                  !("_shared/" <= spec) && spec != "Deno" && !("npm:" <= spec) && !("jsr:" <= spec) && !("node:" <= spec)
                  && !("http:" <= spec) && !("https:" <= spec))
  {
    assert PROTOCOLS[0] == "npm:" && PROTOCOLS[1] == "jsr:" && PROTOCOLS[2] == "node:" && PROTOCOLS[3] == "http:" && PROTOCOLS[4] == "https:";
    assert forall i :: 0 <= i < |PROTOCOLS| ==> PROTOCOLS[i][0] in {'n', 'j', 'h'};
    assert |"npm:" + spec| != |"./" + spec| && |"npm:" + spec| != |spec| && |"./" + spec| != |spec|;
  }

  /** The same for whole files: the rewritten file is a fixed point, span by span, and only
      specifiers have changed. */
  lemma RewriteStable(parts: seq<Part>)
    ensures Rewrite(Rewrite(parts)) == Rewrite(parts)
    ensures forall i :: 0 <= i < |parts| ==>
              var p, q := parts[i], Rewrite(parts)[i];
              && (p.Code? ==> q == p)
              && (p.Import? ==> q.Import? && q.before == p.before && q.open == p.open && q.close == p.close)
              && (p.Import? && Matches(p.spec) ==> Resolved(q.spec))
  {
    hide RewriteSpec, Resolved, Matches;
    forall i | 0 <= i < |parts|
      ensures RewritePart(RewritePart(parts[i])) == RewritePart(parts[i])
      ensures parts[i].Import? && Matches(parts[i].spec) ==> Resolved(RewritePart(parts[i]).spec)
    {
      if parts[i].Import? && Matches(parts[i].spec) {
        RewriteResolves(parts[i].spec);
      }
    }
  }

  // ---------- Validation ----------

  ghost predicate Contains(s: string, sub: string) {
    exists i :: 0 <= i && i + |sub| <= |s| && At(s, sub, i)
  }

  predicate At(s: string, sub: string, i: nat)
    requires i + |sub| <= |s|
  {
    s[i..i + |sub|] == sub
  }

  function Quoted(quote: char, spec: string): string {
    [quote] + spec + [quote]
  }

  /** A blocked package is imported by its npm name in either quote, or by its node name in double quotes. */
  ghost predicate Forbids(code: string, blocked: string) {
    || Contains(code, Quoted('"', NPM + blocked))
    || Contains(code, Quoted('\'', NPM + blocked))
    || (NODE <= blocked && Contains(code, Quoted('"', blocked)))
  }

  ghost predicate Rejected(code: string) {
    exists i :: 0 <= i < |BLOCKED| && Forbids(code, BLOCKED[i])
  }

  method Search(s: string, sub: string) returns (found: bool)
    ensures found <==> Contains(s, sub)
  {
    var i := 0;
    while i + |sub| <= |s|
      invariant 0 <= i
      invariant forall j :: 0 <= j < i && j + |sub| <= |s| ==> !At(s, sub, j)
    {
      if At(s, sub, i) {
        return true;
      }
      i := i + 1;
    }
    found := false;
  }

  method ValidateImports(code: string) returns (ok: bool)
    ensures ok <==> !Rejected(code)
  {
    hide Quoted;
    for i := 0 to |BLOCKED|
      invariant forall j :: 0 <= j < i ==> !Forbids(code, BLOCKED[j])
    {
      var blocked := BLOCKED[i];
      var double := Search(code, Quoted('"', NPM + blocked));
      var single := Search(code, Quoted('\'', NPM + blocked));
      if double || single {
        return false;
      }
      var plain := Search(code, Quoted('"', blocked));
      if plain && NODE <= blocked {
        return false;
      }
    }
    ok := true;
  }

  // ---------- Rewriting and then validating ----------

  lemma ContainsWithin(before: string, mid: string, after: string, sub: string)
    requires Contains(mid, sub)
    ensures Contains(before + mid + after, sub)
  {
    var i :| 0 <= i && i + |sub| <= |mid| && At(mid, sub, i);
    assert At(before + mid + after, sub, |before| + i);
  }

  lemma {:induction false} PartWithin(parts: seq<Part>, i: nat, sub: string)
    requires i < |parts| && Contains(PartText(parts[i]), sub)
    ensures Contains(Source(parts), sub)
  {
    hide Contains, PartText;
    var init, last := parts[..|parts| - 1], parts[|parts| - 1];
    if i == |parts| - 1 {
      ContainsWithin(Source(init), PartText(last), "", sub);
      assert Source(init) + PartText(last) + "" == Source(parts);
    } else {
      PartWithin(init, i, sub);
      ContainsWithin("", Source(init), PartText(last), sub);
      assert "" + Source(init) + PartText(last) == Source(parts);
    }
  }

  lemma SpecContained(before: string, quote: char, spec: string)
    ensures Contains(PartText(Import(before, quote, spec, quote)), Quoted(quote, spec))
  {
    var text := PartText(Import(before, quote, spec, quote));
    assert text == before + Quoted(quote, spec);
    assert At(text, Quoted(quote, spec), |before|);
  }

  /** A specifier that is rejected as it is written, between quotes of this kind. */
  ghost predicate SpecForbidden(spec: string, quote: char) {
    exists k :: 0 <= k < |BLOCKED| && (spec == NPM + BLOCKED[k] || (NODE <= BLOCKED[k] && quote == '"' && spec == BLOCKED[k]))
  }

  /** A specifier that names a blocked package in a form that is rejected once it has been rewritten:
      by its npm name or its bare name in either quote, by its node name in double quotes only. */
  ghost predicate NamesBlocked(spec: string, quote: char) {
    exists k :: 0 <= k < |BLOCKED| && (spec == NPM + BLOCKED[k] || (spec == BLOCKED[k] && (NODE <= BLOCKED[k] ==> quote == '"')))
  }

  lemma BlockedNames(k: nat)
    requires k < |BLOCKED|
    ensures Matches(BLOCKED[k]) && Matches(NPM + BLOCKED[k]) && 't' !in BLOCKED[k]
    ensures BLOCKED[k] != DENO && !(NPM <= BLOCKED[k]) && !(SHARED <= BLOCKED[k])
    ensures !(NODE <= BLOCKED[k]) ==> BLOCKED[k][0] in {'c', 'v', 'f', 'p'}
  {
    hide HasProtocol, RewriteSpec;
    assert BLOCKED[k][1] != 'p' && NPM[1] == 'p';
    assert BLOCKED[k][0] != '_';
  }

  lemma BlockedRewritten(k: nat)
    requires k < |BLOCKED|
    ensures NODE <= BLOCKED[k] <==> HasProtocol(BLOCKED[k])
    ensures RewriteSpec(BLOCKED[k]) == if NODE <= BLOCKED[k] then BLOCKED[k] else NPM + BLOCKED[k]
  {
    BlockedNames(k);
    hide Matches;
    assert PROTOCOLS[2] == NODE;
    assert forall i :: 0 <= i < |PROTOCOLS| ==> PROTOCOLS[i][0] in {'n', 'j', 'h'};
  }

  function Rewritten(spec: string): string {
    if Matches(spec) then RewriteSpec(spec) else spec
  }

  lemma RewrittenTo(spec: string, blocked: string)
    requires Matches(blocked) && !(NPM <= blocked) && (NODE <= blocked <==> HasProtocol(blocked))
    requires RewriteSpec(blocked) == if NODE <= blocked then blocked else NPM + blocked
    ensures Rewritten(spec) == NPM + blocked <==> spec == NPM + blocked || (spec == blocked && !(NODE <= blocked))
    ensures NODE <= blocked ==> (Rewritten(spec) == blocked <==> spec == blocked)
  {
    RewriteKeeps(spec);
    hide RewriteSpec, HasProtocol;
    var r := Rewritten(spec);
    if r != spec {
      assert r == "./" + spec || r == NPM + spec;
      assert r == "./" + spec ==> r[0] == '.' && r != NPM + blocked && r != blocked;
      assert r == NPM + spec ==> r[|NPM|..] == spec && r != blocked;
      assert (NPM + blocked)[|NPM|..] == blocked;
    }
  }

  /** What rewriting turns into a rejected specifier: exactly those that name a blocked package. */
  lemma RewrittenForbidden(spec: string, quote: char)
    ensures SpecForbidden(Rewritten(spec), quote) <==> NamesBlocked(spec, quote)
  {
    hide Matches, RewriteSpec, HasProtocol, Rewritten;
    forall k | 0 <= k < |BLOCKED|
      ensures Rewritten(spec) == NPM + BLOCKED[k] <==> spec == NPM + BLOCKED[k] || (spec == BLOCKED[k] && !(NODE <= BLOCKED[k]))
      ensures NODE <= BLOCKED[k] ==> (Rewritten(spec) == BLOCKED[k] <==> spec == BLOCKED[k])
    {
      BlockedNames(k);
      BlockedRewritten(k);
      RewrittenTo(spec, BLOCKED[k]);
    }
  }

  /** How a specifier changes: not at all, or by one of two prefixes. */
  lemma RewriteKeeps(spec: string)
    ensures RewriteSpec(spec) in {spec, "./" + spec, NPM + spec}
    ensures NPM <= spec ==> RewriteSpec(spec) == spec
    ensures RewriteSpec(spec) == NPM + spec ==> !HasProtocol(spec)
  {
    assert PROTOCOLS[0] == NPM;
    assert |NPM + spec| != |spec|;
    assert HasProtocol(spec) ==> (NPM + spec)[|NPM|..] == spec;
  }

  // ---------- Where a rejected literal can stand ----------

  /** Spans and gaps as the import pattern finds them: a span starts with the keyword and has no
      quote but its two, and gaps do not touch. */
  ghost predicate Spanned(parts: seq<Part>) {
    && (forall i :: 0 <= i < |parts| && parts[i].Import? ==> ImportSpan(parts[i]))
    && (forall i :: 0 <= i < |parts| - 1 && parts[i].Code? ==> parts[i + 1].Import?)
  }

  ghost predicate ImportSpan(p: Part)
    requires p.Import?
  {
    IsQuote(p.open) && IsQuote(p.close) && KEYWORD <= p.before && Unquoted(p.before) && Unquoted(p.spec)
  }

  const KEYWORD := "import"

  ghost predicate Unquoted(s: string) {
    forall i :: 0 <= i < |s| ==> !IsQuote(s[i])
  }

  /** The pieces of a file in which a quoted literal can lie: a quoted specifier, or a gap together
      with the closing quote of the import before it. */
  function Segment(parts: seq<Part>, i: nat): string
    requires i < |parts|
  {
    match parts[i]
    case Import(_, open, spec, close) => [open] + spec + [close]
    case Code(text) => (if i > 0 && parts[i - 1].Import? then [parts[i - 1].close] else "") + text
  }

  /** Text that can be searched for: no quotes inside, and not containing the keyword. */
  ghost predicate Core(core: string) {
    Unquoted(core) && 't' !in core
  }

  lemma LiteralAt(s: string, quote: char, core: string, i: nat)
    requires i + |core| + 2 <= |s| && At(s, Quoted(quote, core), i)
    ensures s[i] == quote && s[i + |core| + 1] == quote
    ensures forall t :: i < t < i + |core| + 1 ==> s[t] in core
  {
    var found := s[i..i + |core| + 2];
    assert s[i] == found[0] && s[i + |core| + 1] == found[|core| + 1];
    assert forall t :: i < t < i + |core| + 1 ==> s[t] == found[t - i] == core[t - i - 1];
  }

  /** A literal does not reach across a quote. */
  lemma SplitAtQuote(a: string, c: char, b: string, quote: char, core: string)
    requires IsQuote(c) && IsQuote(quote) && Unquoted(core)
    ensures Contains(a + [c] + b, Quoted(quote, core)) <==>
            Contains(a + [c], Quoted(quote, core)) || Contains([c] + b, Quoted(quote, core))
  {
    var s, sub := a + [c] + b, Quoted(quote, core);
    if i :| 0 <= i && i + |sub| <= |s| && At(s, sub, i) {
      OnOneSide(a, c, b, quote, core, i);
    }
    hide Quoted;
    if Contains(a + [c], sub) {
      ContainsWithin("", a + [c], b, sub);
      assert "" + (a + [c]) + b == s;
    }
    if Contains([c] + b, sub) {
      ContainsWithin(a, [c] + b, "", sub);
      assert a + ([c] + b) + "" == s;
    }
  }

  lemma SliceBefore(a: string, b: string, lo: nat, hi: nat)
    requires lo <= hi <= |a|
    ensures (a + b)[lo..hi] == a[lo..hi]
  {
  }

  lemma SliceAfter(a: string, b: string, lo: nat, hi: nat)
    requires |a| <= lo <= hi <= |a| + |b|
    ensures (a + b)[lo..hi] == b[lo - |a|..hi - |a|]
  {
  }

  lemma NoQuoteIn(c: char, core: string)
    requires IsQuote(c) && Unquoted(core)
    ensures c !in core
  {
  }

  lemma OnOneSide(a: string, c: char, b: string, quote: char, core: string, i: nat)
    requires IsQuote(c) && IsQuote(quote) && Unquoted(core)
    requires i + |core| + 2 <= |a + [c] + b| && At(a + [c] + b, Quoted(quote, core), i)
    ensures Contains(a + [c], Quoted(quote, core)) || Contains([c] + b, Quoted(quote, core))
  {
    var s, sub := a + [c] + b, Quoted(quote, core);
    LiteralAt(s, quote, core, i);
    NoQuoteIn(c, core);
    assert |sub| == |core| + 2 && s[|a|] == c;
    assert !(i < |a| < i + |core| + 1);
    hide Quoted, IsQuote, Unquoted;
    if i + |sub| <= |a| + 1 {
      SliceBefore(a + [c], b, i, i + |sub|);
      assert At(a + [c], sub, i);
    } else {
      assert s == a + ([c] + b);
      SliceAfter(a, [c] + b, i, i + |sub|);
      assert At([c] + b, sub, i - |a|);
    }
  }

  /** Nor does one end at the opening quote of an import. */
  lemma NoneEndsAtOpening(a: string, before: string, open: char, quote: char, core: string)
    requires KEYWORD <= before && Unquoted(before) && IsQuote(quote) && Core(core)
    ensures Contains(a + before + [open], Quoted(quote, core)) <==> Contains(a, Quoted(quote, core))
  {
    var s, sub := a + before + [open], Quoted(quote, core);
    if i :| 0 <= i && i + |sub| <= |s| && At(s, sub, i) {
      var last := i + |core| + 1;
      LiteralAt(s, quote, core, i);
      assert s[|a| + 5] == before[5] == 't';
      assert forall t :: |a| <= t < |a| + |before| ==> s[t] == before[t - |a|];
      assert last < |a|;
      assert At(a, sub, i);
    }
    if Contains(a, sub) {
      ContainsWithin("", a, before + [open], sub);
      assert "" + a + (before + [open]) == s;
    }
  }

  ghost predicate InSegment(parts: seq<Part>, sub: string) {
    exists i :: 0 <= i < |parts| && Contains(Segment(parts, i), sub)
  }

  lemma SegmentSnoc(parts: seq<Part>, i: nat)
    requires i < |parts| - 1
    ensures Segment(parts[..|parts| - 1], i) == Segment(parts, i)
  {
  }

  lemma InSegmentSnoc(parts: seq<Part>, sub: string)
    requires parts != []
    ensures InSegment(parts, sub) <==> InSegment(parts[..|parts| - 1], sub) || Contains(Segment(parts, |parts| - 1), sub)
  {
    hide Contains, Segment;
    var init := parts[..|parts| - 1];
    forall i | 0 <= i < |init|
      ensures Segment(init, i) == Segment(parts, i)
    {
      SegmentSnoc(parts, i);
    }
    if InSegment(init, sub) {
      var i :| 0 <= i < |init| && Contains(Segment(init, i), sub);
      assert Contains(Segment(parts, i), sub);
    }
  }

  lemma LastImport(a: string, p: Part, quote: char, core: string)
    requires p.Import? && ImportSpan(p) && IsQuote(quote) && Core(core)
    ensures var sub := Quoted(quote, core);
            Contains(a + PartText(p), sub) <==> Contains(a, sub) || Contains([p.open] + p.spec + [p.close], sub)
  {
    hide Contains, Quoted, IsQuote;
    var rest := p.spec + [p.close];
    SplitAtQuote(a + p.before, p.open, rest, quote, core);
    NoneEndsAtOpening(a, p.before, p.open, quote, core);
    assert a + p.before + [p.open] + rest == a + PartText(p);
    assert [p.open] + rest == [p.open] + p.spec + [p.close];
  }

  lemma LastCode(a: string, p: Part, text: string, quote: char, core: string)
    requires p.Import? && IsQuote(p.close) && IsQuote(quote) && Core(core)
    ensures var sub := Quoted(quote, core);
            Contains(a + PartText(p) + text, sub) <==> Contains(a + PartText(p), sub) || Contains([p.close] + text, sub)
  {
    hide Contains, Quoted, IsQuote;
    var b := a + (p.before + [p.open] + p.spec);
    assert a + PartText(p) == b + [p.close];
    SplitAtQuote(b, p.close, text, quote, core);
  }

  /** Adding one part to a file adds what its segment contains. */
  lemma LastPart(parts: seq<Part>, quote: char, core: string)
    requires parts != [] && Spanned(parts) && IsQuote(quote) && Core(core)
    ensures var sub := Quoted(quote, core);
            Contains(Source(parts), sub) <==> Contains(Source(parts[..|parts| - 1]), sub) || Contains(Segment(parts, |parts| - 1), sub)
  {
    hide Contains, Quoted, IsQuote, ImportSpan, Core;
    var init, last := parts[..|parts| - 1], parts[|parts| - 1];
    if last.Import? {
      LastImport(Source(init), last, quote, core);
    } else if init == [] {
      NothingContained(quote, core);
      assert "" + last.text == last.text;
    } else {
      var p := init[|init| - 1];
      assert p == parts[|parts| - 2] && p.Import? && ImportSpan(p);
      ClosedByQuote(p);
      LastCode(Source(init[..|init| - 1]), p, last.text, quote, core);
    }
  }

  lemma ClosedByQuote(p: Part)
    requires p.Import? && ImportSpan(p)
    ensures IsQuote(p.close)
  {
  }

  lemma SpannedInit(parts: seq<Part>)
    requires parts != [] && Spanned(parts)
    ensures Spanned(parts[..|parts| - 1])
  {
  }

  lemma {:induction false} FoundInSegment(parts: seq<Part>, quote: char, core: string)
    requires Spanned(parts) && IsQuote(quote) && Core(core)
    ensures Contains(Source(parts), Quoted(quote, core)) <==> InSegment(parts, Quoted(quote, core))
  {
    hide Contains, Quoted, Segment, Spanned, Core;
    if parts == [] {
      NothingContained(quote, core);
    } else {
      SpannedInit(parts);
      FoundInSegment(parts[..|parts| - 1], quote, core);
      InSegmentSnoc(parts, Quoted(quote, core));
      LastPart(parts, quote, core);
    }
  }

  lemma NothingContained(quote: char, core: string)
    ensures !Contains("", Quoted(quote, core))
  {
  }

  // ---------- Exactly which files are rejected ----------

  lemma CoresOf(k: nat)
    requires k < |BLOCKED|
    ensures Core(BLOCKED[k]) && Core(NPM + BLOCKED[k])
  {
    BlockedNames(k);
  }

  /** What makes a file rejected lies in one of its segments. */
  lemma RejectedInSegment(parts: seq<Part>)
    requires Spanned(parts)
    ensures Rejected(Source(parts)) <==> exists i :: 0 <= i < |parts| && Rejected(Segment(parts, i))
  {
    hide Contains, Quoted, Segment, Spanned, Source, Core;
    forall k | 0 <= k < |BLOCKED|
      ensures Forbids(Source(parts), BLOCKED[k]) <==> exists i :: 0 <= i < |parts| && Forbids(Segment(parts, i), BLOCKED[k])
    {
      CoresOf(k);
      FoundInSegment(parts, '"', NPM + BLOCKED[k]);
      FoundInSegment(parts, '\'', NPM + BLOCKED[k]);
      FoundInSegment(parts, '"', BLOCKED[k]);
    }
    hide Forbids;
  }

  lemma LiteralIsSpec(open: char, spec: string, close: char, quote: char, core: string)
    requires Unquoted(spec) && IsQuote(quote) && IsQuote(open) && IsQuote(close) && Unquoted(core)
    ensures Contains([open] + spec + [close], Quoted(quote, core)) <==> open == close == quote && spec == core
  {
    var s := [open] + spec + [close];
    if i :| 0 <= i && i + |core| + 2 <= |s| && At(s, Quoted(quote, core), i) {
      LiteralAt(s, quote, core, i);
      assert forall t :: 0 < t <= |spec| ==> s[t] == spec[t - 1];
      assert i == 0 && |core| == |spec|;
      assert s == Quoted(quote, core);
      assert s[1..|s| - 1] == spec && Quoted(quote, core)[1..|s| - 1] == core;
    }
    if open == close == quote && spec == core {
      assert At(s, Quoted(quote, core), 0);
    }
  }

  lemma SpanRejected(open: char, spec: string, close: char)
    requires Unquoted(spec) && IsQuote(open) && IsQuote(close)
    ensures Rejected([open] + spec + [close]) <==> open == close && SpecForbidden(spec, open)
  {
    hide Contains, Quoted;
    var s := [open] + spec + [close];
    forall k | 0 <= k < |BLOCKED|
      ensures Forbids(s, BLOCKED[k]) <==>
              open == close && (spec == NPM + BLOCKED[k] || (NODE <= BLOCKED[k] && open == '"' && spec == BLOCKED[k]))
    {
      CoresOf(k);
      LiteralIsSpec(open, spec, close, '"', NPM + BLOCKED[k]);
      LiteralIsSpec(open, spec, close, '\'', NPM + BLOCKED[k]);
      LiteralIsSpec(open, spec, close, '"', BLOCKED[k]);
    }
  }

  ghost predicate OffendsAsWritten(parts: seq<Part>, i: nat)
    requires i < |parts|
  {
    match parts[i]
    case Import(_, open, spec, close) => open == close && SpecForbidden(spec, open)
    case Code(_) => Rejected(Segment(parts, i))
  }

  /** Without rewriting, a file is rejected exactly for a consistently quoted import that is forbidden
      as written, or for a blocked literal in the text between imports. */
  lemma UnrewrittenRejected(parts: seq<Part>)
    requires Spanned(parts)
    ensures Rejected(Source(parts)) <==> exists i :: 0 <= i < |parts| && OffendsAsWritten(parts, i)
  {
    hide Rejected, SpecForbidden;
    RejectedInSegment(parts);
    forall i | 0 <= i < |parts|
      ensures Rejected(Segment(parts, i)) <==> OffendsAsWritten(parts, i)
    {
      if parts[i].Import? {
        SpanRejected(parts[i].open, parts[i].spec, parts[i].close);
      }
    }
  }

  ghost predicate Offends(parts: seq<Part>, i: nat)
    requires i < |parts|
  {
    match parts[i]
    case Import(_, open, spec, close) => open == close && NamesBlocked(spec, open)
    case Code(_) => Rejected(Segment(parts, i))
  }

  /** Rewriting and then validating rejects a file exactly for a consistently quoted import that names
      a blocked package, bare or by its npm name in either quote or by its node name in double
      quotes, or for a blocked literal in the text between imports. */
  lemma RewrittenRejected(parts: seq<Part>)
    requires Spanned(parts)
    ensures Rejected(Source(Rewrite(parts))) <==> exists i :: 0 <= i < |parts| && Offends(parts, i)
  {
    hide Rejected, SpecForbidden, NamesBlocked, Matches, RewriteSpec, Source;
    var rewritten := Rewrite(parts);
    RewriteSpanned(parts);
    UnrewrittenRejected(rewritten);
    forall i | 0 <= i < |parts|
      ensures OffendsAsWritten(rewritten, i) <==> Offends(parts, i)
    {
      if parts[i].Import? {
        RewrittenForbidden(parts[i].spec, parts[i].open);
      } else {
        assert Segment(rewritten, i) == Segment(parts, i);
      }
    }
    hide Offends, OffendsAsWritten;
  }

  lemma RewriteSpanned(parts: seq<Part>)
    requires Spanned(parts)
    ensures Spanned(Rewrite(parts))
  {
    forall i | 0 <= i < |parts| && parts[i].Import?
      ensures Unquoted(RewriteSpec(parts[i].spec))
    {
      hide RewriteSpec;
      assert ImportSpan(parts[i]);
      RewriteKeeps(parts[i].spec);
    }
    hide RewriteSpec, Unquoted;
  }

  /** A consistently quoted import that names a blocked package is rejected once the file has been
      rewritten, whatever the rest of the file looks like. */
  lemma BlockedImportRejected(parts: seq<Part>, i: nat)
    requires i < |parts| && parts[i].Import? && IsQuote(parts[i].open) && parts[i].close == parts[i].open
    requires NamesBlocked(parts[i].spec, parts[i].open)
    ensures Rejected(Source(Rewrite(parts)))
  {
    var p, q := parts[i], Rewrite(parts)[i];
    RewrittenForbidden(p.spec, p.open);
    hide Contains, Quoted, RewriteSpec, Matches, Source, PartText;
    SpecContained(q.before, q.open, q.spec);
    PartWithin(Rewrite(parts), i, Quoted(q.open, q.spec));
    var k :| 0 <= k < |BLOCKED| && (q.spec == NPM + BLOCKED[k] || (NODE <= BLOCKED[k] && q.open == '"' && q.spec == BLOCKED[k]));
    assert Forbids(Source(Rewrite(parts)), BLOCKED[k]);
  }

  /** Rewriting has to come first: code whose imports name no protocol, with no blocked literal
      between them, is never rejected as it stands. */
  lemma BareImportsPassUnrewritten(parts: seq<Part>)
    requires Spanned(parts)
    requires forall i :: 0 <= i < |parts| ==> match parts[i] case Import(_, _, spec, _) => !HasProtocol(spec) case Code(_) => !Rejected(Segment(parts, i))
    ensures !Rejected(Source(parts))
  {
    hide Rejected, Segment, Spanned, HasProtocol;
    UnrewrittenRejected(parts);
    if i :| 0 <= i < |parts| && OffendsAsWritten(parts, i) {
      ForbiddenHasProtocol(parts[i].spec, parts[i].open);
    }
  }

  lemma ForbiddenHasProtocol(spec: string, quote: char)
    requires SpecForbidden(spec, quote)
    ensures HasProtocol(spec)
  {
    assert PROTOCOLS[0] == NPM && PROTOCOLS[2] == NODE;
  }

  /** A node package imported in single quotes gets through, and the same import in double quotes
      does not. */
  lemma SingleQuotedNodePasses()
    ensures !Rejected(Source(Rewrite([Import("import fs from ", '\'', "node:fs", '\'')])))
    ensures Rejected(Source(Rewrite([Import("import fs from ", '"', "node:fs", '"')])))
  {
    var single, double := Import("import fs from ", '\'', "node:fs", '\''), Import("import fs from ", '"', "node:fs", '"');
    assert BLOCKED[5] == "node:fs";
    assert forall k :: 0 <= k < |BLOCKED| ==> NPM + BLOCKED[k] != "node:fs" by {
      assert forall k :: 0 <= k < |BLOCKED| ==> (NPM + BLOCKED[k])[1] == 'p';
    }
    assert !NamesBlocked("node:fs", '\'') && NamesBlocked("node:fs", '"');
    assert Spanned([single]);
    RewrittenRejected([single]);
    BlockedImportRejected([double], 0);
  }
}
