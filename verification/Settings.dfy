/** The settings tree: printing it as dotted keys, and finding a value by such a key. */
module Settings {

  /** A decoded JSON value; Null is also what a failed lookup returns. */
  datatype Value = Null | Scalar(text: string) | Node(entries: map<string, Value>)

  datatype Row = Row(key: string, value: Value)

  // ---------- Paths through a tree ----------

  /** The value reached by following `path` key by key, Null when a step is missing. */
  function Follow(v: Value, path: seq<string>): Value
    decreases |path|
  {
    if path == [] then v
    else if v.Node? && path[0] in v.entries then Follow(v.entries[path[0]], path[1..])
    else Null
  }

  /** `path` exists and ends in something that is not a node. */
  ghost predicate LeafPath(v: Value, path: seq<string>)
    decreases |path|
  {
    if path == [] then !v.Node?
    else v.Node? && path[0] in v.entries && LeafPath(v.entries[path[0]], path[1..])
  }

  /** Some step of the path does not exist. */
  ghost predicate Misses(v: Value, path: seq<string>)
    decreases |path|
  {
    path != [] && (!v.Node? || path[0] !in v.entries || Misses(v.entries[path[0]], path[1..]))
  }

  /** All steps of the path exist and lead to w. */
  ghost predicate Reaches(v: Value, path: seq<string>, w: Value)
    decreases |path|
  {
    if path == [] then v == w else v.Node? && path[0] in v.entries && Reaches(v.entries[path[0]], path[1..], w)
  }

  /** A path with a missing step leads nowhere, which reads as Null; any other leads to exactly one
      value.  So Null is found for a missing step or for a null leaf, and for nothing else. */
  lemma {:induction false} FollowExactly(v: Value, path: seq<string>)
    ensures if Misses(v, path) then Follow(v, path) == Null else forall w :: Reaches(v, path, w) <==> w == Follow(v, path)
    ensures Follow(v, path) == Null <==> Misses(v, path) || Reaches(v, path, Null)
    ensures Misses(v, path) ==> forall w :: !Reaches(v, path, w)
    decreases |path|
  {
    if path != [] && v.Node? && path[0] in v.entries {
      FollowExactly(v.entries[path[0]], path[1..]);
    }
  }

  function Extend(prefix: string, key: string): string {
    if prefix == "" then key else prefix + "." + key
  }

  function Dotted(prefix: string, path: seq<string>): string
    decreases |path|
  {
    if path == [] then prefix else Dotted(Extend(prefix, path[0]), path[1..])
  }

  // ---------- Flattening ----------

  ghost function RowOf(entries: map<string, Value>, prefix: string, path: seq<string>): Row {
    Row(Dotted(prefix, path), Follow(Node(entries), path))
  }

  ghost predicate Distinct<T>(s: seq<T>) {
    forall i, j :: 0 <= i < j < |s| ==> s[i] != s[j]
  }

  /** `rows` is a listing of the leaves below `entries`: one row per leaf path, in some order. */
  ghost predicate Lists(entries: map<string, Value>, prefix: string, rows: seq<Row>, paths: seq<seq<string>>) {
    && |paths| == |rows|
    && Distinct(paths)
    && (forall i :: 0 <= i < |paths| ==>
          && paths[i] != [] && LeafPath(Node(entries), paths[i])
          && rows[i] == RowOf(entries, prefix, paths[i]))
    && (forall p :: p != [] && LeafPath(Node(entries), p) ==> p in paths)
  }

  class Table {
    var rows: seq<Row>

    constructor ()
      ensures rows == []
    {
      rows := [];
    }

    /** Appends one row per leaf, visiting the keys of every map in an arbitrary order. */
    method Flatten(prefix: string, settings: map<string, Value>) returns (ghost paths: seq<seq<string>>)
      modifies this
      ensures |rows| >= |old(rows)| && rows[..|old(rows)|] == old(rows)
      ensures Lists(settings, prefix, rows[|old(rows)|..], paths)
      decreases Node(settings)
    {
      hide Dotted, Follow, LeafPath;
      var todo := settings.Keys;
      ghost var done: set<string> := {};
      ghost var start := |rows|;
      paths := [];
      while todo != {}
        invariant todo + done == settings.Keys && todo !! done
        invariant |rows| >= start && rows[..start] == old(rows)
        invariant ListsPart(settings, prefix, done, rows[start..], paths)
        decreases todo
      {
        var key :| key in todo;
        var fullKey := if prefix != "" then prefix + "." + key else key;
        ghost var before := rows[start..];
        match settings[key] {
          case Node(entries) =>
            assert settings[key] == Node(entries);
            ghost var sub := Flatten(fullKey, entries);
            ghost var added := rows[start + |before|..];
            assert rows[start..] == before + added;
            PartGrows(settings, prefix, done, before, paths, key, added, sub);
            paths := paths + Under(key, sub);
          case other =>
            rows := rows + [Row(fullKey, other)];
            assert rows[start..] == before + [Row(fullKey, other)];
            LeafGrows(settings, prefix, done, before, paths, key);
            paths := paths + [[key]];
        }
        todo, done := todo - {key}, done + {key};
      }
      PartDone(settings, prefix, rows[start..], paths);
    }
  }

  /** A listing of the leaves whose first key is in `done`. */
  ghost predicate ListsPart(entries: map<string, Value>, prefix: string, done: set<string>, rows: seq<Row>, paths: seq<seq<string>>) {
    Sound(entries, prefix, done, rows, paths) && Complete(entries, done, paths)
  }

  ghost predicate Sound(entries: map<string, Value>, prefix: string, done: set<string>, rows: seq<Row>, paths: seq<seq<string>>) {
    && |paths| == |rows|
    && Distinct(paths)
    && forall i :: 0 <= i < |paths| ==>
         && paths[i] != [] && paths[i][0] in done && LeafPath(Node(entries), paths[i])
         && rows[i] == RowOf(entries, prefix, paths[i])
  }

  ghost predicate Complete(entries: map<string, Value>, done: set<string>, paths: seq<seq<string>>) {
    forall p :: p != [] && p[0] in done && LeafPath(Node(entries), p) ==> p in paths
  }

  ghost function Under(key: string, paths: seq<seq<string>>): (r: seq<seq<string>>)
    ensures |r| == |paths| && forall i :: 0 <= i < |r| ==> r[i] == [key] + paths[i]
  {
    seq(|paths|, i requires 0 <= i < |paths| => [key] + paths[i])
  }

  lemma StepInto(entries: map<string, Value>, prefix: string, key: string, path: seq<string>)
    requires key in entries
    ensures var v := Node(entries);
            && Follow(v, [key] + path) == Follow(entries[key], path)
            && LeafPath(v, [key] + path) == LeafPath(entries[key], path)
            && Dotted(prefix, [key] + path) == Dotted(Extend(prefix, key), path)
  {
    assert ([key] + path)[1..] == path;
  }

  lemma LeafGrows(entries: map<string, Value>, prefix: string, done: set<string>, rows: seq<Row>, paths: seq<seq<string>>, key: string)
    requires ListsPart(entries, prefix, done, rows, paths)
    requires key in entries && key !in done && !entries[key].Node?
    ensures ListsPart(entries, prefix, done + {key}, rows + [Row(Extend(prefix, key), entries[key])], paths + [[key]])
  {
    StepInto(entries, prefix, key, []);
    assert [key] + [] == [key];
    var all := paths + [[key]];
    forall p | p != [] && p[0] in done + {key} && LeafPath(Node(entries), p)
      ensures p in all
    {
      if p[0] == key {
        assert p == [key] + p[1..];
        StepInto(entries, prefix, key, p[1..]);
        assert all[|paths|] == p;
      } else {
        assert p in paths;
      }
    }
  }

  lemma PartDone(entries: map<string, Value>, prefix: string, rows: seq<Row>, paths: seq<seq<string>>)
    requires ListsPart(entries, prefix, entries.Keys, rows, paths)
    ensures Lists(entries, prefix, rows, paths)
  {
  }

  lemma SoundGrows(entries: map<string, Value>, prefix: string, done: set<string>, rows: seq<Row>, paths: seq<seq<string>>,
                   key: string, added: seq<Row>, sub: seq<seq<string>>)
    requires Sound(entries, prefix, done, rows, paths)
    requires key in entries && key !in done && entries[key].Node?
    requires Lists(entries[key].entries, Extend(prefix, key), added, sub)
    ensures Sound(entries, prefix, done + {key}, rows + added, paths + Under(key, sub))
  {
    hide Follow, LeafPath, Dotted;
    var below := Under(key, sub);
    forall i | 0 <= i < |sub|
      ensures below[i] != [] && below[i][0] == key && LeafPath(Node(entries), below[i])
      ensures added[i] == RowOf(entries, prefix, below[i])
    {
      StepInto(entries, prefix, key, sub[i]);
    }
    forall i, j | 0 <= i < j < |sub|
      ensures below[i] != below[j]
    {
      assert below[i][1..] == sub[i] && below[j][1..] == sub[j];
    }
  }

  lemma PartGrows(entries: map<string, Value>, prefix: string, done: set<string>, rows: seq<Row>, paths: seq<seq<string>>,
                  key: string, added: seq<Row>, sub: seq<seq<string>>)
    requires ListsPart(entries, prefix, done, rows, paths)
    requires key in entries && key !in done && entries[key].Node?
    requires Lists(entries[key].entries, Extend(prefix, key), added, sub)
    ensures ListsPart(entries, prefix, done + {key}, rows + added, paths + Under(key, sub))
  {
    SoundGrows(entries, prefix, done, rows, paths, key, added, sub);
    hide LeafPath, Sound;
    forall p | p != [] && p[0] in done + {key} && LeafPath(Node(entries), p)
      ensures p in paths + Under(key, sub)
    {
      if p[0] == key {
        PartComplete(entries, key, sub, p);
      } else {
        assert p in paths;
      }
    }
  }

  lemma PartComplete(entries: map<string, Value>, key: string, sub: seq<seq<string>>, p: seq<string>)
    requires key in entries && entries[key].Node?
    requires p != [] && p[0] == key && LeafPath(Node(entries), p)
    requires forall q :: q != [] && LeafPath(Node(entries[key].entries), q) ==> q in sub
    ensures p in Under(key, sub)
  {
    assert p == [key] + p[1..];
    StepInto(entries, "", key, p[1..]);
    NodeLeafPath(entries[key], p[1..]);
    assert entries[key] == Node(entries[key].entries);
    var i :| 0 <= i < |sub| && sub[i] == p[1..];
    assert Under(key, sub)[i] == p;
  }

  lemma NodeLeafPath(v: Value, path: seq<string>)
    requires v.Node? && LeafPath(v, path)
    ensures path != []
  {
  }

  // ---------- Keys ----------

  /** The non-empty pieces of a key between dots. */
  function Pieces(key: string): seq<string> {
    if key == "" then []
    else if key[|key| - 1] == '.' then Pieces(key[..|key| - 1])
    else
      var piece := LastPiece(key);
      Pieces(key[..|key| - |piece|]) + [piece]
  }

  function LastPiece(key: string): (r: string)
    ensures |r| <= |key| && key[|key| - |r|..] == r && '.' !in r
    ensures |r| < |key| ==> key[|key| - |r| - 1] == '.'
    ensures key != "" && key[|key| - 1] != '.' ==> r != ""
  {
    if key == "" || key[|key| - 1] == '.' then "" else LastPiece(key[..|key| - 1]) + [key[|key| - 1]]
  }

  method SplitKey(key: string) returns (parts: seq<string>)
    ensures parts == Pieces(key)
  {
    NoPieces();
    hide Pieces, LastPiece, Before;
    parts := [];
    var current := "";
    for i := 0 to |key|
      invariant current == LastPiece(key[..i])
      invariant parts == Before(key[..i])
    {
      var c := key[i];
      SplitStep(key, i);
      if c == '.' {
        if current != "" {
          parts := parts + [current];
          current := "";
        }
      } else {
        current := current + [c];
      }
    }
    assert key[..|key|] == key;
    PiecesSplit(key);
    if current != "" {
      parts := parts + [current];
    }
  }

  /** The pieces of a key that are already closed by a dot. */
  function Before(key: string): seq<string> {
    Pieces(key[..|key| - |LastPiece(key)|])
  }

  lemma NoPieces()
    ensures LastPiece("") == "" && Pieces("") == [] && Before("") == []
  {
    assert ""[..0] == "";
  }

  lemma PiecesSplit(key: string)
    ensures Pieces(key) == Before(key) + (if LastPiece(key) == "" then [] else [LastPiece(key)])
  {
    if LastPiece(key) == "" {
      assert key[..|key|] == key;
    }
  }

  lemma LastPieceStep(key: string, c: char)
    ensures LastPiece(key + [c]) == if c == '.' then "" else LastPiece(key) + [c]
  {
    assert (key + [c])[..|key|] == key;
  }

  lemma BeforeDot(key: string)
    ensures Before(key + ['.']) == Pieces(key)
  {
    var longer := key + ['.'];
    assert LastPiece(longer) == "" && longer[..|longer|] == longer && longer[..|key|] == key;
  }

  lemma BeforeLetter(key: string, c: char)
    requires c != '.'
    ensures Before(key + [c]) == Before(key)
  {
    LastPieceStep(key, c);
    hide LastPiece, Pieces;
    var longer, open := key + [c], |key| - |LastPiece(key)|;
    assert |longer| - |LastPiece(longer)| == open && longer[..open] == key[..open];
  }

  lemma BeforeStep(key: string, c: char)
    ensures Before(key + [c]) == if c == '.' then Pieces(key) else Before(key)
  {
    hide LastPiece, Pieces, Before;
    if c == '.' {
      BeforeDot(key);
    } else {
      BeforeLetter(key, c);
    }
  }

  lemma SplitStep(key: string, i: nat)
    requires i < |key|
    ensures var before, last := Before(key[..i]), LastPiece(key[..i]);
            && LastPiece(key[..i + 1]) == (if key[i] == '.' then "" else last + [key[i]])
            && Before(key[..i + 1]) == if key[i] == '.' && last != "" then before + [last] else before
  {
    hide Pieces, LastPiece, Before;
    assert key[..i + 1] == key[..i] + [key[i]];
    PiecesSplit(key[..i]);
    LastPieceStep(key[..i], key[i]);
    BeforeStep(key[..i], key[i]);
  }

  method Navigate(settings: map<string, Value>, key: string) returns (value: Value)
    ensures value == Follow(Node(settings), Pieces(key))
    ensures value == Null <==> Misses(Node(settings), Pieces(key)) || Reaches(Node(settings), Pieces(key), Null)
    ensures value != Null ==> Reaches(Node(settings), Pieces(key), value)
  {
    FollowExactly(Node(settings), Pieces(key));
    hide Misses, Reaches, Pieces;
    var parts := SplitKey(key);
    value := Node(settings);
    for i := 0 to |parts|
      invariant Follow(value, parts[i..]) == Follow(Node(settings), parts)
    {
      if value.Node? && parts[i] in value.entries {
        assert parts[i..][1..] == parts[i + 1..];
        value := value.entries[parts[i]];
      } else {
        return Null;
      }
    }
  }

  // ---------- Printing and finding undo each other ----------

  ghost predicate CleanKey(key: string) {
    key != "" && '.' !in key
  }

  ghost predicate CleanPath(path: seq<string>) {
    forall i :: 0 <= i < |path| ==> CleanKey(path[i])
  }

  lemma {:induction false} PiecesClean(key: string)
    ensures CleanPath(Pieces(key))
    decreases |key|
  {
    if key != "" {
      if key[|key| - 1] == '.' {
        PiecesClean(key[..|key| - 1]);
      } else {
        PiecesClean(key[..|key| - |LastPiece(key)|]);
      }
    }
  }

  /** Appending characters other than dots extends the last piece. */
  lemma {:induction false} LastPieceGrows(key: string, part: string)
    requires '.' !in part
    ensures LastPiece(key + part) == LastPiece(key) + part
    ensures Before(key + part) == Before(key)
    decreases |part|
  {
    hide LastPiece, Before;
    if part == "" {
      assert key + part == key;
    } else {
      LastPieceStep(key, part[0]);
      BeforeStep(key, part[0]);
      LastPieceGrows(key + [part[0]], part[1..]);
      assert key + part == (key + [part[0]]) + part[1..];
    }
  }

  lemma PiecesExtend(prefix: string, part: string)
    requires CleanKey(part)
    ensures Pieces(Extend(prefix, part)) == Pieces(prefix) + [part]
  {
    NoPieces();
    hide Pieces, LastPiece, Before;
    LastPieceStep(prefix, '.');
    BeforeStep(prefix, '.');
    PiecesSplit(Extend(prefix, part));
    if prefix == "" {
      LastPieceGrows("", part);
      assert "" + part == part;
    } else {
      LastPieceGrows(prefix + ".", part);
    }
  }

  lemma {:induction false} PiecesDotted(prefix: string, path: seq<string>)
    requires CleanPath(path)
    ensures Pieces(Dotted(prefix, path)) == Pieces(prefix) + path
    decreases |path|
  {
    hide Pieces;
    if path != [] {
      PiecesExtend(prefix, path[0]);
      PiecesDotted(Extend(prefix, path[0]), path[1..]);
      assert path == [path[0]] + path[1..];
    }
  }

  /** Two keys whose pieces differ by `first` in front only. */
  ghost predicate PiecesAfter(first: seq<string>, longer: string, key: string) {
    Before(longer) == first + Before(key) && LastPiece(longer) == LastPiece(key)
  }

  lemma AfterPieces(first: seq<string>, longer: string, key: string)
    requires PiecesAfter(first, longer, key)
    ensures Pieces(longer) == first + Pieces(key)
  {
    hide Pieces, LastPiece, Before;
    PiecesSplit(longer);
    PiecesSplit(key);
  }

  lemma AfterStep(first: seq<string>, longer: string, key: string, c: char)
    requires PiecesAfter(first, longer, key)
    ensures PiecesAfter(first, longer + [c], key + [c])
  {
    AfterPieces(first, longer, key);
    hide Pieces, LastPiece, Before;
    LastPieceStep(longer, c);
    LastPieceStep(key, c);
    BeforeStep(longer, c);
    BeforeStep(key, c);
  }

  lemma {:induction false} SamePieces(first: seq<string>, head: string, b: string)
    requires PiecesAfter(first, head, "")
    ensures PiecesAfter(first, head + b, b)
    decreases |b|
  {
    hide PiecesAfter;
    if b == "" {
      assert head + b == head;
    } else {
      var init, c := b[..|b| - 1], b[|b| - 1];
      SamePieces(first, head, init);
      AfterStep(first, head + init, init, c);
      assert head + b == head + init + [c] && b == init + [c];
    }
  }

  lemma JoinedPieces(a: string, b: string)
    ensures PiecesAfter(Pieces(a), a + "." + b, b)
  {
    NoPieces();
    hide Pieces, LastPiece, Before;
    BeforeStep(a, '.');
    LastPieceStep(a, '.');
    assert a + "." == a + ['.'];
    SamePieces(Pieces(a), a + ".", b);
  }

  /** Keys joined by a dot have the pieces of both, a key without dots is its only piece, and the empty
      key has none: so it does not matter how many dots there are between two pieces, or around them. */
  lemma PiecesJoin(a: string, b: string)
    ensures Pieces(a + "." + b) == Pieces(a) + Pieces(b)
    ensures '.' !in a ==> Pieces(a) == if a == "" then [] else [a]
  {
    JoinedPieces(a, b);
    AfterPieces(Pieces(a), a + "." + b, b);
    NoPieces();
    hide Pieces, PiecesAfter;
    if '.' !in a && a != "" {
      PiecesExtend("", a);
    }
  }

  /** A printed key leads back along its own path exactly when every key on the path is non-empty
      and free of dots; no other path can be spelled as a key at all. */
  lemma KeyReadsBack(path: seq<string>)
    ensures Pieces(Dotted("", path)) == path <==> CleanPath(path)
    ensures (exists key :: Pieces(key) == path) <==> CleanPath(path)
  {
    if CleanPath(path) {
      PiecesDotted("", path);
      assert Pieces(Dotted("", path)) == path;
    }
    if key :| Pieces(key) == path {
      PiecesClean(key);
    }
  }

  ghost predicate WellKeyed(entries: map<string, Value>) {
    forall p :: LeafPath(Node(entries), p) ==> CleanPath(p)
  }

  lemma {:induction false} LeafValue(v: Value, path: seq<string>)
    requires LeafPath(v, path)
    ensures !Follow(v, path).Node?
    decreases |path|
  {
    if path != [] {
      LeafValue(v.entries[path[0]], path[1..]);
    }
  }

  /** On a well-keyed tree the printed rows and the keys that find a leaf are the same thing. */
  lemma RowsNavigate(entries: map<string, Value>, rows: seq<Row>, paths: seq<seq<string>>)
    requires WellKeyed(entries) && Lists(entries, "", rows, paths)
    ensures forall i :: 0 <= i < |rows| ==> !rows[i].value.Node? && Follow(Node(entries), Pieces(rows[i].key)) == rows[i].value
    ensures forall i, j :: 0 <= i < j < |rows| ==> rows[i].key != rows[j].key
  {
    hide Pieces, Dotted, Follow, LeafPath;
    forall i | 0 <= i < |rows|
      ensures Pieces(rows[i].key) == paths[i]
      ensures !rows[i].value.Node? && Follow(Node(entries), Pieces(rows[i].key)) == rows[i].value
    {
      KeyReadsBack(paths[i]);
      LeafValue(Node(entries), paths[i]);
    }
  }

  /** Any key that finds a leaf has its normalised form among the rows, with that leaf. */
  lemma FoundKeyIsListed(entries: map<string, Value>, rows: seq<Row>, paths: seq<seq<string>>, key: string)
    requires Lists(entries, "", rows, paths)
    requires LeafPath(Node(entries), Pieces(key))
    ensures Row(Dotted("", Pieces(key)), Follow(Node(entries), Pieces(key))) in rows
    ensures Pieces(Dotted("", Pieces(key))) == Pieces(key)
  {
    hide Pieces, Dotted, Follow;
    PiecesClean(key);
    KeyReadsBack(Pieces(key));
    var i :| 0 <= i < |paths| && paths[i] == Pieces(key);
    assert rows[i] in rows;
  }

  /** A key with a dot in it is printed but not found again. */
  lemma DottedKeyIsLost(rows: seq<Row>, paths: seq<seq<string>>)
    requires Lists(map["a.b" := Scalar("1")], "", rows, paths)
    ensures Row("a.b", Scalar("1")) in rows
    ensures Follow(Node(map["a.b" := Scalar("1")]), Pieces("a.b")) != Scalar("1")
  {
    hide Pieces;
    var tree := map["a.b" := Scalar("1")];
    StepInto(tree, "", "a.b", []);
    assert ["a.b"] + [] == ["a.b"];
    assert LeafPath(Node(tree), ["a.b"]);
    var i :| 0 <= i < |paths| && paths[i] == ["a.b"];
    assert rows[i] in rows;
    PiecesClean("a.b");
    assert "a.b"[1] == '.';
  }

  // ---------- The order of map iteration does not matter ----------

  function Without<T>(s: seq<T>, j: nat): (r: seq<T>)
    requires j < |s|
    ensures |r| == |s| - 1 && forall i :: 0 <= i < |r| ==> r[i] == s[if i < j then i else i + 1]
  {
    s[..j] + s[j + 1..]
  }

  lemma WithoutSpec<T>(s: seq<T>, j: nat)
    requires j < |s|
    ensures multiset(s) == multiset(Without(s, j)) + multiset{s[j]}
    ensures Distinct(s) ==> Distinct(Without(s, j)) && forall x :: x in Without(s, j) <==> x in s && x != s[j]
  {
    assert s == s[..j] + [s[j]] + s[j + 1..];
    assert multiset(Without(s, j)) == multiset(s[..j]) + multiset(s[j + 1..]);
    if Distinct(s) {
      forall x | x in s && x != s[j]
        ensures x in Without(s, j)
      {
        var i :| 0 <= i < |s| && s[i] == x;
        assert Without(s, j)[if i < j then i else i - 1] == x;
      }
    }
  }

  lemma {:induction false} SameImage(entries: map<string, Value>, prefix: string,
                                     paths: seq<seq<string>>, rows: seq<Row>, paths': seq<seq<string>>, rows': seq<Row>)
    requires |rows| == |paths| && |rows'| == |paths'| && Distinct(paths) && Distinct(paths')
    requires forall i :: 0 <= i < |rows| ==> rows[i] == RowOf(entries, prefix, paths[i])
    requires forall i :: 0 <= i < |rows'| ==> rows'[i] == RowOf(entries, prefix, paths'[i])
    requires forall p :: p in paths <==> p in paths'
    ensures multiset(rows) == multiset(rows')
    decreases |paths|
  {
    hide RowOf;
    assert paths' == [] || paths'[0] in paths;
    if paths != [] {
      assert paths[0] in paths';
      var j :| 0 <= j < |paths'| && paths'[j] == paths[0];
      WithoutSpec(paths, 0);
      WithoutSpec(paths', j);
      WithoutSpec(rows, 0);
      WithoutSpec(rows', j);
      SameImage(entries, prefix, Without(paths, 0), Without(rows, 0), Without(paths', j), Without(rows', j));
    }
  }

  /** Any two listings of one tree hold the same rows, collisions included. */
  lemma ListingUnique(entries: map<string, Value>, prefix: string,
                      rows: seq<Row>, paths: seq<seq<string>>, rows': seq<Row>, paths': seq<seq<string>>)
    requires Lists(entries, prefix, rows, paths) && Lists(entries, prefix, rows', paths')
    ensures multiset(rows) == multiset(rows')
  {
    SameImage(entries, prefix, paths, rows, paths', rows');
  }
}
