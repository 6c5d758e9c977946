/** Building the ordered migration list from the files of a directory. */
module Migrations {
  import opened Options
  import opened Ordering

  /** A directory entry; content is None when reading the file fails. */
  datatype DirEntry = DirEntry(name: string, isDir: bool, content: Option<string>)

  datatype Sqls = Sqls(up: Option<string>, down: Option<string>)

  datatype Migration = Migration(name: string, sqls: Sqls)

  const SQL := ".sql"
  const UP := ".up.sql"
  const DOWN := ".down.sql"

  predicate HasSuffix(s: string, suffix: string): (r: bool)
    ensures r ==> |suffix| <= |s|
  {
    |suffix| <= |s| && s[|s| - |suffix|..] == suffix
  }

  /** The content of the last readable file of that name. */
  function Find(entries: seq<DirEntry>, file: string): Option<string> {
    if entries == [] then None
    else
      var e := entries[|entries| - 1];
      if e.name == file && !e.isDir && e.content.Some? then e.content
      else Find(entries[..|entries| - 1], file)
  }

  function SqlsOf(entries: seq<DirEntry>, name: string): Sqls {
    Sqls(Find(entries, name + UP), Find(entries, name + DOWN))
  }

  const NO_SQLS := Sqls(None, None)

  // ---------- Grouping ----------

  /** The groups are the migrations that have at least one readable file, with its contents. */
  ghost predicate Grouped(entries: seq<DirEntry>, groups: map<string, Sqls>) {
    forall n :: if n in groups then groups[n] == SqlsOf(entries, n) != NO_SQLS else SqlsOf(entries, n) == NO_SQLS
  }

  method Group(entries: seq<DirEntry>) returns (groups: map<string, Sqls>)
    ensures Grouped(entries, groups)
  {
    hide SqlsOf, HasSuffix;
    groups := map[];
    NothingFound();
    for i := 0 to |entries|
      invariant Grouped(entries[..i], groups)
    {
      var e := entries[i];
      var read := entries[..i + 1];
      assert read[..i] == entries[..i] && read[i] == e;
      GroupStep(read, groups);
      if !e.isDir && HasSuffix(e.name, SQL) {
        if HasSuffix(e.name, UP) {
          if e.content.Some? {
            var n := e.name[..|e.name| - |UP|];
            var sqls := if n in groups then groups[n] else NO_SQLS;
            groups := groups[n := sqls.(up := e.content)];
          }
        } else if HasSuffix(e.name, DOWN) {
          if e.content.Some? {
            var n := e.name[..|e.name| - |DOWN|];
            var sqls := if n in groups then groups[n] else NO_SQLS;
            groups := groups[n := sqls.(down := e.content)];
          }
        }
      }
    }
    assert entries[..|entries|] == entries;
  }

  lemma NothingFound()
    ensures forall n :: SqlsOf([], n) == NO_SQLS
  {
  }

  /** Stripping a suffix is undone by adding it, and no name ends in both suffixes. */
  lemma SuffixExact(s: string, suffix: string, n: string)
    ensures n + suffix == s <==> HasSuffix(s, suffix) && n == s[..|s| - |suffix|]
  {
    if n + suffix == s {
      assert s[|n|..] == suffix;
    }
    if HasSuffix(s, suffix) {
      assert s == s[..|s| - |suffix|] + s[|s| - |suffix|..];
    }
  }

  lemma SuffixesDiffer(s: string)
    ensures !(HasSuffix(s, UP) && HasSuffix(s, DOWN))
    ensures HasSuffix(s, UP) || HasSuffix(s, DOWN) ==> HasSuffix(s, SQL)
  {
    if HasSuffix(s, UP) {
      assert s[|s| - 7] == UP[0] == '.';
      assert s[|s| - 4..] == UP[3..];
    }
    if HasSuffix(s, DOWN) {
      assert s[|s| - 7] == DOWN[2] == 'o';
      assert s[|s| - 4..] == DOWN[5..];
    }
  }

  /** What reading one more entry does to every migration. */
  function Updated(sqls: Sqls, e: DirEntry, name: string): Sqls {
    if e.isDir || e.content.None? then sqls
    else Sqls(if HasSuffix(e.name, UP) && name == e.name[..|e.name| - |UP|] then e.content else sqls.up,
              if HasSuffix(e.name, DOWN) && name == e.name[..|e.name| - |DOWN|] then e.content else sqls.down)
  }

  lemma GroupStep(read: seq<DirEntry>, groups: map<string, Sqls>)
    requires read != [] && Grouped(read[..|read| - 1], groups)
    ensures var e := read[|read| - 1];
            && !(HasSuffix(e.name, UP) && HasSuffix(e.name, DOWN))
            && (HasSuffix(e.name, UP) || HasSuffix(e.name, DOWN) ==> HasSuffix(e.name, SQL))
            && forall n :: SqlsOf(read, n) == Updated(if n in groups then groups[n] else NO_SQLS, e, n)
  {
    var e := read[|read| - 1];
    hide HasSuffix, Grouped;
    SuffixesDiffer(e.name);
    forall n
      ensures SqlsOf(read, n) == Updated(SqlsOf(read[..|read| - 1], n), e, n)
    {
      SuffixExact(e.name, UP, n);
      SuffixExact(e.name, DOWN, n);
    }
    assert forall n :: SqlsOf(read[..|read| - 1], n) == if n in groups then groups[n] else NO_SQLS by {
      GroupedSqls(read[..|read| - 1], groups);
    }
  }

  lemma GroupedSqls(read: seq<DirEntry>, groups: map<string, Sqls>)
    requires Grouped(read, groups)
    ensures forall n :: SqlsOf(read, n) == if n in groups then groups[n] else NO_SQLS
  {
  }

  // ---------- Ordering ----------

  ghost predicate SortedNames(names: seq<string>) {
    forall i, j :: 0 <= i < j < |names| ==> StringLess(names[i], names[j])
  }

  method Insert(names: seq<string>, name: string) returns (r: seq<string>)
    requires SortedNames(names) && name !in names
    ensures SortedNames(r) && forall x :: x in r <==> x == name || x in names
  {
    StringsOrdered();
    hide StringLess;
    var at := |names|;
    while at > 0 && StringLess(name, names[at - 1])
      invariant 0 <= at <= |names|
      invariant forall i :: at <= i < |names| ==> StringLess(name, names[i])
    {
      at := at - 1;
    }
    assert at > 0 ==> StringLess(names[at - 1], name);
    r := names[..at] + [name] + names[at..];
  }

  /** The keys of a map, taken in any order, sorted. */
  method SortedKeys(groups: map<string, Sqls>) returns (names: seq<string>)
    ensures SortedNames(names) && forall x :: x in names <==> x in groups
  {
    names := [];
    var todo := groups.Keys;
    while todo != {}
      invariant todo <= groups.Keys && SortedNames(names)
      invariant forall x :: x in names <==> x in groups && x !in todo
      decreases todo
    {
      var name :| name in todo;
      names := Insert(names, name);
      todo := todo - {name};
    }
  }

  // ---------- The list ----------

  ghost predicate Ascending(list: seq<Migration>) {
    forall i, j :: 0 <= i < j < |list| ==> StringLess(list[i].name, list[j].name)
  }

  /** Strictly ascending by name, and exactly the migrations with a readable file. */
  ghost predicate IsPlan(entries: seq<DirEntry>, list: seq<Migration>) {
    && Ascending(list)
    && forall m :: m in list <==> m.sqls == SqlsOf(entries, m.name) != NO_SQLS
  }

  method BuildPlan(entries: seq<DirEntry>) returns (list: seq<Migration>)
    ensures IsPlan(entries, list)
  {
    hide SqlsOf;
    var groups := Group(entries);
    var names := SortedKeys(groups);
    list := [];
    for i := 0 to |names|
      invariant |list| == i
      invariant forall j :: 0 <= j < i ==> names[j] in groups && list[j] == Migration(names[j], groups[names[j]])
    {
      assert names[i] in names;
      list := list + [Migration(names[i], groups[names[i]])];
    }
    forall m: Migration | m.sqls == SqlsOf(entries, m.name) != NO_SQLS
      ensures m in list
    {
      var i :| 0 <= i < |names| && names[i] == m.name;
      assert list[i] == m;
    }
  }

  // ---------- The plan depends only on the directory ----------

  ghost predicate DistinctNames(entries: seq<DirEntry>) {
    forall i, j :: 0 <= i < j < |entries| ==> entries[i].name != entries[j].name
  }

  lemma {:induction false} FindExact(entries: seq<DirEntry>, file: string, content: string)
    requires DistinctNames(entries)
    ensures Find(entries, file) == Some(content) <==> DirEntry(file, false, Some(content)) in entries
  {
    if entries != [] {
      var init, e := entries[..|entries| - 1], entries[|entries| - 1];
      assert entries == init + [e];
      assert forall i :: 0 <= i < |init| ==> init[i] == entries[i] && init[i].name != e.name;
      assert forall x :: x in init ==> x.name != e.name;
      FindExact(init, file, content);
    }
  }

  lemma FindSame(entries: seq<DirEntry>, other: seq<DirEntry>, file: string)
    requires DistinctNames(entries) && DistinctNames(other)
    requires forall e :: e in entries <==> e in other
    ensures Find(entries, file) == Find(other, file)
  {
    if Find(entries, file).Some? {
      FindExact(entries, file, Find(entries, file).value);
      FindExact(other, file, Find(entries, file).value);
    } else if Find(other, file).Some? {
      FindExact(entries, file, Find(other, file).value);
      FindExact(other, file, Find(other, file).value);
    }
  }

  lemma {:induction false} AscendingUnique(a: seq<Migration>, b: seq<Migration>)
    requires Ascending(a) && Ascending(b) && forall m :: m in a <==> m in b
    ensures a == b
  {
    StringsOrdered();
    hide StringLess;
    assert a == [] <==> b == [] by {
      assert a == [] || a[0] in b;
      assert b == [] || b[0] in a;
    }
    if a != [] {
      var x, y := a[|a| - 1], b[|b| - 1];
      assert x in b && y in a;
      assert x == y;
      var a', b' := a[..|a| - 1], b[..|b| - 1];
      assert a == a' + [x] && b == b' + [y];
      assert forall m :: m in a <==> m in a' || m == x;
      assert forall m :: m in b <==> m in b' || m == y;
      assert x !in a' && y !in b';
      AscendingUnique(a', b');
    }
  }

  /** The same files listed in any order give the same plan, whichever copy of the builder made it. */
  lemma PlanUnique(entries: seq<DirEntry>, list: seq<Migration>, other: seq<DirEntry>, list': seq<Migration>)
    requires DistinctNames(entries) && DistinctNames(other)
    requires forall e :: e in entries <==> e in other
    requires IsPlan(entries, list) && IsPlan(other, list')
    ensures list == list'
  {
    forall n
      ensures SqlsOf(entries, n) == SqlsOf(other, n)
    {
      FindSame(entries, other, n + UP);
      FindSame(entries, other, n + DOWN);
    }
    AscendingUnique(list, list');
  }

  /** Every readable up or down file is in the plan, in its own slot, and every slot comes from its file. */
  lemma NothingLost(entries: seq<DirEntry>, list: seq<Migration>, name: string, content: string)
    requires DistinctNames(entries) && IsPlan(entries, list)
    ensures DirEntry(name + UP, false, Some(content)) in entries <==>
              exists m :: m in list && m.name == name && m.sqls.up == Some(content)
    ensures DirEntry(name + DOWN, false, Some(content)) in entries <==>
              exists m :: m in list && m.name == name && m.sqls.down == Some(content)
  {
    FindExact(entries, name + UP, content);
    FindExact(entries, name + DOWN, content);
    var m := Migration(name, SqlsOf(entries, name));
    assert m.sqls != NO_SQLS ==> m in list;
  }
}
