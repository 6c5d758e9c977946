/** Dominant script of a text.  The classifier tables and the counters are maps whose
    iteration order is arbitrary; the verdict is not. */
module Script {

  type Tables = map<string, char -> bool>

  /** As in Unicode, no character belongs to two scripts; "" and "mixed" name no script. */
  ghost predicate ProperTables(tables: Tables) {
    && "" !in tables && "mixed" !in tables
    && forall m, n, c: char :: m in tables && n in tables && tables[m](c) && tables[n](c) ==> m == n
  }

  function Letters(s: string, isLetter: char -> bool): nat {
    if s == "" then 0 else Letters(s[..|s| - 1], isLetter) + (if isLetter(s[|s| - 1]) then 1 else 0)
  }

  function Count(s: string, isLetter: char -> bool, table: char -> bool): nat {
    if s == "" then 0
    else Count(s[..|s| - 1], isLetter, table) + (if isLetter(s[|s| - 1]) && table(s[|s| - 1]) then 1 else 0)
  }

  /** The script holds at least 60 percent of the letters. */
  ghost predicate Dominates(s: string, isLetter: char -> bool, table: char -> bool) {
    5 * Count(s, isLetter, table) >= 3 * Letters(s, isLetter)
  }

  /** What the verdict on a text has to be. */
  ghost predicate Verdict(s: string, isLetter: char -> bool, tables: Tables, r: string) {
    if Letters(s, isLetter) == 0 then r == ""
    else if r in tables then Dominates(s, isLetter, tables[r])
    else r == "mixed" && forall n :: n in tables ==> !Dominates(s, isLetter, tables[n])
  }

  // ---------- The counting algorithm ----------

  /** The counters after scanning s: exactly the scripts that occur, with their counts. */
  ghost predicate Counted(s: string, isLetter: char -> bool, tables: Tables, counts: map<string, nat>) {
    && (forall n :: n in counts ==> n in tables && counts[n] == Count(s, isLetter, tables[n]))
    && (forall n :: n in tables && n !in counts ==> Count(s, isLetter, tables[n]) == 0)
  }

  method Classify(c: char, tables: Tables) returns (found: bool, name: string)
    ensures found <==> exists n :: n in tables && tables[n](c)
    ensures found ==> name in tables && tables[name](c)
  {
    var todo := tables.Keys;
    while todo != {}
      invariant todo <= tables.Keys
      invariant forall n :: n in tables && n !in todo ==> !tables[n](c)
      decreases todo
    {
      var n :| n in todo;
      if tables[n](c) {
        return true, n;
      }
      todo := todo - {n};
    }
    found, name := false, "";
  }

  method CountScripts(s: string, isLetter: char -> bool, tables: Tables) returns (counts: map<string, nat>, total: nat)
    requires ProperTables(tables)
    ensures total == Letters(s, isLetter) && Counted(s, isLetter, tables, counts)
  {
    counts, total := map[], 0;
    for i := 0 to |s|
      invariant total == Letters(s[..i], isLetter) && Counted(s[..i], isLetter, tables, counts)
    {
      assert s[..i + 1][..i] == s[..i];
      if isLetter(s[i]) {
        total := total + 1;
        var found, name := Classify(s[i], tables);
        if found {
          counts := counts[name := (if name in counts then counts[name] else 0) + 1];
        }
      }
    }
    assert s[..|s|] == s;
  }

  /** A counter with the greatest value; which one among equals depends on the map order. */
  method Greatest(counts: map<string, nat>) returns (dominant: string, max: nat)
    ensures forall n :: n in counts ==> counts[n] <= max
    ensures max > 0 ==> dominant in counts && counts[dominant] == max
  {
    dominant, max := "", 0;
    var todo := counts.Keys;
    while todo != {}
      invariant todo <= counts.Keys
      invariant max > 0 ==> dominant in counts && counts[dominant] == max
      invariant forall n :: n in counts && n !in todo ==> counts[n] <= max
      decreases todo
    {
      var name :| name in todo;
      if counts[name] > max {
        max := counts[name];
        dominant := name;
      }
      todo := todo - {name};
    }
  }

  method DominantScript(s: string, isLetter: char -> bool, tables: Tables) returns (r: string)
    requires ProperTables(tables)
    ensures Verdict(s, isLetter, tables, r)
  {
    hide Count, Letters;
    var counts, total := CountScripts(s, isLetter, tables);
    if total == 0 {
      return "";
    }
    var dominant, max := Greatest(counts);
    Threshold(max, total);
    if max * 100 / total < 60 {
      return "mixed";
    }
    r := dominant;
  }

  lemma ScaleMonotone(a: nat, b: nat, scale: nat)
    requires a <= b
    ensures a * scale <= b * scale
  {
  }

  /** Integer division rounds down, so the percentage test is exact. */
  lemma Threshold(max: nat, total: nat)
    requires total > 0
    ensures max * 100 / total < 60 <==> 5 * max < 3 * total
  {
    var q, rest := max * 100 / total, max * 100 % total;
    assert max * 100 == q * total + rest;
    if q >= 60 {
      ScaleMonotone(60, q, total);
    } else {
      ScaleMonotone(q, 59, total);
    }
  }

  // ---------- The verdict does not depend on any order ----------

  /** Two different scripts share no letter. */
  lemma {:induction false} CountsAddUp(s: string, isLetter: char -> bool, tables: Tables, m: string, n: string)
    requires ProperTables(tables) && m in tables && n in tables && m != n
    ensures Count(s, isLetter, tables[m]) + Count(s, isLetter, tables[n]) <= Letters(s, isLetter)
  {
    if s != "" {
      CountsAddUp(s[..|s| - 1], isLetter, tables, m, n);
    }
  }

  /** There is exactly one verdict, so map order cannot show. */
  lemma VerdictUnique(s: string, isLetter: char -> bool, tables: Tables, r: string, r': string)
    requires ProperTables(tables)
    requires Verdict(s, isLetter, tables, r) && Verdict(s, isLetter, tables, r')
    ensures r == r'
  {
    if Letters(s, isLetter) > 0 && r in tables && r' in tables && r != r' {
      CountsAddUp(s, isLetter, tables, r, r');
      assert false;
    }
  }

  /** Three Latin letters of five are exactly 60 percent, and that is enough. */
  lemma SixtyPercentIsEnough()
    ensures var tables: Tables := map["latin" := (c: char) => 'a' <= c <= 'z', "greek" := (c: char) => '\U{03B1}' <= c <= '\U{03C9}'];
            var text := "abc\U{03B1}\U{03B2}";
            Verdict(text, c => true, tables, "latin") && !Verdict(text, c => true, tables, "mixed")
  {
    var tables: Tables := map["latin" := (c: char) => 'a' <= c <= 'z', "greek" := (c: char) => '\U{03B1}' <= c <= '\U{03C9}'];
    var text := "abc\U{03B1}\U{03B2}";
    var isLetter := (c: char) => true;
    assert text[..4] == "abc\U{03B1}" && text[..4][..3] == "abc" && text[..3][..2] == "ab" && text[..2][..1] == "a" && text[..1][..0] == "";
    assert Letters("a", isLetter) == 1 && Letters("ab", isLetter) == 2 && Letters("abc", isLetter) == 3 && Letters(text, isLetter) == 5;
    var latin := tables["latin"];
    assert Count("a", isLetter, latin) == 1 && Count("ab", isLetter, latin) == 2 && Count("abc", isLetter, latin) == 3;
    assert Count(text, isLetter, latin) == 3;
  }

  lemma {:induction false} CountConcat(a: string, b: string, isLetter: char -> bool, table: char -> bool)
    ensures Count(a + b, isLetter, table) == Count(a, isLetter, table) + Count(b, isLetter, table)
    ensures Letters(a + b, isLetter) == Letters(a, isLetter) + Letters(b, isLetter)
  {
    if b == "" {
      assert a + b == a;
    } else {
      CountConcat(a, b[..|b| - 1], isLetter, table);
      assert (a + b)[..|a + b| - 1] == a + b[..|b| - 1];
    }
  }

  lemma CountWithout(t: string, j: nat, isLetter: char -> bool, table: char -> bool)
    requires j < |t|
    ensures Count(t, isLetter, table) == Count(t[..j] + t[j + 1..], isLetter, table) + Count([t[j]], isLetter, table)
    ensures Letters(t, isLetter) == Letters(t[..j] + t[j + 1..], isLetter) + Letters([t[j]], isLetter)
  {
    hide Count, Letters;
    assert t == t[..j] + [t[j]] + t[j + 1..];
    CountConcat(t[..j], t[j + 1..], isLetter, table);
    CountConcat(t[..j] + [t[j]], t[j + 1..], isLetter, table);
    CountConcat(t[..j], [t[j]], isLetter, table);
  }

  lemma MultisetWithout(t: string, j: nat)
    requires j < |t|
    ensures multiset(t[..j] + t[j + 1..]) == multiset(t) - multiset{t[j]}
  {
    assert t == t[..j] + [t[j]] + t[j + 1..];
  }

  lemma {:induction false} CountPermuted(s: string, t: string, isLetter: char -> bool, table: char -> bool)
    requires multiset(s) == multiset(t)
    ensures Count(s, isLetter, table) == Count(t, isLetter, table) && Letters(s, isLetter) == Letters(t, isLetter)
    decreases |s|
  {
    assert |s| == |multiset(s)| == |multiset(t)| == |t|;
    if s != "" {
      hide Count, Letters;
      var last := |s| - 1;
      assert s[last] in multiset(t);
      var j :| 0 <= j < |t| && t[j] == s[last];
      MultisetWithout(s, last);
      MultisetWithout(t, j);
      CountPermuted(s[..last] + s[last + 1..], t[..j] + t[j + 1..], isLetter, table);
      CountWithout(s, last, isLetter, table);
      CountWithout(t, j, isLetter, table);
    }
  }

  function Positions(n: nat, holds: int -> bool): set<int> {
    set i | 0 <= i < n && holds(i)
  }

  lemma PositionsSnoc(n: nat, holds: int -> bool)
    ensures |Positions(n + 1, holds)| == |Positions(n, holds)| + (if holds(n) then 1 else 0)
  {
    assert Positions(n + 1, holds) == Positions(n, holds) + (if holds(n) then {n} else {});
  }

  lemma {:induction false} CountUpTo(s: string, n: nat, isLetter: char -> bool, table: char -> bool)
    requires n <= |s|
    ensures Letters(s[..n], isLetter) == |Positions(n, i => 0 <= i < |s| && isLetter(s[i]))|
    ensures Count(s[..n], isLetter, table) == |Positions(n, i => 0 <= i < |s| && isLetter(s[i]) && table(s[i]))|
  {
    if n > 0 {
      hide Positions;
      CountUpTo(s, n - 1, isLetter, table);
      assert s[..n][..n - 1] == s[..n - 1];
      PositionsSnoc(n - 1, i => 0 <= i < |s| && isLetter(s[i]));
      PositionsSnoc(n - 1, i => 0 <= i < |s| && isLetter(s[i]) && table(s[i]));
    }
  }

  /** The counts are the numbers of positions that hold a letter, and a letter of the script. */
  lemma CountIsCardinality(s: string, isLetter: char -> bool, table: char -> bool)
    ensures Letters(s, isLetter) == |Positions(|s|, i => 0 <= i < |s| && isLetter(s[i]))|
    ensures Count(s, isLetter, table) == |Positions(|s|, i => 0 <= i < |s| && isLetter(s[i]) && table(s[i]))|
  {
    assert s[..|s|] == s;
    CountUpTo(s, |s|, isLetter, table);
  }

  /** The order of the characters does not matter either. */
  lemma VerdictPermuted(s: string, t: string, isLetter: char -> bool, tables: Tables, r: string)
    requires multiset(s) == multiset(t) && Verdict(s, isLetter, tables, r)
    ensures Verdict(t, isLetter, tables, r)
  {
    CountPermuted(s, t, isLetter, c => true);
    forall n | n in tables
      ensures Dominates(s, isLetter, tables[n]) == Dominates(t, isLetter, tables[n])
    {
      CountPermuted(s, t, isLetter, tables[n]);
    }
  }

  /** Joining two texts with the same dominant script keeps it. */
  lemma VerdictConcat(a: string, b: string, isLetter: char -> bool, tables: Tables, r: string)
    requires Verdict(a, isLetter, tables, r) && Verdict(b, isLetter, tables, r)
    requires ProperTables(tables) && r in tables
    ensures Verdict(a + b, isLetter, tables, r)
  {
    CountConcat(a, b, isLetter, tables[r]);
  }

  // ---------- Comparing the question and the answer ----------

  predicate ScriptsMatch(user: string, response: string) {
    user == "" || response == "" || user == "mixed" || response == "mixed" || user == response
  }

  predicate NeedsLanguageCall(user: string, response: string, responseBytes: nat, expected: string) {
    expected != "" && user == "latin" && response == "latin" && responseBytes >= 20
  }

  ghost predicate Leads(s: string, isLetter: char -> bool, tables: Tables, n: string) {
    Letters(s, isLetter) > 0 && n in tables && Dominates(s, isLetter, tables[n])
  }

  /** A script leads a text exactly when it is the verdict on it. */
  lemma LeadsExactly(s: string, isLetter: char -> bool, tables: Tables, r: string, n: string)
    requires ProperTables(tables) && n in tables && Verdict(s, isLetter, tables, r)
    ensures Leads(s, isLetter, tables, n) <==> r == n
  {
    if Leads(s, isLetter, tables, n) {
      VerdictUnique(s, isLetter, tables, r, n);
    }
  }

  /** The script check fails exactly when two different scripts each hold at least 60 percent of
      the letters on their side; and a language call is made only after it has passed. */
  lemma MismatchExactly(question: string, answer: string, isLetter: char -> bool, tables: Tables, user: string, response: string)
    requires ProperTables(tables)
    requires Verdict(question, isLetter, tables, user) && Verdict(answer, isLetter, tables, response)
    ensures !ScriptsMatch(user, response) <==>
              exists m, n :: m != n && Leads(question, isLetter, tables, m) && Leads(answer, isLetter, tables, n)
    ensures forall bytes, expected :: NeedsLanguageCall(user, response, bytes, expected) ==> ScriptsMatch(user, response)
  {
    if m, n :| m != n && Leads(question, isLetter, tables, m) && Leads(answer, isLetter, tables, n) {
      VerdictUnique(question, isLetter, tables, user, m);
      VerdictUnique(answer, isLetter, tables, response, n);
    }
    if !ScriptsMatch(user, response) {
      assert Leads(question, isLetter, tables, user) && Leads(answer, isLetter, tables, response);
    }
  }
}
