/** Following a growing log by polling: execution logs by line number, the central log by
    timestamp.  Polls may fail, repeat entries or return anything at all. */
module LogFollow {
  import opened Options
  import opened Ordering
  import opened Timestamps

  datatype Entry<+K> = Entry(key: K, text: string)

  /** The answer to the k-th poll when it asks for entries after the given key; None is a failed poll. */
  type Server<!K> = (nat, K) -> Option<seq<Entry<K>>>

  function LastKey<K>(start: K, printed: seq<Entry<K>>): K {
    if printed == [] then start else printed[|printed| - 1].key
  }

  /** The entries of one reply that get printed: those beyond everything printed before them. */
  function Fresh<K>(less: (K, K) -> bool, start: K, entries: seq<Entry<K>>): seq<Entry<K>> {
    if entries == [] then []
    else
      var before := Fresh(less, start, entries[..|entries| - 1]);
      var e := entries[|entries| - 1];
      if less(LastKey(start, before), e.key) then before + [e] else before
  }

  /** Everything printed after n polls. */
  function Printed<K>(less: (K, K) -> bool, start: K, server: Server<K>, n: nat): seq<Entry<K>> {
    if n == 0 then []
    else
      var before := Printed(less, start, server, n - 1);
      var last := LastKey(start, before);
      match server(n - 1, last)
      case None => before
      case Some(entries) => before + Fresh(less, last, entries)
  }

  // ---------- The two followers ----------

  method PrintFresh<K>(less: (K, K) -> bool, start: K, entries: seq<Entry<K>>) returns (printed: seq<Entry<K>>, last: K)
    ensures printed == Fresh(less, start, entries) && last == LastKey(start, printed)
  {
    printed, last := [], start;
    for i := 0 to |entries|
      invariant printed == Fresh(less, start, entries[..i]) && last == LastKey(start, printed)
    {
      assert entries[..i + 1][..i] == entries[..i];
      if less(last, entries[i].key) {
        printed := printed + [entries[i]];
        last := entries[i].key;
      }
    }
    assert entries[..|entries|] == entries;
  }

  method Poll<K>(less: (K, K) -> bool, start: K, server: Server<K>, n: nat) returns (printed: seq<Entry<K>>)
    ensures printed == Printed(less, start, server, n)
  {
    printed := [];
    var last := start;
    for k := 0 to n
      invariant printed == Printed(less, start, server, k) && last == LastKey(start, printed)
    {
      match server(k, last) {
        case None =>
        case Some(entries) =>
          var more;
          more, last := PrintFresh(less, last, entries);
          printed := printed + more;
      }
    }
  }

  /** `logs execution --follow`: in table format nothing is followed when the first fetch is empty. */
  method FollowExecution(table: bool, initial: seq<Entry<int>>, server: Server<int>, n: nat)
    returns (shown: seq<Entry<int>>, followed: seq<Entry<int>>)
    ensures shown == initial
    ensures followed == if table && initial == [] then [] else Printed(IntLess, LastKey(0, initial), server, n)
    ensures Sorted(IntLess, shown + followed) <==> Sorted(IntLess, initial)
  {
    OutputSorted(IntLess, 0, initial, server, n);
    assert initial + [] == initial;
    if table && |initial| == 0 {
      return [], [];
    }
    shown := initial;
    var lastLine := 0;
    if |initial| > 0 {
      lastLine := initial[|initial| - 1].key;
    }
    followed := Poll(IntLess, lastLine, server, n);
  }

  function Reversed<T>(s: seq<T>): (r: seq<T>)
    ensures |r| == |s| && forall i :: 0 <= i < |s| ==> r[i] == s[|s| - 1 - i]
  {
    if s == [] then [] else [s[|s| - 1]] + Reversed(s[..|s| - 1])
  }

  /** `logs tail`: the first fetch is newest first and shown oldest first.  When it is empty the polls
      start from the clock, read after it, so entries stored in between are never asked for.  `less`
      compares the texts of two timestamps. */
  method TailLogs<K(!new)>(less: (K, K) -> bool, initial: seq<Entry<K>>, now: K, server: Server<K>, n: nat)
    returns (shown: seq<Entry<K>>, followed: seq<Entry<K>>)
    requires StrictOrder(less)
    ensures shown == Reversed(initial)
    ensures followed == Printed(less, LastKey(now, shown), server, n)
    ensures Ordered(less, shown + followed) <==> Ordered(less, Reversed(initial))
  {
    OutputOrdered(less, now, Reversed(initial), server, n);
    hide Ordered, StrictOrder, Printed;
    shown := [];
    var i := |initial|;
    while i > 0
      invariant 0 <= i <= |initial| && shown == Reversed(initial[i..])
    {
      i := i - 1;
      assert initial[i..][..|initial| - i - 1] == initial[i..|initial| - 1];
      shown := shown + [initial[i]];
      assert shown == Reversed(initial[i..]);
    }
    assert initial[0..] == initial;
    var last := if |initial| > 0 then initial[0].key else now;
    followed := Poll(less, last, server, n);
  }

  // ---------- For any server ----------

  /** Strictly ascending keys, all beyond `start`. */
  ghost predicate Ascending<K(!new)>(less: (K, K) -> bool, start: K, entries: seq<Entry<K>>) {
    && (forall i :: 0 <= i < |entries| ==> less(start, entries[i].key))
    && (forall i, j :: 0 <= i < j < |entries| ==> less(entries[i].key, entries[j].key))
  }

  lemma AscendingConcat<K(!new)>(less: (K, K) -> bool, start: K, a: seq<Entry<K>>, b: seq<Entry<K>>)
    requires StrictOrder(less)
    requires Ascending(less, start, a) && Ascending(less, LastKey(start, a), b)
    ensures Ascending(less, start, a + b)
  {
    forall i, j | 0 <= i < |a| && 0 <= j < |b|
      ensures less(a[i].key, b[j].key)
    {
      assert i == |a| - 1 || less(a[i].key, a[|a| - 1].key);
    }
    forall j | 0 <= j < |b|
      ensures less(start, b[j].key)
    {
      assert a == [] || less(start, a[|a| - 1].key);
    }
  }

  lemma {:induction false} FreshAscending<K(!new)>(less: (K, K) -> bool, start: K, entries: seq<Entry<K>>)
    requires StrictOrder(less)
    ensures Ascending(less, start, Fresh(less, start, entries))
  {
    if entries != [] {
      FreshAscending(less, start, entries[..|entries| - 1]);
      var before, e := Fresh(less, start, entries[..|entries| - 1]), entries[|entries| - 1];
      if less(LastKey(start, before), e.key) {
        AscendingConcat(less, start, before, [e]);
      }
    }
  }

  /** Whatever the server answers and whichever polls fail, what the polls print is strictly
      ascending and beyond the key they start from. */
  lemma {:induction false} PrintedAscending<K(!new)>(less: (K, K) -> bool, start: K, server: Server<K>, n: nat)
    requires StrictOrder(less)
    ensures Ascending(less, start, Printed(less, start, server, n))
  {
    if n > 0 {
      PrintedAscending(less, start, server, n - 1);
      var before := Printed(less, start, server, n - 1);
      var last := LastKey(start, before);
      if server(n - 1, last).Some? {
        FreshAscending(less, last, server(n - 1, last).value);
        AscendingConcat(less, start, before, Fresh(less, last, server(n - 1, last).value));
      }
    }
  }

  /** Output only grows: a further poll adds to what is printed or leaves it. */
  lemma {:induction false} PrintedGrows<K(!new)>(less: (K, K) -> bool, start: K, server: Server<K>, n: nat, m: nat)
    requires n <= m
    ensures Printed(less, start, server, n) <= Printed(less, start, server, m)
  {
    if n < m {
      PrintedGrows(less, start, server, n, m - 1);
    }
  }

  ghost predicate Sorted<K(!new)>(less: (K, K) -> bool, log: seq<Entry<K>>) {
    forall i, j :: 0 <= i < j < |log| ==> less(log[i].key, log[j].key)
  }

  /** In order, where entries may share a key. */
  ghost predicate Ordered<K(!new)>(less: (K, K) -> bool, log: seq<Entry<K>>) {
    forall i, j :: 0 <= i < j < |log| ==> !less(log[j].key, log[i].key)
  }

  ghost predicate Distinct<K(!new)>(log: seq<Entry<K>>) {
    forall i, j :: 0 <= i < j < |log| ==> log[i].key != log[j].key
  }

  /** The polls start after the last entry shown first.  So the whole output is strictly ascending
      exactly when what was shown first is, whatever the server answers. */
  lemma OutputSorted<K(!new)>(less: (K, K) -> bool, default: K, initial: seq<Entry<K>>, server: Server<K>, n: nat)
    requires StrictOrder(less)
    ensures Sorted(less, initial + Printed(less, LastKey(default, initial), server, n)) <==> Sorted(less, initial)
  {
    hide Printed;
    var start := LastKey(default, initial);
    var more := Printed(less, start, server, n);
    var output := initial + more;
    PrintedAscending(less, start, server, n);
    assert forall i :: 0 <= i < |initial| ==> output[i] == initial[i];
    if Sorted(less, initial) && initial != [] {
      assert forall i :: 0 <= i < |initial| ==> i == |initial| - 1 || less(initial[i].key, start);
    }
  }

  /** The same where the entries shown first may share keys. */
  lemma OutputOrdered<K(!new)>(less: (K, K) -> bool, default: K, initial: seq<Entry<K>>, server: Server<K>, n: nat)
    requires StrictOrder(less)
    ensures Ordered(less, initial + Printed(less, LastKey(default, initial), server, n)) <==> Ordered(less, initial)
  {
    hide Printed;
    var start := LastKey(default, initial);
    var more := Printed(less, start, server, n);
    var output := initial + more;
    PrintedAscending(less, start, server, n);
    assert forall i :: 0 <= i < |initial| ==> output[i] == initial[i];
    if Ordered(less, initial) && initial != [] {
      forall i, j | 0 <= i < |initial| && 0 <= j < |more|
        ensures !less(more[j].key, initial[i].key)
      {
        assert i == |initial| - 1 || !less(start, initial[i].key);
      }
    }
  }

  /** The last entry shown first is the furthest of them. */
  ghost predicate LastIsFurthest<K(!new)>(less: (K, K) -> bool, initial: seq<Entry<K>>) {
    forall i :: 0 <= i < |initial| ==> !less(initial[|initial| - 1].key, initial[i].key)
  }

  /** No server and no number of polls makes a follower print a line twice exactly when the lines
      shown first are distinct and end with the furthest. */
  lemma NeverTwiceExactly<K(!new)>(less: (K, K) -> bool, default: K, initial: seq<Entry<K>>)
    requires StrictOrder(less)
    ensures (forall server: Server<K>, n: nat :: Distinct(initial + Printed(less, LastKey(default, initial), server, n))) <==>
            Distinct(initial) && LastIsFurthest(less, initial)
  {
    var start := LastKey(default, initial);
    if Distinct(initial) && LastIsFurthest(less, initial) {
      forall server: Server<K>, n: nat
        ensures Distinct(initial + Printed(less, start, server, n))
      {
        DistinctOutput(less, default, initial, server, n);
      }
    } else if !Distinct(initial) {
      var silent: Server<K> := (k, after) => None;
      NothingPolled(less, start, silent);
      assert initial + [] == initial;
      assert !Distinct(initial + Printed(less, LastKey(default, initial), silent, 0));
    } else {
      var i :| 0 <= i < |initial| && less(start, initial[i].key);
      var server: Server<K> := (k, after) => Some([initial[i]]);
      RepeatedLine(less, default, initial, i, server);
      assert !Distinct(initial + Printed(less, LastKey(default, initial), server, 1));
    }
  }

  lemma NothingPolled<K>(less: (K, K) -> bool, start: K, server: Server<K>)
    ensures Printed(less, start, server, 0) == []
  {
  }

  lemma DistinctOutput<K(!new)>(less: (K, K) -> bool, default: K, initial: seq<Entry<K>>, server: Server<K>, n: nat)
    requires StrictOrder(less) && Distinct(initial) && LastIsFurthest(less, initial)
    ensures Distinct(initial + Printed(less, LastKey(default, initial), server, n))
  {
    hide Printed;
    var start := LastKey(default, initial);
    var more := Printed(less, start, server, n);
    PrintedAscending(less, start, server, n);
    forall i, j | 0 <= i < |initial| && 0 <= j < |more|
      ensures initial[i].key != more[j].key
    {
      assert less(start, more[j].key) && !less(start, initial[i].key);
    }
  }

  lemma RepeatedLine<K(!new)>(less: (K, K) -> bool, default: K, initial: seq<Entry<K>>, i: nat, server: Server<K>)
    requires i < |initial| && less(LastKey(default, initial), initial[i].key)
    requires forall k, after :: server(k, after) == Some([initial[i]])
    ensures !Distinct(initial + Printed(less, LastKey(default, initial), server, 1))
  {
    var start := LastKey(default, initial);
    assert [initial[i]][..0] == [];
    assert Fresh(less, start, [initial[i]]) == [initial[i]];
    assert Printed(less, start, server, 0) == [];
    assert Printed(less, start, server, 1) == [initial[i]];
    assert (initial + [initial[i]])[i] == (initial + [initial[i]])[|initial|];
  }

  /** Lines 5 and 3 shown first, in that order: polling from line 3 prints line 5 again. */
  lemma DisorderRepeats()
    ensures var initial := [Entry(5, "five"), Entry(3, "three")];
            var server: Server<int> := (k, after) => Some([Entry(4, "four"), Entry(5, "five")]);
            Printed(IntLess, LastKey(0, initial), server, 1) == [Entry(4, "four"), Entry(5, "five")]
  {
    var reply := [Entry(4, "four"), Entry(5, "five")];
    assert Ascending(IntLess, 3, reply);
    FreshComplete(IntLess, 3, reply);
    var server: Server<int> := (k, after) => Some(reply);
    assert Printed(IntLess, 3, server, 0) == [];
  }

  // ---------- One reply ----------

  /** The key a reply leaves behind is the furthest of its keys and the key it started from. */
  lemma {:induction false} FreshLast<K(!new)>(less: (K, K) -> bool, start: K, entries: seq<Entry<K>>)
    requires StrictOrder(less)
    ensures var last := LastKey(start, Fresh(less, start, entries));
            && !less(last, start) && (forall i :: 0 <= i < |entries| ==> !less(last, entries[i].key))
            && (last == start || exists i :: 0 <= i < |entries| && entries[i].key == last)
  {
    if entries != [] {
      var init := entries[..|entries| - 1];
      FreshLast(less, start, init);
      var before, after := LastKey(start, Fresh(less, start, init)), LastKey(start, Fresh(less, start, entries));
      assert forall i :: 0 <= i < |init| ==> entries[i] == init[i];
      if after == before {
        assert forall i :: 0 <= i < |init| ==> !less(after, entries[i].key);
      } else {
        assert entries[|entries| - 1].key == after;
      }
    }
  }

  /** A reply is printed in full exactly when its keys are new and strictly ascending. */
  lemma {:induction false} FreshComplete<K(!new)>(less: (K, K) -> bool, start: K, entries: seq<Entry<K>>)
    requires StrictOrder(less)
    ensures Fresh(less, start, entries) == entries <==> Ascending(less, start, entries)
    ensures |Fresh(less, start, entries)| <= |entries|
  {
    FreshAscending(less, start, entries);
    if entries != [] {
      var init, e := entries[..|entries| - 1], entries[|entries| - 1];
      FreshComplete(less, start, init);
      if Ascending(less, start, entries) {
        assert Ascending(less, start, init);
        assert init == [] || less(init[|init| - 1].key, e.key);
        assert entries == init + [e];
      }
    }
  }

  /** Of any reply, an entry is printed exactly when it is beyond the start and beyond every entry
      before it. */
  lemma KeptExactly<K(!new)>(less: (K, K) -> bool, start: K, entries: seq<Entry<K>>, i: nat)
    requires StrictOrder(less) && i < |entries|
    ensures Fresh(less, start, entries[..i + 1]) ==
            Fresh(less, start, entries[..i]) +
            (if less(start, entries[i].key) && forall j :: 0 <= j < i ==> less(entries[j].key, entries[i].key) then [entries[i]] else [])
  {
    var before := entries[..i];
    assert entries[..i + 1][..i] == before;
    FreshLast(less, start, before);
    assert forall j :: 0 <= j < i ==> before[j] == entries[j];
  }

  /** The same of a reply of the server, which is in order of time: an entry after the start is dropped
      exactly when the start, or an entry before it, lies in the same second and its digits begin the
      entry's. */
  lemma TailDropsExactly(start: Stamp, entries: seq<Entry<Stamp>>, i: nat)
    requires Ordered(Earlier, entries) && i < |entries| && !Earlier(entries[i].key, start)
    ensures Fresh(TextLess, start, entries[..i + 1]) ==
            Fresh(TextLess, start, entries[..i]) +
            (if Hides(start, entries[i].key) || exists j :: 0 <= j < i && Hides(entries[j].key, entries[i].key) then [] else [entries[i]])
  {
    StampsOrdered();
    KeptExactly(TextLess, start, entries, i);
    hide TextLess, Hides, Earlier;
    TextOrderExactly(start, entries[i].key);
    forall j | 0 <= j < i
      ensures TextLess(entries[j].key, entries[i].key) <==> !Hides(entries[j].key, entries[i].key)
    {
      TextOrderExactly(entries[j].key, entries[i].key);
    }
  }

  function Above<K>(less: (K, K) -> bool, log: seq<Entry<K>>, after: K): seq<Entry<K>> {
    if log == [] then []
    else Above(less, log[..|log| - 1], after) + (if less(after, log[|log| - 1].key) then [log[|log| - 1]] else [])
  }

  /** What an inclusive query returns: everything that is not before the key. */
  function AtOrAbove<K>(less: (K, K) -> bool, log: seq<Entry<K>>, from: K): seq<Entry<K>> {
    if log == [] then []
    else AtOrAbove(less, log[..|log| - 1], from) + (if less(log[|log| - 1].key, from) then [] else [log[|log| - 1]])
  }

  ghost predicate HasKey<K(!new)>(log: seq<Entry<K>>, key: K) {
    exists i :: 0 <= i < |log| && log[i].key == key
  }

  /** The first entry of every key. */
  ghost function Firsts<K(!new)>(log: seq<Entry<K>>): seq<Entry<K>> {
    if log == [] then []
    else Firsts(log[..|log| - 1]) + (if HasKey(log[..|log| - 1], log[|log| - 1].key) then [] else [log[|log| - 1]])
  }

  ghost predicate Beyond<K(!new)>(less: (K, K) -> bool, start: K, entries: seq<Entry<K>>) {
    forall i :: 0 <= i < |entries| ==> less(start, entries[i].key)
  }

  /** Of entries beyond the start, those that repeat a key are the only ones lost exactly when the first
      entries of every key come in order. */
  lemma {:induction false} FreshIsFirsts<K(!new)>(less: (K, K) -> bool, start: K, entries: seq<Entry<K>>)
    requires StrictOrder(less) && Beyond(less, start, entries)
    ensures Fresh(less, start, entries) == Firsts(entries) <==> Sorted(less, Firsts(entries))
    ensures |Fresh(less, start, entries)| <= |Firsts(entries)|
  {
    FreshAscending(less, start, entries);
    if entries != [] {
      var init, e := entries[..|entries| - 1], entries[|entries| - 1];
      FreshIsFirsts(less, start, init);
      FreshLast(less, start, init);
      var kept, firsts := Fresh(less, start, init), Firsts(init);
      if HasKey(init, e.key) {
        assert Firsts(entries) == firsts && Fresh(less, start, entries) == kept;
      } else {
        FirstsSnoc(less, start, firsts, e);
        if Fresh(less, start, entries) == firsts + [e] {
          assert (firsts + [e])[..|firsts|] == firsts;
        }
      }
    }
  }

  lemma FirstsSnoc<K(!new)>(less: (K, K) -> bool, start: K, firsts: seq<Entry<K>>, e: Entry<K>)
    requires StrictOrder(less) && less(start, e.key)
    ensures Sorted(less, firsts + [e]) <==> Sorted(less, firsts) && less(LastKey(start, firsts), e.key)
  {
    var longer := firsts + [e];
    assert longer[|firsts|] == e && forall i :: 0 <= i < |firsts| ==> longer[i] == firsts[i];
    if Sorted(less, longer) && firsts != [] {
      assert less(longer[|firsts| - 1].key, longer[|firsts|].key);
      assert forall i, j :: 0 <= i < j < |firsts| ==> less(longer[i].key, longer[j].key);
    }
  }

  // ---------- For a server that tells the truth ----------

  /** The log only grows, in the server's order, and a poll that succeeds returns a first part of what
      lies after the key, or of what lies at the key or after it. */
  ghost predicate Truthful<K(!new)>(earlier: (K, K) -> bool, log: nat -> seq<Entry<K>>, server: Server<K>) {
    && Grows(earlier, log)
    && (forall k: nat, after :: server(k, after).Some? ==>
          server(k, after).value <= Above(earlier, log(k), after) || server(k, after).value <= AtOrAbove(earlier, log(k), after))
  }

  ghost predicate Grows<K(!new)>(earlier: (K, K) -> bool, log: nat -> seq<Entry<K>>) {
    && (forall k: nat :: Ordered(earlier, log(k)))
    && (forall k: nat, m: nat :: k <= m ==> log(k) <= log(m))
  }

  lemma {:induction false} FilterPrefix<K(!new)>(earlier: (K, K) -> bool, log: seq<Entry<K>>, longer: seq<Entry<K>>, from: K)
    requires log <= longer
    ensures AtOrAbove(earlier, log, from) <= AtOrAbove(earlier, longer, from)
    decreases |longer|
  {
    if |log| < |longer| {
      FilterPrefix(earlier, log, longer[..|longer| - 1], from);
    } else {
      assert log == longer;
    }
  }

  lemma {:induction false} FreshPrefix<K(!new)>(less: (K, K) -> bool, start: K, log: seq<Entry<K>>, longer: seq<Entry<K>>)
    requires log <= longer
    ensures Fresh(less, start, log) <= Fresh(less, start, longer)
    decreases |longer|
  {
    if |log| < |longer| {
      FreshPrefix(less, start, log, longer[..|longer| - 1]);
    } else {
      assert log == longer;
    }
  }

  /** What is left out by asking from a key on was not before an earlier key either. */
  lemma {:induction false} FilterTwice<K(!new)>(earlier: (K, K) -> bool, log: seq<Entry<K>>, start: K, from: K)
    requires StrictOrder(earlier) && !earlier(from, start)
    ensures AtOrAbove(earlier, AtOrAbove(earlier, log, start), from) == AtOrAbove(earlier, log, from)
    ensures Above(earlier, AtOrAbove(earlier, log, start), from) == Above(earlier, log, from)
  {
    if log != [] {
      var init, e := log[..|log| - 1], log[|log| - 1];
      var kept := AtOrAbove(earlier, init, start);
      FilterTwice(earlier, init, start, from);
      assert (kept + [e])[..|kept|] == kept && kept + [] == kept;
    }
  }

  lemma {:induction false} FilterOrdered<K(!new)>(earlier: (K, K) -> bool, log: seq<Entry<K>>, start: K)
    requires Ordered(earlier, log)
    ensures var kept := AtOrAbove(earlier, log, start);
            Ordered(earlier, kept) && forall i :: 0 <= i < |kept| ==> kept[i] in log && !earlier(kept[i].key, start)
  {
    if log != [] {
      FilterOrdered(earlier, log[..|log| - 1], start);
    }
  }

  /** Nothing that the server places before `from` is beyond it for the client. */
  ghost predicate Passed<K(!new)>(less: (K, K) -> bool, earlier: (K, K) -> bool, from: K, log: seq<Entry<K>>) {
    forall i :: 0 <= i < |log| && earlier(log[i].key, from) ==> !less(from, log[i].key)
  }

  /** Then leaving that out makes no difference. */
  lemma {:induction false} InclusiveSuffices<K(!new)>(less: (K, K) -> bool, earlier: (K, K) -> bool, from: K, log: seq<Entry<K>>)
    requires StrictOrder(less) && Passed(less, earlier, from, log)
    ensures Fresh(less, from, AtOrAbove(earlier, log, from)) == Fresh(less, from, log)
  {
    if log != [] {
      var init, e := log[..|log| - 1], log[|log| - 1];
      var kept := AtOrAbove(earlier, init, from);
      InclusiveSuffices(less, earlier, from, init);
      if earlier(e.key, from) {
        FreshLast(less, from, init);
        assert AtOrAbove(earlier, log, from) == kept;
      } else {
        assert (kept + [e])[..|kept|] == kept;
      }
    }
  }

  /** Nor does leaving out what has the key itself. */
  lemma {:induction false} ExclusiveSuffices<K(!new)>(less: (K, K) -> bool, earlier: (K, K) -> bool, from: K, log: seq<Entry<K>>)
    requires StrictOrder(less) && StrictOrder(earlier) && Passed(less, earlier, from, log)
    ensures Fresh(less, from, Above(earlier, log, from)) == Fresh(less, from, log)
  {
    if log != [] {
      var init, e := log[..|log| - 1], log[|log| - 1];
      var kept := Above(earlier, init, from);
      ExclusiveSuffices(less, earlier, from, init);
      if earlier(from, e.key) {
        assert (kept + [e])[..|kept|] == kept;
      } else {
        FreshLast(less, from, init);
        assert Above(earlier, log, from) == kept;
      }
    }
  }

  /** Printing a log can stop anywhere and be resumed from the last key printed. */
  lemma {:induction false} FreshResumes<K(!new)>(less: (K, K) -> bool, start: K, log: seq<Entry<K>>, printed: seq<Entry<K>>)
    requires StrictOrder(less) && printed <= Fresh(less, start, log)
    ensures printed + Fresh(less, LastKey(start, printed), log) == Fresh(less, start, log)
  {
    if log != [] {
      var init, e := log[..|log| - 1], log[|log| - 1];
      var before, last := Fresh(less, start, init), LastKey(start, printed);
      if printed <= before {
        FreshResumes(less, start, init, printed);
        var rest := Fresh(less, last, init);
        assert LastKey(start, before) == LastKey(last, rest);
        assert printed + (rest + [e]) == before + [e];
      } else {
        assert printed == before + [e] && last == e.key;
        FreshLast(less, start, log);
        NothingBeyond(less, last, log);
      }
    }
  }

  lemma {:induction false} NothingBeyond<K(!new)>(less: (K, K) -> bool, start: K, log: seq<Entry<K>>)
    requires forall i :: 0 <= i < |log| ==> !less(start, log[i].key)
    ensures Fresh(less, start, log) == []
  {
    if log != [] {
      NothingBeyond(less, start, log[..|log| - 1]);
    }
  }

  lemma {:induction false} FreshWithin<K(!new)>(less: (K, K) -> bool, start: K, log: seq<Entry<K>>)
    ensures forall x :: x in Fresh(less, start, log) ==> x in log
  {
    if log != [] {
      FreshWithin(less, start, log[..|log| - 1]);
    }
  }

  /** Whatever lies before the last printed entry has been looked at, so it is not beyond it. */
  lemma {:induction false} PrintedPasses<K(!new)>(less: (K, K) -> bool, earlier: (K, K) -> bool, start: K, log: seq<Entry<K>>, printed: seq<Entry<K>>)
    requires StrictOrder(less) && Ordered(earlier, log) && printed != [] && printed <= Fresh(less, start, log)
    ensures Passed(less, earlier, printed[|printed| - 1].key, log)
  {
    var init, e := log[..|log| - 1], log[|log| - 1];
    var last := printed[|printed| - 1];
    if printed <= Fresh(less, start, init) {
      PrintedPasses(less, earlier, start, init, printed);
      FreshWithin(less, start, init);
      assert last in Fresh(less, start, init);
      var i :| 0 <= i < |init| && init[i] == last;
      assert log[i] == last && !earlier(e.key, log[i].key);
      assert forall j :: 0 <= j < |init| ==> log[j] == init[j];
    } else {
      assert printed == Fresh(less, start, init) + [e];
      FreshLast(less, start, log);
    }
  }

  /** What follows a poll that asks from the last printed key. */
  lemma ResumedPoll<K(!new)>(less: (K, K) -> bool, earlier: (K, K) -> bool, start: K, log: seq<Entry<K>>, printed: seq<Entry<K>>)
    requires StrictOrder(less) && StrictOrder(earlier) && Ordered(earlier, log)
    requires printed <= Fresh(less, start, AtOrAbove(earlier, log, start))
    ensures var last, all := LastKey(start, printed), Fresh(less, start, AtOrAbove(earlier, log, start));
            && printed + Fresh(less, last, AtOrAbove(earlier, log, last)) == all
            && printed + Fresh(less, last, Above(earlier, log, last)) == all
  {
    var last, kept := LastKey(start, printed), AtOrAbove(earlier, log, start);
    FilterOrdered(earlier, log, start);
    FreshResumes(less, start, kept, printed);
    if printed != [] {
      PrintedPasses(less, earlier, start, kept, printed);
      FreshWithin(less, start, kept);
      assert printed[|printed| - 1] in kept;
    }
    assert !earlier(last, start) && Passed(less, earlier, last, kept);
    hide Fresh, Passed, Ordered, StrictOrder;
    FilterTwice(earlier, log, start, last);
    InclusiveSuffices(less, earlier, last, kept);
    ExclusiveSuffices(less, earlier, last, kept);
  }

  lemma PrintedNext<K(!new)>(less: (K, K) -> bool, start: K, server: Server<K>, n: nat)
    ensures var before := Printed(less, start, server, n);
            var last := LastKey(start, before);
            Printed(less, start, server, n + 1) ==
            match server(n, last)
            case None => before
            case Some(entries) => before + Fresh(less, last, entries)
  {
  }

  lemma ReplyWithin<K(!new)>(less: (K, K) -> bool, earlier: (K, K) -> bool, log: nat -> seq<Entry<K>>, server: Server<K>, k: nat, last: K)
    requires Truthful(earlier, log, server) && server(k, last).Some?
    ensures var printed := Fresh(less, last, server(k, last).value);
            printed <= Fresh(less, last, Above(earlier, log(k), last)) || printed <= Fresh(less, last, AtOrAbove(earlier, log(k), last))
  {
    hide Fresh, Grows, Above, AtOrAbove;
    var reply := server(k, last).value;
    if reply <= Above(earlier, log(k), last) {
      FreshPrefix(less, last, reply, Above(earlier, log(k), last));
    } else {
      FreshPrefix(less, last, reply, AtOrAbove(earlier, log(k), last));
    }
  }

  lemma OneMorePoll<K(!new)>(less: (K, K) -> bool, earlier: (K, K) -> bool, start: K, log: nat -> seq<Entry<K>>, server: Server<K>, n: nat)
    requires StrictOrder(less) && StrictOrder(earlier) && Truthful(earlier, log, server)
    requires Printed(less, start, server, n) <= Fresh(less, start, AtOrAbove(earlier, log(n), start))
    ensures Printed(less, start, server, n + 1) <= Fresh(less, start, AtOrAbove(earlier, log(n), start))
  {
    var before := Printed(less, start, server, n);
    var last := LastKey(start, before);
    PrintedNext(less, start, server, n);
    GrowsOrdered(earlier, log, server, n, n);
    hide Fresh, Printed, StrictOrder, Above, AtOrAbove, Truthful, Ordered;
    ResumedPoll(less, earlier, start, log(n), before);
    if server(n, last).Some? {
      ReplyWithin(less, earlier, log, server, n, last);
    }
  }

  lemma GrowsOrdered<K(!new)>(earlier: (K, K) -> bool, log: nat -> seq<Entry<K>>, server: Server<K>, n: nat, m: nat)
    requires Truthful(earlier, log, server) && n <= m
    ensures Ordered(earlier, log(n)) && log(n) <= log(m)
  {
  }

  lemma PrefixOfLater<K(!new)>(less: (K, K) -> bool, earlier: (K, K) -> bool, start: K, log: seq<Entry<K>>, longer: seq<Entry<K>>,
                               printed: seq<Entry<K>>)
    requires log <= longer && printed <= Fresh(less, start, AtOrAbove(earlier, log, start))
    ensures printed <= Fresh(less, start, AtOrAbove(earlier, longer, start))
  {
    hide Fresh, AtOrAbove;
    FilterPrefix(earlier, log, longer, start);
    FreshPrefix(less, start, AtOrAbove(earlier, log, start), AtOrAbove(earlier, longer, start));
  }

  /** With a truthful server, however the polls fail or are cut short, the printed entries are always
      a first part of what printing everything from the start on in one go would print. */
  lemma {:induction false} PrintedOfLog<K(!new)>(less: (K, K) -> bool, earlier: (K, K) -> bool, start: K, log: nat -> seq<Entry<K>>,
                                                server: Server<K>, n: nat, m: nat)
    requires StrictOrder(less) && StrictOrder(earlier) && Truthful(earlier, log, server) && n <= m + 1
    ensures Printed(less, start, server, n) <= Fresh(less, start, AtOrAbove(earlier, log(m), start))
    decreases n
  {
    hide Fresh, StrictOrder, AtOrAbove, Truthful, Ordered, LastKey;
    if n > 0 {
      hide Printed;
      var k: nat := n - 1;
      PrintedOfLog(less, earlier, start, log, server, k, k);
      OneMorePoll(less, earlier, start, log, server, k);
      GrowsOrdered(earlier, log, server, k, m);
      PrefixOfLater(less, earlier, start, log(k), log(m), Printed(less, start, server, n));
    }
  }

  /** What follows a key in the server's order. */
  lemma FreshOfAbove<K(!new)>(less: (K, K) -> bool, earlier: (K, K) -> bool, start: K, log: seq<Entry<K>>)
    requires StrictOrder(less) && StrictOrder(earlier) && Ordered(earlier, log)
    ensures Fresh(less, start, AtOrAbove(earlier, log, start)) == Fresh(less, start, Above(earlier, log, start))
  {
    hide Fresh, Above, AtOrAbove, Ordered, StrictOrder;
    ResumedPoll(less, earlier, start, log, []);
    assert [] + Fresh(less, start, Above(earlier, log, start)) == Fresh(less, start, Above(earlier, log, start));
  }

  /** So with any number of failed and short polls the printed entries are a first part of what the
      client keeps of everything that follows the start; and a gap-free first part of all of that when
      it is strictly ascending for the client. */
  lemma PrintedGapFree<K(!new)>(less: (K, K) -> bool, earlier: (K, K) -> bool, start: K, log: nat -> seq<Entry<K>>, server: Server<K>, n: nat)
    requires StrictOrder(less) && StrictOrder(earlier) && Truthful(earlier, log, server)
    ensures var all := Above(earlier, log(n), start);
            && Printed(less, start, server, n) <= Fresh(less, start, all)
            && (Ascending(less, start, all) ==> Printed(less, start, server, n) <= all)
  {
    PrintedOfLog(less, earlier, start, log, server, n, n);
    FreshOfAbove(less, earlier, start, log(n));
    FreshComplete(less, start, Above(earlier, log(n), start));
  }

  /** A poll that returns everything from the last printed key on. */
  ghost predicate FullPoll<K(!new)>(less: (K, K) -> bool, earlier: (K, K) -> bool, start: K, log: seq<Entry<K>>, server: Server<K>, n: nat) {
    var last := LastKey(start, Printed(less, start, server, n));
    server(n, last) in {Some(Above(earlier, log, last)), Some(AtOrAbove(earlier, log, last))}
  }

  /** After such a poll nothing more is missing than what the client drops anyway, however many earlier
      polls failed or were cut short; and nothing at all is missing exactly when what follows the
      start is strictly ascending for the client. */
  lemma FullPollCatchesUp<K(!new)>(less: (K, K) -> bool, earlier: (K, K) -> bool, start: K, log: nat -> seq<Entry<K>>, server: Server<K>, n: nat)
    requires StrictOrder(less) && StrictOrder(earlier) && Truthful(earlier, log, server)
    requires FullPoll(less, earlier, start, log(n), server, n)
    ensures var all := Above(earlier, log(n), start);
            && Printed(less, start, server, n + 1) == Fresh(less, start, all)
            && (Printed(less, start, server, n + 1) == all <==> Ascending(less, start, all))
  {
    PrintedOfLog(less, earlier, start, log, server, n, n);
    ResumedPoll(less, earlier, start, log(n), Printed(less, start, server, n));
    FreshOfAbove(less, earlier, start, log(n));
    FreshComplete(less, start, Above(earlier, log(n), start));
  }

  // ---------- Execution logs ----------

  lemma {:induction false} AboveBeyond<K(!new)>(earlier: (K, K) -> bool, log: seq<Entry<K>>, after: K)
    ensures var all := Above(earlier, log, after);
            Beyond(earlier, after, all) && forall i :: 0 <= i < |all| ==> all[i] in log
  {
    if log != [] {
      AboveBeyond(earlier, log[..|log| - 1], after);
    }
  }

  lemma {:induction false} AboveOrdered<K(!new)>(earlier: (K, K) -> bool, log: seq<Entry<K>>, after: K)
    requires Ordered(earlier, log)
    ensures Ordered(earlier, Above(earlier, log, after))
  {
    if log != [] {
      var init := log[..|log| - 1];
      AboveOrdered(earlier, init, after);
      AboveBeyond(earlier, init, after);
    }
  }

  lemma {:induction false} AboveSorted<K(!new)>(earlier: (K, K) -> bool, log: seq<Entry<K>>, after: K)
    requires Sorted(earlier, log)
    ensures Sorted(earlier, Above(earlier, log, after))
  {
    if log != [] {
      var init := log[..|log| - 1];
      AboveSorted(earlier, init, after);
      AboveBeyond(earlier, init, after);
    }
  }

  /** Line numbers are compared as the server orders them: the printed lines are a gap-free first part
      of all lines above the start when line numbers are distinct, and all of them after a full poll. */
  lemma ExecutionGapFree(start: int, log: nat -> seq<Entry<int>>, server: Server<int>, n: nat)
    requires Truthful(IntLess, log, server) && Sorted(IntLess, log(n))
    ensures Printed(IntLess, start, server, n) <= Above(IntLess, log(n), start)
    ensures FullPoll(IntLess, IntLess, start, log(n), server, n) ==> Printed(IntLess, start, server, n + 1) == Above(IntLess, log(n), start)
  {
    AboveBeyond(IntLess, log(n), start);
    AboveSorted(IntLess, log(n), start);
    PrintedGapFree(IntLess, IntLess, start, log, server, n);
    if FullPoll(IntLess, IntLess, start, log(n), server, n) {
      FullPollCatchesUp(IntLess, IntLess, start, log, server, n);
    }
  }

  // ---------- The central log ----------

  /** No entry lies in the second of the start, or of an entry before it, with digits that begin with
      the other's.  In particular no two share a timestamp. */
  ghost predicate NoneHidden(start: Stamp, entries: seq<Entry<Stamp>>) {
    && (forall i :: 0 <= i < |entries| ==> !Hides(start, entries[i].key))
    && (forall i, j :: 0 <= i < j < |entries| ==> !Hides(entries[i].key, entries[j].key))
  }

  lemma NoneHiddenExactly(start: Stamp, entries: seq<Entry<Stamp>>)
    requires Ordered(Earlier, entries) && forall i :: 0 <= i < |entries| ==> !Earlier(entries[i].key, start)
    ensures Ascending(TextLess, start, entries) <==> NoneHidden(start, entries)
  {
    hide TextLess, Hides, Earlier;
    forall i | 0 <= i < |entries|
      ensures TextLess(start, entries[i].key) <==> !Hides(start, entries[i].key)
    {
      TextOrderExactly(start, entries[i].key);
    }
    forall i, j | 0 <= i < j < |entries|
      ensures TextLess(entries[i].key, entries[j].key) <==> !Hides(entries[i].key, entries[j].key)
    {
      TextOrderExactly(entries[i].key, entries[j].key);
    }
  }

  /** `logs tail` compares texts while the server orders by time: it has everything that follows the
      start after a full poll exactly when none of it is hidden, and until then a gap-free first part. */
  lemma TailCompleteExactly(start: Stamp, log: nat -> seq<Entry<Stamp>>, server: Server<Stamp>, n: nat)
    requires Truthful(Earlier, log, server)
    ensures var all := Above(Earlier, log(n), start);
            && (NoneHidden(start, all) ==> Printed(TextLess, start, server, n) <= all)
            && (FullPoll(TextLess, Earlier, start, log(n), server, n) ==>
                  (Printed(TextLess, start, server, n + 1) == all <==> NoneHidden(start, all)))
  {
    StampsOrdered();
    hide TextLess, Hides, Earlier, NoneHidden, FullPoll;
    var all := Above(Earlier, log(n), start);
    AboveBeyond(Earlier, log(n), start);
    AboveOrdered(Earlier, log(n), start);
    assert Ordered(Earlier, all) && forall i :: 0 <= i < |all| ==> !Earlier(all[i].key, start);
    NoneHiddenExactly(start, all);
    PrintedGapFree(TextLess, Earlier, start, log, server, n);
    if FullPoll(TextLess, Earlier, start, log(n), server, n) {
      FullPollCatchesUp(TextLess, Earlier, start, log, server, n);
    }
  }

  /** Polls ask for a limited number of entries, the oldest ones from the key on. */
  ghost predicate Limited<K(!new)>(earlier: (K, K) -> bool, log: nat -> seq<Entry<K>>, server: Server<K>, limit: nat) {
    forall k: nat, after :: var from := AtOrAbove(earlier, log(k), after);
      server(k, after) in {None, Some(if |from| <= limit then from else from[..limit])}
  }

  /** A full page with nothing beyond the last printed key, such as one of entries that all share its
      timestamp, is all that any later poll returns: nothing is ever printed again. */
  lemma {:induction false} FullPageStalls<K(!new)>(less: (K, K) -> bool, earlier: (K, K) -> bool, start: K, log: nat -> seq<Entry<K>>,
                                                  server: Server<K>, limit: nat, n: nat, m: nat)
    requires Grows(earlier, log) && Limited(earlier, log, server, limit) && n <= m
    requires var last := LastKey(start, Printed(less, start, server, n)); var from := AtOrAbove(earlier, log(n), last);
             |from| >= limit && Fresh(less, last, from[..limit]) == []
    ensures Printed(less, start, server, m) == Printed(less, start, server, n)
  {
    hide Grows, Limited, AtOrAbove, Fresh, Printed;
    if n < m {
      FullPageStalls(less, earlier, start, log, server, limit, n, m - 1);
      PrintedNext(less, start, server, m - 1);
      var last := LastKey(start, Printed(less, start, server, n));
      SamePage(earlier, log, server, limit, n, m - 1, last);
    }
  }

  lemma SamePage<K(!new)>(earlier: (K, K) -> bool, log: nat -> seq<Entry<K>>, server: Server<K>, limit: nat, n: nat, m: nat, last: K)
    requires Grows(earlier, log) && Limited(earlier, log, server, limit) && n <= m
    requires |AtOrAbove(earlier, log(n), last)| >= limit
    ensures server(m, last) in {None, Some(AtOrAbove(earlier, log(n), last)[..limit])}
  {
    FilterPrefix(earlier, log(n), log(m), last);
    hide AtOrAbove, Ordered;
    var from, later := AtOrAbove(earlier, log(n), last), AtOrAbove(earlier, log(m), last);
    assert later[..limit] == from[..limit];
    assert |later| == limit ==> later[..limit] == later;
  }

  // ---------- Entries that are lost ----------

  /** What one or two entries come to. */
  lemma FreshOfTwo<K(!new)>(less: (K, K) -> bool, start: K, first: Entry<K>, second: Entry<K>)
    ensures Fresh(less, start, [first]) == if less(start, first.key) then [first] else []
    ensures less(start, first.key) && !less(first.key, second.key) ==> Fresh(less, start, [first, second]) == [first]
  {
    var one, two := [first], [first, second];
    assert |one[..0]| == 0 && two[..1] == one;
  }

  /** In any second: the second of two entries in order of time is lost when it shares the first one's
      timestamp, and when it comes a millisecond after a hundredth; and when the polls start from the
      clock, which has whole seconds, so is what is stored in the rest of that second. */
  lemma TailLosesEntries(second: string)
    requires |second| == WIDTH
    ensures var start, hundredth, next := Timestamp(second, "05"), Timestamp(second, "12"), Timestamp(second, "123");
            && Earlier(start, hundredth) && Earlier(hundredth, next)
            && Fresh<Stamp>(TextLess, start, [Entry(hundredth, "first"), Entry(hundredth, "tied")]) == [Entry(hundredth, "first")]
            && Fresh<Stamp>(TextLess, start, [Entry(hundredth, "first"), Entry(next, "later")]) == [Entry(hundredth, "first")]
    ensures var clock, hundredth := Timestamp(second, ""), Timestamp(second, "12");
            Earlier(clock, hundredth) && Fresh<Stamp>(TextLess, clock, [Entry(hundredth, "first")]) == []
  {
    var clock: Stamp, start: Stamp := Timestamp(second, ""), Timestamp(second, "05");
    var hundredth: Stamp, next: Stamp := Timestamp(second, "12"), Timestamp(second, "123");
    assert StringLess("05", "12") && StringLess("12", "123") && StringLess("", "12");
    hide TextLess, Earlier, StringLess, Fresh;
    SameSecond(start, hundredth);
    SameSecond(hundredth, next);
    SameSecond(clock, hundredth);
    StampsOrdered();
    var first: Entry<Stamp> := Entry(hundredth, "first");
    FreshOfTwo(TextLess, start, first, Entry(hundredth, "tied"));
    FreshOfTwo(TextLess, start, first, Entry(next, "later"));
    FreshOfTwo(TextLess, clock, first, first);
  }
}
