/** The bounded tool loop that the SQL, web and action agents share: which requests it
    sends, when it stops, and what it leaves behind, for every provider behaviour. */
module ToolLoop {
  import opened Options
  import opened Conversation

  // ---------- The transcript a run grows ----------

  function ToolMessage(call: ToolCall, outcome: ToolOutcome): Message {
    Message(TOOL, outcome.text, [], call.id, call.name)
  }

  function ToolMessages(o: Oracle, turn: nat, calls: seq<ToolCall>, upTo: nat): (r: seq<Message>)
    requires upTo <= |calls|
    ensures |r| == upTo
  {
    seq(upTo, j requires 0 <= j < |calls| => ToolMessage(calls[j], o.tool(turn, j)))
  }

  /** The messages one continuing turn appends: the model's own message with one answer per
      call, or a rejected early answer with the push-back. */
  function TurnBlock(o: Oracle, turn: nat): seq<Message>
    requires o.reply(turn).Answered?
  {
    var m := o.reply(turn).message;
    if m.toolCalls == [] then [Plain(ASSISTANT, m.content), PUSH_BACK]
    else [m] + ToolMessages(o, turn, m.toolCalls, |m.toolCalls|)
  }

  ghost predicate AllAnswered(o: Oracle, lo: nat, hi: nat) {
    forall i :: lo <= i < hi ==> o.reply(i).Answered?
  }

  function Transcript(o: Oracle, lo: nat, hi: nat): seq<Message>
    requires lo <= hi && AllAnswered(o, lo, hi)
    decreases hi - lo
  {
    if lo == hi then [] else TurnBlock(o, lo) + Transcript(o, lo + 1, hi)
  }

  function CallsIn(r: Reply): nat {
    if r.Answered? then |r.message.toolCalls| else 0
  }

  /** Tool calls executed in turns 0 .. k-1. */
  function CallCount(o: Oracle, k: nat): nat {
    if k == 0 then 0 else CallCount(o, k - 1) + CallsIn(o.reply(k - 1))
  }

  /** Usage reported in replies 0 .. k-1. */
  function UsageOf(o: Oracle, k: nat): Usage {
    if k == 0 then NO_USAGE else AddUsage(UsageOf(o, k - 1), ReplyUsage(o.reply(k - 1)))
  }

  function RowsOfTurn(o: Oracle, turn: nat, upTo: nat): seq<QueryResult> {
    if upTo == 0 then []
    else RowsOfTurn(o, turn, upTo - 1) +
         (if o.tool(turn, upTo - 1).result.Some? then [o.tool(turn, upTo - 1).result.value] else [])
  }

  /** Query results produced in turns 0 .. k-1. */
  function RowsOf(o: Oracle, k: nat): seq<QueryResult> {
    if k == 0 then [] else RowsOf(o, k - 1) + RowsOfTurn(o, k - 1, CallsIn(o.reply(k - 1)))
  }

  // ---------- What a finished run is ----------

  datatype Outcome = Cancelled | ProviderError | EmptyResponse | Answer(content: string)

  /** Turn i has a reply without tool calls that the budget gate lets through. */
  ghost predicate Accepts(o: Oracle, maxIters: nat, floor: int, i: nat) {
    && o.reply(i).Answered?
    && o.reply(i).message.toolCalls == []
    && (floor <= CallCount(o, i) || i + 1 >= maxIters)
  }

  ghost predicate Continues(o: Oracle, maxIters: nat, floor: int, i: nat) {
    !o.cancelled(i) && o.reply(i).Answered? && !Accepts(o, maxIters, floor, i)
  }

  /** A run that made `calls` provider calls, completed `turns` continuing turns and ended in `out`. */
  ghost predicate Finishes(o: Oracle, maxIters: nat, floor: int, calls: nat, turns: nat, out: Outcome) {
    && (forall i :: 0 <= i < turns ==> Continues(o, maxIters, floor, i))
    && turns <= calls <= maxIters
    && match out
       case Cancelled => calls == turns < maxIters && o.cancelled(turns)
       case ProviderError => calls == turns + 1 && !o.cancelled(turns) && o.reply(turns).CallFailed?
       case EmptyResponse => calls == turns + 1 && !o.cancelled(turns) && o.reply(turns).NoChoices?
       case Answer(content) =>
         || (calls == turns + 1 && !o.cancelled(turns) && Accepts(o, maxIters, floor, turns)
             && content == o.reply(turns).message.content)
         || (calls == turns == maxIters && content == "")
  }

  /** The requests sent are exactly the seed followed by the transcript so far. */
  ghost predicate SentRequests(o: Oracle, seed: seq<Message>, requests: seq<seq<Message>>) {
    forall k :: 0 <= k < |requests| ==>
      AllAnswered(o, 0, k) && requests[k] == seed + Transcript(o, 0, k)
  }

  // ---------- The loop ----------

  /** One tool-calling turn: the model's message, then one answer per call in order. */
  method ExecuteCalls(o: Oracle, turn: nat, before: seq<Message>)
    returns (messages: seq<Message>, rows: seq<QueryResult>)
    requires o.reply(turn).Answered? && o.reply(turn).message.toolCalls != []
    ensures messages == before + TurnBlock(o, turn)
    ensures rows == RowsOfTurn(o, turn, CallsIn(o.reply(turn)))
  {
    var m := o.reply(turn).message;
    var calls := m.toolCalls;
    messages, rows := before + [m], [];
    for j := 0 to |calls|
      invariant messages == before + ([m] + ToolMessages(o, turn, calls, j))
      invariant rows == RowsOfTurn(o, turn, j)
    {
      var outcome := o.tool(turn, j);
      if outcome.result.Some? {
        rows := rows + [outcome.result.value];
      }
      messages := messages + [ToolMessage(calls[j], outcome)];
      assert ToolMessages(o, turn, calls, j + 1) == ToolMessages(o, turn, calls, j) + [ToolMessage(calls[j], outcome)];
    }
  }

  lemma NothingYet(o: Oracle)
    ensures Transcript(o, 0, 0) == [] && CallCount(o, 0) == 0 && RowsOf(o, 0) == [] && UsageOf(o, 0) == NO_USAGE
  {
  }

  lemma TurnCounted(o: Oracle, turn: nat)
    ensures CallCount(o, turn + 1) == CallCount(o, turn) + CallsIn(o.reply(turn))
    ensures RowsOf(o, turn + 1) == RowsOf(o, turn) + RowsOfTurn(o, turn, CallsIn(o.reply(turn)))
  {
  }

  lemma UsageCounted(o: Oracle, turn: nat)
    ensures UsageOf(o, turn + 1) == if o.reply(turn).Answered? && o.reply(turn).usage.Some?
                                    then AddUsage(UsageOf(o, turn), o.reply(turn).usage.value) else UsageOf(o, turn)
  {
  }

  lemma RejectedTurn(o: Oracle, turn: nat)
    requires o.reply(turn).Answered? && o.reply(turn).message.toolCalls == []
    ensures TurnBlock(o, turn) == [Plain(ASSISTANT, o.reply(turn).message.content), PUSH_BACK]
    ensures RowsOfTurn(o, turn, CallsIn(o.reply(turn))) == []
  {
  }

  method Run(o: Oracle, seed: seq<Message>, maxIters: nat, floor: int)
    returns (out: Outcome, requests: seq<seq<Message>>, rows: seq<QueryResult>, usage: Usage, ghost turns: nat)
    ensures Finishes(o, maxIters, floor, |requests|, turns, out)
    ensures SentRequests(o, seed, requests)
    ensures rows == RowsOf(o, turns)
    ensures usage == UsageOf(o, |requests|)
  {
    hide RowsOfTurn, TurnBlock, Transcript, CallCount, RowsOf, UsageOf, AddUsage;
    NothingYet(o);
    var messages := seed;
    var toolCallCount: nat := 0;
    requests, rows, usage, turns := [], [], NO_USAGE, 0;
    while |requests| < maxIters
      invariant turns == |requests| <= maxIters
      invariant forall i :: 0 <= i < turns ==> Continues(o, maxIters, floor, i)
      invariant AllAnswered(o, 0, turns)
      invariant messages == seed + Transcript(o, 0, turns)
      invariant SentRequests(o, seed, requests)
      invariant toolCallCount == CallCount(o, turns)
      invariant rows == RowsOf(o, turns) && usage == UsageOf(o, turns)
    {
      var iter: nat := |requests|;
      if o.cancelled(iter) {
        return Cancelled, requests, rows, usage, iter;
      }
      var reply := o.reply(iter);
      requests := requests + [messages];
      UsageCounted(o, iter);
      if reply.CallFailed? {
        return ProviderError, requests, rows, usage, iter;
      }
      if reply.NoChoices? {
        return EmptyResponse, requests, rows, usage, iter;
      }
      if reply.usage.Some? {
        usage := AddUsage(usage, reply.usage.value);
      }
      if |reply.message.toolCalls| == 0 && !(toolCallCount < floor && iter + 1 < maxIters) {
        return Answer(reply.message.content), requests, rows, usage, iter;
      }
      var newRows := [];
      var before := messages;
      if |reply.message.toolCalls| == 0 {
        messages := messages + [Plain(ASSISTANT, reply.message.content)] + [PUSH_BACK];
        RejectedTurn(o, iter);
      } else {
        messages, newRows := ExecuteCalls(o, iter, messages);
      }
      toolCallCount := toolCallCount + |reply.message.toolCalls|;
      rows := rows + newRows;
      TranscriptSnoc(o, 0, iter);
      TurnCounted(o, iter);
      turns := turns + 1;
    }
    out := Answer("");
  }

  lemma {:induction false} TranscriptSnoc(o: Oracle, lo: nat, hi: nat)
    requires lo <= hi && AllAnswered(o, lo, hi + 1)
    ensures Transcript(o, lo, hi + 1) == Transcript(o, lo, hi) + TurnBlock(o, hi)
    decreases hi - lo
  {
    hide TurnBlock;
    if lo == hi {
      assert Transcript(o, hi + 1, hi + 1) == [];
    } else {
      TranscriptSnoc(o, lo + 1, hi);
    }
  }

  // ---------- Properties of every run ----------

  ghost predicate Answers(m: Message, call: ToolCall) {
    m.role == TOOL && m.toolCallId == call.id && m.name == call.name && m.toolCalls == []
  }

  /** The turn protocol: an assistant message with k >= 1 tool calls and then exactly their
      k answers in order, or an assistant message without calls and then the push-back. */
  ghost predicate WellFormed(ms: seq<Message>)
    decreases |ms|
  {
    ms == [] ||
    (ms[0].role == ASSISTANT &&
     var k := |ms[0].toolCalls|;
     if k == 0 then |ms| >= 2 && ms[1] == PUSH_BACK && WellFormed(ms[2..])
     else |ms| > k && (forall j :: 0 <= j < k ==> Answers(ms[1 + j], ms[0].toolCalls[j])) && WellFormed(ms[k + 1..]))
  }

  /** The model's own tool-calling messages are appended as received, so their role matters. */
  ghost predicate RolesKept(o: Oracle, lo: nat, hi: nat)
    requires AllAnswered(o, lo, hi)
  {
    forall i :: lo <= i < hi && o.reply(i).message.toolCalls != [] ==> o.reply(i).message.role == ASSISTANT
  }

  lemma RolesSplit(o: Oracle, lo: nat, hi: nat)
    requires lo < hi && AllAnswered(o, lo, hi)
    ensures var m := o.reply(lo).message;
            RolesKept(o, lo, hi) <==> ((m.toolCalls == [] || m.role == ASSISTANT) && RolesKept(o, lo + 1, hi))
  {
  }

  lemma BlockWellFormed(o: Oracle, turn: nat, rest: seq<Message>)
    requires o.reply(turn).Answered?
    ensures var m := o.reply(turn).message;
            WellFormed(TurnBlock(o, turn) + rest) <==>
            ((m.toolCalls == [] || m.role == ASSISTANT) && WellFormed(rest))
  {
    var m := o.reply(turn).message;
    var block := TurnBlock(o, turn);
    var ms := block + rest;
    assert ms[|block|..] == rest;
    if m.toolCalls != [] {
      assert forall j :: 0 <= j < |m.toolCalls| ==> ms[1 + j] == ToolMessage(m.toolCalls[j], o.tool(turn, j));
    }
  }

  /** Every request body after the seed obeys the turn protocol exactly when every tool-calling
      reply so far came back with the assistant role. */
  lemma {:induction false} TranscriptWellFormed(o: Oracle, lo: nat, hi: nat)
    requires lo <= hi && AllAnswered(o, lo, hi)
    ensures WellFormed(Transcript(o, lo, hi)) <==> RolesKept(o, lo, hi)
    decreases hi - lo
  {
    if lo < hi {
      hide WellFormed;
      TranscriptWellFormed(o, lo + 1, hi);
      BlockWellFormed(o, lo, Transcript(o, lo + 1, hi));
      RolesSplit(o, lo, hi);
    }
  }

  /** The same of the requests a run sends. */
  lemma RequestsWellFormed(o: Oracle, seed: seq<Message>, requests: seq<seq<Message>>, k: nat)
    requires SentRequests(o, seed, requests) && k < |requests|
    ensures AllAnswered(o, 0, k) && seed <= requests[k]
    ensures WellFormed(requests[k][|seed|..]) <==> RolesKept(o, 0, k)
  {
    hide WellFormed, RolesKept;
    TranscriptWellFormed(o, 0, k);
    assert (seed + Transcript(o, 0, k))[|seed|..] == Transcript(o, 0, k);
  }

  /** A provider that asks for one tool call under another role and then answers. */
  function OtherRole(outcome: ToolOutcome): Oracle {
    var called := Message("model", "", [ToolCall("1", "execute_sql", "{}")], "", "");
    Oracle(i => false, i => Answered(if i == 0 then called else Plain(ASSISTANT, "done"), None), (turn, j) => outcome)
  }

  /** Its second request breaks the protocol, and the run still succeeds. */
  lemma OtherRoleBreaksProtocol(outcome: ToolOutcome)
    ensures var o := OtherRole(outcome);
            Finishes(o, 5, 1, 2, 1, Answer("done")) && !WellFormed(Transcript(o, 0, 1))
  {
    var o := OtherRole(outcome);
    assert o.reply(0).message.toolCalls != [] && |o.reply(0).message.role| != |ASSISTANT|;
    assert CallCount(o, 0) == 0 && CallCount(o, 1) == 1;
    assert o.reply(1) == Answered(Plain(ASSISTANT, "done"), None) && Accepts(o, 5, 1, 1);
    TranscriptWellFormed(o, 0, 1);
    assert !RolesKept(o, 0, 1);
  }

  /** A model that answers at once every time. */
  function Eager(): Oracle {
    Oracle(i => false, i => Answered(Plain(ASSISTANT, "done"), None), (turn, j) => ToolOutcome("", None))
  }

  /** It is pushed back twice in a run of three iterations. */
  lemma TwoPushBacks()
    ensures var early := Plain(ASSISTANT, "done");
            Finishes(Eager(), 3, 1, 3, 2, Answer("done")) && Transcript(Eager(), 0, 2) == [early, PUSH_BACK, early, PUSH_BACK]
  {
    var o := Eager();
    assert CallCount(o, 0) == 0 && CallCount(o, 1) == 0 && CallCount(o, 2) == 0;
    assert Transcript(o, 2, 2) == [];
  }

  lemma EndsAt(o: Oracle, maxIters: nat, floor: int, calls: nat, turns: nat, out: Outcome)
    requires Finishes(o, maxIters, floor, calls, turns, out)
    ensures turns == maxIters || !Continues(o, maxIters, floor, turns)
  {
  }

  /** A run is determined by the environment: same streams, same number of calls, same end. */
  lemma FinishUnique(o: Oracle, maxIters: nat, floor: int, c1: nat, t1: nat, out1: Outcome, c2: nat, t2: nat, out2: Outcome)
    requires Finishes(o, maxIters, floor, c1, t1, out1)
    requires Finishes(o, maxIters, floor, c2, t2, out2)
    ensures c1 == c2 && t1 == t2 && out1 == out2
  {
    EndsAt(o, maxIters, floor, c1, t1, out1);
    EndsAt(o, maxIters, floor, c2, t2, out2);
  }

  function ToolMessageCount(ms: seq<Message>): nat {
    if ms == [] then 0 else (if ms[0].role == TOOL then 1 else 0) + ToolMessageCount(ms[1..])
  }

  lemma {:induction false} ToolMessageCountConcat(a: seq<Message>, b: seq<Message>)
    ensures ToolMessageCount(a + b) == ToolMessageCount(a) + ToolMessageCount(b)
  {
    if a == [] {
      assert a + b == b;
    } else {
      assert (a + b)[1..] == a[1..] + b;
      ToolMessageCountConcat(a[1..], b);
    }
  }

  lemma {:induction false} AllToolMessages(ms: seq<Message>)
    requires forall j :: 0 <= j < |ms| ==> ms[j].role == TOOL
    ensures ToolMessageCount(ms) == |ms|
  {
    if ms != [] {
      AllToolMessages(ms[1..]);
    }
  }

  lemma BlockToolMessages(o: Oracle, turn: nat)
    requires o.reply(turn).Answered?
    ensures var calls, n := CallsIn(o.reply(turn)), ToolMessageCount(TurnBlock(o, turn));
            calls <= n && (calls == 0 || o.reply(turn).message.role == ASSISTANT ==> calls == n)
  {
    var m := o.reply(turn).message;
    var block := TurnBlock(o, turn);
    assert |ASSISTANT| != |TOOL| && USER[0] != TOOL[0];
    if m.toolCalls == [] {
      assert block[1..] == [PUSH_BACK] && block[1..][1..] == [];
      assert ToolMessageCount(block[1..]) == 0;
    } else {
      assert block[1..] == ToolMessages(o, turn, m.toolCalls, |m.toolCalls|);
      assert forall j :: 0 <= j < |m.toolCalls| ==> block[1..][j] == ToolMessage(m.toolCalls[j], o.tool(turn, j));
      AllToolMessages(block[1..]);
    }
  }

  lemma {:induction false} TranscriptToolMessages(o: Oracle, k: nat)
    requires AllAnswered(o, 0, k)
    ensures CallCount(o, k) <= ToolMessageCount(Transcript(o, 0, k))
    ensures RolesKept(o, 0, k) ==> CallCount(o, k) == ToolMessageCount(Transcript(o, 0, k))
  {
    if k > 0 {
      hide ToolMessageCount, TurnBlock;
      TranscriptToolMessages(o, k - 1);
      TranscriptSnoc(o, 0, k - 1);
      ToolMessageCountConcat(Transcript(o, 0, k - 1), TurnBlock(o, k - 1));
      BlockToolMessages(o, k - 1);
    }
  }

  /** An answer given before the last allowed provider call rests on at least `floor` tool results:
      the request it answers contains that many tool messages.  A floor that is still unmet at the
      end means that all the provider calls were used. */
  lemma FloorMet(o: Oracle, seed: seq<Message>, maxIters: nat, floor: int, requests: seq<seq<Message>>, turns: nat, content: string)
    requires Finishes(o, maxIters, floor, |requests|, turns, Answer(content))
    requires SentRequests(o, seed, requests)
    ensures |requests| < maxIters ==>
              var last := requests[|requests| - 1];
              |seed| <= |last| && floor <= CallCount(o, turns) <= ToolMessageCount(last[|seed|..])
    ensures CallCount(o, turns) < floor ==> |requests| == maxIters
  {
    if |requests| < maxIters {
      assert requests[|requests| - 1] == seed + Transcript(o, 0, turns);
      TranscriptToolMessages(o, turns);
    }
  }

  /** How many early answers are pushed back: every one that comes before the floor is met and
      before the last iteration, not just the first. */
  lemma PushBackExactly(o: Oracle, maxIters: nat, floor: int, calls: nat, turns: nat, out: Outcome, i: nat)
    requires Finishes(o, maxIters, floor, calls, turns, out)
    requires i < calls && o.reply(i).Answered? && o.reply(i).message.toolCalls == []
    ensures i < turns <==> CallCount(o, i) < floor && i + 1 < maxIters
    ensures i < turns ==> TurnBlock(o, i)[1] == PUSH_BACK
  {
    if i < turns {
      assert Continues(o, maxIters, floor, i);
    }
  }

  // ---------- What the model is sent ----------

  /** The messages say exactly what happened in turns lo .. hi-1: the model's own message as received
      and then, for each of its calls in order, the text that executing this call yielded, under the
      call's id and name; or its early answer and a push-back from the user. */
  ghost predicate Replays(o: Oracle, lo: nat, hi: nat, ms: seq<Message>)
    decreases hi - lo
  {
    if lo >= hi then ms == []
    else
      && o.reply(lo).Answered?
      && var m := o.reply(lo).message; var k := |m.toolCalls|;
      if k == 0 then
        && |ms| >= 2 && ms[0] == Message("assistant", m.content, [], "", "")
        && ms[1].role == "user" && ms[1].content == PUSH_BACK.content
        && Replays(o, lo + 1, hi, ms[2..])
      else
        && |ms| > k && ms[0] == m
        && (forall j :: 0 <= j < k ==> ms[1 + j] == Message("tool", o.tool(lo, j).text, [], m.toolCalls[j].id, m.toolCalls[j].name))
        && Replays(o, lo + 1, hi, ms[k + 1..])
  }

  lemma BlockReplays(o: Oracle, lo: nat, hi: nat, rest: seq<Message>)
    requires lo < hi && o.reply(lo).Answered? && Replays(o, lo + 1, hi, rest)
    ensures Replays(o, lo, hi, TurnBlock(o, lo) + rest)
  {
    var m, block := o.reply(lo).message, TurnBlock(o, lo);
    var ms := block + rest;
    assert ms[|block|..] == rest;
    if m.toolCalls != [] {
      assert forall j :: 0 <= j < |m.toolCalls| ==> ms[1 + j] == ToolMessage(m.toolCalls[j], o.tool(lo, j));
    }
  }

  lemma {:induction false} TranscriptReplays(o: Oracle, lo: nat, hi: nat)
    requires lo <= hi && AllAnswered(o, lo, hi)
    ensures Replays(o, lo, hi, Transcript(o, lo, hi))
    decreases hi - lo
  {
    if lo < hi {
      hide TurnBlock;
      TranscriptReplays(o, lo + 1, hi);
      hide Replays;
      BlockReplays(o, lo, hi, Transcript(o, lo + 1, hi));
    }
  }

  /** After the seed, every request tells the model exactly what it said and what came of its calls. */
  lemma RequestsReplay(o: Oracle, seed: seq<Message>, requests: seq<seq<Message>>, k: nat)
    requires SentRequests(o, seed, requests) && k < |requests|
    ensures seed <= requests[k] && Replays(o, 0, k, requests[k][|seed|..])
  {
    TranscriptReplays(o, 0, k);
    hide Replays;
    assert (seed + Transcript(o, 0, k))[|seed|..] == Transcript(o, 0, k);
  }

  // ---------- What is collected ----------

  function SuccessesIn(o: Oracle, turn: nat, calls: nat): nat {
    if calls == 0 then 0 else SuccessesIn(o, turn, calls - 1) + (if o.tool(turn, calls - 1).result.Some? then 1 else 0)
  }

  /** How many calls of the turns before this one yielded rows. */
  function SuccessesBefore(o: Oracle, turn: nat): nat {
    if turn == 0 then 0 else SuccessesBefore(o, turn - 1) + SuccessesIn(o, turn - 1, CallsIn(o.reply(turn - 1)))
  }

  lemma {:induction false} TurnRowsCounted(o: Oracle, turn: nat, calls: nat)
    ensures |RowsOfTurn(o, turn, calls)| == SuccessesIn(o, turn, calls)
  {
    if calls > 0 {
      TurnRowsCounted(o, turn, calls - 1);
    }
  }

  lemma {:induction false} CallRow(o: Oracle, turn: nat, calls: nat, j: nat)
    requires j < calls && o.tool(turn, j).result.Some?
    ensures var rows, at := RowsOfTurn(o, turn, calls), SuccessesIn(o, turn, j);
            at < |rows| && rows[at] == o.tool(turn, j).result.value
  {
    TurnRowsCounted(o, turn, calls - 1);
    if j < calls - 1 {
      CallRow(o, turn, calls - 1, j);
    }
  }

  lemma {:induction false} RowsCounted(o: Oracle, k: nat)
    ensures |RowsOf(o, k)| == SuccessesBefore(o, k)
  {
    if k > 0 {
      RowsCounted(o, k - 1);
      TurnRowsCounted(o, k - 1, CallsIn(o.reply(k - 1)));
    }
  }

  /** The rows collected in k turns are those of the successful calls, in turn and call order: as many
      as there were such calls, and the result of each stands after those of the calls before it. */
  lemma {:induction false} RowsExactly(o: Oracle, k: nat, turn: nat, j: nat)
    requires turn < k && j < CallsIn(o.reply(turn)) && o.tool(turn, j).result.Some?
    ensures var rows, at := RowsOf(o, k), SuccessesBefore(o, turn) + SuccessesIn(o, turn, j);
            |rows| == SuccessesBefore(o, k) && at < |rows| && rows[at] == o.tool(turn, j).result.value
  {
    RowsCounted(o, k);
    RowsCounted(o, k - 1);
    TurnCounted(o, k - 1);
    hide RowsOf, RowsOfTurn, SuccessesIn, SuccessesBefore;
    if turn < k - 1 {
      RowsExactly(o, k - 1, turn, j);
    } else {
      CallRow(o, turn, CallsIn(o.reply(turn)), j);
    }
  }

  /** One figure of the usage that replies 0 .. k-1 reported, added up. */
  function Total(o: Oracle, figure: Usage -> int, k: nat): int {
    if k == 0 then 0
    else Total(o, figure, k - 1) + match o.reply(k - 1) case Answered(_, Some(usage)) => figure(usage) case _ => 0
  }

  lemma {:induction false} FigureTotal(o: Oracle, figure: Usage -> int, k: nat)
    requires figure(NO_USAGE) == 0 && forall u, v :: figure(AddUsage(u, v)) == figure(u) + figure(v)
    ensures figure(UsageOf(o, k)) == Total(o, figure, k)
  {
    if k > 0 {
      hide AddUsage;
      FigureTotal(o, figure, k - 1);
      assert figure(ReplyUsage(o.reply(k - 1))) == match o.reply(k - 1) case Answered(_, Some(usage)) => figure(usage) case _ => 0;
    }
  }

  function Totals(o: Oracle, k: nat): Usage {
    Usage(Total(o, (u: Usage) => u.prompt, k), Total(o, (u: Usage) => u.completion, k),
          Total(o, (u: Usage) => u.total, k), Total(o, (u: Usage) => u.cached, k))
  }

  /** Each figure of the collected usage is the sum of what the replies reported for it. */
  lemma UsageTotals(o: Oracle, k: nat)
    ensures UsageOf(o, k) == Totals(o, k)
  {
    hide UsageOf, Total;
    FigureTotal(o, (u: Usage) => u.prompt, k);
    FigureTotal(o, (u: Usage) => u.completion, k);
    FigureTotal(o, (u: Usage) => u.total, k);
    FigureTotal(o, (u: Usage) => u.cached, k);
  }

  /** How a run ends, call by call: a cancelled context prevents the call, a failed or empty reply ends
      the run with its error, and an answer is the last reply's text, which asked for no tools, or
      empty when all calls are used up. */
  lemma EndsExactly(o: Oracle, maxIters: nat, floor: int, calls: nat, turns: nat, out: Outcome)
    requires Finishes(o, maxIters, floor, calls, turns, out)
    ensures calls <= maxIters && forall i :: 0 <= i < calls ==> !o.cancelled(i)
    ensures out == Cancelled <==> calls < maxIters && o.cancelled(calls) && forall i :: 0 <= i < calls ==> Continues(o, maxIters, floor, i)
    ensures forall i :: 0 <= i < calls && !o.reply(i).Answered? ==>
              i == calls - 1 && out == if o.reply(i).CallFailed? then ProviderError else EmptyResponse
    ensures out == ProviderError ==> calls > 0 && o.reply(calls - 1) == CallFailed
    ensures out == EmptyResponse ==> calls > 0 && o.reply(calls - 1) == NoChoices
    ensures out.Answer? ==>
              if calls > 0 && o.reply(calls - 1).Answered? && o.reply(calls - 1).message.toolCalls == []
              then out.content == o.reply(calls - 1).message.content
              else calls == maxIters && out.content == ""
  {
    hide CallCount;
    assert turns <= calls <= turns + 1;
    forall i | 0 <= i < turns
      ensures !o.cancelled(i) && o.reply(i).Answered? && !Accepts(o, maxIters, floor, i)
    {
      assert Continues(o, maxIters, floor, i);
    }
    assert calls == turns + 1 ==> !o.cancelled(turns) && !Continues(o, maxIters, floor, turns);
  }
}
