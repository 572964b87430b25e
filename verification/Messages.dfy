/** The conversation on the wire: its messages and the call/result pairing a chat
    endpoint demands of them. */
module Messages {
  import opened Basics

  /** One entry of an assistant message's `tool_calls`. */
  datatype WireCall = WireCall(id: string, name: string, arguments: string)

  /** A message by role. `User` stands for every role other than assistant and
      tool: the code only ever asks for those two. */
  datatype Message =
    | User(text: string)
    | Assistant(text: string, calls: seq<WireCall>)
    | Result(callId: string, text: string)

  predicate Calls(m: Message) {
    m.Assistant? && m.calls != []
  }

  function CallIds(calls: seq<WireCall>): (ids: seq<string>)
    ensures |ids| == |calls|
  {
    seq(|calls|, i requires 0 <= i < |calls| => calls[i].id)
  }

  ghost predicate AllResults(ms: seq<Message>) {
    forall m | m in ms :: m.Result?
  }

  ghost function AnsweredIds(results: seq<Message>): (ids: seq<string>)
    requires AllResults(results)
    ensures |ids| == |results|
  {
    seq(|results|, i requires 0 <= i < |results| => assert results[i] in results; results[i].callId)
  }

  /** How many tool results the list starts with. */
  function LeadingResults(ms: seq<Message>): (n: nat)
    ensures n <= |ms|
    ensures forall i | 0 <= i < n :: ms[i].Result?
    ensures n < |ms| ==> !ms[n].Result?
  {
    if ms != [] && ms[0].Result? then 1 + LeadingResults(ms[1..]) else 0
  }

  predicate StartsTurn(ms: seq<Message>) {
    ms == [] || !ms[0].Result?
  }

  // ---- what an endpoint accepts ---------------------------------------------

  /** The results answer the calls: each call and no other, and each once when
      the reply numbered its calls apart. */
  ghost predicate Answer(calls: seq<WireCall>, results: seq<Message>) {
    && AllResults(results)
    && Elements(AnsweredIds(results)) == Elements(CallIds(calls))
    && (Distinct(CallIds(calls)) ==> |results| == |calls|)
  }

  /** Every assistant message with calls is followed at once by results that
      answer them, and no result stands anywhere else. */
  ghost predicate Paired(ms: seq<Message>)
    decreases |ms|
  {
    if ms == [] then true
    else if ms[0].Result? then false
    else if Calls(ms[0]) then
      var n := LeadingResults(ms[1..]);
      Answer(ms[0].calls, ms[1..1 + n]) && Paired(ms[1 + n..])
    else Paired(ms[1..])
  }

  /** Some of the calls are answered, none twice when numbered apart. */
  ghost predicate PartlyAnswer(calls: seq<WireCall>, results: seq<Message>) {
    && AllResults(results)
    && Elements(AnsweredIds(results)) <= Elements(CallIds(calls))
    && (Distinct(CallIds(calls)) ==> Distinct(AnsweredIds(results)))
  }

  /** Like `Paired`, with calls left open: no result is an orphan. */
  ghost predicate Answerable(ms: seq<Message>)
    decreases |ms|
  {
    if ms == [] then true
    else if ms[0].Result? then false
    else if Calls(ms[0]) then
      var n := LeadingResults(ms[1..]);
      PartlyAnswer(ms[0].calls, ms[1..1 + n]) && Answerable(ms[1 + n..])
    else Answerable(ms[1..])
  }

  /** Within each turn the reply gave its calls different ids. */
  ghost predicate DistinctCalls(ms: seq<Message>) {
    forall m | m in ms && m.Assistant? :: Distinct(CallIds(m.calls))
  }

  // ---- turns ----------------------------------------------------------------

  /** The messages up to the next message that is not a tool result. */
  function TurnLength(ms: seq<Message>): (n: nat)
    requires ms != []
    ensures 1 <= n <= |ms|
    ensures forall i | 1 <= i < n :: ms[i].Result?
    ensures StartsTurn(ms[n..])
  {
    1 + LeadingResults(ms[1..])
  }

  lemma LeadingResultsSplit(block: seq<Message>, rest: seq<Message>)
    requires AllResults(block) && StartsTurn(rest)
    ensures LeadingResults(block + rest) == |block|
  {
    if block == [] {
      assert block + rest == rest;
    } else {
      assert block[0] in block;
      assert (block + rest)[1..] == block[1..] + rest;
      LeadingResultsSplit(block[1..], rest);
    }
  }

  /** One turn in front: the predicates take it off whole. */
  lemma TakeTurn(head: Message, block: seq<Message>, rest: seq<Message>)
    requires !head.Result? && AllResults(block) && StartsTurn(rest)
    requires Calls(head) || block == []
    ensures Paired([head] + block + rest) <==> (Calls(head) ==> Answer(head.calls, block)) && Paired(rest)
    ensures Answerable([head] + block + rest) <==> (Calls(head) ==> PartlyAnswer(head.calls, block)) && Answerable(rest)
    ensures TurnLength([head] + block + rest) == 1 + |block|
  {
    hide Answer, PartlyAnswer;
    HeadAndBlock(head, block, rest);
    LeadingResultsSplit(block, rest);
  }

  /** A list that does not start with a result, cut after its first turn. */
  lemma CutTurn(ms: seq<Message>) returns (head: Message, block: seq<Message>, rest: seq<Message>)
    requires ms != []
    ensures head == ms[0] && AllResults(block) && StartsTurn(rest)
    ensures ms == [head] + block + rest && |rest| < |ms|
  {
    var n := TurnLength(ms);
    head, block, rest := ms[0], ms[1..n], ms[n..];
  }

  lemma {:induction false} PairedIsAnswerable(ms: seq<Message>)
    requires Paired(ms)
    ensures Answerable(ms) && StartsTurn(ms)
    decreases |ms|
  {
    if ms != [] {
      var head, block, rest := CutTurn(ms);
      if !Calls(head) && block != [] {
        assert false;
      }
      TakeTurn(head, block, rest);
      PairedIsAnswerable(rest);
      if Calls(head) { AnswerIsPartial(head.calls, block); }
    }
  }

  lemma AnswerIsPartial(calls: seq<WireCall>, results: seq<Message>)
    requires Answer(calls, results)
    ensures PartlyAnswer(calls, results)
  {
    DistinctCount(CallIds(calls));
    DistinctCount(AnsweredIds(results));
  }

  /** A plain message is never followed by results in an answerable list. */
  lemma PlainHeadHasNoResults(head: Message, block: seq<Message>, rest: seq<Message>)
    requires AllResults(block) && !Calls(head)
    requires Answerable([head] + block + rest)
    ensures block == []
  {
    if block != [] {
      assert false;
    }
  }

  /** Pairing is decided turn by turn: it may be cut where a turn starts. */
  lemma {:induction false} PairedSplit(a: seq<Message>, b: seq<Message>)
    requires StartsTurn(b)
    ensures Paired(a + b) <==> Paired(a) && Paired(b)
    ensures Answerable(a + b) <==> Answerable(a) && Answerable(b)
    decreases |a|
  {
    if a == [] {
      assert a + b == b;
    } else {
      var head, block, rest := CutTurn(a);
      assert (a + b)[0] == head;
      assert a + b == [head] + block + (rest + b);
      if !head.Result? {
        if Calls(head) || block == [] {
          TakeTurn(head, block, rest);
          TakeTurn(head, block, rest + b);
          PairedSplit(rest, b);
        } else {
          assert block[0] in block;
          assert a[1..][0] == block[0] && (a + b)[1..][0] == block[0];
        }
      }
    }
  }

  lemma PartOfAnAnswer(head: Message, block: seq<Message>, k: nat)
    requires AllResults(block) && k <= |block|
    requires Calls(head) ==> PartlyAnswer(head.calls, block)
    ensures AllResults(block[..k])
    ensures Calls(head) ==> PartlyAnswer(head.calls, block[..k])
  {
    var cut := block[..k];
    forall m | m in cut ensures m.Result? { assert m in block; }
    assert AnsweredIds(cut) == AnsweredIds(block)[..k];
    forall x | x in AnsweredIds(cut) ensures x in AnsweredIds(block) { }
  }

  /** Losing the last message leaves no orphan behind. */
  lemma {:induction false} AnswerablePrefix(ms: seq<Message>, n: nat)
    requires Answerable(ms) && n <= |ms|
    ensures Answerable(ms[..n])
    decreases |ms|
  {
    if n > 0 {
      hide PartlyAnswer, Answerable;
      var head, block, rest := CutTurn(ms);
      if !Calls(head) { PlainHeadHasNoResults(head, block, rest); }
      TakeTurn(head, block, rest);
      if n <= 1 + |block| {
        CutWithinBlock(head, block, rest, n);
        PartOfAnAnswer(head, block, n - 1);
        TakeTurn(head, block[..n - 1], []);
      } else {
        AnswerablePrefix(rest, n - 1 - |block|);
        CutBehindBlock(head, block, rest, n);
        TakeTurn(head, block, rest[..n - 1 - |block|]);
      }
    }
  }

  lemma NothingAfterPlainHead(head: Message, b: seq<Message>)
    requires !Calls(head) && Answerable([head] + [] + b)
    ensures StartsTurn(b)
  {
    HeadAndBlock(head, [], b);
  }

  lemma AnswerableStarts(ms: seq<Message>)
    requires Answerable(ms)
    ensures StartsTurn(ms)
  {
  }

  /** Calls that were all answered leave no room for more answers. */
  lemma AnsweredCallsAreFull(head: Message, block: seq<Message>, b: seq<Message>)
    requires Calls(head) && AllResults(block) && Answer(head.calls, block) && Distinct(CallIds(head.calls))
    requires Answerable([head] + block + b)
    ensures StartsTurn(b)
  {
    var n := LeadingResults(b);
    var wide := block + b[..n];
    assert AllResults(wide) by {
      forall m | m in wide ensures m.Result? { if m !in block { assert m in b[..n]; } }
    }
    assert [head] + block + b == [head] + wide + b[n..];
    TakeTurn(head, wide, b[n..]);
    FullAnswerIsLongest(head.calls, block, wide);
  }

  lemma FullAnswerIsLongest(calls: seq<WireCall>, block: seq<Message>, wide: seq<Message>)
    requires Answer(calls, block) && PartlyAnswer(calls, wide) && Distinct(CallIds(calls))
    ensures |wide| <= |block|
  {
    DistinctCount(CallIds(calls));
    DistinctCount(AnsweredIds(wide));
    SubsetCount(Elements(AnsweredIds(wide)), Elements(CallIds(calls)));
  }

  /** A fully answered list whose calls are numbered apart has room for no
      further result. */
  lemma {:induction false} NoRoomForResult(a: seq<Message>, b: seq<Message>)
    requires Paired(a) && DistinctCalls(a)
    requires Answerable(a + b)
    ensures StartsTurn(b)
    decreases |a|
  {
    hide Paired, Answerable, Answer, PartlyAnswer;
    if a == [] {
      assert a + b == b;
      AnswerableStarts(b);
    } else {
      PairedIsAnswerable(a);
      var head, block, rest := CutTurn(a);
      if !Calls(head) { PlainHeadHasNoResults(head, block, rest); }
      TakeTurn(head, block, rest);
      forall m | m in rest ensures m in a { }
      assert a + b == [head] + block + (rest + b);
      if rest != [] {
        TakeTurn(head, block, rest + b);
        NoRoomForResult(rest, b);
      } else {
        assert rest + b == b;
        if Calls(head) {
          assert head in a;
          AnsweredCallsAreFull(head, block, b);
        } else {
          NothingAfterPlainHead(head, b);
        }
      }
    }
  }

  lemma SubsetCount<T>(a: set<T>, b: set<T>)
    requires a <= b
    ensures |a| <= |b|
  {
    if a != {} {
      var x :| x in a;
      SubsetCount(a - {x}, b - {x});
    }
  }
}
