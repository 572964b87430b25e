/** The wire log and the repair of interrupted calls
    (scientist/scientist_session.py). */
module Session {
  import opened Basics
  import opened Messages

  const INTERRUPTED := "{\"ok\": false, " + "\"error\": " + "\"this call was " + "interrupted by "
                       + "a run restart " + "before any " + "result was " + "recorded\"}"

  // ---- completing dangling calls --------------------------------------------

  function Interrupt(ids: seq<string>): (ms: seq<Message>)
    ensures |ms| == |ids|
  {
    seq(|ids|, i requires 0 <= i < |ids| => Result(ids[i], INTERRUPTED))
  }

  /** One interruption marker for each open call, in the order of their ids. */
  ghost function Interrupted(pending: set<string>): (ms: seq<Message>)
    ensures AllResults(ms) && |ms| == |pending|
    ensures Elements(AnsweredIds(ms)) == pending
    ensures pending == {} ==> ms == []
  {
    var ms := Interrupt(Sorted(pending));
    assert AnsweredIds(ms) == Sorted(pending);
    ms
  }

  /** The markers, one by one. */
  lemma MarkersInOrder(pending: set<string>, i: nat)
    requires i < |pending|
    ensures Interrupted(pending)[i].Result? && Interrupted(pending)[i].callId == Sorted(pending)[i]
    ensures Interrupted(pending)[i].text
            == "{\"ok\": false, " + "\"error\": " + "\"this call was " + "interrupted by " + "a run restart "
               + "before any " + "result was " + "recorded\"}"
  {
  }

  /** The open calls that message `m` finds unanswered for good. */
  ghost function Abandoned(pending: set<string>, m: Message): set<string> {
    if m.Result? then {} else pending
  }

  /** The calls still open after message `m`. */
  ghost function StillOpen(pending: set<string>, m: Message): set<string> {
    if Calls(m) then Elements(CallIds(m.calls))
    else if m.Result? then pending - {m.callId}
    else {}
  }

  ghost function RepairFrom(pending: set<string>, ms: seq<Message>): seq<Message>
    decreases |ms|
  {
    if ms == [] then Interrupted(pending)
    else
      Interrupted(Abandoned(pending, ms[0])) + [ms[0]]
      + RepairFrom(StillOpen(pending, ms[0]), ms[1..])
  }

  /** The view of a log in which every call has a result. */
  ghost function Repair(ms: seq<Message>): seq<Message> {
    RepairFrom({}, ms)
  }

  lemma SortedFirst(s: set<string>, m: string)
    requires IsLeast(m, s)
    ensures Sorted(s) == [m] + Sorted(s - {m})
  {
    LexTotal(m, Sorted(s)[0]);
  }

  method SortedIds(pending: set<string>) returns (ids: seq<string>)
    ensures ids == Sorted(pending)
  {
    ids := [];
    var rest := pending;
    while rest != {}
      invariant ids + Sorted(rest) == Sorted(pending)
    {
      LeastExists(rest);
      var m :| IsLeast(m, rest);
      SortedFirst(rest, m);
      Concat3(ids, [m], Sorted(rest - {m}));
      ids := ids + [m];
      rest := rest - {m};
    }
  }

  lemma RepairAdvances(done: seq<Message>, pending: set<string>, ms: seq<Message>, i: nat)
    requires i < |ms|
    ensures done + RepairFrom(pending, ms[i..])
         == done + Interrupted(Abandoned(pending, ms[i])) + [ms[i]] + RepairFrom(StillOpen(pending, ms[i]), ms[i + 1..])
  {
    assert ms[i..][1..] == ms[i + 1..];
    Concat4(done, Interrupted(Abandoned(pending, ms[i])), [ms[i]], RepairFrom(StillOpen(pending, ms[i]), ms[i + 1..]));
  }

  /** Markers for the calls still open, in sorted order. */
  method MarkInterrupted(repaired: seq<Message>, pending: set<string>) returns (more: seq<Message>)
    ensures more == repaired + Interrupted(pending)
  {
    more := repaired;
    if pending != {} {
      var ids := SortedIds(pending);
      more := more + Interrupt(ids);
    }
  }

  method CompleteDanglingCalls(messages: seq<Message>) returns (repaired: seq<Message>)
    ensures repaired == Repair(messages)
  {
    repaired := [];
    var pending: set<string> := {};
    for i := 0 to |messages|
      invariant repaired + RepairFrom(pending, messages[i..]) == Repair(messages)
    {
      RepairAdvances(repaired, pending, messages, i);
      repaired, pending := RepairOne(repaired, pending, messages[i]);
    }
    RepairEnds(pending);
    repaired := MarkInterrupted(repaired, pending);
  }

  /** One message of the log: calls still open are closed before any message
      but a result. */
  method RepairOne(done: seq<Message>, open: set<string>, message: Message)
      returns (repaired: seq<Message>, pending: set<string>)
    ensures repaired == done + Interrupted(Abandoned(open, message)) + [message]
    ensures pending == StillOpen(open, message)
  {
    repaired, pending := done, open;
    assert done + Interrupted({}) == done;
    if Calls(message) {
      repaired := MarkInterrupted(repaired, pending);
      repaired := repaired + [message];
      pending := set id | id in CallIds(message.calls);
    } else if message.Result? && pending != {} {
      pending := pending - {message.callId};
      repaired := repaired + [message];
    } else {
      repaired := MarkInterrupted(repaired, pending);
      pending := {};
      repaired := repaired + [message];
    }
  }

  lemma RepairEnds(pending: set<string>)
    ensures RepairFrom(pending, []) == Interrupted(pending)
  {
  }

  lemma RepairStep(pending: set<string>, m: Message, ms: seq<Message>)
    ensures RepairFrom(pending, [m] + ms)
         == Interrupted(Abandoned(pending, m)) + [m] + RepairFrom(StillOpen(pending, m), ms)
    ensures m.Result? || pending == {} ==>
      RepairFrom(pending, [m] + ms) == [m] + RepairFrom(StillOpen(pending, m), ms)
  {
    assert ([m] + ms)[1..] == ms;
    if m.Result? || pending == {} {
      assert Interrupted(Abandoned(pending, m)) + [m] == [m];
    }
  }

  lemma AnsweredIdsFirst(m: Message, more: seq<Message>)
    requires AllResults([m] + more)
    ensures m.Result? && AllResults(more)
    ensures Elements(AnsweredIds([m] + more)) == {m.callId} + Elements(AnsweredIds(more))
  {
    assert m in [m] + more;
    forall x | x in more ensures x.Result? { assert x in [m] + more; }
    assert AnsweredIds([m] + more) == [m.callId] + AnsweredIds(more);
    ElementsAppend([m.callId], AnsweredIds(more));
  }

  /** At the start of a turn the calls still open are given up. */
  lemma RepairGivesUp(pending: set<string>, rest: seq<Message>)
    requires StartsTurn(rest)
    ensures RepairFrom(pending, rest) == Interrupted(pending) + Repair(rest)
  {
    if rest != [] {
      var m, more := rest[0], rest[1..];
      assert rest == [m] + more;
      RepairStep(pending, m, more);
      RepairStep({}, m, more);
      assert StillOpen(pending, m) == StillOpen({}, m);
      Concat3(Interrupted(pending), [m], RepairFrom(StillOpen({}, m), more));
    }
  }

  lemma RepairOneResult(pending: set<string>, first: Message, more: seq<Message>, rest: seq<Message>,
                        tail: seq<Message>)
    requires first.Result?
    requires RepairFrom(pending - {first.callId}, more + rest) == more + tail
    ensures RepairFrom(pending, [first] + more + rest) == [first] + more + tail
  {
    Concat3([first], more, rest);
    RepairStep(pending, first, more + rest);
    Concat3([first], more, tail);
  }

  /** Repair deals with a turn's results, then its open calls, then the rest. */
  lemma {:induction false} RepairBlock(pending: set<string>, block: seq<Message>, rest: seq<Message>)
    requires AllResults(block) && StartsTurn(rest)
    ensures RepairFrom(pending, block + rest)
         == block + (Interrupted(pending - Elements(AnsweredIds(block))) + Repair(rest))
    decreases |block|
  {
    var left := pending - Elements(AnsweredIds(block));
    if block == [] {
      assert block + rest == rest;
      assert left == pending;
      RepairGivesUp(pending, rest);
    } else {
      var first, more := block[0], block[1..];
      assert block == [first] + more;
      AnsweredIdsFirst(first, more);
      assert pending - {first.callId} - Elements(AnsweredIds(more)) == left;
      RepairBlock(pending - {first.callId}, more, rest);
      RepairOneResult(pending, first, more, rest, Interrupted(left) + Repair(rest));
    }
  }

  ghost function OpenCalls(head: Message, block: seq<Message>): set<string>
    requires AllResults(block)
  {
    if Calls(head) then Elements(CallIds(head.calls)) - Elements(AnsweredIds(block)) else {}
  }

  /** What repair makes of a log's first turn. */
  lemma RepairTurn(head: Message, block: seq<Message>, rest: seq<Message>)
    requires AllResults(block) && StartsTurn(rest)
    ensures Repair([head] + block + rest)
         == [head] + (block + Interrupted(OpenCalls(head, block))) + Repair(rest)
    ensures StartsTurn(Repair(rest))
    ensures AllResults(block + Interrupted(OpenCalls(head, block)))
  {
    var pending := StillOpen({}, head);
    assert pending - Elements(AnsweredIds(block)) == OpenCalls(head, block);
    var markers := Interrupted(OpenCalls(head, block));
    Concat3([head], block, rest);
    RepairStep({}, head, block + rest);
    RepairBlock(pending, block, rest);
    Concat3(block, markers, Repair(rest));
    Concat3([head], block + markers, Repair(rest));
    forall m | m in block + markers ensures m.Result? { if m !in block { assert m in markers; } }
    RepairStarts(rest);
  }

  lemma RepairStarts(ms: seq<Message>)
    ensures ms == [] <==> Repair(ms) == []
    ensures ms != [] ==> Repair(ms)[0] == ms[0]
  {
  }

  /** The repaired view is what an endpoint accepts exactly when the log holds
      no orphan result: repair closes every call and removes nothing. */
  lemma {:induction false} RepairPairs(ms: seq<Message>)
    ensures Paired(Repair(ms)) <==> Answerable(ms)
    decreases |ms|
  {
    if ms != [] {
      RepairStarts(ms);
      var head, block, rest := CutTurn(ms);
      if !head.Result? {
        RepairTurn(head, block, rest);
        var full := block + Interrupted(OpenCalls(head, block));
        if Calls(head) {
          RepairPairs(rest);
          TakeTurn(head, block, rest);
          TakeTurn(head, full, Repair(rest));
          RepairAnswers(head, block);
        } else if block == [] {
          RepairPairs(rest);
          TakeTurn(head, [], rest);
          TakeTurn(head, [], Repair(rest));
          assert full == [];
        } else {
          assert ms[1..][0] == block[0] && Repair(ms)[1..][0] == block[0] && block[0] in block;
        }
      }
    }
  }

  lemma RepairAnswers(head: Message, block: seq<Message>)
    requires Calls(head) && AllResults(block)
    ensures Answer(head.calls, block + Interrupted(OpenCalls(head, block)))
       <==> PartlyAnswer(head.calls, block)
  {
    RepairedTurnIsAnswered(head, block);
    var ids, answered := CallIds(head.calls), AnsweredIds(block);
    assert Elements(answered) + OpenCalls(head, block) == Elements(answered) + Elements(ids);
    DistinctCount(answered);
    DistinctCount(ids);
    if Elements(answered) <= Elements(ids) {
      assert Elements(ids) == Elements(answered) + OpenCalls(head, block);
      assert |Elements(ids)| == |Elements(answered)| + |OpenCalls(head, block)|;
    }
  }

  lemma AnsweredTurnIsClosed(head: Message, block: seq<Message>)
    requires AllResults(block) && (Calls(head) ==> Answer(head.calls, block))
    ensures OpenCalls(head, block) == {} && block + Interrupted({}) == block
  {
  }

  /** Repair is the identity on a complete log. */
  lemma {:induction false} RepairComplete(ms: seq<Message>)
    requires Paired(ms)
    ensures Repair(ms) == ms
    decreases |ms|
  {
    if ms == [] {
      assert Repair([]) == Interrupted({}) == [];
    } else {
      hide Answerable, Answer, Repair;
      PairedIsAnswerable(ms);
      var head, block, rest := CutTurn(ms);
      if !Calls(head) { PlainHeadHasNoResults(head, block, rest); }
      TakeTurn(head, block, rest);
      RepairTurn(head, block, rest);
      RepairComplete(rest);
      AnsweredTurnIsClosed(head, block);
    }
  }

  /** Repairing the repaired view changes nothing, whatever the log. */
  lemma {:induction false} RepairIdempotent(ms: seq<Message>)
    ensures Repair(Repair(ms)) == Repair(ms)
    decreases |ms|
  {
    if ms != [] {
      var head, block, rest := CutTurn(ms);
      RepairTurn(head, block, rest);
      RepairedTurnIsAnswered(head, block);
      var full := block + Interrupted(OpenCalls(head, block));
      RepairTurn(head, full, Repair(rest));
      RepairIdempotent(rest);
      assert OpenCalls(head, full) == {};
    }
  }

  /** A log may be repaired piecewise, cut anywhere a turn starts. */
  lemma {:induction false} RepairAppend(w: seq<Message>, v: seq<Message>)
    requires StartsTurn(v)
    ensures Repair(w + v) == Repair(w) + Repair(v)
    decreases |w|
  {
    if w == [] {
      assert w + v == v;
    } else {
      var head, block, rest := CutTurn(w);
      RepairTurn(head, block, rest);
      assert w + v == [head] + block + (rest + v);
      RepairTurn(head, block, rest + v);
      RepairAppend(rest, v);
    }
  }

  /** Repair only inserts: the log is a subsequence of its repaired view. */
  lemma {:induction false} RepairKeeps(pending: set<string>, ms: seq<Message>)
    ensures Subsequence(ms, RepairFrom(pending, ms))
    decreases |ms|
  {
    if ms != [] {
      var markers := Interrupted(Abandoned(pending, ms[0]));
      var rest := RepairFrom(StillOpen(pending, ms[0]), ms[1..]);
      RepairKeeps(StillOpen(pending, ms[0]), ms[1..]);
      assert ([ms[0]] + rest)[1..] == rest;
      SubsequencePrepend(ms, [ms[0]] + rest, markers);
      Concat3(markers, [ms[0]], rest);
    }
  }

  /** Every call of every turn is answered before the next message that is not
      a result. */
  ghost predicate EveryCallAnswered(ms: seq<Message>)
    decreases |ms|
  {
    ms == [] ||
    var n := TurnLength(ms);
    && EveryCallAnswered(ms[n..])
    && (Calls(ms[0]) ==>
          forall id | id in CallIds(ms[0].calls) :: exists i | 1 <= i < n :: ms[i].Result? && ms[i].callId == id)
  }

  lemma {:induction false} RepairAnswersEveryCall(ms: seq<Message>)
    ensures EveryCallAnswered(Repair(ms))
    decreases |ms|
  {
    if ms != [] {
      var head, block, rest := CutTurn(ms);
      RepairTurn(head, block, rest);
      var full := block + Interrupted(OpenCalls(head, block));
      RepairedTurnIsAnswered(head, block);
      RepairAnswersEveryCall(rest);
      EveryCallAnsweredTurn(head, full, Repair(rest));
    }
  }

  lemma EveryCallAnsweredTurn(head: Message, full: seq<Message>, rest: seq<Message>)
    requires AllResults(full) && StartsTurn(rest) && EveryCallAnswered(rest)
    requires Calls(head) ==> Elements(CallIds(head.calls)) <= Elements(AnsweredIds(full))
    ensures EveryCallAnswered([head] + full + rest)
  {
    var out := [head] + full + rest;
    assert out[1..] == full + rest;
    LeadingResultsSplit(full, rest);
    assert out[1 + |full|..] == rest;
    if Calls(head) {
      forall id | id in CallIds(head.calls)
        ensures exists i | 1 <= i < 1 + |full| :: out[i].Result? && out[i].callId == id
      {
        assert id in Elements(AnsweredIds(full));
        var i :| 0 <= i < |full| && AnsweredIds(full)[i] == id;
        assert full[i] in full && out[1 + i] == full[i];
      }
    }
  }

  lemma RepairedTurnIsAnswered(head: Message, block: seq<Message>)
    requires AllResults(block)
    ensures var full := block + Interrupted(OpenCalls(head, block));
      && AllResults(full)
      && Elements(AnsweredIds(full)) == Elements(AnsweredIds(block)) + OpenCalls(head, block)
  {
    var open := Interrupted(OpenCalls(head, block));
    var full := block + open;
    forall m | m in full ensures m.Result? { if m !in block { assert m in open; } }
    assert AnsweredIds(full) == AnsweredIds(block) + AnsweredIds(open);
    ElementsAppend(AnsweredIds(block), AnsweredIds(open));
  }
}
