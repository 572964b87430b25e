/** The wire file: what an append leaves on disk, whole or cut short by a kill,
    and what a resume reads back (scientist/scientist_session.py). */
module WireLog {
  import opened Basics
  import opened Messages
  import opened Session

  datatype Line = Whole(message: Message) | Junk

  /** What follows the last newline: nothing, part of a record, or a complete
      record whose newline never reached the disk. */
  datatype Tail = Closed | Fragment | Unterminated(message: Message)

  datatype Wire = Absent | Log(lines: seq<Line>, tail: Tail)

  /** Where in an append the process is killed: in the middle of a record that
      holds raw separators, also right behind one, white space aside. */
  datatype Kill = BeforeOpen | Opened | BehindSeparator | MidRecord | BeforeNewline

  predicate OneLineCall(c: WireCall) {
    OneLine(c.id) && OneLine(c.name) && OneLine(c.arguments)
  }

  /** The record is read back as one line. */
  predicate OneRecord(m: Message) {
    && OneLine(m.text)
    && (m.Result? ==> OneLine(m.callId))
    && (m.Assistant? ==> forall i | 0 <= i < |m.calls| :: OneLineCall(m.calls[i]))
  }

  function Appended(w: Wire, m: Message): Wire {
    var line := if OneRecord(m) then Whole(m) else Junk;
    match w
    case Absent => Log([line], Closed)
    case Log(lines, Closed) => Log(lines + [line], Closed)
    case Log(lines, _) => Log(lines + [Junk], Closed)
  }

  function AppendedAll(w: Wire, ms: seq<Message>): Wire
    decreases |ms|
  {
    if ms == [] then w else AppendedAll(Appended(w, ms[0]), ms[1..])
  }

  function Killed(w: Wire, m: Message, kill: Kill): Wire {
    if kill == BeforeOpen then w
    else
      var lines := if w == Absent then [] else w.lines;
      var tail := if w == Absent then Closed else w.tail;
      if kill == Opened then Log(lines, tail)
      else if kill == BehindSeparator && !OneRecord(m) then Log(lines + [Junk], Closed)
      else if kill in {BehindSeparator, MidRecord} || tail != Closed || !OneRecord(m) then Log(lines, Fragment)
      else Log(lines, Unterminated(m))
  }

  predicate TailClosed(w: Wire) {
    w == Absent || w.tail == Closed
  }

  function Readable(lines: seq<Line>): seq<Message> {
    if lines == [] then []
    else Readable(lines[..|lines| - 1])
         + if lines[|lines| - 1].Whole? then [lines[|lines| - 1].message] else []
  }

  /** The messages on file, before repair. */
  function Raw(w: Wire): seq<Message> {
    match w
    case Absent => []
    case Log(lines, Unterminated(m)) => Readable(lines) + [m]
    case Log(lines, _) => Readable(lines)
  }

  /** The conversation a resume starts from. */
  ghost function Replay(w: Wire): seq<Message> {
    Repair(Raw(w))
  }

  method LoadWireMessages(w: Wire) returns (messages: seq<Message>)
    ensures messages == Replay(w)
  {
    messages := [];
    if w != Absent {
      for i := 0 to |w.lines|
        invariant messages == Readable(w.lines[..i])
      {
        assert w.lines[..i + 1][..i] == w.lines[..i];
        if w.lines[i].Whole? {
          messages := messages + [w.lines[i].message];
        }
      }
      assert w.lines[..|w.lines|] == w.lines;
      if w.tail.Unterminated? {
        messages := messages + [w.tail.message];
      }
    }
    messages := CompleteDanglingCalls(messages);
  }

  lemma RawAppended(w: Wire, m: Message)
    ensures TailClosed(Appended(w, m)) && Appended(w, m) != Absent
    ensures TailClosed(w) ==> Raw(Appended(w, m)) == Raw(w) + (if OneRecord(m) then [m] else [])
    ensures !TailClosed(w) ==> Raw(Appended(w, m)) == Raw(w)[..|Raw(w)| - if w.tail.Unterminated? then 1 else 0]
  {
    var line := if OneRecord(m) then Whole(m) else Junk;
    if w == Absent {
      assert [line][..0] == [];
      assert Readable([]) == [];
    } else if w.tail == Closed {
      assert (w.lines + [line])[..|w.lines|] == w.lines;
    } else {
      assert (w.lines + [Junk])[..|w.lines|] == w.lines;
    }
  }

  lemma RawKilled(w: Wire, m: Message, kill: Kill)
    ensures kill == BeforeOpen || kill == Opened ==> Raw(Killed(w, m, kill)) == Raw(w)
    ensures var after := Raw(Killed(w, m, kill));
      || after == Raw(w)
      || (TailClosed(w) && OneRecord(m) && after == Raw(w) + [m])
      || (!TailClosed(w) && after == Raw(w)[..|Raw(w)| - if w.tail.Unterminated? then 1 else 0])
  {
    hide Readable, OneRecord;
    NothingReadable();
    JunkIsSkipped(if w == Absent then [] else w.lines);
  }

  lemma NothingReadable()
    ensures Readable([]) == []
  {
  }

  lemma JunkIsSkipped(lines: seq<Line>)
    ensures Readable(lines + [Junk]) == Readable(lines)
  {
    InitOfSnoc(lines, Junk);
  }

  /** An append is read back if and only if the file ended in a finished line
      and the record is one line itself. */
  lemma AppendReadBackExactly(w: Wire, m: Message)
    ensures Raw(Appended(w, m)) == Raw(w) + [m] <==> TailClosed(w) && OneRecord(m)
  {
    RawAppended(w, m);
    if TailClosed(w) && !OneRecord(m) {
      assert |Raw(w) + [m]| == |Raw(w)| + 1;
    }
  }

  /** A kill leaves a finished line, as the reader takes lines, if and only if
      no byte of the record was written behind one, or the kill fell right behind
      a separator inside the record. */
  lemma KillLeavesTailClosedExactly(w: Wire, cut: Message, kill: Kill)
    ensures TailClosed(Killed(w, cut, kill)) <==>
            (TailClosed(w) && kill in {BeforeOpen, Opened}) || (kill == BehindSeparator && !OneRecord(cut))
  {
  }

  /** After a kill in an append, whichever form it takes, the next process's
      first record is read back if and only if it is one line itself and the kill
      left a finished line: no byte of the cut record was written behind one, or
      the kill fell right behind a separator inside it. */
  lemma NextAppendReadBackExactly(w: Wire, cut: Message, kill: Kill, next: Message)
    ensures var after := Killed(w, cut, kill);
      Raw(Appended(after, next)) == Raw(after) + [next] <==>
      OneRecord(next)
      && ((TailClosed(w) && kill in {BeforeOpen, Opened}) || (kill == BehindSeparator && !OneRecord(cut)))
  {
    KillLeavesTailClosedExactly(w, cut, kill);
    AppendReadBackExactly(Killed(w, cut, kill), next);
  }

  /** What stands on file after an append was on file before or was appended,
      even when a torn line swallows it. */
  lemma {:induction false} AppendedMembers(w: Wire, ms: seq<Message>)
    ensures forall m | m in Raw(AppendedAll(w, ms)) :: m in Raw(w) || m in ms
    decreases |ms|
  {
    if ms != [] {
      RawAppended(w, ms[0]);
      AppendedMembers(Appended(w, ms[0]), ms[1..]);
      forall m | m in Raw(AppendedAll(w, ms)) ensures m in Raw(w) || m in ms {
        if m in ms[1..] { assert m in ms; }
      }
    }
  }

  lemma KilledMembers(w: Wire, m: Message, kill: Kill)
    ensures forall x | x in Raw(Killed(w, m, kill)) :: x in Raw(w) || x == m
  {
    RawKilled(w, m, kill);
  }

  /** These messages were appended in order by a process with room for so many:
      all of them, or a kill fell into the first that had none. */
  ghost predicate Wrote(was: Wire, room: nat, ms: seq<Message>, kill: Kill, now: Wire, left: nat, alive: bool) {
    if |ms| <= room then alive && left == room - |ms| && now == AppendedAll(was, ms)
    else !alive && left == 0 && now == Killed(AppendedAll(was, ms[..room]), ms[room], kill)
  }

  lemma {:induction false} AppendedAllAppend(w: Wire, a: seq<Message>, b: seq<Message>)
    ensures AppendedAll(AppendedAll(w, a), b) == AppendedAll(w, a + b)
    decreases |a|
  {
    if a == [] {
      assert a + b == b;
    } else {
      TailOfAppend(a, b);
      AppendedAllAppend(Appended(w, a[0]), a[1..], b);
    }
  }

  lemma WroteNothing(was: Wire, room: nat, kill: Kill)
    ensures Wrote(was, room, [], kill, was, room, true)
  {
  }

  lemma WroteOne(was: Wire, room: nat, m: Message, kill: Kill)
    ensures room > 0 ==> Wrote(was, room, [m], kill, Appended(was, m), room - 1, true)
    ensures room == 0 ==> Wrote(was, room, [m], kill, Killed(was, m, kill), 0, false)
  {
    assert [m][1..] == [] && [m][..0] == [];
  }

  lemma WroteMore(was: Wire, room: nat, a: seq<Message>, mid: Wire, between: nat, b: seq<Message>, kill: Kill,
                  now: Wire, left: nat, alive: bool)
    requires Wrote(was, room, a, kill, mid, between, true)
    requires Wrote(mid, between, b, kill, now, left, alive)
    ensures Wrote(was, room, a + b, kill, now, left, alive)
  {
    if |b| <= between {
      AppendedAllAppend(was, a, b);
    } else {
      AppendedAllAppend(was, a, b[..between]);
      assert (a + b)[..room] == a + b[..between];
    }
  }

  lemma WroteDead(was: Wire, room: nat, a: seq<Message>, more: seq<Message>, kill: Kill, now: Wire, left: nat)
    requires Wrote(was, room, a, kill, now, left, false)
    ensures Wrote(was, room, a + more, kill, now, left, false)
  {
    assert (a + more)[..room] == a[..room];
  }

  /** A kill in mid-append costs the next process its first record too: the two
      share a line that no longer parses. */
  lemma TornTailSwallowsNextRecord(w: Wire, cut: Message, next: Message)
    requires TailClosed(w) && OneRecord(cut) && OneRecord(next)
    ensures var torn := Killed(w, cut, BeforeNewline);
      && Raw(torn) == Raw(w) + [cut]
      && Raw(Appended(torn, next)) == Raw(w)
  {
    RawKilled(w, cut, BeforeNewline);
    RawAppended(Killed(w, cut, BeforeNewline), next);
    assert Readable([]) == [];
    if w == Absent {
      assert [Junk][..0] == [];
    }
  }

  predicate AllOneRecord(ms: seq<Message>) {
    forall i | 0 <= i < |ms| :: OneRecord(ms[i])
  }

  function Survivors(ms: seq<Message>): seq<Message> {
    if ms == [] then [] else (if OneRecord(ms[0]) then [ms[0]] else []) + Survivors(ms[1..])
  }

  lemma {:induction false} RawAppendedAll(w: Wire, ms: seq<Message>)
    requires TailClosed(w)
    ensures TailClosed(AppendedAll(w, ms))
    ensures Raw(AppendedAll(w, ms)) == Raw(w) + Survivors(ms)
    ensures AllOneRecord(ms) ==> Survivors(ms) == ms
    decreases |ms|
  {
    hide OneRecord, Raw, Appended, Readable;
    if ms != [] {
      RawAppended(w, ms[0]);
      RawAppendedAll(Appended(w, ms[0]), ms[1..]);
      Concat3(Raw(w), if OneRecord(ms[0]) then [ms[0]] else [], Survivors(ms[1..]));
      if AllOneRecord(ms) {
        assert AllOneRecord(ms[1..]);
        assert [ms[0]] + ms[1..] == ms;
      }
    }
  }

  /** Exactly when a finished turn can be replayed: the file must keep the
      message that made the calls, or lose every result with it. A raw U+0085,
      U+2028 or U+2029 in an assistant message therefore leaves orphans. */
  lemma TurnSurvivesReplay(w: Wire, head: Message, results: seq<Message>)
    requires TailClosed(w)
    requires Paired(Raw(w)) && DistinctCalls(Raw(w))
    requires Calls(head) && Distinct(CallIds(head.calls)) && Answer(head.calls, results)
    ensures Paired(Replay(AppendedAll(w, [head] + results)))
       <==> OneRecord(head) || Survivors(results) == []
  {
    var raw := Raw(w);
    var kept := Survivors(results);
    assert ([head] + results)[1..] == results;
    RawAppendedAll(w, [head] + results);
    RepairPairs(Raw(AppendedAll(w, [head] + results)));
    PairedIsAnswerable(raw);
    SurvivorsAreResults(results);
    if OneRecord(head) {
      AnswerIsPartial(head.calls, results);
      SurvivorsAnswer(head.calls, results);
      TakeTurn(head, kept, []);
      assert [head] + kept + [] == [head] + kept;
      PairedSplit(raw, [head] + kept);
    } else if kept == [] {
      assert raw + ([] + kept) == raw;
    } else {
      assert [] + kept == kept;
      assert kept[0] in kept;
      if Answerable(raw + kept) {
        NoRoomForResult(raw, kept);
        assert false;
      }
    }
  }

  lemma {:induction false} SurvivorsAreResults(results: seq<Message>)
    requires AllResults(results)
    ensures AllResults(Survivors(results))
    ensures forall m | m in Survivors(results) :: m in results
  {
    if results != [] {
      assert results[0] in results;
      forall m | m in results[1..] ensures m in results { }
      SurvivorsAreResults(results[1..]);
    }
  }

  lemma {:induction false} SurvivorsAnswer(calls: seq<WireCall>, results: seq<Message>)
    requires PartlyAnswer(calls, results)
    ensures AllResults(Survivors(results)) && PartlyAnswer(calls, Survivors(results))
  {
    SurvivorsAreResults(results);
    if results != [] {
      var more := results[1..];
      forall m | m in more ensures m in results { }
      assert AnsweredIds(more) == AnsweredIds(results)[1..];
      forall x | x in AnsweredIds(more) ensures x in AnsweredIds(results) { }
      SurvivorsAnswer(calls, more);
      var kept := Survivors(more);
      if OneRecord(results[0]) {
        var all := [results[0]] + kept;
        assert AnsweredIds(all) == [AnsweredIds(results)[0]] + AnsweredIds(kept);
        forall i | 0 <= i < |kept| ensures AnsweredIds(kept)[i] in AnsweredIds(more) {
          SurvivorsAreResults(more);
          assert kept[i] in kept;
          var j :| 0 <= j < |more| && more[j] == kept[i];
          assert AnsweredIds(more)[j] == AnsweredIds(kept)[i];
        }
      } else {
        assert [] + kept == kept;
      }
    }
  }
}
