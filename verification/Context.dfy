/** The live message list: whole-turn compaction and the judgment note
    (scientist/agent.py). Both edit the list in place. */
module Context {
  import opened Basics
  import opened Messages

  const MARKER := "[Current " + "Research View \U{2014} " + "a revisable note " + "from your earlier "
                  + "scientific self]"

  predicate Marked(m: Message) {
    Contains(m.text, MARKER)
  }

  /** The note for a judgment whose rendered page is `page`. */
  function Note(page: string): (m: Message)
    ensures m.User? && Marked(m)
  {
    var text := MARKER + "\n" + page;
    assert MARKER <= text[0..];
    User(text)
  }

  /** What a note reads: the marker on a line of its own, then the page. */
  lemma NoteReads(page: string)
    ensures Note(page) == User("[Current " + "Research View \U{2014} " + "a revisable note " + "from your earlier "
                               + "scientific self]" + "\n" + page)
  {
  }

  /** Index of the first assistant message, the length if there is none. */
  function FirstAssistant(ms: seq<Message>): (i: nat)
    ensures i <= |ms|
    ensures forall j | 0 <= j < i :: !ms[j].Assistant?
    ensures i < |ms| ==> ms[i].Assistant?
  {
    if ms == [] || ms[0].Assistant? then 0 else 1 + FirstAssistant(ms[1..])
  }

  lemma FirstAssistantIs(ms: seq<Message>, i: nat)
    requires i <= |ms| && (i < |ms| ==> ms[i].Assistant?)
    requires forall j | 0 <= j < i :: !ms[j].Assistant?
    ensures FirstAssistant(ms) == i
  {
  }

  // ---- compaction -----------------------------------------------------------

  function Chars(ms: seq<Message>): nat {
    if ms == [] then 0 else |ms[0].text| + Chars(ms[1..])
  }

  datatype Budget = Budget(messages: int, chars: int)

  predicate Over(window: seq<Message>, budget: Budget) {
    |window| > budget.messages || Chars(window) > budget.chars
  }

  /** Where the second turn of a tail starts, its length if there is none. */
  function NextTurn(tail: seq<Message>): (i: nat)
    requires tail != []
    ensures 1 <= i <= |tail|
    ensures forall j | 1 <= j < i :: !tail[j].Assistant?
    ensures i < |tail| ==> tail[i].Assistant?
  {
    1 + FirstAssistant(tail[1..])
  }

  /** Shed turns from the front for as long as what would remain is over. */
  function Shed(tail: seq<Message>, budget: Budget): (kept: seq<Message>)
    requires tail != []
    ensures kept != []
    decreases |tail|
  {
    var next := NextTurn(tail);
    if next < |tail| && Over(tail[next..], budget) then Shed(tail[next..], budget) else tail
  }

  function Preamble(ms: seq<Message>): seq<Message> {
    ms[..FirstAssistant(ms)]
  }

  function Turns(ms: seq<Message>): seq<Message> {
    ms[FirstAssistant(ms)..]
  }

  function Compacted(ms: seq<Message>, budget: Budget): seq<Message> {
    if Turns(ms) == [] then ms else Preamble(ms) + Shed(Turns(ms), budget)
  }

  /** The sum of the text lengths of all messages. */
  lemma {:induction false} CharsIsTheSum(ms: seq<Message>, m: Message)
    ensures Chars([]) == 0 && Chars(ms + [m]) == Chars(ms) + |m.text|
    decreases |ms|
  {
    if ms == [] {
      assert [] + [m] == [m] && [m][1..] == [];
    } else {
      TailOfAppend(ms, [m]);
      CharsIsTheSum(ms[1..], m);
    }
  }

  lemma CharsSuffix(ms: seq<Message>, i: nat)
    requires i <= |ms|
    ensures Chars(ms[i..]) <= Chars(ms)
  {
    if i > 0 { assert ms[i..] == ms[1..][i - 1..]; CharsSuffix(ms[1..], i - 1); }
  }

  /** What is kept is a suffix that starts at an assistant message. */
  lemma {:induction false} ShedKeepsSuffix(tail: seq<Message>, budget: Budget) returns (i: nat)
    requires tail != [] && tail[0].Assistant?
    ensures i < |tail| && tail[i].Assistant? && Shed(tail, budget) == tail[i..]
    decreases |tail|
  {
    var next := NextTurn(tail);
    if next < |tail| && Over(tail[next..], budget) {
      var j := ShedKeepsSuffix(tail[next..], budget);
      i := next + j;
      assert tail[next..][j..] == tail[i..];
    } else {
      i := 0;
    }
  }

  lemma {:induction false} ShedStopsAtOver(tail: seq<Message>, budget: Budget)
    requires tail != []
    ensures var kept := Shed(tail, budget); var next := NextTurn(kept);
      && (next < |kept| ==> !Over(kept[next..], budget))
      && (kept != tail ==> Over(kept, budget))
      && |kept| <= |tail|
    decreases |tail|
  {
    var next := NextTurn(tail);
    if next < |tail| && Over(tail[next..], budget) {
      ShedStopsAtOver(tail[next..], budget);
    }
  }

  /** How far shedding goes: it stops at the final turn or one turn short of
      fitting, so whatever was shed, what remains is still over budget. */
  lemma ShedStops(tail: seq<Message>, budget: Budget)
    requires tail != []
    ensures var kept := Shed(tail, budget); var next := NextTurn(kept);
      && (next < |kept| ==> |kept| - next <= budget.messages && Chars(kept[next..]) <= budget.chars)
      && (kept != tail ==> |kept| > budget.messages || Chars(kept) > budget.chars)
      && |kept| <= |tail|
  {
    hide Shed, NextTurn, Chars;
    ShedStopsAtOver(tail, budget);
  }

  /** Compaction never brings a window back within budget: what it keeps fits
      exactly when there was nothing to shed. */
  lemma CompactionFitsOnlyIfItFitted(ms: seq<Message>, budget: Budget)
    requires Turns(ms) != []
    ensures var kept := Shed(Turns(ms), budget);
      && (!Over(kept, budget) <==> !Over(Turns(ms), budget))
      && (!Over(Turns(ms), budget) ==> kept == Turns(ms))
  {
    var tail := Turns(ms);
    ShedStopsAtOver(tail, budget);
    CharsSuffix(tail, NextTurn(tail));
  }

  function TwoCallTurn(): seq<Message> {
    [Assistant("", [WireCall("a", "bash", "{}"), WireCall("b", "bash", "{}")]), Result("a", ""), Result("b", "")]
  }

  lemma TwoCallTurnIsSilent()
    ensures Chars(TwoCallTurn()) == 0
  {
    var turn := TwoCallTurn();
    assert turn[1..] == [Result("a", ""), Result("b", "")];
    assert turn[1..][1..] == [Result("b", "")];
    assert turn[1..][1..][1..] == [];
  }

  /** Two turns that do not fit while the second alone does are both kept. */
  lemma TwoTurnsAreKept(turn: seq<Message>, budget: Budget)
    requires turn != [] && turn[0].Assistant? && forall i | 1 <= i < |turn| :: !turn[i].Assistant?
    requires !Over(turn, budget)
    ensures var ms := turn + turn;
      Turns(ms) == ms && NextTurn(ms) == |turn| < |ms| && Compacted(ms, budget) == ms
  {
    hide Over;
    var ms := turn + turn;
    FirstAssistantIs(ms, 0);
    FirstAssistantIs(ms[1..], |turn| - 1);
    assert Turns(ms) == ms && Preamble(ms) == [];
    assert ms[|turn|..] == turn;
    assert Shed(ms, budget) == ms;
    assert [] + ms == ms;
  }

  /** The loop looks one turn ahead, so the window it settles on may be over
      budget with a turn still to shed: two turns of three messages, four
      allowed, six kept. */
  lemma CompactionMayExceedBudget()
    ensures exists ms, budget ::
      && Turns(ms) != [] && Compacted(ms, budget) == ms
      && NextTurn(Turns(ms)) < |Turns(ms)| && Over(Turns(ms), budget)
  {
    var budget := Budget(4, 100);
    TwoCallTurnIsSilent();
    TwoTurnsAreKept(TwoCallTurn(), budget);
    var ms := TwoCallTurn() + TwoCallTurn();
    assert Over(Turns(ms), budget);
  }

  lemma PreambleOf(a: seq<Message>, b: seq<Message>)
    requires FirstAssistant(a) == |a| && b != [] && b[0].Assistant?
    ensures Preamble(a + b) == a && Turns(a + b) == b
  {
    FirstAssistantIs(a + b, |a|);
  }

  lemma CompactedParts(ms: seq<Message>, budget: Budget) returns (k: nat)
    requires Turns(ms) != []
    ensures FirstAssistant(ms) <= k < |ms| && ms[k].Assistant?
    ensures Shed(Turns(ms), budget) == ms[k..] && Compacted(ms, budget) == Preamble(ms) + ms[k..]
    ensures Preamble(Compacted(ms, budget)) == Preamble(ms) && Turns(Compacted(ms, budget)) == ms[k..]
  {
    var fa := FirstAssistant(ms);
    var i := ShedKeepsSuffix(Turns(ms), budget);
    k := fa + i;
    assert ms[fa..][i..] == ms[k..];
    FirstAssistantIs(Preamble(ms), fa);
    PreambleOf(Preamble(ms), ms[k..]);
  }

  /** The two tests by which the code leaves the list alone are sound. */
  lemma CompactedUnchanged(ms: seq<Message>, budget: Budget)
    requires Turns(ms) != []
    requires |Turns(ms)| == 1 || |Shed(Turns(ms), budget)| >= |Turns(ms)|
    ensures Compacted(ms, budget) == ms
  {
    var k := CompactedParts(ms, budget);
  }

  lemma CompactionIdempotent(ms: seq<Message>, budget: Budget)
    ensures Compacted(Compacted(ms, budget), budget) == Compacted(ms, budget)
  {
    if Turns(ms) != [] {
      var k := CompactedParts(ms, budget);
      ShedStopsAtOver(Turns(ms), budget);
      hide Over;
      assert Shed(ms[k..], budget) == ms[k..];
    }
  }

  lemma CompactionKeepsPairing(ms: seq<Message>, budget: Budget)
    requires Paired(ms)
    ensures Paired(Compacted(ms, budget))
  {
    if Turns(ms) != [] {
      var k := CompactedParts(ms, budget);
      PairedCut(ms, FirstAssistant(ms));
      PairedCut(ms, k);
      PairedSplit(Preamble(ms), ms[k..]);
    }
  }

  lemma PairedCut(ms: seq<Message>, k: nat)
    requires k < |ms| && ms[k].Assistant? && Paired(ms)
    ensures Paired(ms[..k]) && Paired(ms[k..])
  {
    assert ms == ms[..k] + ms[k..];
    PairedSplit(ms[..k], ms[k..]);
  }

  // ---- the judgment note ----------------------------------------------------

  function Unmarked(ms: seq<Message>): seq<Message> {
    if ms == [] then [] else (if Marked(ms[0]) then [] else [ms[0]]) + Unmarked(ms[1..])
  }

  function WithNote(ms: seq<Message>, view: Option<string>): seq<Message> {
    match view
    case None => ms
    case Some(page) => Preamble(ms) + [Note(page)] + Turns(ms)
  }

  function Upserted(ms: seq<Message>, view: Option<string>): seq<Message> {
    WithNote(Unmarked(ms), view)
  }

  lemma UnmarkedAppend(a: seq<Message>, b: seq<Message>)
    ensures Unmarked(a + b) == Unmarked(a) + Unmarked(b)
  {
    if a == [] {
      assert a + b == b;
    } else {
      assert (a + b)[1..] == a[1..] + b;
      UnmarkedAppend(a[1..], b);
    }
  }

  lemma UnmarkedMember(ms: seq<Message>)
    ensures forall m :: m in Unmarked(ms) <==> m in ms && !Marked(m)
  {
    if ms != [] {
      UnmarkedMember(ms[1..]);
      assert ms == [ms[0]] + ms[1..];
    }
  }

  lemma UnmarkedFixed(ms: seq<Message>)
    requires forall m | m in ms :: !Marked(m)
    ensures Unmarked(ms) == ms
  {
    if ms != [] {
      forall m | m in ms[1..] ensures !Marked(m) { assert m in ms; }
      UnmarkedFixed(ms[1..]);
      assert ms[0] in ms;
    }
  }

  /** The one note on file stands alone, ahead of every turn. */
  ghost predicate NoteInPlace(ms: seq<Message>, view: Option<string>) {
    match view
    case None => forall m | m in ms :: !Marked(m)
    case Some(page) => exists i | 0 <= i < |ms| ::
      ms[i] == User(MARKER + "\n" + page) && i < FirstAssistant(ms)
      && forall j | 0 <= j < |ms| && j != i :: !Marked(ms[j])
  }

  lemma UpsertPlacesNote(ms: seq<Message>, view: Option<string>)
    ensures NoteInPlace(Upserted(ms, view), view)
  {
    var plain := Unmarked(ms);
    UnmarkedMember(ms);
    if view.Some? {
      var at := FirstAssistant(plain);
      var out := Upserted(ms, view);
      forall j | 0 <= j < |out| && j != at ensures !Marked(out[j]) {
        assert out[j] == plain[if j < at then j else j - 1];
        assert out[j] in plain;
      }
      assert out[at] == Note(view.value);
      FirstAssistantIs(out, at + 1);
    }
  }

  lemma UnmarkedDrops(a: seq<Message>, note: Message, b: seq<Message>)
    requires Marked(note)
    ensures Unmarked(a + [note] + b) == Unmarked(a + b)
  {
    UnmarkedAppend(a + [note], b);
    UnmarkedAppend(a, [note]);
    UnmarkedAppend(a, b);
    assert [note][1..] == [];
  }

  lemma WholeList(ms: seq<Message>)
    ensures Preamble(ms) + Turns(ms) == ms
  {
  }

  lemma UpsertKeepsUnmarked(ms: seq<Message>, view: Option<string>)
    ensures Unmarked(Upserted(ms, view)) == Unmarked(ms)
  {
    hide Marked, Note;
    var plain := Unmarked(ms);
    UnmarkedMember(ms);
    UnmarkedFixed(plain);
    if view.Some? {
      UnmarkedDrops(Preamble(plain), Note(view.value), Turns(plain));
      WholeList(plain);
    }
  }

  /** The note stands at a place before the first assistant, and nowhere else. */
  lemma NoteAt(ms: seq<Message>, view: string) returns (i: nat)
    requires NoteInPlace(ms, Some(view))
    ensures i < |ms| && ms[i] == Note(view) && i < FirstAssistant(ms)
    ensures forall j | 0 <= j < |ms| && j != i :: !Marked(ms[j])
  {
    i :| 0 <= i < |ms| && ms[i] == User(MARKER + "\n" + view) && i < FirstAssistant(ms)
      && forall j | 0 <= j < |ms| && j != i :: !Marked(ms[j]);
  }

  lemma ShorterKeepsNote(ms: seq<Message>, view: Option<string>, fa: nat, k: nat, out: seq<Message>)
    requires NoteInPlace(ms, view) && fa == FirstAssistant(ms) == FirstAssistant(out) && fa <= k <= |ms|
    requires out == ms[..fa] + ms[k..]
    ensures NoteInPlace(out, view)
  {
    forall j | 0 <= j < |out| ensures out[j] == ms[if j < fa then j else j - fa + k] { }
    if view.Some? {
      var i := NoteAt(ms, view.value);
      assert out[i] == Note(view.value);
    }
  }

  /** Compaction leaves the note where it is. */
  lemma CompactionKeepsNote(ms: seq<Message>, view: Option<string>, budget: Budget)
    requires NoteInPlace(ms, view)
    ensures NoteInPlace(Compacted(ms, budget), view)
  {
    if Turns(ms) != [] {
      var k := CompactedParts(ms, budget);
      hide NoteInPlace, Compacted;
      ShorterKeepsNote(ms, view, FirstAssistant(ms), k, Compacted(ms, budget));
    }
  }

  lemma InsertPlainKeepsPairing(a: seq<Message>, note: Message, b: seq<Message>)
    requires note.User? && StartsTurn(b)
    ensures Paired(a + [note] + b) <==> Paired(a + b)
  {
    PairedSplit(a, b);
    PairedSplit(a + [note], b);
    PairedSplit(a, [note]);
    assert [note][1..] == [];
  }

  /** The marker drops every message whose text contains it; that breaks no
      pair exactly when it drops each turn whole or not at all. */
  ghost predicate MarksWholeTurns(ms: seq<Message>)
    decreases |ms|
  {
    ms == [] ||
    var n := TurnLength(ms);
    && (forall i | 1 <= i < n :: Marked(ms[i]) == Marked(ms[0]))
    && MarksWholeTurns(ms[n..])
  }

  lemma UpsertKeepsPairingIffUnmarkedDoes(ms: seq<Message>, view: Option<string>)
    ensures Paired(Upserted(ms, view)) <==> Paired(Unmarked(ms))
  {
    if view.Some? {
      var plain := Unmarked(ms);
      InsertPlainKeepsPairing(Preamble(plain), Note(view.value), Turns(plain));
      assert plain == Preamble(plain) + Turns(plain);
    }
  }

  lemma UnmarkedResults(block: seq<Message>)
    requires AllResults(block)
    ensures AllResults(Unmarked(block)) && |Unmarked(block)| <= |block|
    ensures |Unmarked(block)| == |block| <==> forall m | m in block :: !Marked(m)
    ensures Unmarked(block) == [] <==> forall m | m in block :: Marked(m)
  {
    UnmarkedMember(block);
    if block != [] {
      assert block[0] in block;
      forall m | m in block[1..] ensures m.Result? { assert m in block; }
      UnmarkedResults(block[1..]);
      assert block == [block[0]] + block[1..];
    }
  }

  lemma MarksOfFirstTurn(head: Message, block: seq<Message>, rest: seq<Message>)
    requires AllResults(block) && StartsTurn(rest)
    requires MarksWholeTurns([head] + block + rest)
    ensures MarksWholeTurns(rest)
    ensures Marked(head) ==> forall i | 0 <= i < |block| :: Marked(block[i])
  {
    LeadingResultsSplit(block, rest);
    HeadAndBlock(head, block, rest);
    var ms := [head] + block + rest;
    forall i | 0 <= i < |block| ensures Marked(head) ==> Marked(block[i]) {
      assert ms[1 + i] == block[i];
    }
  }

  lemma UnmarkedOfFirstTurn(head: Message, block: seq<Message>, rest: seq<Message>)
    ensures Unmarked([head] + block + rest)
            == (if Marked(head) then [] else [head]) + Unmarked(block) + Unmarked(rest)
  {
    UnmarkedAppend([head] + block, rest);
    UnmarkedAppend([head], block);
    assert [head][1..] == [];
  }

  lemma UnmarkedStartsTurn(ms: seq<Message>)
    requires MarksWholeTurns(ms) && StartsTurn(ms)
    ensures StartsTurn(Unmarked(ms))
    decreases |ms|
  {
    if ms != [] {
      hide MarksWholeTurns, Unmarked;
      var head, block, rest := CutTurn(ms);
      MarksOfFirstTurn(head, block, rest);
      UnmarkedOfFirstTurn(head, block, rest);
      UnmarkedStartsTurn(rest);
      if Marked(head) { UnmarkedResults(block); }
    } else {
      assert Unmarked(ms) == [];
    }
  }

  lemma WholeTurn(head: Message, block: seq<Message>, rest: seq<Message>)
    requires AllResults(block) && StartsTurn(rest)
    ensures MarksWholeTurns([head] + block + rest)
       <==> (forall m | m in block :: Marked(m) == Marked(head)) && MarksWholeTurns(rest)
  {
    var ms := [head] + block + rest;
    LeadingResultsSplit(block, rest);
    assert ms[1..] == block + rest && ms[1 + |block|..] == rest;
    assert TurnLength(ms) == 1 + |block|;
    assert forall i | 1 <= i < 1 + |block| :: ms[i] == block[i - 1];
    if forall i | 1 <= i < 1 + |block| :: Marked(ms[i]) == Marked(ms[0]) {
      forall m | m in block ensures Marked(m) == Marked(head) {
        var i :| 0 <= i < |block| && block[i] == m;
        assert ms[1 + i] == m;
      }
    }
  }

  lemma {:induction false} MarkerKeepsPairing(ms: seq<Message>)
    requires Paired(ms) && MarksWholeTurns(ms)
    ensures Paired(Unmarked(ms))
    decreases |ms|
  {
    if ms != [] {
      PairedIsAnswerable(ms);
      var head, block, rest := CutTurn(ms);
      if !Calls(head) { PlainHeadHasNoResults(head, block, rest); }
      TakeTurn(head, block, rest);
      WholeTurn(head, block, rest);
      MarkerKeepsPairing(rest);
      UnmarkedAppend([head] + block, rest);
      UnmarkedAppend([head], block);
      assert [head][1..] == [];
      UnmarkedResults(block);
      if Marked(head) {
        assert Unmarked(ms) == Unmarked(rest);
      } else {
        UnmarkedFixed(block);
        UnmarkedStartsTurn(rest);
        TakeTurn(head, block, Unmarked(rest));
      }
    }
  }

  ghost function AllCallIds(ms: seq<Message>): seq<string> {
    if ms == [] then []
    else (if Calls(ms[0]) then CallIds(ms[0].calls) else []) + AllCallIds(ms[1..])
  }

  lemma AllCallIdsAppend(a: seq<Message>, b: seq<Message>)
    ensures AllCallIds(a + b) == AllCallIds(a) + AllCallIds(b)
  {
    if a == [] {
      assert a + b == b;
    } else {
      assert (a + b)[1..] == a[1..] + b;
      AllCallIdsAppend(a[1..], b);
    }
  }

  lemma ResultsHaveNoCalls(block: seq<Message>)
    requires AllResults(block)
    ensures AllCallIds(block) == []
  {
    if block != [] {
      assert block[0] in block;
      forall m | m in block[1..] ensures m.Result? { assert m in block; }
      ResultsHaveNoCalls(block[1..]);
    }
  }

  lemma TurnCallIds(head: Message, block: seq<Message>, rest: seq<Message>)
    requires AllResults(block)
    ensures AllCallIds([head] + block + rest)
         == (if Calls(head) then CallIds(head.calls) else []) + AllCallIds(rest)
  {
    AllCallIdsAppend([head] + block, rest);
    AllCallIdsAppend([head], block);
    ResultsHaveNoCalls(block);
    assert [head][1..] == [];
  }

  lemma DistinctParts(a: seq<string>, b: seq<string>)
    requires Distinct(a + b)
    ensures Distinct(a) && Distinct(b) && forall x | x in a :: x !in b
  {
    forall i, j | 0 <= i < j < |a| ensures a[i] != a[j] { assert (a + b)[i] != (a + b)[j]; }
    forall i, j | 0 <= i < j < |b| ensures b[i] != b[j] { assert (a + b)[|a| + i] != (a + b)[|a| + j]; }
    forall i, j | 0 <= i < |a| && 0 <= j < |b| ensures a[i] != b[j] {
      assert (a + b)[i] != (a + b)[|a| + j];
    }
  }

  lemma {:induction false} ResultsAnswerSomeCall(ms: seq<Message>, r: Message)
    requires Paired(ms) && r in ms && r.Result?
    ensures r.callId in AllCallIds(ms)
    decreases |ms|
  {
    PairedIsAnswerable(ms);
    var head, block, rest := CutTurn(ms);
    if !Calls(head) { PlainHeadHasNoResults(head, block, rest); }
    TakeTurn(head, block, rest);
    TurnCallIds(head, block, rest);
    if r in rest {
      ResultsAnswerSomeCall(rest, r);
    } else {
      assert r in block;
      var i :| 0 <= i < |block| && block[i] == r;
      assert AnsweredIds(block)[i] == r.callId;
      assert r.callId in Elements(CallIds(head.calls));
    }
  }

  /** When every call of the conversation has an id of its own, the condition
      is also necessary. */
  lemma {:induction false} MarkerBreaksPairingOtherwise(ms: seq<Message>)
    requires Paired(ms) && Distinct(AllCallIds(ms))
    requires Paired(Unmarked(ms))
    ensures MarksWholeTurns(ms)
    decreases |ms|
  {
    if ms != [] {
      PairedIsAnswerable(ms);
      var head, block, rest := CutTurn(ms);
      if !Calls(head) { PlainHeadHasNoResults(head, block, rest); }
      TakeTurn(head, block, rest);
      TurnCallIds(head, block, rest);
      DistinctParts(if Calls(head) then CallIds(head.calls) else [], AllCallIds(rest));
      UnmarkedAppend([head] + block, rest);
      UnmarkedAppend([head], block);
      assert [head][1..] == [];
      UnmarkedResults(block);
      UnmarkedMember(rest);
      var kept, more := Unmarked(block), Unmarked(rest);
      if Marked(head) {
        assert Unmarked(ms) == kept + more;
        if kept != [] {
          ResultsDoNotLead(kept, more);
          assert false;
        }
        assert kept + more == more;
      } else {
        assert Unmarked(ms) == [head] + kept + more;
        UnmarkedTurnKeepsResults(head, block, rest);
      }
      MarkerBreaksPairingOtherwise(rest);
      WholeTurn(head, block, rest);
    }
  }

  /** A result that follows a turn's own results answers that turn's calls. */
  lemma ForeignResult(head: Message, kept: seq<Message>, foreign: seq<Message>, tail: seq<Message>)
    requires !head.Result? && AllResults(kept) && AllResults(foreign) && foreign != [] && StartsTurn(tail)
    requires Paired([head] + (kept + foreign) + tail)
    ensures Calls(head) && foreign[0] in foreign && foreign[0].callId in CallIds(head.calls)
  {
    var wide := kept + foreign;
    forall m | m in wide ensures m.Result? { if m !in kept { assert m in foreign; } }
    PairedIsAnswerable([head] + wide + tail);
    if !Calls(head) { PlainHeadHasNoResults(head, wide, tail); }
    TakeTurn(head, wide, tail);
    assert foreign[0] == wide[|kept|];
    assert AnsweredIds(wide)[|kept|] == foreign[0].callId;
    assert foreign[0].callId in Elements(CallIds(head.calls));
  }

  lemma ResultsDoNotLead(a: seq<Message>, b: seq<Message>)
    requires AllResults(a) && a != []
    ensures !Paired(a + b)
  {
    assert a[0] in a && (a + b)[0] == a[0];
  }

  /** No result of a later turn can end up behind an earlier one. */
  lemma RestStartsTurn(head: Message, kept: seq<Message>, rest: seq<Message>)
    requires !head.Result? && AllResults(kept)
    requires Paired(rest) && (Calls(head) ==> forall x | x in CallIds(head.calls) :: x !in AllCallIds(rest))
    requires Paired([head] + kept + Unmarked(rest))
    ensures StartsTurn(Unmarked(rest))
  {
    var more := Unmarked(rest);
    if more != [] && more[0].Result? {
      UnmarkedMember(rest);
      assert more[0] in more;
      var n := LeadingResults(more);
      assert more == more[..n] + more[n..];
      Concat3([head] + kept, more[..n], more[n..]);
      Concat3([head], kept, more[..n]);
      ForeignResult(head, kept, more[..n], more[n..]);
      ResultsAnswerSomeCall(rest, more[0]);
      assert false;
    }
  }

  lemma UnmarkedTurnKeepsResults(head: Message, block: seq<Message>, rest: seq<Message>)
    requires !head.Result? && AllResults(block) && StartsTurn(rest)
    requires Calls(head) ==> Answer(head.calls, block) && Distinct(CallIds(head.calls))
    requires !Calls(head) ==> block == []
    requires Paired(rest)
    requires Calls(head) ==> forall x | x in CallIds(head.calls) :: x !in AllCallIds(rest)
    requires Paired([head] + Unmarked(block) + Unmarked(rest))
    ensures Paired(Unmarked(rest)) && forall m | m in block :: !Marked(m)
  {
    UnmarkedResults(block);
    RestStartsTurn(head, Unmarked(block), rest);
    TakeTurn(head, Unmarked(block), Unmarked(rest));
  }

  /** Both halves: with ids of their own, an upsert keeps the pairing exactly
      when the marker takes whole turns. */
  lemma UpsertKeepsPairingExactly(ms: seq<Message>, view: Option<string>)
    requires Paired(ms) && Distinct(AllCallIds(ms))
    ensures Paired(Upserted(ms, view)) <==> MarksWholeTurns(ms)
  {
    UpsertKeepsPairingIffUnmarkedDoes(ms, view);
    if MarksWholeTurns(ms) {
      MarkerKeepsPairing(ms);
    } else if Paired(Unmarked(ms)) {
      MarkerBreaksPairingOtherwise(ms);
    }
  }
}
