/** How the live message list relates to the wire: pairing is kept on both
    sides, and the live list is a window on the replayed wire. */
module Simulation {
  import opened Basics
  import opened Messages
  import opened Session
  import opened WireLog
  import opened Context

  /** No call and no result carries the note's marker. */
  ghost predicate TurnsUnmarked(ms: seq<Message>) {
    forall m | m in ms && (Calls(m) || m.Result?) :: !Marked(m)
  }

  ghost predicate AllUnmarked(ms: seq<Message>) {
    forall m | m in ms :: !Marked(m)
  }

  ghost predicate AssistantsUnmarked(ms: seq<Message>) {
    forall m | m in ms && m.Assistant? :: !Marked(m)
  }

  ghost predicate CallsOneRecord(ms: seq<Message>) {
    forall m | m in ms && Calls(m) :: OneRecord(m)
  }

  /** A live list at a turn boundary. */
  ghost predicate GoodLive(ms: seq<Message>) {
    Paired(ms) && TurnsUnmarked(ms)
  }

  /** A wire from which a resume can start, at any moment. */
  ghost predicate GoodWire(w: Wire) {
    Answerable(Raw(w)) && TurnsUnmarked(Raw(w))
  }

  // ---- the live list --------------------------------------------------------

  lemma TurnsUnmarkedWhole(ms: seq<Message>)
    requires Paired(ms) && TurnsUnmarked(ms)
    ensures MarksWholeTurns(ms)
    decreases |ms|
  {
    if ms != [] {
      PairedIsAnswerable(ms);
      var head, block, rest := CutTurn(ms);
      if !Calls(head) { PlainHeadHasNoResults(head, block, rest); }
      TakeTurn(head, block, rest);
      assert head in ms;
      forall m | m in block ensures m in ms { }
      forall m | m in rest ensures m in ms { }
      TurnsUnmarkedWhole(rest);
      WholeTurn(head, block, rest);
    }
  }

  lemma UpsertKeepsGoodLive(ms: seq<Message>, view: Option<string>)
    requires GoodLive(ms)
    ensures GoodLive(Upserted(ms, view))
  {
    TurnsUnmarkedWhole(ms);
    MarkerKeepsPairing(ms);
    UpsertKeepsPairingIffUnmarkedDoes(ms, view);
    UpsertMembers(ms, view);
  }

  lemma UpsertMembers(ms: seq<Message>, view: Option<string>)
    ensures forall m :: m in Upserted(ms, view) ==> m in Unmarked(ms) || m.User?
    ensures forall m :: m in Upserted(ms, view) ==> m in ms || m.User?
  {
    UnmarkedMember(ms);
  }

  lemma CompactionKeepsGoodLive(ms: seq<Message>, budget: Budget)
    requires GoodLive(ms)
    ensures GoodLive(Compacted(ms, budget))
  {
    CompactionKeepsPairing(ms, budget);
    CompactedMembers(ms, budget);
  }

  lemma CompactedMembers(ms: seq<Message>, budget: Budget)
    ensures forall m :: m in Compacted(ms, budget) ==> m in ms
  {
    if Turns(ms) != [] {
      var k := CompactedParts(ms, budget);
    }
  }

  lemma AppendKeepsGoodLive(ms: seq<Message>, more: seq<Message>)
    requires GoodLive(ms) && GoodLive(more)
    ensures GoodLive(ms + more)
  {
    PairedIsAnswerable(more);
    PairedSplit(ms, more);
  }

  /** With the messages of a turn still to come at the end, an upsert works on
      what stands before them. */
  lemma UpsertBeforeTurn(before: seq<Message>, turn: seq<Message>, view: Option<string>)
    requires turn != [] && turn[0].Assistant? && AllUnmarked(turn)
    ensures Upserted(before + turn, view) == Upserted(before, view) + turn
  {
    hide Unmarked, Marked, Note;
    UnmarkedAppend(before, turn);
    UnmarkedFixed(turn);
    if view.Some? {
      var plain := Unmarked(before);
      FirstAssistantIs(plain + turn, FirstAssistant(plain));
      InsertBefore(plain, turn, Note(view.value), FirstAssistant(plain));
    }
  }

  // ---- the wire -------------------------------------------------------------

  lemma {:induction false} SurvivorsAnswerable(ms: seq<Message>)
    requires Answerable(ms) && CallsOneRecord(ms)
    ensures Answerable(Survivors(ms))
    decreases |ms|
  {
    if ms != [] {
      var head, block, rest := CutTurn(ms);
      if !Calls(head) { PlainHeadHasNoResults(head, block, rest); }
      TakeTurn(head, block, rest);
      forall m | m in rest ensures m in ms { }
      SurvivorsAnswerable(rest);
      SurvivorsAppend([head] + block, rest);
      SurvivorsAppend([head], block);
      assert [head][1..] == [];
      SurvivorsAreResults(block);
      var kept, more := Survivors(block), Survivors(rest);
      SurvivorsStartTurn(rest);
      if Calls(head) {
        assert head in ms;
        SurvivorsAnswer(head.calls, block);
        TakeTurn(head, kept, more);
      } else {
        assert kept == [];
        TakeTurn(head, [], more);
        assert [head] + kept + more == [head] + [] + more;
        assert [] + kept + more == more;
      }
    }
  }

  lemma SurvivorsStartTurn(ms: seq<Message>)
    requires Answerable(ms) && CallsOneRecord(ms)
    ensures StartsTurn(Survivors(ms))
    decreases |ms|
  {
    if ms != [] && !OneRecord(ms[0]) {
      assert ms[0] in ms;
      forall m | m in ms[1..] ensures m in ms { }
      SurvivorsStartTurn(ms[1..]);
    }
  }

  lemma SurvivorsAppend(a: seq<Message>, b: seq<Message>)
    ensures Survivors(a + b) == Survivors(a) + Survivors(b)
  {
    if a == [] {
      assert a + b == b;
    } else {
      hide OneRecord;
      TailOfAppend(a, b);
      SurvivorsAppend(a[1..], b);
      Concat3(if OneRecord(a[0]) then [a[0]] else [], Survivors(a[1..]), Survivors(b));
    }
  }

  lemma SurvivorsMember(ms: seq<Message>)
    ensures forall m | m in Survivors(ms) :: m in ms
  {
    if ms != [] {
      SurvivorsMember(ms[1..]);
      assert ms == [ms[0]] + ms[1..];
    }
  }

  /** What an episode may put on the wire next: whole turns whose calls are on
      one line, the first of them not lost to a torn tail. */
  ghost predicate MayFollow(w: Wire, ms: seq<Message>) {
    && Answerable(ms) && TurnsUnmarked(ms) && CallsOneRecord(ms)
    && (TailClosed(w) || ms == [] || !Calls(ms[0]))
  }

  lemma MayFollowPrefix(w: Wire, ms: seq<Message>, n: nat)
    requires MayFollow(w, ms) && n <= |ms|
    ensures MayFollow(w, ms[..n])
  {
    AnswerablePrefix(ms, n);
  }

  lemma AppendKeepsGoodWire(w: Wire, ms: seq<Message>)
    requires GoodWire(w) && MayFollow(w, ms)
    ensures GoodWire(AppendedAll(w, ms))
    decreases |ms|
  {
    if TailClosed(w) {
      RawAppendedAll(w, ms);
      SurvivorsAnswerable(ms);
      SurvivorsStartTurn(ms);
      SurvivorsMember(ms);
      PairedSplit(Raw(w), Survivors(ms));
    } else if ms != [] {
      RawAppended(w, ms[0]);
      AnswerablePrefix(Raw(w), |Raw(Appended(w, ms[0]))|);
      AfterPlainHead(ms);
      var w1 := Appended(w, ms[0]);
      forall m | m in Raw(w1) ensures m in Raw(w) { }
      AppendKeepsGoodWire(w1, ms[1..]);
    }
  }

  lemma AfterPlainHead(ms: seq<Message>)
    requires ms != [] && !Calls(ms[0])
    requires Answerable(ms) && TurnsUnmarked(ms) && CallsOneRecord(ms)
    ensures Answerable(ms[1..]) && TurnsUnmarked(ms[1..]) && CallsOneRecord(ms[1..])
  {
    forall m | m in ms[1..] ensures m in ms { }
  }

  /** A kill anywhere in the append of one more message. */
  lemma KillKeepsGoodWire(w: Wire, ms: seq<Message>, m: Message, kill: Kill)
    requires GoodWire(w) && MayFollow(w, ms + [m])
    ensures GoodWire(Killed(AppendedAll(w, ms), m, kill))
  {
    var here := AppendedAll(w, ms);
    assert (ms + [m])[..|ms|] == ms;
    MayFollowPrefix(w, ms + [m], |ms|);
    AppendKeepsGoodWire(w, ms);
    AppendKeepsGoodWire(w, ms + [m]);
    AppendedAllSnoc(w, ms, m);
    RawAppended(here, m);
    RawKilled(here, m, kill);
    if TailClosed(here) {
    } else {
      AnswerablePrefix(Raw(here), |Raw(here)| - if here.tail.Unterminated? then 1 else 0);
    }
  }

  lemma AppendedAllSnoc(w: Wire, ms: seq<Message>, m: Message)
    ensures AppendedAll(w, ms + [m]) == Appended(AppendedAll(w, ms), m)
    decreases |ms|
  {
    if ms == [] {
      assert [m][1..] == [] && ms + [m] == [m];
    } else {
      assert (ms + [m])[1..] == ms[1..] + [m];
      AppendedAllSnoc(Appended(w, ms[0]), ms[1..], m);
    }
  }

  lemma AppendedAllClosed(w: Wire, ms: seq<Message>)
    requires ms != []
    ensures TailClosed(AppendedAll(w, ms)) && AppendedAll(w, ms) != Absent
    decreases |ms|
  {
    RawAppended(w, ms[0]);
    if ms[1..] != [] { AppendedAllClosed(Appended(w, ms[0]), ms[1..]); }
  }

  lemma ReplayIsGood(w: Wire)
    requires GoodWire(w)
    ensures GoodLive(Replay(w))
  {
    RepairPairs(Raw(w));
    RepairedUnmarked({}, Raw(w));
  }

  predicate NoBracket(s: string) {
    forall i | 0 <= i < |s| :: s[i] != '['
  }

  lemma MarkerOpensWithBracket()
    ensures MARKER != [] && MARKER[0] == '['
  {
  }

  lemma NoBracketConcat(a: string, b: string)
    requires NoBracket(a) && NoBracket(b)
    ensures NoBracket(a + b)
  {
  }

  lemma InterruptionHasNoBracket()
    ensures NoBracket(INTERRUPTED)
  {
    NoBracketConcat("{\"ok\": false, ", "\"error\": ");
    NoBracketConcat("{\"ok\": false, " + "\"error\": ", "\"this call was ");
    NoBracketConcat("{\"ok\": false, " + "\"error\": " + "\"this call was ", "interrupted by ");
    var half := "{\"ok\": false, " + "\"error\": " + "\"this call was " + "interrupted by ";
    NoBracketConcat(half, "a run restart ");
    NoBracketConcat(half + "a run restart ", "before any ");
    NoBracketConcat(half + "a run restart " + "before any ", "result was ");
    NoBracketConcat(half + "a run restart " + "before any " + "result was ", "recorded\"}");
  }

  lemma NoOccurrence(s: string, part: string)
    requires part != [] && part[0] == '[' && NoBracket(s)
    ensures !Contains(s, part)
  {
    forall i | 0 <= i <= |s| ensures !(part <= s[i..]) {
      if i < |s| { assert s[i..][0] == s[i]; }
    }
  }

  lemma InterruptionIsUnmarked()
    ensures !Contains(INTERRUPTED, MARKER)
  {
    MarkerOpensWithBracket();
    InterruptionHasNoBracket();
    NoOccurrence(INTERRUPTED, MARKER);
  }

  lemma {:induction false} RepairedUnmarked(pending: set<string>, ms: seq<Message>)
    requires TurnsUnmarked(ms)
    ensures TurnsUnmarked(RepairFrom(pending, ms))
    ensures AssistantsUnmarked(ms) ==> AssistantsUnmarked(RepairFrom(pending, ms))
    decreases |ms|
  {
    InterruptionIsUnmarked();
    InterruptedText(pending);
    if ms != [] {
      InterruptedText(Abandoned(pending, ms[0]));
      forall m | m in ms[1..] ensures m in ms { }
      RepairedUnmarked(StillOpen(pending, ms[0]), ms[1..]);
      assert ms[0] in ms;
    }
  }

  lemma InterruptedText(pending: set<string>)
    ensures forall m | m in Interrupted(pending) :: m.Result? && m.text == INTERRUPTED
  {
  }

  // ---- the window -----------------------------------------------------------

  /** Notes aside, `live` is `replay` up to its first assistant message and then
      a suffix of it that starts at an assistant message. */
  ghost predicate Window(live: seq<Message>, replay: seq<Message>) {
    var l, r := Unmarked(live), Unmarked(replay);
    if Turns(r) == [] then l == r
    else exists k | FirstAssistant(r) <= k < |r| :: r[k].Assistant? && l == Preamble(r) + r[k..]
  }

  lemma WindowIsReflexive(ms: seq<Message>)
    ensures Window(ms, ms)
  {
    var r := Unmarked(ms);
    assert r == Preamble(r) + r[FirstAssistant(r)..];
  }

  lemma WindowAppend(live: seq<Message>, replay: seq<Message>, more: seq<Message>)
    requires Window(live, replay)
    ensures Window(live + more, replay + more)
  {
    UnmarkedAppend(live, more);
    UnmarkedAppend(replay, more);
    WindowExtend(Unmarked(live), Unmarked(replay), Unmarked(more));
  }

  lemma WindowExtend(l: seq<Message>, r: seq<Message>, t: seq<Message>)
    requires if Turns(r) == [] then l == r
             else exists k | FirstAssistant(r) <= k < |r| :: r[k].Assistant? && l == Preamble(r) + r[k..]
    ensures if Turns(r + t) == [] then l + t == r + t
            else exists k | FirstAssistant(r + t) <= k < |r + t| ::
                   (r + t)[k].Assistant? && l + t == Preamble(r + t) + (r + t)[k..]
  {
    if Turns(r) != [] {
      var k :| FirstAssistant(r) <= k < |r| && r[k].Assistant? && l == Preamble(r) + r[k..];
      FirstAssistantIs(r + t, FirstAssistant(r));
      SliceAppend(r, t, k);
      assert (r + t)[k] == r[k];
      Concat3(Preamble(r), r[k..], t);
    } else if Turns(r + t) != [] {
      var fa := FirstAssistant(r + t);
      assert r + t == Preamble(r + t) + (r + t)[fa..];
    }
  }

  lemma SliceAppend(r: seq<Message>, t: seq<Message>, k: nat)
    requires k <= |r|
    ensures (r + t)[k..] == r[k..] + t
    ensures FirstAssistant(r) < |r| ==> (r + t)[..FirstAssistant(r)] == Preamble(r)
  {
  }

  lemma FirstAssistantUnmarked(ms: seq<Message>, k: nat)
    requires AssistantsUnmarked(ms) && k < |ms| && ms[k].Assistant?
    ensures var j := |Unmarked(ms[..k])|; var plain := Unmarked(ms);
      j < |plain| && plain[j] == ms[k] && plain[j..] == Unmarked(ms[k..]) && plain[..j] == Unmarked(ms[..k])
  {
    assert ms == ms[..k] + ms[k..];
    UnmarkedAppend(ms[..k], ms[k..]);
    assert ms[k] in ms && ms[k..][0] == ms[k];
  }

  lemma PreambleUnmarked(ms: seq<Message>)
    requires AssistantsUnmarked(ms)
    ensures Preamble(Unmarked(ms)) == Unmarked(Preamble(ms))
    ensures Turns(ms) == [] <==> Turns(Unmarked(ms)) == []
  {
    var fa := FirstAssistant(ms);
    UnmarkedMember(Preamble(ms));
    var pre := Unmarked(Preamble(ms));
    forall j | 0 <= j < |pre| ensures !pre[j].Assistant? { assert pre[j] in pre; }
    if fa < |ms| {
      FirstAssistantUnmarked(ms, fa);
      FirstAssistantIs(Unmarked(ms), |pre|);
    } else {
      assert Preamble(ms) == ms;
      FirstAssistantIs(pre, |pre|);
    }
  }

  /** Compaction narrows the window, from the front. */
  lemma WindowCompact(live: seq<Message>, replay: seq<Message>, budget: Budget)
    requires Window(live, replay) && AssistantsUnmarked(live)
    ensures Window(Compacted(live, budget), replay)
  {
    if Turns(live) != [] {
      var k := CompactedParts(live, budget);
      PreambleUnmarked(live);
      FirstAssistantUnmarked(live, k);
      UnmarkedAppend(Preamble(live), live[k..]);
      var j := |Unmarked(live[..k])|;
      UnmarkedLonger(live, FirstAssistant(live), k);
      WindowNarrow(Unmarked(live), Unmarked(replay), j);
    }
  }

  lemma UnmarkedLonger(ms: seq<Message>, i: nat, k: nat)
    requires i <= k <= |ms|
    ensures |Unmarked(ms[..i])| <= |Unmarked(ms[..k])|
  {
    assert ms[..k] == ms[..i] + ms[i..k];
    UnmarkedAppend(ms[..i], ms[i..k]);
  }

  lemma SpliceStarts(r: seq<Message>, k: nat)
    requires FirstAssistant(r) <= k < |r| && r[k].Assistant?
    ensures FirstAssistant(Preamble(r) + r[k..]) == FirstAssistant(r)
  {
    hide FirstAssistant;
    FirstAssistantIs(Preamble(r) + r[k..], FirstAssistant(r));
  }

  lemma WindowNarrow(l: seq<Message>, r: seq<Message>, j: nat)
    requires if Turns(r) == [] then l == r
             else exists k | FirstAssistant(r) <= k < |r| :: r[k].Assistant? && l == Preamble(r) + r[k..]
    requires FirstAssistant(l) <= j < |l| && l[j].Assistant?
    ensures Turns(r) != []
    ensures exists k | FirstAssistant(r) <= k < |r| :: r[k].Assistant? && Preamble(l) + l[j..] == Preamble(r) + r[k..]
  {
    var k :| FirstAssistant(r) <= k < |r| && r[k].Assistant? && l == Preamble(r) + r[k..];
    var fa := FirstAssistant(r);
    SpliceStarts(r, k);
    CutOfSplice(r, fa, k, j);
  }

  lemma NoteKept(ms: seq<Message>, more: seq<Message>, view: Option<string>)
    requires NoteInPlace(ms, view) && AllUnmarked(more)
    ensures NoteInPlace(ms + more, view)
  {
    if view.Some? {
      var i :| 0 <= i < |ms| && ms[i] == Note(view.value) && i < FirstAssistant(ms)
        && forall j | 0 <= j < |ms| && j != i :: !Marked(ms[j]);
      var all := ms + more;
      assert all[i] == Note(view.value);
      var fa := FirstAssistant(all);
      assert fa < |ms| ==> all[fa] == ms[fa];
      assert i < fa;
      forall j | 0 <= j < |all| && j != i ensures !Marked(all[j]) {
        if j >= |ms| { assert all[j] in more; }
      }
    }
  }

  /** What complete turns add to the replay, when every record can be read. */
  lemma ReplayAppend(w: Wire, turns: seq<Message>)
    requires TailClosed(w) && Paired(turns) && AllOneRecord(turns)
    ensures Replay(AppendedAll(w, turns)) == Replay(w) + turns
  {
    RawAppendedAll(w, turns);
    PairedIsAnswerable(turns);
    RepairAppend(Raw(w), turns);
    RepairComplete(turns);
  }
}
