/** The deliberation loop of one process (scientist/agent.py) and the life of a
    run across processes: kills in mid-append, replays of the wire, fresh starts
    (scientist/cli.py). */
module Episode {
  import opened Basics
  import opened Messages
  import opened NativeTools
  import opened Session
  import opened WireLog
  import opened Context
  import opened Simulation
  import opened ListeningDoor
  import opened Course

  const MAX_IDLE_TURNS := 3
  const BUDGET_NOTE_EVERY := 50
  const TERMINAL_ACTIONS: set<string> := {"deliver_world", "abstain"}

  /** What the model was sent, what the wire and the ledger then held, and
      how the process began. */
  datatype Ask = Ask(context: seq<Message>, wire: Wire, view: Option<string>, start: Start)

  // ---- what the loop relies on ----------------------------------------------

  /** Arguments rename no call, calls and results do not carry the note's
      marker, and a message with calls is written on one line. */
  ghost predicate SoundTurn(t: Turn) {
    && |t.observations| == |t.revised| == |t.reply.calls|
    && KeepsIds(t.reply.calls)
    && (t.reply.calls != [] ==> OneRecord(WireAssistant(t.reply)) && !Contains(t.reply.text, MARKER))
    && !Contains(t.refusal, MARKER)
    && forall i | 0 <= i < |t.observations| :: !Contains(t.observations[i], MARKER)
  }

  ghost predicate PlainText(s: string) {
    OneLine(s) && !Contains(s, MARKER)
  }

  ghost predicate PlainTexts(ss: seq<string>) {
    forall i | 0 <= i < |ss| :: PlainText(ss[i])
  }

  /** No record of the turn is split, none is taken for a note. */
  ghost predicate PlainTurn(t: Turn) {
    && OneRecord(WireAssistant(t.reply)) && PlainText(t.reply.text)
    && PlainText(t.budgetNote) && PlainTexts(t.arrivals)
    && PlainText(t.refusal) && PlainTexts(t.observations)
  }

  ghost predicate PlainStanding(texts: Texts) {
    PlainText(texts.knock) && PlainText(texts.idle) && PlainText(texts.resumed)
  }

  lemma {:induction false} UsersArePaired(ms: seq<Message>)
    requires forall m | m in ms :: m.User?
    ensures Paired(ms) && Answerable(ms) && TurnsUnmarked(ms) && CallsOneRecord(ms)
    ensures GoodLive(ms)
  {
    if ms != [] {
      assert ms[0] in ms;
      forall m | m in ms[1..] ensures m.User? { assert m in ms; }
      UsersArePaired(ms[1..]);
    }
  }

  /** How a process begins. `Framed`: it finds no wire file, or resumes one whose
      last line is finished. `Bare`: it opens with user messages over a file
      there is nothing to replay from, and so never records them. */
  datatype Start = Framed | Bare | Loose

  ghost function ResumedStart(wire: Wire): Start {
    if TailClosed(wire) then Framed else Loose
  }

  ghost function FreshStart(wire: Wire, opening: seq<Message>): Start {
    if wire == Absent then Framed
    else if Replay(wire) == [] && opening != [] && forall m | m in opening :: m.User? then Bare
    else Loose
  }

  ghost function StartOf(wire: Wire, concluded: bool, opening: seq<Message>): Start {
    if Replay(wire) != [] && !concluded then ResumedStart(wire) else FreshStart(wire, opening)
  }

  /** The live list against the wire. With `clean`, texts are plain; a process
      that began framed then has a window on the replayed wire, and one that
      began bare is always ahead of it. */
  ghost predicate Tracks(live: seq<Message>, wire: Wire, clean: bool, start: Start) {
    && GoodLive(live)
    && GoodWire(wire)
    && (clean ==>
      && AssistantsUnmarked(live)
      && AssistantsUnmarked(Raw(wire))
      && (start.Framed? ==> TailClosed(wire) && Window(live, Replay(wire)))
      && (start.Bare? ==> (TailClosed(wire) || Raw(wire) == []) && Ahead(live, Replay(wire))))
  }

  /** What holds between turns. */
  ghost predicate Steady(live: seq<Message>, wire: Wire, view: Option<string>, clean: bool, start: Start) {
    Tracks(live, wire, clean, start) && (clean ==> NoteInPlace(live, view))
  }

  ghost predicate GoodAsk(a: Ask, clean: bool) {
    && Paired(a.context)
    && (clean ==>
      && NoteInPlace(a.context, a.view)
      && (a.start.Framed? ==> Window(a.context, Replay(a.wire)))
      && (a.start.Bare? ==> !Window(a.context, Replay(a.wire))))
  }

  ghost predicate GoodAsks(asks: seq<Ask>, clean: bool) {
    forall a | a in asks :: GoodAsk(a, clean)
  }

  // ---- lists ahead of the wire ----------------------------------------------

  /** Notes aside, more stands before the first assistant message of the list
      than of the replay. */
  ghost predicate Ahead(live: seq<Message>, replay: seq<Message>) {
    var l, r := Unmarked(live), Unmarked(replay);
    |Preamble(l)| > |Preamble(r)| && (Turns(l) == [] <==> Turns(r) == [])
  }

  /** A list that is ahead is no window. */
  lemma AheadIsNoWindow(live: seq<Message>, replay: seq<Message>)
    requires Ahead(live, replay)
    ensures !Window(live, replay)
  {
    var l, r := Unmarked(live), Unmarked(replay);
    if Turns(r) != [] {
      forall k | FirstAssistant(r) <= k < |r| && r[k].Assistant? ensures l != Preamble(r) + r[k..] {
        SpliceStarts(r, k);
      }
    }
  }

  lemma PreambleLength(l: seq<Message>, t: seq<Message>)
    ensures |Preamble(l + t)| == if Turns(l) != [] then |Preamble(l)| else |l| + |Preamble(t)|
    ensures Turns(l + t) == [] <==> Turns(l) == [] && Turns(t) == []
    ensures Turns(l) == [] ==> |Preamble(l)| == |l|
  {
    FirstAssistantIs(l + t, if Turns(l) != [] then FirstAssistant(l) else |l| + FirstAssistant(t));
  }

  lemma AheadAppend(live: seq<Message>, replay: seq<Message>, more: seq<Message>)
    requires Ahead(live, replay)
    ensures Ahead(live + more, replay + more)
  {
    UnmarkedAppend(live, more);
    UnmarkedAppend(replay, more);
    PreambleLength(Unmarked(live), Unmarked(more));
    PreambleLength(Unmarked(replay), Unmarked(more));
  }

  lemma AheadByOne(live: seq<Message>, m: Message)
    requires Ahead(live, []) && m.User? && !Marked(m)
    ensures Ahead(live + [m], [])
  {
    UnmarkedAppend(live, [m]);
    UnmarkedFixed([m]);
    PreambleLength(Unmarked(live), [m]);
    FirstAssistantIs([m], 1);
  }

  /** What the first appends behind a torn line leave, with nothing before it. */
  lemma TornReplay(wire: Wire, first: Message, rest: seq<Message>)
    requires !TailClosed(wire) && Raw(wire) == [] && Paired(rest) && AllOneRecord(rest)
    ensures var after := AppendedAll(Appended(wire, first), rest);
      TailClosed(after) && Replay(after) == rest
  {
    RawAppended(wire, first);
    assert Raw(Appended(wire, first)) == [];
    NothingReplays();
    ReplayAppend(Appended(wire, first), rest);
    RawAppendedAll(Appended(wire, first), rest);
    assert [] + rest == rest;
  }

  lemma AheadOfTorn(live: seq<Message>, wire: Wire, turns: seq<Message>)
    requires !TailClosed(wire) && Raw(wire) == [] && Ahead(live, Replay(wire))
    requires turns != [] && turns[0].User? && !Marked(turns[0])
    requires Paired(turns) && AllOneRecord(turns)
    ensures TailClosed(AppendedAll(wire, turns)) && Ahead(live + turns, Replay(AppendedAll(wire, turns)))
  {
    hide Ahead, Raw, TailClosed, OneRecord, Unmarked, Marked;
    var first, rest := turns[0], turns[1..];
    NothingReplays();
    TornReplay(wire, first, rest);
    AheadByOne(live, first);
    AheadAppend(live + [first], [], rest);
    Concat3(live, [first], rest);
    HeadAndTail(turns);
    assert [] + rest == rest;
  }

  lemma NothingReplays()
    ensures Repair([]) == []
  {
    assert Repair([]) == Interrupted({});
  }

  lemma AheadCompact(live: seq<Message>, replay: seq<Message>, budget: Budget)
    requires Ahead(live, replay) && AssistantsUnmarked(live)
    ensures Ahead(Compacted(live, budget), replay)
  {
    PreambleUnmarked(live);
    if Turns(live) != [] {
      var k := CompactedParts(live, budget);
      CompactedMembers(live, budget);
      PreambleUnmarked(Compacted(live, budget));
    }
  }

  lemma OpeningIsAhead(opening: seq<Message>, view: Option<string>)
    requires opening != [] && AllUnmarked(opening) && forall m | m in opening :: m.User?
    ensures Ahead(Upserted(opening, view), [])
  {
    UpsertKeepsUnmarked(opening, view);
    UnmarkedFixed(opening);
    forall j | 0 <= j < |opening| ensures !opening[j].Assistant? { assert opening[j] in opening; }
    FirstAssistantIs(opening, |opening|);
  }

  /** The asks made since then, all by a process that began like this. */
  ghost predicate AsksSince(before: seq<Ask>, asks: seq<Ask>, start: Start) {
    before <= asks && forall i | |before| <= i < |asks| :: asks[i].start == start
  }

  /** Whole turns appended to both sides; of a process that began bare the first
      append may be swallowed by a torn line, and is a user message. */
  lemma TracksAppend(live: seq<Message>, wire: Wire, clean: bool, start: Start, turns: seq<Message>)
    requires Tracks(live, wire, clean, start)
    requires GoodLive(turns) && MayFollow(wire, turns)
    requires clean ==> AllOneRecord(turns) && AssistantsUnmarked(turns)
    requires clean && start.Bare? && !TailClosed(wire) && turns != [] ==> turns[0].User? && !Marked(turns[0])
    ensures Tracks(live + turns, AppendedAll(wire, turns), clean, start)
  {
    AppendKeepsGoodLive(live, turns);
    AppendKeepsGoodWire(wire, turns);
    if clean {
      AppendedMembers(wire, turns);
      if start.Framed? {
        WindowAppend(live, Replay(wire), turns);
        ReplayAppend(wire, turns);
        RawAppendedAll(wire, turns);
      } else if start.Bare? {
        if TailClosed(wire) {
          AheadAppend(live, Replay(wire), turns);
          ReplayAppend(wire, turns);
          RawAppendedAll(wire, turns);
        } else if turns != [] {
          AheadOfTorn(live, wire, turns);
        } else {
          assert live + [] == live;
        }
      }
    }
  }

  lemma SteadyAppend(live: seq<Message>, wire: Wire, view: Option<string>, clean: bool, start: Start,
                     turns: seq<Message>)
    requires Steady(live, wire, view, clean, start)
    requires GoodLive(turns) && MayFollow(wire, turns)
    requires clean ==> AllOneRecord(turns) && AllUnmarked(turns)
    requires TailClosed(wire) || turns == [] || turns[0].User?
    ensures Steady(live + turns, AppendedAll(wire, turns), view, clean, start)
  {
    TracksAppend(live, wire, clean, start, turns);
    if clean { NoteKept(live, turns, view); }
  }

  lemma SteadyEdit(live: seq<Message>, wire: Wire, view: Option<string>, clean: bool, start: Start, budget: Budget)
    requires Tracks(live, wire, clean, start)
    ensures Steady(Upserted(Compacted(live, budget), view), wire, view, clean, start)
  {
    CompactionKeepsGoodLive(live, budget);
    if clean {
      CompactedMembers(live, budget);
      if start.Framed? { WindowCompact(live, Replay(wire), budget); }
      if start.Bare? { AheadCompact(live, Replay(wire), budget); }
    }
    SteadyUpsert(Compacted(live, budget), wire, view, clean, start);
  }

  lemma SteadyUpsert(live: seq<Message>, wire: Wire, view: Option<string>, clean: bool, start: Start)
    requires Tracks(live, wire, clean, start)
    ensures Steady(Upserted(live, view), wire, view, clean, start)
  {
    UpsertKeepsGoodLive(live, view);
    if clean {
      UpsertMembers(live, view);
      UpsertKeepsUnmarked(live, view);
      UpsertPlacesNote(live, view);
    }
  }

  // ---- the turns of an episode ----------------------------------------------

  lemma TextTurn(t: Turn)
    requires t.reply.calls == []
    ensures var m := WireAssistant(t.reply);
      && GoodLive([m]) && Answerable([m]) && CallsOneRecord([m]) && !Calls(m)
      && (PlainTurn(t) ==> AllOneRecord([m]) && AllUnmarked([m]))
  {
    var m := WireAssistant(t.reply);
    assert [m][1..] == [];
  }

  /** A sound tool turn is a pairing of its own. */
  lemma ToolTurn(t: Turn)
    requires SoundTurn(t) && t.reply.calls != []
    ensures var turn := [WireAssistant(t.reply)] + WireResults(t.reply.calls, t.observations);
      && GoodLive(turn) && Answerable(turn) && CallsOneRecord(turn) && AllUnmarked(turn)
      && (PlainTurn(t) ==> AllOneRecord(turn))
  {
    var head, results := WireAssistant(t.reply), WireResults(t.reply.calls, t.observations);
    TurnPairsIffIdsAgree(t.reply, t.observations);
    ResultIds(t.reply.calls, t.observations);
    assert ActionIds(t.reply.calls) == Elements(CallIds(WireCalls(t.reply.calls))) by {
      forall x | x in CallIds(WireCalls(t.reply.calls)) ensures x in ActionIds(t.reply.calls) {
        var i :| 0 <= i < |t.reply.calls| && CallIds(WireCalls(t.reply.calls))[i] == x;
        assert ActionOf(t.reply.calls[i]).callId == x;
      }
    }
    PairedIsAnswerable([head] + results);
    if PlainTurn(t) {
      forall i | 0 <= i < |results| ensures OneRecord(results[i]) {
        assert OneLineCall(WireCalls(t.reply.calls)[i]);
        assert ActionOf(t.reply.calls[i]).callId == t.reply.calls[i].id;
        assert PlainText(t.observations[i]);
      }
    }
  }

  /** A wire from which the next process can start. */
  ghost predicate Resumable(wire: Wire, clean: bool) {
    GoodWire(wire) && (clean ==> AssistantsUnmarked(Raw(wire)))
  }

  /** Killed after some messages of what may follow, in the append of the next. */
  lemma KilledIsResumable(wire: Wire, done: seq<Message>, m: Message, kill: Kill, clean: bool)
    requires Resumable(wire, clean) && MayFollow(wire, done + [m])
    requires clean ==> AssistantsUnmarked(done + [m])
    ensures Resumable(Killed(AppendedAll(wire, done), m, kill), clean)
  {
    KillKeepsGoodWire(wire, done, m, kill);
    if clean {
      AppendedMembers(wire, done);
      KilledMembers(AppendedAll(wire, done), m, kill);
    }
  }

  lemma NextAsk(asks: seq<Ask>, a: Ask, clean: bool)
    requires GoodAsks(asks, clean) && Steady(a.context, a.wire, a.view, clean, a.start)
    ensures GoodAsks(asks + [a], clean)
  {
    if clean && a.start.Bare? { AheadIsNoWindow(a.context, Replay(a.wire)); }
  }

  lemma SteadyIsResumable(live: seq<Message>, wire: Wire, view: Option<string>, clean: bool, start: Start)
    requires Steady(live, wire, view, clean, start)
    ensures Resumable(wire, clean)
  {
  }

  lemma AppendIsResumable(wire: Wire, ms: seq<Message>, clean: bool)
    requires Resumable(wire, clean) && MayFollow(wire, ms)
    requires clean ==> AssistantsUnmarked(ms)
    ensures Resumable(AppendedAll(wire, ms), clean)
  {
    AppendKeepsGoodWire(wire, ms);
    AppendedMembers(wire, ms);
  }

  lemma RawAppendedAllClosed(wire: Wire, ms: seq<Message>)
    ensures TailClosed(wire) ==> TailClosed(AppendedAll(wire, ms))
  {
    if TailClosed(wire) { RawAppendedAll(wire, ms); }
  }

  lemma PlainUsers(notices: seq<string>)
    requires PlainTexts(notices)
    ensures AllOneRecord(Users(notices)) && AllUnmarked(Users(notices))
  {
    forall i | 0 <= i < |notices| ensures OneRecord(Users(notices)[i]) && !Marked(Users(notices)[i]) {
      assert PlainText(notices[i]);
    }
  }

  lemma UnmarkedNext(ms: seq<Message>, i: nat)
    requires i < |ms|
    ensures Unmarked(ms[..i + 1]) == Unmarked(ms[..i]) + if Marked(ms[i]) then [] else [ms[i]]
  {
    UnmarkedAppend(ms[..i], [ms[i]]);
    assert ms[..i + 1] == ms[..i] + [ms[i]];
    assert [ms[i]][1..] == [];
  }

  lemma EmitStep(wire: Wire, ms: seq<Message>, i: nat, kill: Kill, clean: bool)
    requires Resumable(wire, clean) && MayFollow(wire, ms) && i < |ms|
    requires clean ==> AssistantsUnmarked(ms)
    ensures AppendedAll(wire, ms[..i + 1]) == Appended(AppendedAll(wire, ms[..i]), ms[i])
    ensures ms[..i + 1] == ms[..i] + [ms[i]]
    ensures Resumable(Killed(AppendedAll(wire, ms[..i]), ms[i], kill), clean)
  {
    assert ms[..i + 1] == ms[..i] + [ms[i]];
    AppendedAllSnoc(wire, ms[..i], ms[i]);
    MayFollowPrefix(wire, ms, i + 1);
    forall m | m in ms[..i + 1] ensures m in ms { }
    KilledIsResumable(wire, ms[..i], ms[i], kill, clean);
  }

  lemma UsersMayFollow(wire: Wire, notices: seq<string>, clean: bool)
    requires clean ==> PlainTexts(notices)
    ensures var ms := Users(notices);
      && MayFollow(wire, ms) && GoodLive(ms)
      && (clean ==> AssistantsUnmarked(ms) && AllOneRecord(ms) && AllUnmarked(ms))
  {
    UsersArePaired(Users(notices));
    if clean { PlainUsers(notices); }
  }

  lemma ScriptStart(texts: Texts, turns: seq<Turn>, inherited: Option<string>)
    requires PlainScript(texts, turns, inherited)
    ensures PlainStanding(texts) && (inherited.Some? ==> PlainText(inherited.value))
  {
  }

  lemma ScriptTurn(texts: Texts, turns: seq<Turn>, inherited: Option<string>, i: nat)
    requires PlainScript(texts, turns, inherited) && i < |turns|
    ensures PlainTurn(turns[i]) && PlainView(turns[i].viewAfter)
  {
    assert turns[i] in turns;
  }

  lemma MarkerIsOneLine()
    ensures OneLine(MARKER)
  {
    OneLineConcat("[Current ", "Research View \U{2014} ");
    OneLineConcat("[Current " + "Research View \U{2014} ", "a revisable note ");
    OneLineConcat("[Current " + "Research View \U{2014} " + "a revisable note ", "from your earlier ");
    OneLineConcat("[Current " + "Research View \U{2014} " + "a revisable note " + "from your earlier ",
                  "scientific self]");
  }

  lemma OneLineConcat(a: string, b: string)
    requires OneLine(a) && OneLine(b)
    ensures OneLine(a + b)
  {
  }

  ghost predicate PlainView(view: Option<string>) {
    view.Some? ==> OneLine(view.value)
  }

  lemma UpsertKeepsRecords(ms: seq<Message>, view: Option<string>)
    requires AllOneRecord(ms) && PlainView(view)
    ensures AllOneRecord(Upserted(ms, view))
  {
    var out := Upserted(ms, view);
    if view.Some? {
      MarkerIsOneLine();
      OneLineConcat(MARKER, "\n");
      OneLineConcat(MARKER + "\n", view.value);
    }
    UnmarkedMember(ms);
    forall i | 0 <= i < |out| ensures OneRecord(out[i]) {
      if view == None || out[i] != Note(view.value) {
        assert out[i] in Unmarked(ms);
        assert out[i] in ms;
      }
    }
  }

  /** One process of a run. */
  datatype Process = Process(
    opening: seq<Message>,    // the spec's opening messages
    concluded: bool,          // a conclusion is on file when it starts
    inherited: Option<string>,  // the pointer to an inherited research memory
    turns: seq<Turn>,
    salvage: seq<string>,     // reports of engagements cut short at the end
    left: nat,
    kill: Kill)
  {
    /** Opening messages have a role and a content, no calls and no call id. */
    ghost predicate Sound() {
      && (forall m | m in opening :: m.User? || (m.Assistant? && m.calls == []))
      && (forall t | t in turns :: SoundTurn(t))
    }

    ghost predicate Plain(texts: Texts) {
      && opening != [] && AllOneRecord(opening) && AllUnmarked(opening)
      && PlainScript(texts, turns, inherited) && PlainTexts(salvage)
    }
  }

  ghost predicate PlainScript(texts: Texts, turns: seq<Turn>, inherited: Option<string>) {
    && PlainStanding(texts)
    && (inherited.Some? ==> PlainText(inherited.value))
    && (forall t | t in turns :: PlainTurn(t) && PlainView(t.viewAfter))
  }

  /** Before its framing is on file a process has no claim on the wire. */
  function Recording(wire: Wire, start: Start): Start {
    if wire == Absent then Loose else start
  }

  /** What `run_episode` is called with. */
  ghost predicate Startable(live: seq<Message>, wire: Wire, view: Option<string>, clean: bool, start: Start) {
    && Tracks(live, wire, clean, Recording(wire, start))
    && (wire == Absent ==> !start.Bare? && CallsOneRecord(live) && (clean ==> AllOneRecord(live)))
    && (clean ==> PlainView(view))
  }

  lemma StartableUpsert(live: seq<Message>, wire: Wire, view: Option<string>, clean: bool, start: Start)
    requires Startable(live, wire, view, clean, start)
    ensures var edited := Upserted(live, view);
      && Steady(edited, wire, view, clean, Recording(wire, start))
      && (wire == Absent ==> GoodLive(edited) && MayFollow(wire, edited) && (clean ==> AllOneRecord(edited)))
  {
    SteadyUpsert(live, wire, view, clean, Recording(wire, start));
    if wire == Absent {
      UpsertMembers(live, view);
      PairedIsAnswerable(Upserted(live, view));
      if clean { UpsertKeepsRecords(live, view); }
    }
  }

  lemma FramingIsSteady(live: seq<Message>, view: Option<string>, clean: bool, start: Start)
    requires Steady(live, Absent, view, clean, Loose) && MayFollow(Absent, live) && !start.Bare?
    requires clean ==> AllOneRecord(live)
    ensures Steady(live, AppendedAll(Absent, live), view, clean, start)
  {
    assert [] + live == live;
    AppendKeepsGoodWire(Absent, live);
    if clean {
      RawAppendedAll(Absent, live);
      assert Raw(Absent) + live == live;
      RepairComplete(live);
      WindowIsReflexive(live);
    }
  }

  lemma ResumeIsReady(wire: Wire, resumed: string, clean: bool)
    requires Resumable(wire, clean)
    requires clean ==> PlainText(resumed)
    ensures MayFollow(wire, [User(resumed)])
    ensures Tracks(Replay(wire) + [User(resumed)], Appended(wire, User(resumed)), clean, ResumedStart(wire))
  {
    var note := [User(resumed)];
    UsersArePaired(note);
    ReplayIsGood(wire);
    if clean {
      RepairedUnmarked({}, Raw(wire));
      WindowIsReflexive(Replay(wire));
    }
    TracksAppend(Replay(wire), wire, clean, ResumedStart(wire), note);
    assert AppendedAll(wire, note) == Appended(wire, User(resumed)) by { assert note[1..] == []; }
  }

  lemma ResumeMayDie(wire: Wire, resumed: string, kill: Kill, clean: bool)
    requires Resumable(wire, clean)
    requires clean ==> PlainText(resumed)
    ensures Resumable(Killed(wire, User(resumed), kill), clean)
  {
    ResumeIsReady(wire, resumed, clean);
    assert [] + [User(resumed)] == [User(resumed)];
    KilledIsResumable(wire, [], User(resumed), kill, clean);
  }

  lemma ResumedIsStartable(wire: Wire, resumed: string, view: Option<string>, clean: bool, budget: Budget)
    requires Resumable(wire, clean)
    requires clean ==> PlainText(resumed) && PlainView(view)
    ensures Startable(Upserted(Compacted(Replay(wire) + [User(resumed)], budget), view),
                      Appended(wire, User(resumed)), view, clean, ResumedStart(wire))
  {
    ResumeIsReady(wire, resumed, clean);
    RawAppended(wire, User(resumed));
    SteadyEdit(Replay(wire) + [User(resumed)], Appended(wire, User(resumed)), view, clean, ResumedStart(wire), budget);
  }

  lemma OpeningIsReady(opening: seq<Message>, wire: Wire, view: Option<string>, clean: bool)
    requires forall m | m in opening :: m.User? || (m.Assistant? && m.calls == [])
    requires Resumable(wire, clean)
    requires clean ==> PlainView(view) && AllOneRecord(opening) && AllUnmarked(opening)
    ensures Startable(Upserted(opening, view), wire, view, clean, FreshStart(wire, opening))
  {
    PlainListIsGood(opening);
    UpsertKeepsGoodLive(opening, view);
    UpsertMembers(opening, view);
    if clean {
      UpsertKeepsRecords(opening, view);
      if FreshStart(wire, opening).Bare? {
        RepairStarts(Raw(wire));
        OpeningIsAhead(opening, view);
      }
    }
  }

  lemma {:induction false} PlainListIsGood(ms: seq<Message>)
    requires forall m | m in ms :: m.User? || (m.Assistant? && m.calls == [])
    ensures GoodLive(ms)
  {
    if ms != [] {
      assert ms[0] in ms;
      forall m | m in ms[1..] ensures m.User? || (m.Assistant? && m.calls == []) { assert m in ms; }
      PlainListIsGood(ms[1..]);
    }
  }

  /** A turn being written: the list and the wire it began with, and all of its
      messages. */
  datatype MidTurn = MidTurn(first: seq<Message>, wire: Wire, turn: seq<Message>) {

    ghost predicate Allowed(clean: bool, start: Start) {
      && turn != [] && turn[0].Assistant?
      && Tracks(first, wire, clean, start) && GoodLive(turn) && AllUnmarked(turn)
      && TailClosed(wire) && MayFollow(wire, turn)
      && (clean ==> AllOneRecord(turn))
    }

    /** `n` messages of the turn are out; the list before them may have had its
        note replaced. */
    ghost predicate Holds(live: seq<Message>, now: Wire, n: nat, before: seq<Message>, clean: bool) {
      && n <= |turn|
      && live == before + turn[..n] && now == AppendedAll(wire, turn[..n])
      && GoodLive(before) && Unmarked(before) == Unmarked(first)
      && (clean ==> AssistantsUnmarked(before))
    }

    lemma Next(live: seq<Message>, now: Wire, n: nat, before: seq<Message>, kill: Kill, clean: bool, start: Start)
      requires Allowed(clean, start) && Holds(live, now, n, before, clean) && n < |turn|
      ensures Holds(live + [turn[n]], Appended(now, turn[n]), n + 1, before, clean)
      ensures Resumable(Killed(now, turn[n], kill), clean)
    {
      assert turn[..n + 1] == turn[..n] + [turn[n]];
      Concat3(before, turn[..n], [turn[n]]);
      AppendedAllSnoc(wire, turn[..n], turn[n]);
      MayFollowPrefix(wire, turn, n + 1);
      forall m | m in turn[..n + 1] ensures m in turn { }
      KilledIsResumable(wire, turn[..n], turn[n], kill, clean);
    }

    lemma Upsert(live: seq<Message>, now: Wire, n: nat, before: seq<Message>, view: Option<string>, clean: bool,
                 start: Start)
      requires Allowed(clean, start) && Holds(live, now, n, before, clean) && 1 <= n
      ensures Holds(Upserted(live, view), now, n, Upserted(before, view), clean)
    {
      forall m | m in turn[..n] ensures m in turn { }
      UpsertBeforeTurn(before, turn[..n], view);
      UpsertKeepsGoodLive(before, view);
      UpsertKeepsUnmarked(before, view);
      UpsertMembers(before, view);
    }

    /** Left in the middle, calls stay open on the wire; a resume closes them. */
    lemma Stopped(live: seq<Message>, now: Wire, n: nat, before: seq<Message>, clean: bool, start: Start)
      requires Allowed(clean, start) && Holds(live, now, n, before, clean)
      ensures Resumable(now, clean)
    {
      MayFollowPrefix(wire, turn, n);
      forall m | m in turn[..n] ensures m in turn { }
      AppendIsResumable(wire, turn[..n], clean);
    }

    lemma Done(live: seq<Message>, now: Wire, before: seq<Message>, clean: bool, start: Start)
      requires Allowed(clean, start) && Holds(live, now, |turn|, before, clean)
      ensures live == before + turn && now == AppendedAll(wire, turn)
      ensures Tracks(live, now, clean, start) && TailClosed(now)
    {
      assert turn[..|turn|] == turn;
      RawAppendedAllClosed(wire, turn);
      TracksAppend(before, wire, clean, start, turn);
    }
  }

  lemma ToolTurnOpens(t: Turn, live: seq<Message>, wire: Wire, view: Option<string>, clean: bool, start: Start)
    requires Steady(live, wire, view, clean, start) && TailClosed(wire)
    requires SoundTurn(t) && t.reply.calls != []
    requires clean ==> PlainTurn(t)
    ensures var at := MidTurn(live, wire, [WireAssistant(t.reply)] + WireResults(t.reply.calls, t.observations));
      && at.Allowed(clean, start) && at.Holds(live, wire, 0, live, clean)
      && |WireResults(t.reply.calls, t.observations)| == |t.revised|
  {
    ToolTurn(t);
    assert live + [] == live;
  }

  // ---- the turns, told ------------------------------------------------------

  lemma CallMessageIs(r: Reply)
    ensures WireAssistant(r) == CallMessage(r)
  {
  }

  lemma AnswerMessagesAre(r: Reply, observations: seq<string>, n: nat)
    requires KeepsIds(r.calls) && |observations| == |r.calls| && n <= |r.calls|
    ensures WireResults(r.calls, observations)[..n] == AnswerMessages(r, observations, n)
  {
  }

  lemma BatchesSoFar(turns: seq<Turn>, k: nat)
    requires k <= |turns| && forall t | t in turns :: SoundTurn(t)
    ensures Batches(turns) && Batches(turns[..k])
  {
    forall t | t in turns ensures |t.observations| == |t.revised| == |t.reply.calls| { assert SoundTurn(t); }
    forall t | t in turns[..k] ensures t in turns { }
  }

  /** A reply without a call. */
  lemma TextReaction(texts: Texts, before: seq<Turn>, t: Turn, live: seq<Message>, budget: Budget)
    requires Batches(before + [t]) && Answers(t) && t.reply.calls == []
    ensures var h := before + [t];
      && Idle(h) == Idle(before) + 1
      && Reaction(texts, h) == [WireAssistant(t.reply)] + (if Idle(h) % 3 == 0 then [User(texts.idle)] else [])
      && EndOf(h) == CutOff && AttemptsOf(h) == AttemptsOf(before)
      && After(texts, live, h, budget) == live + Reaction(texts, h)
  {
    InitOfSnoc(before, t);
    CallMessageIs(t.reply);
  }

  /** The model call raises. */
  lemma FailedReaction(texts: Texts, before: seq<Turn>, t: Turn)
    requires Batches(before + [t]) && !t.spent && (t.spoilt || t.failed)
    ensures var h := before + [t];
      Reaction(texts, h) == [] && EndOf(h) == Crashed && AttemptsOf(h) == AttemptsOf(before)
  {
    InitOfSnoc(before, t);
  }

  /** A lone terminal call; what happens to it is the door's to say. */
  lemma TerminalReaction(texts: Texts, before: seq<Turn>, t: Turn, live: seq<Message>, budget: Budget)
    requires Batches(before + [t]) && Answers(t) && Terminal(t) && KeepsIds(t.reply.calls)
    ensures var h, head, refusal := before + [t], WireAssistant(t.reply), WireResults(t.reply.calls, [t.refusal])[0];
      && Idle(h) == 0 && After(texts, live, h, budget) == live + Reaction(texts, h)
      && (t.raises.Some? ==>
            AttemptsOf(h) == AttemptsOf(before) && EndOf(h) == Crashed && Reaction(texts, h) == [head])
      && (t.raises == None ==>
            && AttemptsOf(h) == AttemptsOf(before) + [t.attempt]
            && (if Answered(AttemptsOf(h)) == Accepted then EndOf(h) == Concluded && Reaction(texts, h) == [head]
                else EndOf(h) == CutOff && Reaction(texts, h) == [head] + [refusal]))
  {
    InitOfSnoc(before, t);
    CallMessageIs(t.reply);
    assert KeepsIds(t.reply.calls) && ActionOf(t.reply.calls[0]).callId == t.reply.calls[0].id;
  }

  /** Any other reply with calls. */
  lemma BatchReaction(texts: Texts, before: seq<Turn>, t: Turn, live: seq<Message>, budget: Budget)
    requires Batches(before + [t]) && Answers(t) && IsBatch(t)
    ensures var h := before + [t];
      && Idle(h) == 0 && AttemptsOf(h) == AttemptsOf(before)
      && EndOf(h) == (if t.raises.Some? then Crashed else CutOff)
      && Reaction(texts, h) == BatchMessages(t)
      && After(texts, live, h, budget) == Upserted(Compacted(Renewed(live, t) + BatchMessages(t), budget), t.viewAfter)
  {
    InitOfSnoc(before, t);
  }

  /** The note renewed again is the note renewed once. */
  lemma UpsertedTwice(live: seq<Message>, view: Option<string>)
    ensures Upserted(Upserted(live, view), view) == Upserted(live, view)
  {
    UpsertKeepsUnmarked(live, view);
  }

  lemma PlacedIsTold(t: Turn, placed: seq<Message>)
    requires AnswersInOrder(t, placed)
    ensures placed == BatchMessages(t)
  {
    assert placed[0].calls == CallMessage(t.reply).calls;
  }

  lemma StartIs(wire: Wire, concluded: bool, opening: seq<Message>)
    ensures StartOf(wire, concluded, opening)
            == if Replay(wire) != [] && !concluded then ResumedStart(wire) else FreshStart(wire, opening)
  {
  }

  lemma TerminalExactly(t: Turn)
    ensures Terminal(t) <==> |t.reply.calls| == 1 && ActionOf(t.reply.calls[0]).name in TERMINAL_ACTIONS
  {
  }

  lemma TerminalIsAlone(t: Turn)
    requires Terminal(t)
    ensures |t.reply.calls| == 1
  {
  }

  lemma NotABatch(t: Turn)
    requires t.reply.calls == [] || Terminal(t)
    ensures !IsBatch(t)
  {
  }

  lemma SoundTurnKeepsIds(t: Turn)
    requires SoundTurn(t)
    ensures KeepsIds(t.reply.calls) && |t.observations| == |t.revised| == |t.reply.calls|
  {
  }

  /** What a batch places: the call message, every call with its own id, name and
      argument text, and results that answer each call with its own observation. */
  ghost predicate AnswersInOrder(t: Turn, placed: seq<Message>) {
    && |t.observations| == |t.reply.calls| && |placed| == 1 + Course.Written(t)
    && placed[0].Assistant? && placed[0].text == t.reply.text && |placed[0].calls| == |t.reply.calls|
    && (forall i | 0 <= i < |t.reply.calls| ::
          && placed[0].calls[i].id == t.reply.calls[i].id && placed[0].calls[i].name == t.reply.calls[i].name
          && placed[0].calls[i].arguments == if t.reply.calls[i].raw == "" then "{}" else t.reply.calls[i].raw)
    && (forall i | 0 <= i < Course.Written(t) ::
          && placed[i + 1].Result? && placed[i + 1].callId == t.reply.calls[i].id
          && placed[i + 1].text == t.observations[i])
  }

  lemma AnswersAreOwn(t: Turn, placed: seq<Message>)
    requires SoundTurn(t)
    requires placed == [WireAssistant(t.reply)] + WireResults(t.reply.calls, t.observations)[..Course.Written(t)]
    ensures AnswersInOrder(t, placed)
  {
    forall i | 0 <= i < |t.reply.calls| ensures ActionOf(t.reply.calls[i]).callId == t.reply.calls[i].id { }
  }

  lemma NoticesInParts(texts: Texts, past: seq<Turn>, t: Turn, knocked: bool)
    requires knocked <==> exists j | 0 <= j < |past| :: past[j].knockDue
    ensures var step := |past| + 1;
      Notices(texts, past + [t])
      == (if !knocked && t.knockDue then [texts.knock] else [])
         + if t.spent then []
           else (if step == 1 || step % BUDGET_NOTE_EVERY == 0 then [t.budgetNote] else []) + t.arrivals
  {
    InitOfSnoc(past, t);
    forall j | 0 <= j < |past| ensures (past + [t])[j] == past[j] { }
  }

  lemma UsersAppend(a: seq<string>, b: seq<string>)
    ensures Users(a + b) == Users(a) + Users(b)
  {
  }

  lemma DeadAmong(was: Wire, room: nat, said: seq<string>, more: seq<string>, kill: Kill, now: Wire, left: nat)
    requires Wrote(was, room, Users(said), kill, now, left, false)
    ensures Wrote(was, room, Users(said + more), kill, now, left, false)
  {
    UsersAppend(said, more);
    WroteDead(was, room, Users(said), Users(more), kill, now, left);
  }

  lemma SteadyAssistants(live: seq<Message>, wire: Wire, view: Option<string>, clean: bool, start: Start)
    requires Steady(live, wire, view, clean, start)
    ensures clean ==> AssistantsUnmarked(live)
  {
  }

  /** A terminal call with the refusal as its result is a turn of its own. */
  lemma RefusedTurn(t: Turn, live: seq<Message>, wire: Wire, view: Option<string>, clean: bool, start: Start)
    returns (at: MidTurn)
    requires Steady(live, wire, view, clean, start) && TailClosed(wire)
    requires SoundTurn(t) && |t.reply.calls| == 1
    requires clean ==> PlainTurn(t)
    ensures at == MidTurn(live, wire, [WireAssistant(t.reply)] + [WireResults(t.reply.calls, [t.refusal])[0]])
    ensures at.Allowed(clean, start) && at.Holds(live, wire, 0, live, clean)
  {
    var refused := t.(observations := [t.refusal]);
    ToolTurnOpens(refused, live, wire, view, clean, start);
    var results := WireResults(t.reply.calls, [t.refusal]);
    assert results == [results[0]];
    at := MidTurn(live, wire, [WireAssistant(t.reply)] + results);
  }

  lemma RefusedIsSteady(at: MidTurn, live: seq<Message>, now: Wire, first: seq<Message>, view: Option<string>,
                        clean: bool, start: Start)
    requires Steady(at.first, at.wire, view, clean, start) && first == at.first && at.Allowed(clean, start)
    requires at.Holds(live, now, |at.turn|, first, clean)
    ensures Steady(live, now, view, clean, start) && TailClosed(now)
  {
    at.Done(live, now, first, clean, start);
    if clean { NoteKept(first, at.turn, view); }
  }

  lemma LastTurn(past: seq<Turn>, t: Turn)
    ensures GoesOn(past + [t]) <==> EndOf(past + [t]) == CutOff && !t.spent
  {
    hide EndOf;
    InitOfSnoc(past, t);
  }

  lemma SilentTurn(texts: Texts, past: seq<Turn>, t: Turn)
    requires Batches(past + [t]) && (t.spent || t.spoilt)
    ensures var h := past + [t];
      && Reaction(texts, h) == [] && AttemptsOf(h) == AttemptsOf(past)
      && EndOf(h) == if t.spent then CutOff else Crashed
  {
    InitOfSnoc(past, t);
  }

  lemma WroteAll(was: Wire, room: nat, ms: seq<Message>, kill: Kill, now: Wire, left: nat)
    requires Wrote(was, room, ms, kill, now, left, true)
    ensures now == AppendedAll(was, ms)
  {
  }

  lemma NothingYet(turns: seq<Turn>)
    ensures turns[..0] == [] && AttemptsOf([]) == [] && EndOf([]) == CutOff && GoesOn([]) && Idle([]) == 0
    ensures Called([]) == 0 && Refusals([]) == 0
  {
  }

  lemma NothingTold(texts: Texts, turns: seq<Turn>)
    requires Batches(turns)
    ensures Told(texts, turns, 0) == []
  {
  }

  /** The attempts of these turns, but for the last one's if a kill kept it from
      the door. */
  ghost predicate KnockedBy(attempts: seq<Attempt>, h: seq<Turn>) {
    attempts == AttemptsOf(h) || (h != [] && attempts == AttemptsOf(h[..|h| - 1]))
  }

  lemma CutKnock(attempts: seq<Attempt>, past: seq<Turn>, t: Turn)
    requires attempts == AttemptsOf(past) || attempts == AttemptsOf(past + [t])
    ensures KnockedBy(attempts, past + [t])
  {
    InitOfSnoc(past, t);
  }

  lemma NoKnocks(turns: seq<Turn>)
    ensures KnockedBy([], turns[..0])
  {
  }

  /** How many of these turns reach the model. */
  ghost function Called(h: seq<Turn>): nat {
    |h| - if h != [] && (h[|h| - 1].spent || h[|h| - 1].spoilt) then 1 else 0
  }

  lemma CalledNext(past: seq<Turn>, t: Turn)
    requires GoesOn(past)
    ensures Called(past) == |past|
    ensures Called(past + [t]) == |past| + if t.spent || t.spoilt then 0 else 1
  {
    InitOfSnoc(past, t);
  }

  /** The list ends in these texts, each a message of its own. */
  ghost predicate EndsWith(context: seq<Message>, arrivals: seq<string>) {
    && |arrivals| <= |context|
    && var first := |context| - |arrivals|;
    forall i | first <= i < |context| :: context[i] == User(arrivals[i - first])
  }

  lemma ArrivalsEndNotices(texts: Texts, past: seq<Turn>, t: Turn) returns (front: seq<string>)
    requires !t.spent
    ensures Notices(texts, past + [t]) == front + t.arrivals
  {
    var knocked := exists j | 0 <= j < |past| :: past[j].knockDue;
    NoticesInParts(texts, past, t, knocked);
    var knock := if !knocked && t.knockDue then [texts.knock] else [];
    var pace := if |past| == 0 || (|past| + 1) % BUDGET_NOTE_EVERY == 0 then [t.budgetNote] else [];
    front := knock + pace;
    Concat3(knock, pace, t.arrivals);
  }

  lemma UsersEnd(live: seq<Message>, front: seq<string>, arrivals: seq<string>)
    ensures EndsWith(live + Users(front + arrivals), arrivals)
  {
  }

  /** An episode as it begins: the list with its note, the view and the wire then
      on file, and all that is to happen. */
  datatype Plot = Plot(texts: Texts, budget: Budget, live: seq<Message>, view: Option<string>, wire: Wire,
                       inherited: Option<string>, turns: seq<Turn>, salvage: seq<string>, start: Start)
  {
    ghost function Framing(): seq<Message> {
      Course.Framing(live, inherited, wire == Absent)
    }

    /** Said once `k` turns are through. */
    ghost function SaidBy(k: nat): seq<Message>
      requires k <= |turns| && Batches(turns)
    {
      Framing() + Told(texts, turns, k)
    }

    ghost function Script(): seq<Message>
      requires Batches(turns)
    {
      Framing() + Rest(texts, turns, 0) + Users(salvage)
    }

    ghost function ListAt(k: nat): seq<Message>
      requires k <= |turns| && Batches(turns)
    {
      Course.ListAt(texts, First(live, inherited, wire == Absent), turns, k, budget)
    }

    /** What the model is asked in turn `k`, and what is then on file. */
    ghost function AskAt(k: nat): Ask
      requires k < |turns| && Batches(turns)
    {
      var notices := Users(Notices(texts, turns[..k + 1]));
      Ask(ListAt(k) + notices, AppendedAll(wire, SaidBy(k) + notices), ViewAt(view, turns, k), start)
    }

    ghost predicate AskedIn(k: nat, a: Ask)
      requires k < |turns| && Batches(turns)
    {
      !turns[k].spent && !turns[k].spoilt && a == AskAt(k) && EndsWith(a.context, turns[k].arrivals)
    }

    ghost predicate Asked(before: seq<Ask>, asks: seq<Ask>)
      requires Batches(turns)
    {
      && before <= asks && |asks| - |before| <= |turns|
      && forall i | |before| <= i < |asks| :: AskedIn(i - |before|, asks[i])
    }

    ghost predicate At(k: nat, live: seq<Message>, now: Wire, view: Option<string>)
      requires k <= |turns| && Batches(turns)
    {
      && live == ListAt(k) && now == AppendedAll(wire, SaidBy(k)) && view == ViewAt(this.view, turns, k)
    }

    lemma ArrivalsLast(k: nat)
      requires k < |turns| && Batches(turns) && !turns[k].spent
      ensures EndsWith(AskAt(k).context, turns[k].arrivals)
    {
      hide Notices, Course.ListAt, SaidBy, ViewAt, EndsWith;
      assert turns[..k + 1] == turns[..k] + [turns[k]];
      var front := ArrivalsEndNotices(texts, turns[..k], turns[k]);
      UsersEnd(ListAt(k), front, turns[k].arrivals);
    }

    ghost function Step(k: nat): seq<Message>
      requires k < |turns| && Batches(turns)
    {
      Users(Notices(texts, turns[..k + 1])) + Reaction(texts, turns[..k + 1])
    }

    lemma Begins(room: nat, kill: Kill, now: Wire, left: nat, asks: seq<Ask>)
      requires Batches(turns) && Wrote(wire, room, Framing(), kill, now, left, true)
      ensures Wrote(wire, room, SaidBy(0), kill, now, left, true)
      ensures At(0, First(live, inherited, wire == Absent), now, view) && Asked(asks, asks)
    {
      assert Framing() + [] == Framing();
      WroteAll(wire, room, Framing(), kill, now, left);
    }

    lemma AsksAreOwn(before: seq<Ask>, asks: seq<Ask>)
      requires Batches(turns) && Asked(before, asks)
      ensures AsksSince(before, asks, start)
    {
      forall i | |before| <= i < |asks| ensures asks[i].start == start {
        assert AskedIn(i - |before|, asks[i]);
      }
    }

    lemma SaidByNext(k: nat)
      requires k < |turns| && Batches(turns)
      ensures SaidBy(k + 1) == SaidBy(k) + Step(k)
    {
      hide Notices, Reaction;
      Concat3(Told(texts, turns, k), Users(Notices(texts, turns[..k + 1])), Reaction(texts, turns[..k + 1]));
      Concat3(Framing(), Told(texts, turns, k), Step(k));
    }

    /** The script, cut behind turn `k`. */
    lemma ScriptCut(k: nat) returns (rest: seq<Message>)
      requires k <= |turns| && Batches(turns) && forall i | 0 < i < k :: GoesOn(turns[..i])
      ensures Script() == SaidBy(k) + rest
      ensures k == |turns| || (k > 0 && !GoesOn(turns[..k])) ==> rest == Users(salvage)
    {
      hide Notices, Reaction, GoesOn, Told, Step;
      if k == 0 {
        rest := Rest(texts, turns, 0) + Users(salvage);
        NothingTold(texts, turns);
        assert Framing() + [] == Framing();
        Concat3(Framing(), Rest(texts, turns, 0), Users(salvage));
        if k == |turns| { NothingLeads(Rest(texts, turns, 0), Users(salvage)); }
      } else {
        var tail := if GoesOn(turns[..k]) then Rest(texts, turns, k) else [];
        rest := tail + Users(salvage);
        ToldThenRest(texts, turns, k - 1);
        RestStep(k - 1);
        SaidByNext(k - 1);
        Assembled(Framing(), Told(texts, turns, k - 1), Step(k - 1), tail, Users(salvage));
        if !GoesOn(turns[..k]) || k == |turns| { NothingLeads(tail, Users(salvage)); }
      }
    }

    lemma NothingLeads(none: seq<Message>, ms: seq<Message>)
      requires none == []
      ensures none + ms == ms
    {
    }

    lemma RestStep(k: nat)
      requires k < |turns| && Batches(turns)
      ensures Rest(texts, turns, k)
              == Step(k) + if GoesOn(turns[..k + 1]) then Rest(texts, turns, k + 1) else []
    {
      hide Notices, Reaction, GoesOn;
    }

    lemma SaysMore(k: nat, room: nat, kill: Kill, mid: Wire, between: nat, now: Wire, left: nat, alive: bool)
      requires k < |turns| && Batches(turns) && forall i | 0 < i <= k :: GoesOn(turns[..i])
      requires Wrote(wire, room, SaidBy(k), kill, mid, between, true)
      requires Wrote(mid, between, Step(k), kill, now, left, alive)
      ensures Wrote(wire, room, if alive then SaidBy(k + 1) else Script(), kill, now, left, alive)
    {
      hide Wrote, Step, Script, SaidBy, GoesOn;
      WroteMore(wire, room, SaidBy(k), mid, between, Step(k), kill, now, left, alive);
      SaidByNext(k);
      if !alive {
        var rest := ScriptCut(k + 1);
        WroteDead(wire, room, SaidBy(k + 1), rest, kill, now, left);
      }
    }

    lemma DiesEarly(room: nat, kill: Kill, now: Wire, left: nat, asks: seq<Ask>)
      requires Batches(turns) && Wrote(wire, room, Framing(), kill, now, left, false)
      ensures Wrote(wire, room, Script(), kill, now, left, false) && Asked(asks, asks)
    {
      hide Wrote, Rest;
      WroteDead(wire, room, Framing(), Rest(texts, turns, 0) + Users(salvage), kill, now, left);
      Concat3(Framing(), Rest(texts, turns, 0), Users(salvage));
    }

    lemma AsksMore(k: nat, before: seq<Ask>, asked: seq<Ask>, messages: seq<Message>, now: Wire, view: Option<string>)
      requires k < |turns| && Batches(turns) && !turns[k].spent && !turns[k].spoilt
      requires Asked(before, asked) && |asked| - |before| == k && At(k, messages, now, view)
      ensures var notices := Users(Notices(texts, turns[..k + 1]));
        Asked(before, asked + [Ask(messages + notices, AppendedAll(now, notices), view, start)])
    {
      hide Notices, Course.ListAt, SaidBy, ViewAt, EndsWith;
      var notices := Users(Notices(texts, turns[..k + 1]));
      AppendedAllAppend(wire, SaidBy(k), notices);
      ArrivalsLast(k);
      var asks := asked + [AskAt(k)];
      assert AskAt(k) == Ask(messages + notices, AppendedAll(now, notices), view, start);
      assert before <= asks;
      assert AskedIn(k, AskAt(k));
      hide AskedIn, AskAt;
      forall i | |before| <= i < |asks| ensures AskedIn(i - |before|, asks[i]) {
        if i < |asked| { assert asks[i] == asked[i]; }
      }
    }

    /** `k` turns are through, and the process is alive. */
    ghost predicate Through(k: nat, room: nat, kill: Kill, now: Wire, left: nat, before: seq<Ask>, asks: seq<Ask>)
      requires k <= |turns| && Batches(turns)
    {
      && Asked(before, asks) && |asks| - |before| == Called(turns[..k])
      && Wrote(wire, room, SaidBy(k), kill, now, left, true)
      && forall i | 0 < i < k :: GoesOn(turns[..i])
    }

    lemma NothingAsked(room: nat, kill: Kill, now: Wire, left: nat, asks: seq<Ask>)
      requires Batches(turns) && Wrote(wire, room, SaidBy(0), kill, now, left, true)
      ensures Through(0, room, kill, now, left, asks, asks) && AsksSince(asks, asks, start)
    {
      hide Wrote, SaidBy;
      assert turns[..0] == [];
    }

    lemma IsThrough(k: nat, room: nat, kill: Kill, now: Wire, left: nat, before: seq<Ask>, asks: seq<Ask>)
      requires k <= |turns| && Batches(turns) && Through(k, room, kill, now, left, before, asks)
      ensures Asked(before, asks) && |asks| - |before| == Called(turns[..k])
      ensures Wrote(wire, room, SaidBy(k), kill, now, left, true) && forall i | 0 < i < k :: GoesOn(turns[..i])
    {
      hide Wrote, Asked, SaidBy, GoesOn, Called;
    }

    /** One turn more, or the kill that ends it. */
    lemma Continues(k: nat, room: nat, kill: Kill, live: seq<Message>, mid: Wire, between: nat, view: Option<string>,
                    before: seq<Ask>, asked: seq<Ask>, called: bool, now: Wire, left: nat, alive: bool)
      requires k < |turns| && Batches(turns) && GoesOn(turns[..k]) && At(k, live, mid, view)
      requires Through(k, room, kill, mid, between, before, asked)
      requires called ==> !turns[k].spent && !turns[k].spoilt
      requires alive ==> (called <==> !turns[k].spent && !turns[k].spoilt)
      requires Wrote(mid, between, Step(k), kill, now, left, alive)
      ensures var notices := Users(Notices(texts, turns[..k + 1]));
        var asks := asked + if called then [Ask(live + notices, AppendedAll(mid, notices), view, start)] else [];
        && Asked(before, asks) && AsksSince(before, asks, start)
        && (alive ==> Through(k + 1, room, kill, now, left, before, asks) && now == AppendedAll(mid, Step(k)))
      ensures !alive ==> Wrote(wire, room, Script(), kill, now, left, false)
      ensures forall i | 0 < i <= k :: GoesOn(turns[..i])
    {
      hide Wrote, Asked, At, GoesOn, Called, AsksSince, SaidBy, Script, Step, Notices;
      var notices := Users(Notices(texts, turns[..k + 1]));
      var more := if called then [Ask(live + notices, AppendedAll(mid, notices), view, start)] else [];
      assert turns[..k + 1] == turns[..k] + [turns[k]];
      CalledNext(turns[..k], turns[k]);
      if called {
        AsksMore(k, before, asked, live, mid, view);
      } else {
        assert asked + [] == asked;
      }
      AsksAreOwn(before, asked + more);
      forall i | 0 < i <= k ensures GoesOn(turns[..i]) { }
      SaysMore(k, room, kill, mid, between, now, left, alive);
      if alive { WroteAll(mid, between, Step(k), kill, now, left); }
    }

    lemma Moves(k: nat, messages: seq<Message>, mid: Wire, view: Option<string>, next: seq<Message>, now: Wire,
                nextView: Option<string>)
      requires k < |turns| && Batches(turns) && At(k, messages, mid, view)
      requires now == AppendedAll(mid, Step(k))
      requires next == After(texts, messages + Users(Notices(texts, turns[..k + 1])), turns[..k + 1], budget)
      requires nextView == if IsBatch(turns[k]) then turns[k].viewAfter else view
      ensures At(k + 1, next, now, nextView)
    {
      hide Notices, Reaction, After, IsBatch, SaidBy, Step;
      SaidByNext(k);
      var first := First(live, inherited, wire == Absent);
      assert SentAt(texts, first, turns, k, budget) == messages + Users(Notices(texts, turns[..k + 1]));
      assert Course.ListAt(texts, first, turns, k + 1, budget)
             == After(texts, SentAt(texts, first, turns, k, budget), turns[..k + 1], budget);
      AppendedAllAppend(wire, SaidBy(k), Step(k));
    }
  }

  lemma Assembled<T>(a: seq<T>, b: seq<T>, c: seq<T>, d: seq<T>, e: seq<T>)
    ensures a + (b + (c + d)) + e == a + b + c + (d + e)
  {
  }

  /** Where the turns of a tail begin. */
  method TurnBoundaries(tail: seq<Message>) returns (boundaries: seq<nat>)
    ensures Boundaries(tail, |tail|, boundaries)
  {
    boundaries := [];
    for i := 0 to |tail|
      invariant Boundaries(tail, i, boundaries)
    {
      if tail[i].Assistant? {
        boundaries := boundaries + [i];
      }
    }
  }

  /** The loop over turn boundaries inside `_compact_native`. */
  method WithinBudget(tail: seq<Message>, budget: Budget) returns (kept: seq<Message>)
    requires tail != [] && tail[0].Assistant?
    ensures kept == Shed(tail, budget)
  {
    hide Shed, Over;
    var boundaries := TurnBoundaries(tail);
    var cut := 0;
    FirstBoundary(tail, boundaries);
    while cut + 1 < |boundaries| && Over(tail[boundaries[cut + 1]..], budget)
      invariant cut < |boundaries|
      invariant Shed(tail[boundaries[cut]..], budget) == Shed(tail, budget)
    {
      ShedAtBoundary(tail, boundaries, cut, budget);
      cut := cut + 1;
    }
    ShedAtBoundary(tail, boundaries, cut, budget);
    kept := tail[boundaries[cut]..];
  }

  /** The assistant messages among the first `n`, by index. */
  ghost predicate Boundaries(tail: seq<Message>, n: nat, boundaries: seq<nat>) {
    && n <= |tail|
    && (forall i | 0 <= i < |boundaries| :: boundaries[i] < n && tail[boundaries[i]].Assistant?)
    && (forall i, j | 0 <= i < j < |boundaries| :: boundaries[i] < boundaries[j])
    && (forall k | 0 <= k < n && tail[k].Assistant? :: k in boundaries)
  }

  lemma AssistantIsABoundary(tail: seq<Message>, boundaries: seq<nat>, cut: nat, k: nat)
    requires Boundaries(tail, |tail|, boundaries) && cut < |boundaries|
    requires k < |tail| && tail[k].Assistant?
    ensures k <= boundaries[cut] || (cut + 1 < |boundaries| && boundaries[cut + 1] <= k)
  {
    var i :| 0 <= i < |boundaries| && boundaries[i] == k;
  }

  lemma NextBoundary(tail: seq<Message>, boundaries: seq<nat>, cut: nat)
    requires Boundaries(tail, |tail|, boundaries) && cut < |boundaries|
    ensures var here := boundaries[cut];
      NextTurn(tail[here..]) == (if cut + 1 < |boundaries| then boundaries[cut + 1] else |tail|) - here
    ensures cut + 1 < |boundaries| ==>
              tail[boundaries[cut]..][boundaries[cut + 1] - boundaries[cut]..] == tail[boundaries[cut + 1]..]
  {
    var here := boundaries[cut];
    var next := if cut + 1 < |boundaries| then boundaries[cut + 1] else |tail|;
    forall k | here < k < next ensures !tail[k].Assistant? {
      if tail[k].Assistant? { AssistantIsABoundary(tail, boundaries, cut, k); }
    }
    FirstAssistantIs(tail[here..][1..], next - here - 1);
  }

  lemma FirstBoundary(tail: seq<Message>, boundaries: seq<nat>)
    requires Boundaries(tail, |tail|, boundaries) && tail != [] && tail[0].Assistant?
    ensures boundaries != [] && tail[boundaries[0]..] == tail
  {
    assert 0 in boundaries;
  }

  lemma ShedOnce(tail: seq<Message>, rest: seq<Message>, budget: Budget)
    requires tail != [] && rest == tail[NextTurn(tail)..]
    ensures Shed(tail, budget) == if rest != [] && Over(rest, budget) then Shed(rest, budget) else tail
  {
    hide NextTurn, Over;
  }

  lemma ShedAtBoundary(tail: seq<Message>, boundaries: seq<nat>, cut: nat, budget: Budget)
    requires Boundaries(tail, |tail|, boundaries) && cut < |boundaries|
    ensures Shed(tail[boundaries[cut]..], budget)
            == if cut + 1 < |boundaries| && Over(tail[boundaries[cut + 1]..], budget)
               then Shed(tail[boundaries[cut + 1]..], budget) else tail[boundaries[cut]..]
  {
    hide Shed, NextTurn, Over;
    NextBoundary(tail, boundaries, cut);
    ShedOnce(tail[boundaries[cut]..], if cut + 1 < |boundaries| then tail[boundaries[cut + 1]..] else [], budget);
  }

  // ---- exactly when a process begins with a window --------------------------

  lemma WindowIsNoLonger(live: seq<Message>, replay: seq<Message>)
    requires Window(live, replay)
    ensures |Unmarked(live)| <= |Unmarked(replay)|
  {
  }

  lemma MarkersCount(pending: set<string>)
    ensures Unmarked(Interrupted(pending)) == Interrupted(pending)
    ensures |Interrupted(pending)| == |pending|
  {
    InterruptedText(pending);
    InterruptionIsUnmarked();
    UnmarkedFixed(Interrupted(pending));
  }

  lemma RepairLastLength(pending: set<string>, x: Message)
    requires x.Result? ==> !Marked(x)
    ensures |Unmarked(Interrupted(pending))| <= |Unmarked(RepairFrom(pending, [x]))|
  {
    assert [x][1..] == [];
    MarkersCount(pending);
    MarkersCount(StillOpen(pending, x));
    MarkersCount(Abandoned(pending, x));
    UnmarkedAppend(Interrupted(Abandoned(pending, x)) + [x], Interrupted(StillOpen(pending, x)));
    UnmarkedAppend(Interrupted(Abandoned(pending, x)), [x]);
    if x.Result? { assert pending <= StillOpen(pending, x) + {x.callId}; }
  }

  lemma {:induction false} RepairLength(pending: set<string>, ms: seq<Message>, x: Message)
    requires x.Result? ==> !Marked(x)
    ensures |Unmarked(RepairFrom(pending, ms))| <= |Unmarked(RepairFrom(pending, ms + [x]))|
    decreases |ms|
  {
    if ms == [] {
      assert [] + [x] == [x];
      RepairLastLength(pending, x);
    } else {
      var open := StillOpen(pending, ms[0]);
      var here := Interrupted(Abandoned(pending, ms[0])) + [ms[0]];
      TailOfAppend(ms, [x]);
      RepairLength(open, ms[1..], x);
      UnmarkedAppend(here, RepairFrom(open, ms[1..]));
      UnmarkedAppend(here, RepairFrom(open, ms[1..] + [x]));
    }
  }

  lemma TornResumeIsShort(wire: Wire, note: Message)
    requires GoodWire(wire) && !TailClosed(wire)
    ensures |Unmarked(Replay(Appended(wire, note)))| <= |Unmarked(Replay(wire))|
  {
    RawAppended(wire, note);
    var raw, left := Raw(wire), Raw(Appended(wire, note));
    if left != raw {
      var x := raw[|raw| - 1];
      assert raw == left + [x] && x in raw;
      RepairLength({}, left, x);
    }
  }

  /** A resumed list is, before it is compacted, a window on its wire if and only
      if the last line of the wire was finished. */
  lemma ResumeWindowExactly(wire: Wire, resumed: string)
    requires GoodWire(wire) && PlainText(resumed)
    ensures Window(Replay(wire) + [User(resumed)], Replay(Appended(wire, User(resumed)))) <==> TailClosed(wire)
  {
    var note := User(resumed);
    if TailClosed(wire) {
      UsersArePaired([note]);
      WindowIsReflexive(Replay(wire) + [note]);
      ReplayAppend(wire, [note]);
      assert AppendedAll(wire, [note]) == Appended(wire, note) by { assert [note][1..] == []; }
    } else {
      TornResumeIsShort(wire, note);
      UnmarkedAppend(Replay(wire), [note]);
      UnmarkedFixed([note]);
      if Window(Replay(wire) + [note], Replay(Appended(wire, note))) {
        WindowIsNoLonger(Replay(wire) + [note], Replay(Appended(wire, note)));
      }
    }
  }

  /** The wire once a process that starts afresh is through its opening. */
  function FramedWire(wire: Wire, live: seq<Message>): Wire {
    if wire == Absent then AppendedAll(Absent, live) else wire
  }

  lemma FramingIsRecorded(live: seq<Message>)
    requires GoodLive(live) && AllOneRecord(live)
    ensures Replay(FramedWire(Absent, live)) == live && Window(live, live)
  {
    ReplayAppend(Absent, live);
    assert Replay(Absent) + live == live by { assert Repair([]) == Interrupted({}) == []; }
    WindowIsReflexive(live);
  }

  /** A process with nothing to replay begins with a window on its wire, its
      framing on file, if and only if there was no wire file. */
  lemma FreshStartWindowExactly(wire: Wire, opening: seq<Message>, view: Option<string>)
    requires Replay(wire) == [] && opening != []
    requires forall m | m in opening :: m.User? || (m.Assistant? && m.calls == [])
    requires AllOneRecord(opening) && AllUnmarked(opening) && PlainView(view)
    ensures var live := Upserted(opening, view);
      Window(live, Replay(FramedWire(wire, live))) <==> wire == Absent
  {
    var live := Upserted(opening, view);
    if wire == Absent {
      PlainListIsGood(opening);
      UpsertKeepsGoodLive(opening, view);
      UpsertKeepsRecords(opening, view);
      FramingIsRecorded(live);
    } else {
      UnmarkedFixed(opening);
      UpsertKeepsUnmarked(opening, view);
      if Window(live, Replay(wire)) { WindowIsNoLonger(live, Replay(wire)); }
    }
  }

  lemma SameWindow(live: seq<Message>, plain: seq<Message>, replay: seq<Message>)
    requires Unmarked(live) == Unmarked(plain)
    ensures Window(live, replay) <==> Window(plain, replay)
  {
  }

  /** `turns` end with `last`, and have none only if `last` has none. */
  ghost predicate EndsIn(turns: seq<Message>, last: seq<Message>) {
    && |last| <= |turns| && turns[|turns| - |last|..] == last
    && (last == [] ==> turns == [])
  }

  lemma SpliceParts(r: seq<Message>, k: nat)
    requires FirstAssistant(r) <= k < |r| && r[k].Assistant?
    ensures Preamble(Preamble(r) + r[k..]) == Preamble(r) && Turns(Preamble(r) + r[k..]) == r[k..]
  {
    SpliceStarts(r, k);
  }

  lemma PartsOfWindow(l: seq<Message>, r: seq<Message>, k: nat)
    requires FirstAssistant(r) <= k < |r| && r[k].Assistant? && l == Preamble(r) + r[k..]
    ensures Preamble(l) == Preamble(r) && EndsIn(Turns(r), Turns(l))
  {
    SpliceParts(r, k);
    TailOfTurns(r, k);
  }

  lemma WindowOfParts(l: seq<Message>, r: seq<Message>) returns (k: nat)
    requires Preamble(l) == Preamble(r) && EndsIn(Turns(r), Turns(l)) && Turns(r) != []
    ensures FirstAssistant(r) <= k < |r| && r[k].Assistant? && l == Preamble(r) + r[k..]
  {
    k := |r| - |Turns(l)|;
    TailOfTurns(r, k);
    WholeList(l);
    assert r[k] == Turns(l)[0];
  }

  /** A window, in parts: the same preamble, and the wire's turns end in those of
      the list. */
  lemma WindowInParts(live: seq<Message>, replay: seq<Message>)
    ensures Window(live, replay) <==>
            Preamble(Unmarked(live)) == Preamble(Unmarked(replay))
            && EndsIn(Turns(Unmarked(replay)), Turns(Unmarked(live)))
  {
    hide Unmarked, Preamble, Turns, FirstAssistant;
    var l, r := Unmarked(live), Unmarked(replay);
    WholeList(l);
    WholeList(r);
    if Turns(r) != [] {
      if Window(live, replay) {
        var k :| FirstAssistant(r) <= k < |r| && r[k].Assistant? && l == Preamble(r) + r[k..];
        PartsOfWindow(l, r, k);
      } else if Preamble(l) == Preamble(r) && EndsIn(Turns(r), Turns(l)) {
        var k := WindowOfParts(l, r);
      }
    }
  }

  lemma TailOfTurns(r: seq<Message>, k: nat)
    requires FirstAssistant(r) <= k <= |r|
    ensures Turns(r)[|Turns(r)| - (|r| - k)..] == r[k..]
  {
  }

  /** A start with a conclusion on file opens afresh, whatever the wire: it
      begins with a window if and only if there was no wire file, or the wire
      begins like the opening up to the first assistant message and ends in what
      the opening holds from there. */
  lemma ConcludedRestartWindowExactly(wire: Wire, opening: seq<Message>, view: Option<string>)
    requires forall m | m in opening :: m.User? || (m.Assistant? && m.calls == [])
    requires AllOneRecord(opening) && AllUnmarked(opening) && PlainView(view)
    ensures var live, r := Upserted(opening, view), Unmarked(Replay(wire));
      Window(live, Replay(FramedWire(wire, live))) <==>
      wire == Absent || (Preamble(opening) == Preamble(r) && EndsIn(Turns(r), Turns(opening)))
  {
    var live := Upserted(opening, view);
    if wire == Absent {
      PlainListIsGood(opening);
      UpsertKeepsGoodLive(opening, view);
      UpsertKeepsRecords(opening, view);
      FramingIsRecorded(live);
    } else {
      UpsertKeepsUnmarked(opening, view);
      SameWindow(live, opening, Replay(wire));
      UnmarkedFixed(opening);
      WindowInParts(opening, Replay(wire));
    }
  }

  /** The processes of one run share its files; each has a live list of its own. */
  class Scientist {
    const texts: Texts
    const budget: Budget
    var messages: seq<Message>
    var wire: Wire
    var view: Option<string>
    /** How many more appends this process completes, and how it dies then. */
    var left: nat
    var kill: Kill
    ghost var asks: seq<Ask>
    ghost var attempts: seq<Attempt>

    constructor (texts: Texts, budget: Budget, view: Option<string>)
      ensures this.texts == texts && this.budget == budget && this.view == view
      ensures wire == Absent && messages == [] && asks == []
    {
      this.texts, this.budget, this.view := texts, budget, view;
      messages, wire, left, kill := [], Absent, 0, BeforeOpen;
      asks, attempts := [], [];
    }

    method UpsertJudgmentMessage()
      modifies this`messages
      ensures messages == Upserted(old(messages), view)
    {
      var kept: seq<Message> := [];
      for i := 0 to |messages|
        invariant messages == old(messages)
        invariant kept == Unmarked(messages[..i])
      {
        UnmarkedNext(messages, i);
        if !Marked(messages[i]) {
          kept := kept + [messages[i]];
        }
      }
      assert messages[..|messages|] == messages;
      messages := kept;
      if view.Some? {
        var at := 0;
        while at < |messages| && !messages[at].Assistant?
          invariant at <= |messages|
          invariant forall j | 0 <= j < at :: !messages[j].Assistant?
        {
          at := at + 1;
        }
        FirstAssistantIs(messages, at);
        messages := messages[..at] + [Note(view.value)] + messages[at..];
      }
    }

    method CompactNative()
      modifies this`messages
      ensures messages == Compacted(old(messages), budget)
    {
      var first := 0;
      while first < |messages| && !messages[first].Assistant?
        invariant first <= |messages|
        invariant forall j | 0 <= j < first :: !messages[j].Assistant?
      {
        first := first + 1;
      }
      FirstAssistantIs(messages, first);
      if first >= |messages| - 1 {
        if first == |messages| - 1 {
          CompactedUnchanged(messages, budget);
        }
        return;
      }
      var preamble, tail := messages[..first], messages[first..];
      var kept := WithinBudget(tail, budget);
      if |preamble| + |kept| < |messages| {
        messages := preamble + kept;
      } else {
        CompactedUnchanged(messages, budget);
      }
    }

    /** Append to the live list and to the wire, or die doing so. */
    method Emit(m: Message) returns (alive: bool)
      modifies this`messages, this`wire, this`left
      ensures messages == old(messages) + [m]
      ensures alive ==> wire == Appended(old(wire), m)
      ensures !alive ==> wire == Killed(old(wire), m, kill)
      ensures Wrote(old(wire), old(left), [m], kill, wire, left, alive)
    {
      hide Wrote;
      WroteOne(wire, left, m, kill);
      messages := messages + [m];
      if left == 0 {
        wire := Killed(wire, m, kill);
        return false;
      }
      left := left - 1;
      wire := Appended(wire, m);
      return true;
    }

    /** Whole turns or user messages: what `MayFollow` allows. */
    method EmitAll(ms: seq<Message>, ghost clean: bool) returns (alive: bool)
      requires Resumable(wire, clean) && MayFollow(wire, ms)
      requires clean ==> AssistantsUnmarked(ms)
      modifies this`messages, this`wire, this`left
      ensures Wrote(old(wire), old(left), ms, kill, wire, left, alive)
      ensures alive ==> messages == old(messages) + ms && wire == AppendedAll(old(wire), ms)
      ensures Resumable(wire, clean)
    {
      hide Wrote, Resumable, MayFollow, AssistantsUnmarked;
      alive := true;
      WroteNothing(wire, left, kill);
      for i := 0 to |ms|
        invariant messages == old(messages) + ms[..i]
        invariant wire == AppendedAll(old(wire), ms[..i])
        invariant Wrote(old(wire), old(left), ms[..i], kill, wire, left, true)
      {
        EmitStep(old(wire), ms, i, kill, clean);
        ghost var mid, between := wire, left;
        alive := Emit(ms[i]);
        WroteMore(old(wire), old(left), ms[..i], mid, between, [ms[i]], kill, wire, left, alive);
        if !alive {
          WroteDead(old(wire), old(left), ms[..i] + [ms[i]], ms[i + 1..], kill, wire, left);
          Middle(ms, i);
          Concat3(ms[..i], [ms[i]], ms[i + 1..]);
          return;
        }
      }
      assert ms[..|ms|] == ms;
      AppendIsResumable(old(wire), ms, clean);
    }

    /** User messages between turns. */
    method Announce(notices: seq<string>, ghost clean: bool, ghost start: Start) returns (alive: bool)
      requires Steady(messages, wire, view, clean, start)
      requires clean ==> PlainTexts(notices)
      modifies this`messages, this`wire, this`left
      ensures Wrote(old(wire), old(left), Users(notices), kill, wire, left, alive)
      ensures alive ==> messages == old(messages) + Users(notices)
      ensures alive ==> Steady(messages, wire, view, clean, start)
      ensures alive && (notices != [] || TailClosed(old(wire))) ==> TailClosed(wire)
      ensures Resumable(wire, clean)
    {
      hide Steady, Resumable, MayFollow, Wrote;
      var ms := Users(notices);
      UsersMayFollow(wire, notices, clean);
      SteadyIsResumable(messages, wire, view, clean, start);
      alive := EmitAll(ms, clean);
      if alive {
        SteadyAppend(old(messages), old(wire), view, clean, start, ms);
        if ms != [] { AppendedAllClosed(old(wire), ms); }
      }
    }

    /** A text-only reply. */
    method TakePlainTurn(turn: seq<Message>, ghost clean: bool, ghost start: Start) returns (alive: bool)
      requires Steady(messages, wire, view, clean, start) && TailClosed(wire)
      requires GoodLive(turn) && MayFollow(wire, turn)
      requires clean ==> AllOneRecord(turn) && AllUnmarked(turn)
      modifies this`messages, this`wire, this`left
      ensures Wrote(old(wire), old(left), turn, kill, wire, left, alive)
      ensures alive ==> messages == old(messages) + turn
      ensures alive ==> Steady(messages, wire, view, clean, start) && TailClosed(wire)
      ensures Resumable(wire, clean)
    {
      hide Steady, Wrote;
      SteadyIsResumable(messages, wire, view, clean, start);
      alive := EmitAll(turn, clean);
      if alive {
        SteadyAppend(old(messages), old(wire), view, clean, start, turn);
        RawAppendedAllClosed(old(wire), turn);
      }
    }

    /** The results of a turn, with an upsert behind each that rewrote the view;
        something may raise once `upTo` of them are out. */
    method EmitResults(results: seq<Message>, revised: seq<bool>, upTo: nat, ghost at: MidTurn, ghost clean: bool,
                       ghost start: Start)
      returns (alive: bool, ghost before: seq<Message>)
      requires |results| == |revised| && at.Allowed(clean, start) && at.turn == [at.turn[0]] + results
      requires upTo <= |results|
      requires at.Holds(messages, wire, 1, at.first, clean)
      modifies this`messages, this`wire, this`left
      ensures Wrote(old(wire), old(left), results[..upTo], kill, wire, left, alive)
      ensures alive ==> at.Holds(messages, wire, 1 + upTo, before, clean)
      ensures alive ==> before == if exists i | 0 <= i < upTo :: revised[i] then Upserted(at.first, view) else at.first
      ensures !alive ==> Resumable(wire, clean)
    {
      hide Wrote, Resumable, Upserted, MidTurn.Holds, MidTurn.Allowed;
      before := at.first;
      WroteNothing(wire, left, kill);
      for i := 0 to upTo
        invariant at.Holds(messages, wire, i + 1, before, clean)
        invariant before == if exists j | 0 <= j < i :: revised[j] then Upserted(at.first, view) else at.first
        invariant Wrote(old(wire), old(left), results[..i], kill, wire, left, true)
      {
        assert at.turn[i + 1] == results[i];
        at.Next(messages, wire, i + 1, before, kill, clean, start);
        ghost var mid, between := wire, left;
        alive := Emit(results[i]);
        WroteMore(old(wire), old(left), results[..i], mid, between, [results[i]], kill, wire, left, alive);
        assert results[..i + 1] == results[..i] + [results[i]];
        if !alive {
          WroteDead(old(wire), old(left), results[..i + 1], results[i + 1..upTo], kill, wire, left);
          assert results[..i + 1] + results[i + 1..upTo] == results[..upTo];
          return;
        }
        if revised[i] {
          at.Upsert(messages, wire, i + 2, before, view, clean, start);
          UpsertedTwice(at.first, view);
          before := Upserted(before, view);
          UpsertJudgmentMessage();
        }
      }
      alive := true;
    }

    /** The call message, its results, then compaction and an upsert; or an
        exception in between, which leaves calls open. What is `placed` into the
        list and the wire answers each call with its own observation. */
    method TakeToolTurn(t: Turn, ghost clean: bool, ghost start: Start)
      returns (alive: bool, raised: bool, ghost placed: seq<Message>)
      requires Steady(messages, wire, view, clean, start) && TailClosed(wire)
      requires SoundTurn(t) && t.reply.calls != []
      requires clean ==> PlainTurn(t) && PlainView(t.viewAfter)
      modifies this`messages, this`wire, this`left, this`view
      ensures AnswersInOrder(t, placed)
      ensures Wrote(old(wire), old(left), placed, kill, wire, left, alive)
      ensures raised <==> t.raises.Some?
      ensures alive ==> view == t.viewAfter
      ensures alive ==>
        var before := Renewed(old(messages), t);
        messages == if raised then before + placed else Upserted(Compacted(before + placed, budget), view)
      ensures alive && !raised ==> Steady(messages, wire, view, clean, start) && TailClosed(wire)
      ensures view == t.viewAfter || view == old(view)
      ensures Resumable(wire, clean)
    {
      hide Steady, Resumable, PlainTurn, PlainView, GoodLive, GoodWire, MayFollow, Tracks, Wrote, Upserted, Compacted;
      hide WireAssistant, WireResults, SoundTurn, AnswersInOrder, Renewed;
      SoundTurnKeepsIds(t);
      var head, results := WireAssistant(t.reply), WireResults(t.reply.calls, t.observations);
      var upTo := if t.raises.Some? && t.raises.value < |results| then t.raises.value else |results|;
      ghost var at := MidTurn(messages, wire, [head] + results);
      ToolTurnOpens(t, messages, wire, view, clean, start);
      raised, placed := t.raises.Some?, [head] + results[..upTo];
      AnswersAreOwn(t, placed);
      assert at.turn[..1 + upTo] == placed;
      alive := EmitBatch(t, head, results, upTo, at, clean, start);
      if alive {
        ghost var before := Renewed(at.first, t);
        at.Stopped(messages, wire, 1 + upTo, before, clean, start);
        if !raised {
          at.Done(messages, wire, before, clean, start);
          assert at.turn[..|at.turn|] == at.turn;
          SteadyEdit(messages, wire, view, clean, start, budget);
          CompactNative();
          UpsertJudgmentMessage();
        }
      }
    }

    /** The call message and the results of a batch, up to where something raises. */
    method EmitBatch(t: Turn, head: Message, results: seq<Message>, upTo: nat, ghost at: MidTurn, ghost clean: bool,
                     ghost start: Start)
      returns (alive: bool)
      requires at == MidTurn(messages, wire, [head] + results) && at.Allowed(clean, start)
      requires at.Holds(messages, wire, 0, messages, clean)
      requires |results| == |t.revised| == |t.reply.calls| && upTo == Course.Written(t)
      modifies this`messages, this`wire, this`left, this`view
      ensures Wrote(old(wire), old(left), [head] + results[..upTo], kill, wire, left, alive)
      ensures alive ==> view == t.viewAfter && at.Holds(messages, wire, 1 + upTo, Renewed(old(messages), t), clean)
      ensures view == t.viewAfter || view == old(view)
      ensures !alive ==> Resumable(wire, clean)
    {
      hide Resumable, Wrote, Upserted, MidTurn.Holds, MidTurn.Allowed;
      at.Next(messages, wire, 0, messages, kill, clean, start);
      alive := Emit(head);
      if !alive {
        WroteDead(old(wire), old(left), [head], results[..upTo], kill, wire, left);
        return;
      }
      view := t.viewAfter;
      ghost var mid, between, before := wire, left, messages;
      alive, before := EmitResults(results, t.revised, upTo, at, clean, start);
      WroteMore(old(wire), old(left), [head], mid, between, results[..upTo], kill, wire, left, alive);
    }

    /** A fresh start puts the list it opens with on the wire. */
    method RecordFraming(ghost clean: bool, ghost start: Start) returns (alive: bool)
      requires wire == Absent && Steady(messages, wire, view, clean, Loose) && MayFollow(wire, messages)
      requires !start.Bare?
      requires clean ==> AllOneRecord(messages)
      modifies this`wire, this`left
      ensures Wrote(old(wire), old(left), messages, kill, wire, left, alive)
      ensures alive ==> Steady(messages, wire, view, clean, start)
      ensures Resumable(wire, clean)
    {
      hide Wrote, Steady, Resumable, MayFollow;
      alive := true;
      SteadyIsResumable(messages, wire, view, clean, Loose);
      SteadyAssistants(messages, wire, view, clean, Loose);
      WroteNothing(wire, left, kill);
      for i := 0 to |messages|
        invariant wire == AppendedAll(Absent, messages[..i])
        invariant Wrote(Absent, old(left), messages[..i], kill, wire, left, true)
      {
        EmitStep(Absent, messages, i, kill, clean);
        WroteOne(wire, left, messages[i], kill);
        ghost var mid, between := wire, left;
        if left == 0 {
          wire := Killed(wire, messages[i], kill);
          alive := false;
        } else {
          left := left - 1;
          wire := Appended(wire, messages[i]);
        }
        WroteMore(Absent, old(left), messages[..i], mid, between, [messages[i]], kill, wire, left, alive);
        if !alive {
          WroteDead(Absent, old(left), messages[..i + 1], messages[i + 1..], kill, wire, left);
          assert messages[..i + 1] + messages[i + 1..] == messages;
          return;
        }
      }
      assert messages[..|messages|] == messages;
      FramingIsSteady(messages, view, clean, start);
      SteadyIsResumable(messages, wire, view, clean, start);
    }

    /** The door: its verdict on all attempts so far, and the count of refusals. */
    method KnockAtTheDoor(attempt: Attempt, refusals: nat) returns (verdict: Verdict, refusalsNow: nat)
      requires refusals == Refusals(attempts)
      modifies this`attempts
      ensures attempts == old(attempts) + [attempt] && verdict == Answered(attempts)
      ensures refusalsNow == Refusals(attempts) == refusals + if verdict == Unheard then 1 else 0
    {
      OneMore(attempts, attempt);
      attempts := attempts + [attempt];
      verdict := Validate(attempt, refusals < REFUSALS_MAX);
      refusalsNow := if verdict == Unheard then refusals + 1 else refusals;
    }

    /** Up to the first step: the note, the framing, the pointer to an inherited
        memory. */
    method Begin(inherited: Option<string>, ghost clean: bool, ghost start: Start) returns (alive: bool)
      requires Startable(messages, wire, view, clean, start)
      requires clean ==> (inherited.Some? ==> PlainText(inherited.value))
      modifies this`messages, this`wire, this`left
      ensures var live, cold := Upserted(old(messages), view), old(wire) == Absent;
        && Wrote(old(wire), old(left), Framing(live, inherited, cold), kill, wire, left, alive)
        && (alive ==> messages == First(live, inherited, cold))
      ensures alive ==> Steady(messages, wire, view, clean, start)
      ensures Resumable(wire, clean)
    {
      hide Steady, Resumable, MayFollow, Tracks, Wrote, Upserted;
      StartableUpsert(messages, wire, view, clean, start);
      UpsertJudgmentMessage();
      SteadyIsResumable(messages, wire, view, clean, Recording(wire, start));
      alive := true;
      WroteNothing(wire, left, kill);
      if wire == Absent {
        ghost var pointer := if inherited.Some? then Users([inherited.value]) else [];
        assert First(messages, inherited, true) == messages + pointer;
        assert messages + [] == messages;
        alive := RecordFraming(clean, start);
        if !alive {
          WroteDead(Absent, old(left), messages, pointer, kill, wire, left);
        } else if inherited.Some? {
          ghost var live, mid, between := messages, wire, left;
          alive := Announce([inherited.value], clean, start);
          WroteMore(Absent, old(left), live, mid, between, pointer, kill, wire, left, alive);
        }
      }
    }

    /** A step up to the model call: the clock, the pace note, the arrivals. */
    method Prepare(t: Turn, step: nat, knocked: bool, ghost past: seq<Turn>, ghost clean: bool, ghost start: Start)
      returns (alive: bool, knockedNow: bool)
      requires Steady(messages, wire, view, clean, start) && (step > 1 ==> TailClosed(wire))
      requires clean ==> PlainTurn(t) && PlainStanding(texts)
      requires step == |past| + 1 && (knocked <==> exists j | 0 <= j < |past| :: past[j].knockDue)
      modifies this`messages, this`wire, this`left
      ensures Wrote(old(wire), old(left), Users(Notices(texts, past + [t])), kill, wire, left, alive)
      ensures alive ==> messages == old(messages) + Users(Notices(texts, past + [t]))
      ensures knockedNow <==> knocked || t.knockDue
      ensures alive ==> Steady(messages, wire, view, clean, start)
      ensures alive && !t.spent ==> TailClosed(wire)
      ensures Resumable(wire, clean)
    {
      hide Steady, Resumable, Wrote, Notices;
      NoticesInParts(texts, past, t, knocked);
      knockedNow := knocked || t.knockDue;
      var knock := if !knocked && t.knockDue then [texts.knock] else [];
      var pace := if step == 1 || step % BUDGET_NOTE_EVERY == 0 then [t.budgetNote] else [];
      assert Users([]) == [] && [] + knock == knock && knock + [] == knock;
      Concat3(knock, pace, t.arrivals);
      WroteNothing(wire, left, kill);
      alive := AnnounceMore([], knock, wire, left, messages, clean, start);
      if t.spent { return; }
      if alive {
        alive := AnnounceMore(knock, pace, old(wire), old(left), old(messages), clean, start);
      } else {
        DeadAmong(old(wire), old(left), knock, pace, kill, wire, left);
      }
      if alive {
        alive := AnnounceMore(knock + pace, t.arrivals, old(wire), old(left), old(messages), clean, start);
      } else {
        DeadAmong(old(wire), old(left), knock + pace, t.arrivals, kill, wire, left);
      }
    }

    /** Some more of the notices of a step. */
    method AnnounceMore(ghost said: seq<string>, notices: seq<string>, ghost was: Wire, ghost room: nat,
                        ghost first: seq<Message>, ghost clean: bool, ghost start: Start)
      returns (alive: bool)
      requires Steady(messages, wire, view, clean, start)
      requires Wrote(was, room, Users(said), kill, wire, left, true) && messages == first + Users(said)
      requires clean ==> PlainTexts(notices)
      modifies this`messages, this`wire, this`left
      ensures Wrote(was, room, Users(said + notices), kill, wire, left, alive)
      ensures alive ==> messages == first + Users(said + notices)
      ensures alive ==> Steady(messages, wire, view, clean, start)
      ensures alive && (notices != [] || TailClosed(old(wire))) ==> TailClosed(wire)
      ensures Resumable(wire, clean)
    {
      hide Steady, Resumable, Wrote, PlainTexts;
      alive := Announce(notices, clean, start);
      UsersAppend(said, notices);
      Concat3(first, Users(said), Users(notices));
      WroteMore(was, room, Users(said), old(wire), old(left), Users(notices), kill, wire, left, alive);
    }

    /** A reply that makes no call: archived, and nudged now and then. */
    method TakeTextTurn(t: Turn, idle: nat, ghost past: seq<Turn>, ghost clean: bool, ghost start: Start)
      returns (alive: bool, idleNow: nat)
      requires Steady(messages, wire, view, clean, start) && TailClosed(wire)
      requires Batches(past + [t]) && Answers(t) && t.reply.calls == [] && idle == Idle(past) % 3
      requires clean ==> PlainTurn(t) && PlainStanding(texts)
      modifies this`messages, this`wire, this`left
      ensures Wrote(old(wire), old(left), Reaction(texts, past + [t]), kill, wire, left, alive)
      ensures alive ==> messages == old(messages) + Reaction(texts, past + [t])
      ensures alive ==> Steady(messages, wire, view, clean, start) && TailClosed(wire)
      ensures idleNow == Idle(past + [t]) % 3
      ensures Resumable(wire, clean)
    {
      hide Steady, Resumable, Wrote, Reaction, Idle;
      TextTurn(t);
      TextReaction(texts, past, t, messages, budget);
      var head := [WireAssistant(t.reply)];
      alive := TakePlainTurn(head, clean, start);
      idleNow := idle + 1;
      var nudge := [];
      if idleNow >= MAX_IDLE_TURNS {
        nudge := [texts.idle];
        idleNow := 0;
      }
      assert Users([texts.idle]) == [User(texts.idle)];
      assert Reaction(texts, past + [t]) == head + Users(nudge);
      if !alive {
        WroteDead(old(wire), old(left), head, Users(nudge), kill, wire, left);
        return;
      }
      ghost var mid, between := wire, left;
      alive := Announce(nudge, clean, start);
      WroteMore(old(wire), old(left), head, mid, between, Users(nudge), kill, wire, left, alive);
    }

    /** Nothing is left running: what the engagements still had to say. */
    method Salvage(salvage: seq<string>, ghost clean: bool) returns (alive: bool)
      requires Resumable(wire, clean)
      requires clean ==> PlainTexts(salvage)
      modifies this`messages, this`wire, this`left
      ensures Wrote(old(wire), old(left), Users(salvage), kill, wire, left, alive)
      ensures alive ==> messages == old(messages) + Users(salvage)
      ensures Resumable(wire, clean)
    {
      UsersMayFollow(wire, salvage, clean);
      alive := EmitAll(Users(salvage), clean);
    }

    /** A terminal call goes on file, then before the door: concluded, refused,
        or something raised. */
    method TakeTerminalTurn(t: Turn, refusals: nat, ghost past: seq<Turn>, ghost clean: bool, ghost start: Start)
      returns (alive: bool, ending: Ending, refusalsNow: nat)
      requires Steady(messages, wire, view, clean, start) && TailClosed(wire)
      requires SoundTurn(t) && Batches(past + [t]) && Answers(t) && Terminal(t)
      requires attempts == AttemptsOf(past) && refusals == Refusals(attempts)
      requires clean ==> PlainTurn(t)
      modifies this`messages, this`wire, this`left, this`attempts
      ensures Wrote(old(wire), old(left), Reaction(texts, past + [t]), kill, wire, left, alive)
      ensures alive ==> messages == old(messages) + Reaction(texts, past + [t])
      ensures alive ==> attempts == AttemptsOf(past + [t]) && ending == EndOf(past + [t])
      ensures attempts == old(attempts) || attempts == AttemptsOf(past + [t])
      ensures alive && ending == CutOff ==> Steady(messages, wire, view, clean, start) && TailClosed(wire)
      ensures Resumable(wire, clean) && ending != Dead
      ensures refusalsNow == Refusals(attempts)
    {
      hide Steady, Resumable, PlainTurn, Refusals, Answered, Wrote, Reaction, EndOf, AttemptsOf, Terminal;
      hide MidTurn.Holds, MidTurn.Allowed;
      ending, refusalsNow := CutOff, refusals;
      TerminalReaction(texts, past, t, messages, budget);
      TerminalIsAlone(t);
      var head, refusal := WireAssistant(t.reply), WireResults(t.reply.calls, [t.refusal])[0];
      ghost var at := RefusedTurn(t, messages, wire, view, clean, start);
      at.Next(messages, wire, 0, messages, kill, clean, start);
      alive := Emit(head);
      if !alive {
        WroteDead(old(wire), old(left), [head], [refusal], kill, wire, left);
        return;
      }
      at.Stopped(messages, wire, 1, old(messages), clean, start);
      if t.raises.Some? {
        ending := Crashed;
        return;
      }
      var verdict;
      verdict, refusalsNow := KnockAtTheDoor(t.attempt, refusals);
      if verdict == Accepted {
        ending := Concluded;
        return;
      }
      at.Next(messages, wire, 1, old(messages), kill, clean, start);
      ghost var mid, between := wire, left;
      alive := Emit(refusal);
      WroteMore(old(wire), old(left), [head], mid, between, [refusal], kill, wire, left, alive);
      if alive {
        RefusedIsSteady(at, messages, wire, old(messages), view, clean, start);
        SteadyIsResumable(messages, wire, view, clean, start);
        Concat3(old(messages), [head], [refusal]);
      }
    }

    /** The model call and what its reply leads to. */
    method Respond(t: Turn, idle: nat, refusals: nat, ghost past: seq<Turn>, ghost clean: bool, ghost start: Start)
      returns (ending: Ending, idleNow: nat, refusalsNow: nat)
      requires Steady(messages, wire, view, clean, start) && TailClosed(wire)
      requires SoundTurn(t) && Batches(past + [t]) && !t.spent && !t.spoilt && GoodAsks(asks, clean)
      requires attempts == AttemptsOf(past) && refusals == Refusals(attempts) && idle == Idle(past) % 3
      requires clean ==> PlainTurn(t) && PlainView(t.viewAfter) && PlainStanding(texts)
      modifies this`messages, this`wire, this`left, this`view, this`asks, this`attempts
      ensures asks == old(asks) + [Ask(old(messages), old(wire), old(view), start)] && GoodAsks(asks, clean)
      ensures Wrote(old(wire), old(left), Reaction(texts, past + [t]), kill, wire, left, ending != Dead)
      ensures ending != Dead ==> ending == EndOf(past + [t]) && attempts == AttemptsOf(past + [t])
      ensures attempts == old(attempts) || attempts == AttemptsOf(past + [t])
      ensures ending == CutOff ==>
        && messages == After(texts, old(messages), past + [t], budget)
        && view == (if IsBatch(t) then t.viewAfter else old(view)) && idleNow == Idle(past + [t]) % 3
        && Steady(messages, wire, view, clean, start) && TailClosed(wire)
      ensures Resumable(wire, clean)
      ensures view == old(view) || view == t.viewAfter
      ensures ending != Dead ==> refusalsNow == Refusals(attempts)
    {
      hide Steady, Resumable, GoodAsks, PlainView, PlainTurn, SoundTurn, PlainTexts, Wrote, Refusals;
      hide Reaction, EndOf, AttemptsOf, After, Idle, Terminal, Upserted, Compacted, Renewed, Batches, Answered;
      idleNow, refusalsNow := 0, refusals;
      NextAsk(asks, Ask(messages, wire, view, start), clean);
      SteadyIsResumable(messages, wire, view, clean, start);
      asks := asks + [Ask(messages, wire, view, start)];
      var alive := true;
      ending := CutOff;
      if t.failed {
        FailedReaction(texts, past, t);
        WroteNothing(wire, left, kill);
        ending := Crashed;
      } else if t.reply.calls == [] {
        TextReaction(texts, past, t, messages, budget);
        alive, idleNow := TakeTextTurn(t, idle, past, clean, start);
        NotABatch(t);
      } else if |t.reply.calls| == 1 && ActionOf(t.reply.calls[0]).name in TERMINAL_ACTIONS {
        TerminalExactly(t);
        NotABatch(t);
        SoundTurnKeepsIds(t);
        TerminalReaction(texts, past, t, messages, budget);
        alive, ending, refusalsNow := TakeTerminalTurn(t, refusals, past, clean, start);
      } else {
        TerminalExactly(t);
        BatchReaction(texts, past, t, messages, budget);
        SoundTurnKeepsIds(t);
        var raised;
        ghost var placed;
        alive, raised, placed := TakeToolTurn(t, clean, start);
        PlacedIsTold(t, placed);
        if raised { ending := Crashed; }
      }
      if !alive { ending := Dead; }
    }

    /** One turn of the loop, up to the next one or the end. */
    method Step(t: Turn, step: nat, knocked: bool, idle: nat, refusals: nat, ghost past: seq<Turn>, ghost clean: bool,
                ghost start: Start)
      returns (ending: Ending, goesOn: bool, knockedNow: bool, idleNow: nat, refusalsNow: nat, ghost called: bool)
      requires Steady(messages, wire, view, clean, start) && (step > 1 ==> TailClosed(wire))
      requires SoundTurn(t) && Batches(past + [t]) && GoodAsks(asks, clean)
      requires step == |past| + 1 && (knocked <==> exists j | 0 <= j < |past| :: past[j].knockDue)
      requires attempts == AttemptsOf(past) && refusals == Refusals(attempts) && idle == Idle(past) % 3
      requires clean ==> PlainTurn(t) && PlainView(t.viewAfter) && PlainView(view) && PlainStanding(texts)
      modifies this`messages, this`wire, this`left, this`view, this`asks, this`attempts
      ensures var h := past + [t]; var notices := Users(Notices(texts, h));
        && Wrote(old(wire), old(left), notices + Reaction(texts, h), kill, wire, left, ending != Dead)
        && asks == old(asks) + (if !called then []
                                else [Ask(old(messages) + notices, AppendedAll(old(wire), notices), old(view), start)])
        && (goesOn ==> messages == After(texts, old(messages) + notices, h, budget))
      ensures called ==> !t.spent && !t.spoilt
      ensures ending != Dead ==> (called <==> !t.spent && !t.spoilt)
      ensures ending != Dead ==> ending == EndOf(past + [t]) && attempts == AttemptsOf(past + [t])
      ensures attempts == old(attempts) || attempts == AttemptsOf(past + [t])
      ensures ending != Dead ==> refusalsNow == Refusals(attempts)
      ensures goesOn <==> ending != Dead && GoesOn(past + [t])
      ensures goesOn ==>
        && Steady(messages, wire, view, clean, start) && TailClosed(wire)
        && (knockedNow <==> knocked || t.knockDue) && idleNow == Idle(past + [t]) % 3
        && view == if IsBatch(t) then t.viewAfter else old(view)
      ensures Resumable(wire, clean) && GoodAsks(asks, clean) && (clean ==> PlainView(view))
    {
      hide Steady, Resumable, GoodAsks, PlainView, PlainTurn, SoundTurn, PlainTexts, Wrote, Refusals, Notices;
      hide Reaction, EndOf, AttemptsOf, After, Idle, IsBatch, Batches, Delivered;
      called, goesOn, idleNow, refusalsNow := false, false, idle, refusals;
      var alive;
      ghost var h := past + [t];
      alive, knockedNow := Prepare(t, step, knocked, past, clean, start);
      ghost var notices := Users(Notices(texts, h));
      if !alive {
        WroteDead(old(wire), old(left), notices, Reaction(texts, h), kill, wire, left);
        return Dead, false, knockedNow, idle, refusals, false;
      }
      WroteAll(old(wire), old(left), notices, kill, wire, left);
      LastTurn(past, t);
      if t.spent || t.spoilt {
        assert notices + [] == notices;
        SilentTurn(texts, past, t);
        ending := if t.spent then CutOff else Crashed;
        return;
      }
      ghost var mid, between := wire, left;
      called := true;
      ending, idleNow, refusalsNow := Respond(t, idle, refusals, past, clean, start);
      WroteMore(old(wire), old(left), notices, mid, between, Reaction(texts, h), kill, wire, left, ending != Dead);
      goesOn := ending == CutOff;
    }

    /** `run_episode`. With the last message list it sent, every list it ever
        sends is paired, whatever the turns bring, whatever raises and wherever
        it is killed. The wire gains the script of its turns, up to the append
        that kills it; `n` turns were begun, and all but the last went on; each
        list sent is the list before it, what the turn in between made of it and
        the notices of its own turn, what has arrived coming last. */
    method RunEpisode(turns: seq<Turn>, salvage: seq<string>, inherited: Option<string>, ghost clean: bool,
                      ghost start: Start)
      returns (ending: Ending, refusals: nat, ghost n: nat)
      requires Startable(messages, wire, view, clean, start)
      requires GoodAsks(asks, clean)
      requires forall t | t in turns :: SoundTurn(t)
      requires clean ==> PlainScript(texts, turns, inherited) && PlainTexts(salvage)
      modifies this`messages, this`wire, this`left, this`view, this`asks, this`attempts
      ensures Resumable(wire, clean)
      ensures AsksSince(old(asks), asks, start) && GoodAsks(asks, clean)
      ensures clean ==> PlainView(view)
      ensures Batches(turns)
      ensures var live := Upserted(old(messages), old(view));
        var plot := Plot(texts, budget, live, old(view), old(wire), inherited, turns, salvage, start);
        && Wrote(old(wire), old(left), plot.Script(), kill, wire, left, ending != Dead)
        && plot.Asked(old(asks), asks)
      ensures n <= |turns| && forall i | 0 < i < n :: GoesOn(turns[..i])
      ensures ending != Dead && n < |turns| ==> !GoesOn(turns[..n])
      ensures ending != Dead ==> |asks| - |old(asks)| == Called(turns[..n])
      ensures ending != Dead ==> attempts == AttemptsOf(turns[..n]) && ending == EndOf(turns[..n])
      ensures KnockedBy(attempts, turns[..n])
      ensures ending == Concluded <==> ending != Dead && Delivered(turns[..n])
      ensures ending != Dead ==> refusals == Refusals(attempts) <= 3
    {
      hide Steady, Resumable, GoodAsks, PlainView, PlainScript, SoundTurn, PlainTexts, Wrote, Refusals, EndOf;
      hide AttemptsOf, Delivered, Upserted, GoesOn, Called, Tracks, Plot.At, Plot.SaidBy, Plot.Script, Batches;
      BatchesSoFar(turns, |turns|);
      ghost var plot := Plot(texts, budget, Upserted(messages, view), view, wire, inherited, turns, salvage, start);
      refusals, n, attempts := 0, 0, [];
      if clean { ScriptStart(texts, turns, inherited); }
      var alive := Begin(inherited, clean, start);
      NoKnocks(turns);
      if !alive {
        plot.DiesEarly(old(left), kill, wire, left, asks);
        return Dead, 0, 0;
      }
      plot.Begins(old(left), kill, wire, left, asks);
      ending, refusals, n := Deliberate(turns, inherited, plot, old(left), clean, start);
      ConcludedExactly(turns[..n]);
      if ending == Dead { return; }
      ghost var tail := plot.ScriptCut(n);
      RefusalsAreCapped(attempts);
      ghost var mid, between := wire, left;
      alive := Salvage(salvage, clean);
      WroteMore(old(wire), old(left), plot.SaidBy(n), mid, between, Users(salvage), kill, wire, left, alive);
      if !alive { ending := Dead; }
    }

    /** The turns of an episode. */
    method Deliberate(turns: seq<Turn>, ghost inherited: Option<string>, ghost plot: Plot, ghost room: nat,
                      ghost clean: bool, ghost start: Start)
      returns (ending: Ending, refusals: nat, ghost n: nat)
      requires forall t | t in turns :: SoundTurn(t)
      requires Batches(turns) && turns == plot.turns && start == plot.start
      requires budget == plot.budget && texts == plot.texts
      requires plot.At(0, messages, wire, view) && Wrote(plot.wire, room, plot.SaidBy(0), kill, wire, left, true)
      requires Steady(messages, wire, view, clean, start) && GoodAsks(asks, clean) && attempts == []
      requires clean ==> PlainScript(texts, turns, inherited) && PlainView(view)
      modifies this`messages, this`wire, this`left, this`view, this`asks, this`attempts
      ensures Resumable(wire, clean) && (clean ==> PlainView(view))
      ensures AsksSince(old(asks), asks, start) && GoodAsks(asks, clean)
      ensures plot.Asked(old(asks), asks)
      ensures n <= |turns| && forall i | 0 < i < n :: GoesOn(turns[..i])
      ensures ending == Dead ==> Wrote(plot.wire, room, plot.Script(), kill, wire, left, false)
      ensures ending == Dead ==> KnockedBy(attempts, turns[..n])
      ensures ending != Dead ==>
        && Wrote(plot.wire, room, plot.SaidBy(n), kill, wire, left, true)
        && (n == |turns| || (n > 0 && !GoesOn(turns[..n])))
        && |asks| - |old(asks)| == Called(turns[..n])
        && ending == EndOf(turns[..n]) && attempts == AttemptsOf(turns[..n]) && refusals == Refusals(attempts)
    {
      hide Steady, Resumable, GoodAsks, PlainView, PlainScript, PlainTurn, SoundTurn, PlainTexts, Tracks, Wrote;
      hide Refusals, Notices, Reaction, EndOf, AttemptsOf, After, Idle, IsBatch, Delivered, Upserted, GoesOn, Called;
      hide AsksSince, Plot.AskAt, Plot.Through;
      hide Plot.At, Plot.Asked, Plot.SaidBy, Plot.Script, Startable, PlainStanding, Batches;
      var goesOn, knocked, idle, step := true, false, 0, 0;
      refusals, n, ending := 0, 0, CutOff;
      NothingYet(turns);
      plot.NothingAsked(room, kill, wire, left, asks);
      SteadyIsResumable(messages, wire, view, clean, start);
      if clean { ScriptStart(texts, turns, inherited); }
      while step < |turns| && goesOn
        invariant n == step <= |turns| && plot.Through(step, room, kill, wire, left, old(asks), asks)
        invariant goesOn ==> plot.At(step, messages, wire, view) && Steady(messages, wire, view, clean, start)
        invariant goesOn && step > 0 ==> TailClosed(wire)
        invariant Resumable(wire, clean) && (clean ==> PlainView(view))
        invariant GoodAsks(asks, clean) && AsksSince(old(asks), asks, start)
        invariant goesOn <==> GoesOn(turns[..step])
        invariant attempts == AttemptsOf(turns[..step]) && ending == EndOf(turns[..step])
        invariant refusals == Refusals(attempts)
        invariant goesOn ==> idle == Idle(turns[..step]) % 3
                             && (knocked <==> exists j | 0 <= j < step :: turns[..step][j].knockDue)
      {
        ghost var past := turns[..step];
        var t := turns[step];
        assert turns[..step + 1] == past + [t];
        assert t in turns;
        if clean { ScriptTurn(texts, turns, inherited, step); }
        ghost var live, mid, between, seen, asked := messages, wire, left, view, asks;
        BatchesSoFar(turns, step + 1);
        ghost var called;
        ending, goesOn, knocked, idle, refusals, called :=
          Step(t, step + 1, knocked, idle, refusals, past, clean, start);
        plot.Continues(step, room, kill, live, mid, between, seen, old(asks), asked, called, wire, left,
                       ending != Dead);
        if goesOn { plot.Moves(step, live, mid, seen, messages, wire, view); }
        step, n := step + 1, n + 1;
        if ending == Dead {
          CutKnock(attempts, past, t);
          return;
        }
      }
      assert n == 0 ==> turns[..n] == [];
      plot.IsThrough(n, room, kill, wire, left, old(asks), asks);
    }

    /** `main`: replay the wire, or start afresh when there is none to replay or
        the run already concluded; then deliberate. */
    method Live(p: Process, ghost clean: bool) returns (ending: Ending)
      requires Resumable(wire, clean) && p.Sound() && GoodAsks(asks, clean)
      requires clean ==> PlainView(view) && p.Plain(texts)
      modifies this
      ensures Resumable(wire, clean) && (clean ==> PlainView(view))
      ensures AsksSince(old(asks), asks, StartOf(old(wire), p.concluded, p.opening)) && GoodAsks(asks, clean)
      ensures Batches(p.turns)
      ensures var resumes := Replay(old(wire)) != [] && !p.concluded;
        var note := if resumes then [User(texts.resumed)] else [];
        var list := if resumes then Compacted(Replay(old(wire)) + note, budget) else p.opening;
        var plot := Plot(texts, budget, Upserted(list, old(view)), old(view), AppendedAll(old(wire), note), p.inherited,
                         p.turns, p.salvage, StartOf(old(wire), p.concluded, p.opening));
        && Wrote(old(wire), p.left, note + plot.Script(), p.kill, wire, left, ending != Dead)
        && plot.Asked(old(asks), asks)
    {
      hide Steady, Startable, Resumable, GoodAsks, PlainView, GoodLive, GoodWire, MayFollow, Tracks, Wrote;
      hide Upserted, Compacted, Replay, Plot.Script, SoundTurn, StartOf;
      left, kill := p.left, p.kill;
      BatchesSoFar(p.turns, |p.turns|);
      ghost var start := StartOf(wire, p.concluded, p.opening);
      StartIs(wire, p.concluded, p.opening);
      ghost var mid, between, note := wire, left, [];
      WroteNothing(wire, left, kill);
      var prior := LoadWireMessages(wire);
      if prior != [] && !p.concluded {
        ResumedIsStartable(wire, texts.resumed, view, clean, budget);
        ResumeMayDie(wire, texts.resumed, kill, clean);
        messages := prior;
        note := [User(texts.resumed)];
        var alive := Emit(User(texts.resumed));
        if !alive {
          ghost var plot := Plot(texts, budget, Upserted(Compacted(prior + note, budget), view), view,
                                 AppendedAll(mid, note), p.inherited, p.turns, p.salvage, start);
          WroteDead(mid, between, note, plot.Script(), kill, wire, left);
          return Dead;
        }
        WroteAll(mid, between, note, kill, wire, left);
        CompactNative();
        UpsertedTwice(messages, view);
        UpsertJudgmentMessage();
      } else {
        messages := p.opening;
        OpeningIsReady(p.opening, wire, view, clean);
        UpsertedTwice(messages, view);
        UpsertJudgmentMessage();
      }
      ghost var plot := Plot(texts, budget, messages, view, wire, p.inherited, p.turns, p.salvage, start);
      ghost var begun, room := wire, left;
      var refusals;
      ghost var n;
      ending, refusals, n := RunEpisode(p.turns, p.salvage, p.inherited, clean, start);
      WroteMore(mid, between, note, begun, room, plot.Script(), kill, wire, left, ending != Dead);
    }

    /** A whole run, from nothing, over any kills, exceptions and restarts: every
        message list ever sent to the model is paired. If texts are plain, each
        list has the view on file in place, and those of a process that began
        framed are windows on the replayed wire, those of one that began bare
        never are. */
    method Run(processes: seq<Process>, ghost clean: bool)
      requires wire == Absent && asks == []
      requires forall p | p in processes :: p.Sound()
      requires clean ==> PlainView(view) && forall p | p in processes :: p.Plain(texts)
      modifies this
      ensures GoodAsks(asks, clean)
      ensures Paired(Replay(wire))
    {
      assert Raw(wire) == [];
      for i := 0 to |processes|
        invariant Resumable(wire, clean) && (clean ==> PlainView(view))
        invariant GoodAsks(asks, clean)
      {
        assert processes[i] in processes;
        var ending := Live(processes[i], clean);
      }
      ReplayIsGood(wire);
    }
  }
}
