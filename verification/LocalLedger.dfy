/** The logs that calls of the writer can leave behind, starting from an empty
    one, and the ledger that holds them (scientist/ledger.py). */
module LocalLedger {
  import opened Basics
  import opened ResearchMemory
  import JsonRows

  // ---- well-kept logs -------------------------------------------------------

  /** The ids created, in file order. */
  function Created(rows: seq<Event>): seq<string> {
    if rows == [] then []
    else
      var e := rows[|rows| - 1];
      Created(rows[..|rows| - 1]) + if e.Create? then [e.id] else []
  }

  /** The events of one item, in file order. */
  function About(rows: seq<Event>, id: string): seq<Event> {
    if rows == [] then []
    else
      var e := rows[|rows| - 1];
      About(rows[..|rows| - 1], id) + if e.id == id then [e] else []
  }

  /** A parked item comes with a reason, a closed one with a scope. */
  predicate Grounded(e: Event) {
    match e
    case Create(_, _, status, _, _, _, reason, scope) =>
      (status == Parked ==> !Blank(reason)) && (status == Closed ==> !Blank(scope))
    case Park(_, reason) => !Blank(reason)
    case Close(_, scope) => !Blank(scope)
    case Revise(_, _, _, _, _) => true
    case Reopen(_) => true
    case Other(_) => false
  }

  /** The status an event sets. */
  function Sets(e: Event): Option<Status> {
    match e
    case Create(_, _, status, _, _, _, _, _) => Some(status)
    case Park(_, _) => Some(Parked)
    case Close(_, _) => Some(Closed)
    case Reopen(_) => Some(Active)
    case _ => None
  }

  /** The last event that set a status. */
  function LastSetter(rows: seq<Event>): Option<Event> {
    if rows == [] then None
    else if Sets(rows[|rows| - 1]).Some? then Some(rows[|rows| - 1])
    else LastSetter(rows[..|rows| - 1])
  }

  predicate Admits(ids: seq<string>, e: Event) {
    Grounded(e) && if e.Create? then e.id == IdOf(|ids| + 1) else e.id in ids
  }

  predicate WellKept(rows: seq<Event>) {
    rows == []
    || (WellKept(rows[..|rows| - 1]) && Admits(Created(rows[..|rows| - 1]), rows[|rows| - 1]))
  }

  /** In a well-kept log the created ids are R1, R2, ... in file order. */
  lemma {:induction false} CreatedInOrder(rows: seq<Event>)
    requires WellKept(rows)
    ensures forall k | 0 <= k < |Created(rows)| :: Created(rows)[k] == IdOf(k + 1)
  {
    if rows != [] { CreatedInOrder(rows[..|rows| - 1]); }
  }

  /** Every later event refers to an item created before it. */
  lemma {:induction false} EventsFollowTheirCreate(rows: seq<Event>, k: nat)
    requires WellKept(rows) && k < |rows| && !rows[k].Create?
    ensures exists j | 0 <= j < k :: rows[j].Create? && rows[j].id == rows[k].id
  {
    if k == |rows| - 1 {
      CreatedSomewhere(rows[..k], rows[k].id);
    } else {
      EventsFollowTheirCreate(rows[..|rows| - 1], k);
    }
  }

  lemma {:induction false} CreatedSomewhere(rows: seq<Event>, id: string)
    requires id in Created(rows)
    ensures exists j | 0 <= j < |rows| :: rows[j].Create? && rows[j].id == id
  {
    var e := rows[|rows| - 1];
    if e.Create? && e.id == id {
    } else {
      CreatedSomewhere(rows[..|rows| - 1], id);
    }
  }

  // ---- the items of a well-kept log -----------------------------------------

  lemma {:induction false} KeysAreCreated(rows: seq<Event>)
    requires WellKept(rows)
    ensures Project(rows).Keys == Elements(Created(rows))
  {
    if rows != [] {
      var init, e := rows[..|rows| - 1], rows[|rows| - 1];
      KeysAreCreated(init);
      assert e.id in Created(rows);
      ElementsAppend(Created(init), if e.Create? then [e.id] else []);
    }
  }

  lemma HighestIsCount(rows: seq<Event>)
    requires WellKept(rows)
    ensures Highest(Project(rows).Keys) == |Created(rows)|
  {
    var ids, n := Created(rows), |Created(rows)|;
    KeysAreCreated(rows);
    CreatedInOrder(rows);
    forall id | id in Elements(ids) ensures NumberOf(id) <= n {
      var k :| 0 <= k < n && ids[k] == id;
      NumberOfId(k + 1);
    }
    if n > 0 {
      NumberOfId(n);
      assert ids[n - 1] in Elements(ids);
    }
    assert IsHighest(Elements(ids), n);
    HighestUnique(Elements(ids), n, Highest(Elements(ids)));
  }

  /** An item and the events that made it. */
  ghost predicate Tells(item: Item, events: seq<Event>) {
    && item.history == events && events != [] && events[0].Create?
    && (forall k | 0 < k < |events| :: !events[k].Create?)
    && LastSetter(events).Some?
    && Sets(LastSetter(events).value) == Some(item.status)
    && Grounded(LastSetter(events).value)
  }

  lemma TellsMore(item: Item, events: seq<Event>, e: Event, at: nat)
    requires Tells(item, events) && Grounded(e) && !e.Create?
    ensures Tells(Revised(item, e).(history := item.history + [e], last := at), events + [e])
  {
    assert (events + [e])[..|events|] == events;
  }

  lemma TellsFirst(e: Event, at: nat)
    requires e.Create? && Grounded(e)
    ensures Tells(Item(e.content, e.status, e.refs, e.note, e.kind, [e], at), [e])
  {
  }

  lemma {:induction false} NothingAboutTheUncreated(rows: seq<Event>, id: string)
    requires WellKept(rows) && id !in Created(rows)
    ensures About(rows, id) == []
  {
    if rows != [] {
      var init := rows[..|rows| - 1];
      assert forall x | x in Created(init) :: x in Created(rows);
      NothingAboutTheUncreated(init, id);
      assert rows[|rows| - 1].id in Created(rows);
    }
  }

  lemma NewIdWasNotCreated(rows: seq<Event>)
    requires WellKept(rows)
    ensures IdOf(|Created(rows)| + 1) !in Created(rows)
  {
    KeysAreCreated(rows);
    HighestIsCount(rows);
    NextIdIsNew(Project(rows).Keys, |Created(rows)|);
    assert IdOf(|Created(rows)| + 1) !in Elements(Created(rows));
  }

  /** Each item's history is exactly its events with the create first, and its
      status was last set by an event that carries the reason or the scope. */
  lemma {:induction false} HistoryIsItsEvents(rows: seq<Event>, id: string)
    requires WellKept(rows) && id in Project(rows)
    ensures Tells(Project(rows)[id], About(rows, id))
  {
    if rows != [] {
      var init, e := rows[..|rows| - 1], rows[|rows| - 1];
      KeysAreCreated(init);
      if e.id != id {
        HistoryIsItsEvents(init, id);
        assert About(init, id) + [] == About(init, id);
      } else if e.Create? {
        NewIdWasNotCreated(init);
        NothingAboutTheUncreated(init, id);
        TellsFirst(e, |rows| - 1);
      } else {
        assert id in Created(init);
        CreatedInOrder(init);
        assert id in Elements(Created(init));
        HistoryIsItsEvents(init, id);
        TellsMore(Project(init)[id], About(init, id), e, |rows| - 1);
      }
    }
  }

  // ---- every reachable log --------------------------------------------------

  /** The log after a run of calls on an empty ledger. */
  ghost function LogOf(calls: seq<Action>): seq<Event> {
    if calls == [] then [] else Remembered(LogOf(calls[..|calls| - 1]), calls[|calls| - 1])
  }

  lemma CreateIsAdmitted(rows: seq<Event>, a: Action)
    requires WellKept(rows) && Acceptable(Project(rows), a) && Strip(a.itemId) == ""
    ensures Admits(Created(rows), CreateRow(a, IdOf(Highest(Project(rows).Keys) + 1)))
  {
    HighestIsCount(rows);
    StripIdem(a.parkReason);
    StripIdem(a.closeScope);
  }

  lemma MoveIsGrounded(id: string, s: Status, a: Action)
    requires Justified(s, a)
    ensures Grounded(MoveRow(id, s, a))
  {
    StripIdem(a.parkReason);
    StripIdem(a.closeScope);
  }

  lemma UpdateIsAdmitted(rows: seq<Event>, a: Action)
    requires WellKept(rows) && Acceptable(Project(rows), a) && Strip(a.itemId) != ""
    ensures forall e | e in RowsFor(Project(rows), a) :: Admits(Created(rows), e) && !e.Create?
  {
    hide WellKept, Strip, Project, Blank;
    KeysAreCreated(rows);
    assert Strip(a.itemId) in Elements(Created(rows));
    if Moves(Project(rows)[Strip(a.itemId)], a) { MoveIsGrounded(Strip(a.itemId), Asked(a).value, a); }
  }

  lemma {:induction false} UpdatesKeepIt(rows: seq<Event>, more: seq<Event>)
    requires WellKept(rows)
    requires forall e | e in more :: Admits(Created(rows), e) && !e.Create?
    ensures WellKept(rows + more) && Created(rows + more) == Created(rows)
  {
    if more == [] {
      assert rows + more == rows;
    } else {
      var init, e := more[..|more| - 1], more[|more| - 1];
      UpdatesKeepIt(rows, init);
      assert (rows + more)[..|rows + more| - 1] == rows + init;
      assert e in more;
    }
  }

  lemma RowKeepsIt(rows: seq<Event>, e: Event)
    requires WellKept(rows) && Admits(Created(rows), e)
    ensures WellKept(rows + [e])
  {
    assert (rows + [e])[..|rows|] == rows;
  }

  lemma OneRow(e: Event)
    ensures Visible([e]) == if Legible(e) then [e] else []
  {
    assert [e][..0] == [];
  }

  lemma AdmittedRowKeepsIt(log: seq<Event>, e: Event)
    requires WellKept(Visible(log)) && Admits(Created(Visible(log)), e)
    ensures WellKept(Visible(log + [e]))
  {
    VisibleAppend(log, [e]);
    OneRow(e);
    RowKeepsIt(Visible(log), e);
    assert Visible(log) + [] == Visible(log);
  }

  lemma CreateCallKeepsIt(log: seq<Event>, a: Action)
    requires WellKept(Visible(log)) && Acceptable(Project(Visible(log)), a) && Strip(a.itemId) == ""
    ensures WellKept(Visible(Remembered(log, a)))
  {
    CreateIsAdmitted(Visible(log), a);
    AdmittedRowKeepsIt(log, CreateRow(a, IdOf(Highest(Project(Visible(log)).Keys) + 1)));
  }

  lemma UpdateCallKeepsIt(log: seq<Event>, a: Action)
    requires WellKept(Visible(log)) && Acceptable(Project(Visible(log)), a) && Strip(a.itemId) != ""
    ensures WellKept(Visible(Remembered(log, a)))
  {
    var more := RowsFor(Project(Visible(log)), a);
    VisibleAppend(log, more);
    VisibleMember(more);
    UpdateIsAdmitted(Visible(log), a);
    UpdatesKeepIt(Visible(log), Visible(more));
  }

  /** One call keeps a log well kept, even where some row it wrote is lost. */
  lemma CallKeepsIt(log: seq<Event>, a: Action)
    requires WellKept(Visible(log))
    ensures WellKept(Visible(Remembered(log, a)))
  {
    if Acceptable(Project(Visible(log)), a) {
      if Strip(a.itemId) == "" { CreateCallKeepsIt(log, a); } else { UpdateCallKeepsIt(log, a); }
    }
  }

  /** Every log reachable from the empty one is well kept. */
  lemma {:induction false} EveryReachableLogIsWellKept(calls: seq<Action>)
    ensures WellKept(Visible(LogOf(calls)))
  {
    if calls != [] {
      EveryReachableLogIsWellKept(calls[..|calls| - 1]);
      CallKeepsIt(LogOf(calls[..|calls| - 1]), calls[|calls| - 1]);
    }
  }

  lemma NoneIsHighest()
    ensures IsHighest({}, 0)
  {
  }

  lemma OneMoreSeen(all: set<string>, done: set<string>, left: set<string>, highest: nat, id: string)
    requires done + left == all && id in left && IsHighest(done, highest)
    ensures done + {id} + (left - {id}) == all
    ensures IsHighest(done + {id}, if NumberOf(id) > highest then NumberOf(id) else highest)
  {
    HighestOfOneMore(done, highest, id);
  }

  lemma StatusAnswered(items: Items, a: Action)
    requires Acceptable(items, a)
    ensures var Recorded(id, status) := OutcomeOf(items, a);
      StatusIs(status, a, if id in items then items[id].status else Active)
  {
    hide Strip, Blank, Merged, Highest, IsHighest, IdOf;
    NextIdIsNew(items.Keys, Highest(items.Keys));
  }

  /** The status answered is on file when the rows written are read back. */
  lemma StatusStands(log: seq<Event>, a: Action)
    ensures var items, after := Project(Visible(log)), Project(Visible(Remembered(log, a)));
      OutcomeOf(items, a).Recorded? ==>
        && var Recorded(id, status) := OutcomeOf(items, a);
        && StatusIs(status, a, if id in items then items[id].status else Active)
        && log <= Remembered(log, a)
        && (AllLegible(Remembered(log, a)[|log|..]) ==> id in after && after[id].status == status)
  {
    hide Project, Visible, AllLegible, Merged, Strip, Blank, Highest, IsHighest, Acceptable, Wanted, RowsFor, IdOf,
         StatusIs;
    var items := Project(Visible(log));
    WriterAgreesWithFold(log, a);
    if Acceptable(items, a) {
      StatusAnswered(items, a);
      assert Remembered(log, a)[|log|..] == RowsFor(items, a);
    }
  }

  // ---- the ledger -----------------------------------------------------------

  /** A view as it is written: the text, the reason and the references. */
  datatype View = View(text: string, reason: string, refs: seq<string>)

  /** Every text of a report, in the order of its fields. */
  type Report = seq<string>

  datatype Answer = Refused | Revision(number: nat, outcomes: seq<Outcome>)

  /** Not a list of strings that say something. */
  predicate BadRefs(refs: Option<seq<string>>) {
    refs == None || exists i | 0 <= i < |refs.value| :: Blank(refs.value[i])
  }

  /** The log and the answers after a list of updates, each on its own. */
  ghost function AfterUpdates(log: seq<Event>, updates: seq<Option<Action>>): (seq<Event>, seq<Outcome>) {
    if updates == [] then (log, [])
    else
      var (before, outcomes) := AfterUpdates(log, updates[..|updates| - 1]);
      match updates[|updates| - 1]
      case None => (before, outcomes + [Rejected])
      case Some(a) => (Remembered(before, a), outcomes + [OutcomeOf(Project(Visible(before)), a)])
  }

  lemma UpdatesAppend(log: seq<Event>, updates: seq<Option<Action>>, n: nat)
    requires n < |updates|
    ensures AfterUpdates(log, updates[..n + 1]) ==
            var (before, outcomes) := AfterUpdates(log, updates[..n]);
            match updates[n]
            case None => (before, outcomes + [Rejected])
            case Some(a) => (Remembered(before, a), outcomes + [OutcomeOf(Project(Visible(before)), a)])
  {
    assert updates[..n + 1][..n] == updates[..n];
  }

  class Ledger {
    /** How a view and a report are printed with their number, and which texts
        the JSON reader takes for an object. */
    const showView: (nat, View) -> string
    const showReport: (nat, Report) -> string
    const json: JsonRows.ReadsObject
    /** The rows of the memory file. */
    var memory: seq<Event>
    /** The lines of the view file and of the record file. */
    var views: seq<string>
    var record: seq<string>

    constructor (showView: (nat, View) -> string, showReport: (nat, Report) -> string, json: JsonRows.ReadsObject)
      ensures memory == [] && views == [] && record == []
      ensures this.showView == showView && this.showReport == showReport && this.json == json
    {
      this.showView, this.showReport, this.json := showView, showReport, json;
      memory, views, record := [], [], [];
    }

    method ReadRows() returns (rows: seq<Event>)
      ensures rows == Visible(memory)
    {
      rows := [];
      for i := 0 to |memory|
        invariant rows == Visible(memory[..i])
      {
        assert memory[..i + 1][..i] == memory[..i];
        if Legible(memory[i]) { rows := rows + [memory[i]]; }
      }
      assert memory[..|memory|] == memory;
    }

    method MemoryItems() returns (items: Items)
      ensures items == Project(Visible(memory))
    {
      items := map[];
      var rows := ReadRows();
      for i := 0 to |rows|
        invariant items == Project(rows[..i])
      {
        var e := rows[i];
        assert rows[..i + 1][..i] == rows[..i];
        if e.id == "" {
        } else if e.Create? {
          items := items[e.id := Item(e.content, e.status, e.refs, e.note, e.kind, [e], i)];
        } else if e.id in items {
          var item := items[e.id];
          items := items[e.id := Revised(item, e).(history := item.history + [e], last := i)];
        }
      }
      assert rows[..|rows|] == rows;
    }

    method NextMemoryId() returns (id: string)
      ensures id == IdOf(Highest(Project(Visible(memory)).Keys) + 1)
    {
      hide IsHighest, NumberOf, Project, Visible;
      var items := MemoryItems();
      var highest := 0;
      NoneIsHighest();
      var left := items.Keys;
      ghost var done: set<string> := {};
      while left != {}
        invariant done + left == items.Keys
        invariant IsHighest(done, highest)
        decreases |left|
      {
        var id :| id in left;
        OneMoreSeen(items.Keys, done, left, highest, id);
        if NumberOf(id) > highest { highest := NumberOf(id); }
        done := done + {id};
        left := left - {id};
      }
      HighestUnique(items.Keys, highest, Highest(items.Keys));
      id := IdOf(highest + 1);
    }

    method Append(e: Event)
      modifies this`memory
      ensures memory == old(memory) + [e]
    {
      memory := memory + [e];
    }

    /** A new item. */
    method RememberNew(a: Action) returns (outcome: Outcome)
      requires WellShaped(a) && Strip(a.itemId) == ""
      modifies this`memory
      ensures memory == Remembered(old(memory), a)
      ensures outcome == OutcomeOf(Project(Visible(old(memory))), a)
    {
      hide Project, Visible, Highest, Blank, IdOf;
      if !HasContent(a) { return Rejected; }
      var asked := Asked(a);
      if asked == Some(Parked) && Blank(a.parkReason) { return Rejected; }
      if asked == Some(Closed) && Blank(a.closeScope) { return Rejected; }
      var id := NextMemoryId();
      var e := CreateRow(a, id);
      Append(e);
      outcome := Recorded(id, e.status);
    }

    /** A change to an item on file. */
    method RememberMore(a: Action) returns (outcome: Outcome)
      requires WellShaped(a) && Strip(a.itemId) != ""
      modifies this`memory
      ensures memory == Remembered(old(memory), a)
      ensures outcome == OutcomeOf(Project(Visible(old(memory))), a)
    {
      var items := MemoryItems();
      var id := Strip(a.itemId);
      if id !in items { return Rejected; }
      var item, asked := items[id], Asked(a);
      var move: Option<Event> := None;
      if asked.Some? && (asked.value != item.status || (asked.value == Parked && !Blank(a.parkReason))
                         || (asked.value == Closed && !Blank(a.closeScope))) {
        if asked == Some(Parked) && Blank(a.parkReason) { return Rejected; }
        if asked == Some(Closed) && Blank(a.closeScope) { return Rejected; }
        move := Some(MoveRow(id, asked.value, a));
      }
      var rewrites := Rewrites(a);
      if move == None && !rewrites { return Rejected; }
      if rewrites { Append(ReviseRow(a)); }
      if move.Some? { Append(move.value); }
      outcome := Recorded(id, if asked.Some? then asked.value else item.status);
    }

    /** One write to the research memory. It answers the status the call names,
        or else the one there was, and that status is on file once what was
        written is read back. */
    method Remember(a: Action) returns (outcome: Outcome)
      modifies this`memory
      ensures memory == Remembered(old(memory), a)
      ensures outcome == OutcomeOf(Project(Visible(old(memory))), a)
      ensures outcome.Recorded? ==>
        && (a.status == Some("active") ==> outcome.status == Active)
        && (a.status == Some("parked") ==> outcome.status == Parked)
        && (a.status == Some("closed") ==> outcome.status == Closed)
        && var now := Project(Visible(memory));
        AllLegible(memory[|old(memory)|..]) ==> outcome.id in now && now[outcome.id].status == outcome.status
    {
      StatusStands(memory, a);
      if a.status.Some? && StatusNamed(a.status.value) == None { return Rejected; }
      if BadRefs(a.refs) { return Rejected; }
      if Strip(a.itemId) == "" {
        outcome := RememberNew(a);
      } else {
        outcome := RememberMore(a);
      }
    }

    /** Archives one report under the next number. */
    method NoteRecord(report: Report) returns (number: nat)
      modifies this`record
      ensures number == JsonRows.RowsIn(old(record), json) + 1
      ensures record == old(record) + [showReport(number, report)]
      ensures forall reports :: old(record) == JsonRows.Written(reports, showReport, json)
                                ==> record == JsonRows.Written(reports + [report], showReport, json)
    {
      hide JsonRows.RowsIn, JsonRows.Written;
      var count := JsonRows.CountRows(record, json);
      number := count + 1;
      record := record + [showReport(number, report)];
      forall reports | old(record) == JsonRows.Written(reports, showReport, json)
        ensures record == JsonRows.Written(reports + [report], showReport, json)
      {
        JsonRows.WrittenMore(reports, report, showReport, json);
      }
    }

    /** A new view, and with it some memory updates (an entry that is not an
        object is absent): the view is all or nothing, and each update lands or
        fails on its own. */
    method ReviseResearchState(view: string, reason: string, refs: Option<seq<string>>, updates: seq<Option<Action>>)
        returns (answer: Answer)
      modifies this`memory, this`views
      ensures var refused := Blank(view) || Blank(reason) || BadRefs(refs);
              if refused then answer == Refused && views == old(views) && memory == old(memory)
              else
                var number := JsonRows.RowsIn(old(views), json) + 1;
                && views == old(views) + [showView(number, View(Strip(view), Strip(reason), Stripped(refs.value)))]
                && memory == AfterUpdates(old(memory), updates).0
                && answer == Revision(number, AfterUpdates(old(memory), updates).1)
    {
      if Blank(view) || Blank(reason) { return Refused; }
      if BadRefs(refs) { return Refused; }
      var count := JsonRows.CountRows(views, json);
      var number := count + 1;
      views := views + [showView(number, View(Strip(view), Strip(reason), Stripped(refs.value)))];
      var outcomes := UpdateMemory(updates);
      answer := Revision(number, outcomes);
    }

    method UpdateMemory(updates: seq<Option<Action>>) returns (outcomes: seq<Outcome>)
      modifies this`memory
      ensures (memory, outcomes) == AfterUpdates(old(memory), updates)
    {
      outcomes := [];
      for i := 0 to |updates|
        invariant (memory, outcomes) == AfterUpdates(old(memory), updates[..i])
      {
        UpdatesAppend(old(memory), updates, i);
        match updates[i]
        case None => outcomes := outcomes + [Rejected];
        case Some(a) =>
          var outcome := Remember(a);
          outcomes := outcomes + [outcome];
      }
      assert updates[..|updates|] == updates;
    }
  }
}
