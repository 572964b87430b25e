/** The event-sourced research memory: its fold and the one guarded writer
    (scientist/ledger.py). */
module ResearchMemory {
  import opened Basics

  datatype Status = Active | Parked | Closed

  /** A row of the log; an absent text field is empty. `Other` is a kind of
      event the fold does not know. */
  datatype Event =
    | Create(id: string, content: string, status: Status, refs: seq<string>, note: string, kind: string,
             reason: string, scope: string)
    | Revise(id: string, content: string, refs: seq<string>, note: string, kind: string)
    | Park(id: string, reason: string)
    | Close(id: string, scope: string)
    | Reopen(id: string)
    | Other(id: string)

  datatype Item = Item(content: string, status: Status, refs: seq<string>, note: string, kind: string,
                       history: seq<Event>, last: nat)

  type Items = map<string, Item>

  // ---- the fold -------------------------------------------------------------

  /** References gained, each once, in the order given. */
  function Merged(have: seq<string>, more: seq<string>): seq<string>
    decreases |more|
  {
    if more == [] then have
    else
      var text := Strip(more[0]);
      Merged(if text != "" && text !in have then have + [text] else have, more[1..])
  }

  function Unless(text: string, before: string): string {
    if Blank(text) then before else Strip(text)
  }

  function Revised(item: Item, e: Event): Item {
    match e
    case Revise(_, content, refs, note, kind) =>
      item.(content := Unless(content, item.content), refs := Merged(item.refs, refs),
            note := Unless(note, item.note), kind := Unless(kind, item.kind))
    case Park(_, _) => item.(status := Parked)
    case Close(_, _) => item.(status := Closed)
    case Reopen(_) => item.(status := Active)
    case _ => item
  }

  function Step(items: Items, e: Event, at: nat): Items {
    if e.id == "" then items
    else if e.Create? then
      items[e.id := Item(e.content, e.status, e.refs, e.note, e.kind, [e], at)]
    else if e.id in items then
      var item := items[e.id];
      items[e.id := Revised(item, e).(history := item.history + [e], last := at)]
    else items
  }

  /** The items after the first rows of a log. */
  function Project(rows: seq<Event>): Items {
    if rows == [] then map[]
    else Step(Project(rows[..|rows| - 1]), rows[|rows| - 1], |rows| - 1)
  }

  // ---- what the file gives back ---------------------------------------------

  predicate AllOneLine(texts: seq<string>) {
    forall i | 0 <= i < |texts| :: OneLine(texts[i])
  }

  /** The row is read back as one line; otherwise it is lost. */
  predicate Legible(e: Event) {
    && OneLine(e.id)
    && match e
       case Create(_, content, _, refs, note, kind, reason, scope) =>
         OneLine(content) && AllOneLine(refs) && OneLine(note) && OneLine(kind) && OneLine(reason) && OneLine(scope)
       case Revise(_, content, refs, note, kind) =>
         OneLine(content) && AllOneLine(refs) && OneLine(note) && OneLine(kind)
       case Park(_, reason) => OneLine(reason)
       case Close(_, scope) => OneLine(scope)
       case _ => true
  }

  function Visible(log: seq<Event>): seq<Event> {
    if log == [] then []
    else Visible(log[..|log| - 1]) + if Legible(log[|log| - 1]) then [log[|log| - 1]] else []
  }

  lemma VisibleAppend(log: seq<Event>, more: seq<Event>)
    ensures Visible(log + more) == Visible(log) + Visible(more)
  {
    if more == [] {
      assert log + more == log;
    } else {
      var init, e := more[..|more| - 1], more[|more| - 1];
      assert (log + more)[..|log + more| - 1] == log + init;
      VisibleAppend(log, init);
      Concat3(Visible(log), Visible(init), if Legible(e) then [e] else []);
    }
  }

  lemma VisibleWhole(rows: seq<Event>)
    requires forall e | e in rows :: Legible(e)
    ensures Visible(rows) == rows
  {
    if rows != [] {
      VisibleWhole(rows[..|rows| - 1]);
      assert rows[|rows| - 1] in rows;
    }
  }

  lemma VisibleMember(log: seq<Event>)
    ensures forall e | e in Visible(log) :: e in log && Legible(e)
  {
    if log != [] { VisibleMember(log[..|log| - 1]); }
  }

  lemma ProjectAppend(rows: seq<Event>, e: Event)
    ensures Project(rows + [e]) == Step(Project(rows), e, |rows|)
  {
    assert (rows + [e])[..|rows|] == rows;
  }

  // ---- item numbers ---------------------------------------------------------

  predicate AllDigits(s: string) {
    forall i | 0 <= i < |s| :: '0' <= s[i] <= '9'
  }

  function Value(s: string): nat
    requires AllDigits(s)
  {
    if s == "" then 0 else 10 * Value(s[..|s| - 1]) + (s[|s| - 1] - '0') as nat
  }

  lemma {:induction false} ValueOfDecimal(n: nat)
    ensures AllDigits(Decimal(n)) && Value(Decimal(n)) == n
  {
    if n >= 10 {
      ValueOfDecimal(n / 10);
      assert Decimal(n)[..|Decimal(n)| - 1] == Decimal(n / 10);
    } else {
      assert Decimal(n)[..0] == "";
    }
  }

  function IdOf(n: nat): string {
    "R" + Decimal(n)
  }

  /** The number an id carries, zero for ids of another form. */
  function NumberOf(id: string): nat {
    if id != "" && id[0] == 'R' && id[1..] != "" && AllDigits(id[1..]) then Value(id[1..]) else 0
  }

  lemma NumberOfId(n: nat)
    ensures NumberOf(IdOf(n)) == n
  {
    ValueOfDecimal(n);
    assert IdOf(n)[1..] == Decimal(n);
  }

  ghost predicate IsHighest(ids: set<string>, n: nat) {
    && (forall id | id in ids :: NumberOf(id) <= n)
    && (n == 0 || exists id | id in ids :: NumberOf(id) == n)
  }

  lemma HighestUnique(ids: set<string>, a: nat, b: nat)
    requires IsHighest(ids, a) && IsHighest(ids, b)
    ensures a == b
  {
    if a != 0 { var x :| x in ids && NumberOf(x) == a; }
    if b != 0 { var y :| y in ids && NumberOf(y) == b; }
  }

  lemma HighestOfOneMore(ids: set<string>, n: nat, id: string)
    requires IsHighest(ids, n)
    ensures IsHighest(ids + {id}, if NumberOf(id) > n then NumberOf(id) else n)
  {
    if NumberOf(id) <= n && n != 0 {
      var top :| top in ids && NumberOf(top) == n;
      assert top in ids + {id};
    } else {
      assert id in ids + {id};
    }
  }

  ghost function Highest(ids: set<string>): (n: nat)
    ensures IsHighest(ids, n)
  {
    if ids == {} then 0
    else
      var id :| id in ids;
      var n := Highest(ids - {id});
      HighestOfOneMore(ids - {id}, n, id);
      assert ids - {id} + {id} == ids;
      if NumberOf(id) > n then NumberOf(id) else n
  }

  /** A new item never takes over an existing one, whatever ids are on file. */
  lemma NextIdIsNew(ids: set<string>, n: nat)
    requires IsHighest(ids, n)
    ensures IdOf(n + 1) !in ids && IdOf(n + 1) != ""
  {
    NumberOfId(n + 1);
  }

  // ---- the writer -----------------------------------------------------------

  /** A `remember` call. `content` is absent unless it is a string; `refs` is
      absent unless it is a list of strings. */
  datatype Action = Action(itemId: string, status: Option<string>, content: Option<string>, refs: Option<seq<string>>,
                           note: string, kind: string, parkReason: string, closeScope: string)

  datatype Outcome = Recorded(id: string, status: Status) | Rejected

  function StatusNamed(s: string): Option<Status> {
    if s == "active" then Some(Active) else if s == "parked" then Some(Parked)
    else if s == "closed" then Some(Closed) else None
  }

  predicate WellShaped(a: Action) {
    && (a.status.Some? ==> StatusNamed(a.status.value).Some?)
    && a.refs.Some? && forall i | 0 <= i < |a.refs.value| :: !Blank(a.refs.value[i])
  }

  function Asked(a: Action): Option<Status> {
    match a.status case None => None case Some(s) => StatusNamed(s)
  }

  function Stripped(texts: seq<string>): (r: seq<string>)
    ensures |r| == |texts|
  {
    seq(|texts|, i requires 0 <= i < |texts| => Strip(texts[i]))
  }

  /** Parking needs a reason, closing a scope. */
  predicate Justified(s: Status, a: Action) {
    && (s == Parked ==> !Blank(a.parkReason))
    && (s == Closed ==> !Blank(a.closeScope))
  }

  predicate HasContent(a: Action) {
    a.content.Some? && !Blank(a.content.value)
  }

  predicate Rewrites(a: Action)
    requires a.refs.Some?
  {
    HasContent(a) || a.refs.value != [] || !Blank(a.note) || !Blank(a.kind)
  }

  /** A status is written when it changes or comes with new grounds. */
  predicate Moves(item: Item, a: Action) {
    && Asked(a).Some?
    && (Asked(a).value != item.status
        || (Asked(a).value == Parked && !Blank(a.parkReason))
        || (Asked(a).value == Closed && !Blank(a.closeScope)))
  }

  /** When a call is accepted. */
  predicate Acceptable(items: Items, a: Action) {
    && WellShaped(a)
    && var id := Strip(a.itemId);
    if id == "" then HasContent(a) && (Asked(a).Some? ==> Justified(Asked(a).value, a))
    else
      && id in items
      && (Moves(items[id], a) ==> Justified(Asked(a).value, a))
      && (Moves(items[id], a) || Rewrites(a))
  }

  /** The item an accepted call asks for, in terms of the item before. */
  function Wanted(items: Items, a: Action): Item
    requires Acceptable(items, a)
  {
    if Strip(a.itemId) == "" then
      Item(Strip(a.content.value), if Asked(a).Some? then Asked(a).value else Active, Stripped(a.refs.value),
           Strip(a.note), Strip(a.kind), [], 0)
    else
      var was := items[Strip(a.itemId)];
      Item(if HasContent(a) then Strip(a.content.value) else was.content,
           if Asked(a).Some? then Asked(a).value else was.status,
           Merged(was.refs, a.refs.value),
           Unless(a.note, was.note), Unless(a.kind, was.kind), was.history, was.last)
  }

  ghost predicate SameFace(a: Item, b: Item) {
    a.content == b.content && a.status == b.status && a.refs == b.refs && a.note == b.note && a.kind == b.kind
  }

  function ReviseRow(a: Action): Event
    requires a.refs.Some?
  {
    Revise(Strip(a.itemId), if HasContent(a) then Strip(a.content.value) else "", Stripped(a.refs.value),
           Strip(a.note), Strip(a.kind))
  }

  function MoveRow(id: string, s: Status, a: Action): Event {
    match s
    case Parked => Park(id, Strip(a.parkReason))
    case Closed => Close(id, Strip(a.closeScope))
    case Active => Reopen(id)
  }

  function CreateRow(a: Action, id: string): Event
    requires a.refs.Some? && a.content.Some?
  {
    var s := if Asked(a).Some? then Asked(a).value else Active;
    Create(id, Strip(a.content.value), s, Stripped(a.refs.value), Strip(a.note), Strip(a.kind),
           if s == Parked then Strip(a.parkReason) else "", if s == Closed then Strip(a.closeScope) else "")
  }

  /** The rows an accepted call appends. */
  ghost function RowsFor(items: Items, a: Action): seq<Event>
    requires Acceptable(items, a)
  {
    if Strip(a.itemId) == "" then [CreateRow(a, IdOf(Highest(items.Keys) + 1))]
    else
      var item := items[Strip(a.itemId)];
      (if Rewrites(a) then [ReviseRow(a)] else [])
      + (if Moves(item, a) then [MoveRow(Strip(a.itemId), Asked(a).value, a)] else [])
  }

  // ---- white space ----------------------------------------------------------

  lemma StripLeftIdem(s: string)
    ensures StripLeft(s) == [] || !IsSpace(StripLeft(s)[0])
  {
  }

  lemma StripRightIdem(s: string)
    ensures StripRight(s) == [] || !IsSpace(StripRight(s)[|StripRight(s)| - 1])
    ensures StripRight(s) <= s
  {
  }

  lemma StripIdem(s: string)
    ensures Strip(Strip(s)) == Strip(s)
  {
    var l := StripLeft(s);
    StripLeftIdem(s);
    StripRightIdem(l);
    var r := StripRight(l);
    if r != [] {
      assert r[0] == l[0];
      assert StripLeft(r) == r && StripRight(r) == r;
    }
  }

  lemma MergedStripped(have: seq<string>, more: seq<string>)
    ensures Merged(have, Stripped(more)) == Merged(have, more)
    decreases |more|
  {
    if more != [] {
      StripIdem(more[0]);
      assert Stripped(more)[1..] == Stripped(more[1..]);
      MergedStripped(if Strip(more[0]) != "" && Strip(more[0]) !in have then have + [Strip(more[0])] else have,
                     more[1..]);
    }
  }

  /** References only grow, gain exactly those given, and gain none twice. */
  lemma {:induction false} MergedGrows(have: seq<string>, more: seq<string>)
    ensures have <= Merged(have, more)
    ensures forall x ::
              x in Merged(have, more)
              <==> x in have || exists i | 0 <= i < |more| :: Strip(more[i]) == x && x != ""
    ensures Distinct(have) ==> Distinct(Merged(have, more))
    decreases |more|
  {
    if more != [] {
      var text := Strip(more[0]);
      var next := if text != "" && text !in have then have + [text] else have;
      MergedGrows(next, more[1..]);
      forall x
        ensures x in Merged(have, more)
                <==> x in have || exists i | 0 <= i < |more| :: Strip(more[i]) == x && x != ""
      {
        if exists i | 0 <= i < |more| :: Strip(more[i]) == x && x != "" {
          var i :| 0 <= i < |more| && Strip(more[i]) == x && x != "";
          if i > 0 { assert more[1..][i - 1] == more[i]; }
        }
        if exists i | 0 <= i < |more[1..]| :: Strip(more[1..][i]) == x && x != "" {
          var i :| 0 <= i < |more[1..]| && Strip(more[1..][i]) == x && x != "";
          assert more[i + 1] == more[1..][i];
        }
      }
    }
  }

  // ---- what a call does -----------------------------------------------------

  ghost predicate AllLegible(rows: seq<Event>) {
    forall e | e in rows :: Legible(e)
  }

  /** The item a call is about: the one it names, or a new one. */
  ghost function Target(items: Items, a: Action): string {
    if Strip(a.itemId) == "" then IdOf(Highest(items.Keys) + 1) else Strip(a.itemId)
  }

  /** What a call answers. */
  ghost function OutcomeOf(items: Items, a: Action): Outcome {
    if Acceptable(items, a) then Recorded(Target(items, a), Wanted(items, a).status) else Rejected
  }

  /** The log after a call. */
  ghost function Remembered(log: seq<Event>, a: Action): seq<Event> {
    var items := Project(Visible(log));
    if Acceptable(items, a) then log + RowsFor(items, a) else log
  }

  /** Only the target changed, it looks as wanted, and its history gained
      exactly the rows written. */
  ghost predicate Landed(items: Items, after: Items, a: Action, id: string, rows: seq<Event>)
    requires Acceptable(items, a)
  {
    && after.Keys == items.Keys + {id}
    && (forall other | other in items && other != id :: after[other] == items[other])
    && SameFace(after[id], Wanted(items, a))
    && after[id].history == Wanted(items, a).history + rows
  }

  lemma CreateStep(items: Items, a: Action, at: nat)
    requires Acceptable(items, a) && Strip(a.itemId) == ""
    ensures Landed(items, Step(items, CreateRow(a, Target(items, a)), at), a, Target(items, a), RowsFor(items, a))
  {
    NextIdIsNew(items.Keys, Highest(items.Keys));
  }

  lemma ReviseStep(items: Items, a: Action, at: nat)
    requires Acceptable(items, a) && Strip(a.itemId) != ""
    ensures var id, after := Strip(a.itemId), Step(items, ReviseRow(a), at);
            && after.Keys == items.Keys
            && (forall other | other in items && other != id :: after[other] == items[other])
            && SameFace(after[id], Wanted(items, a).(status := items[id].status))
            && after[id].history == items[id].history + [ReviseRow(a)]
  {
    var was := items[Strip(a.itemId)];
    StripIdem(a.note);
    StripIdem(a.kind);
    if a.content.Some? { StripIdem(a.content.value); }
    MergedStripped(was.refs, a.refs.value);
  }

  lemma NothingToRevise(items: Items, a: Action)
    requires Acceptable(items, a) && Strip(a.itemId) != "" && !Rewrites(a)
    ensures SameFace(items[Strip(a.itemId)], Wanted(items, a).(status := items[Strip(a.itemId)].status))
  {
  }

  lemma MoveStep(items: Items, id: string, s: Status, a: Action, at: nat)
    requires id != "" && id in items
    ensures var after := Step(items, MoveRow(id, s, a), at);
            && after.Keys == items.Keys
            && (forall other | other in items && other != id :: after[other] == items[other])
            && SameFace(after[id], items[id].(status := s))
            && after[id].history == items[id].history + [MoveRow(id, s, a)]
  {
  }

  /** An update whose rows are all read back. */
  lemma UpdateLands(rows: seq<Event>, a: Action)
    requires Acceptable(Project(rows), a) && Strip(a.itemId) != ""
    ensures var items := Project(rows);
            Landed(items, Project(rows + RowsFor(items, a)), a, Strip(a.itemId), RowsFor(items, a))
  {
    var items, id := Project(rows), Strip(a.itemId);
    var item := items[id];
    if Rewrites(a) {
      var e := ReviseRow(a);
      ReviseStep(items, a, |rows|);
      ProjectAppend(rows, e);
      if Moves(item, a) {
        var m := MoveRow(id, Asked(a).value, a);
        MoveStep(Project(rows + [e]), id, Asked(a).value, a, |rows + [e]|);
        ProjectAppend(rows + [e], m);
        Concat3(rows, [e], [m]);
        Concat3(item.history, [e], [m]);
        assert RowsFor(items, a) == [e] + [m];
      } else {
        assert RowsFor(items, a) == [e];
      }
    } else {
      var m := MoveRow(id, Asked(a).value, a);
      NothingToRevise(items, a);
      MoveStep(items, id, Asked(a).value, a, |rows|);
      ProjectAppend(rows, m);
      assert RowsFor(items, a) == [m];
    }
  }

  /** Rows about one item lengthen its history, and no row is made up. */
  lemma {:induction false} HistoryGrows(rows: seq<Event>, more: seq<Event>, id: string)
    requires id != "" && id in Project(rows)
    requires forall e | e in more :: e.id == id && !e.Create?
    ensures id in Project(rows + more) && Project(rows + more)[id].history == Project(rows)[id].history + more
  {
    if more == [] {
      assert rows + more == rows;
    } else {
      var init, e := more[..|more| - 1], more[|more| - 1];
      HistoryGrows(rows, init, id);
      assert more == init + [e];
      Concat3(rows, init, [e]);
      ProjectAppend(rows + init, e);
      assert e in more;
      Concat3(Project(rows)[id].history, init, [e]);
    }
  }

  lemma {:induction false} VisibleLength(rows: seq<Event>)
    ensures |Visible(rows)| <= |rows|
    ensures |Visible(rows)| == |rows| ==> AllLegible(rows)
  {
    if rows != [] {
      VisibleLength(rows[..|rows| - 1]);
      assert rows == rows[..|rows| - 1] + [rows[|rows| - 1]];
    }
  }

  lemma RowsAreAboutTheItem(items: Items, a: Action)
    requires Acceptable(items, a) && Strip(a.itemId) != ""
    ensures forall e | e in RowsFor(items, a) :: e.id == Strip(a.itemId) && !e.Create?
  {
  }

  lemma LostRowShows(rows: seq<Event>, a: Action, kept: seq<Event>)
    requires Acceptable(Project(rows), a) && Strip(a.itemId) != ""
    requires forall e | e in kept :: e.id == Strip(a.itemId) && !e.Create?
    requires |kept| < |RowsFor(Project(rows), a)|
    ensures !Landed(Project(rows), Project(rows + kept), a, Strip(a.itemId), RowsFor(Project(rows), a))
  {
    HistoryGrows(rows, kept, Strip(a.itemId));
  }

  /** An accepted update changes the projection only at its own item and
      exactly as requested, if and only if its rows are read back. */
  lemma AcceptedUpdate(log: seq<Event>, a: Action)
    requires Acceptable(Project(Visible(log)), a) && Strip(a.itemId) != ""
    ensures var items := Project(Visible(log));
            var rows := RowsFor(items, a);
            Landed(items, Project(Visible(log + rows)), a, Target(items, a), rows) <==> AllLegible(rows)
  {
    var rows := RowsFor(Project(Visible(log)), a);
    VisibleAppend(log, rows);
    if AllLegible(rows) {
      VisibleWhole(rows);
      UpdateLands(Visible(log), a);
    } else {
      VisibleMember(rows);
      VisibleLength(rows);
      RowsAreAboutTheItem(Project(Visible(log)), a);
      LostRowShows(Visible(log), a, Visible(rows));
    }
  }

  lemma AcceptedCreate(log: seq<Event>, a: Action)
    requires Acceptable(Project(Visible(log)), a) && Strip(a.itemId) == ""
    ensures var items := Project(Visible(log));
            var rows := RowsFor(items, a);
            Landed(items, Project(Visible(log + rows)), a, Target(items, a), rows) <==> AllLegible(rows)
  {
    var items := Project(Visible(log));
    var rows := RowsFor(items, a);
    var e := CreateRow(a, Target(items, a));
    assert rows == [e];
    VisibleAppend(log, rows);
    if Legible(e) {
      VisibleWhole(rows);
      CreateStep(items, a, |Visible(log)|);
      ProjectAppend(Visible(log), e);
    } else {
      assert e in rows;
      assert Visible(rows) == Visible(rows[..0]) + [] == [];
      assert Visible(log) + [] == Visible(log);
      NextIdIsNew(items.Keys, Highest(items.Keys));
    }
  }

  /** The writer agrees with the fold: an accepted call lands exactly as
      requested, and the status it answers is the status then on file, if and
      only if no text it wrote holds a raw line separator; a rejected call
      leaves the log as it was. */
  lemma WriterAgreesWithFold(log: seq<Event>, a: Action)
    ensures var items := Project(Visible(log));
            var after := Project(Visible(Remembered(log, a)));
            match OutcomeOf(items, a)
            case Rejected => Remembered(log, a) == log
            case Recorded(id, status) =>
              && log <= Remembered(log, a)
              && (Landed(items, after, a, id, RowsFor(items, a)) <==> AllLegible(RowsFor(items, a)))
              && (AllLegible(RowsFor(items, a)) ==> after[id].status == status)
  {
    if Acceptable(Project(Visible(log)), a) {
      if Strip(a.itemId) == "" { AcceptedCreate(log, a); } else { AcceptedUpdate(log, a); }
    }
  }

  // ---- in the caller's words ------------------------------------------------

  predicate SaysSomething(refs: Option<seq<string>>) {
    refs.Some? && forall i | 0 <= i < |refs.value| :: !Blank(refs.value[i])
  }

  /** A new item is accepted if and only if its references say something, it has
      content, and its status, if any, is active, parked for a reason, or closed
      with a scope. */
  lemma AcceptedNewExactly(items: Items, a: Action)
    requires Strip(a.itemId) == ""
    ensures Acceptable(items, a) <==>
      && SaysSomething(a.refs) && a.content.Some? && !Blank(a.content.value)
      && (a.status == None || a.status == Some("active")
          || (a.status == Some("parked") && !Blank(a.parkReason))
          || (a.status == Some("closed") && !Blank(a.closeScope)))
  {
  }

  /** The call moves the item: to another status, or to the same one on new
      grounds. */
  predicate MovesTo(was: Status, a: Action) {
    || (a.status == Some("active") && was != Active)
    || (a.status == Some("parked") && (was != Parked || !Blank(a.parkReason)))
    || (a.status == Some("closed") && (was != Closed || !Blank(a.closeScope)))
  }

  /** A change is accepted if and only if the item is on file, what is given is
      well formed, a move to parked has its reason and a move to closed its
      scope, and there is something to move or to write. */
  lemma AcceptedChangeExactly(items: Items, a: Action)
    requires Strip(a.itemId) != ""
    ensures Acceptable(items, a) <==>
      && Strip(a.itemId) in items && SaysSomething(a.refs)
      && (a.status.Some? ==> a.status.value in {"active", "parked", "closed"})
      && var was := items[Strip(a.itemId)].status;
      && (MovesTo(was, a) && a.status == Some("parked") ==> !Blank(a.parkReason))
      && (MovesTo(was, a) && a.status == Some("closed") ==> !Blank(a.closeScope))
      && (MovesTo(was, a) || (a.content.Some? && !Blank(a.content.value)) || a.refs != Some([])
          || !Blank(a.note) || !Blank(a.kind))
  {
  }

  /** The status a call names, or else the one there was. */
  predicate StatusIs(s: Status, a: Action, was: Status) {
    && (a.status == Some("active") ==> s == Active)
    && (a.status == Some("parked") ==> s == Parked)
    && (a.status == Some("closed") ==> s == Closed)
    && (a.status == None ==> s == was)
  }

  predicate TextIs(now: string, given: string, was: string) {
    now == if Blank(given) then was else Strip(given)
  }

  /** What an accepted new item is on file, once its row is read back. */
  lemma NewItemOnFile(log: seq<Event>, a: Action)
    requires Strip(a.itemId) == "" && Acceptable(Project(Visible(log)), a)
    requires AllLegible(RowsFor(Project(Visible(log)), a))
    ensures var items, after := Project(Visible(log)), Project(Visible(Remembered(log, a)));
      var id := OutcomeOf(items, a).id;
      && id !in items && id in after
      && var item := after[id];
      && item.content == Strip(a.content.value) && StatusIs(item.status, a, Active)
      && |item.refs| == |a.refs.value| && (forall i | 0 <= i < |item.refs| :: item.refs[i] == Strip(a.refs.value[i]))
      && item.note == Strip(a.note) && item.kind == Strip(a.kind)
      && |item.history| == 1
      && (a.status == Some("parked") ==> item.history[0].reason == Strip(a.parkReason))
      && (a.status == Some("closed") ==> item.history[0].scope == Strip(a.closeScope))
  {
    hide Project, Visible, AllLegible, Merged, Strip, Blank, Highest, IsHighest, IdOf;
    var items := Project(Visible(log));
    AcceptedCreate(log, a);
    NextIdIsNew(items.Keys, Highest(items.Keys));
    assert RowsFor(items, a) == [CreateRow(a, Target(items, a))];
    assert [] + RowsFor(items, a) == RowsFor(items, a);
  }

  /** What an accepted change leaves on file, once its rows are read back. */
  lemma ChangedItemOnFile(log: seq<Event>, a: Action)
    requires Strip(a.itemId) != "" && Acceptable(Project(Visible(log)), a)
    requires AllLegible(RowsFor(Project(Visible(log)), a))
    ensures var id := Strip(a.itemId); var items, after := Project(Visible(log)), Project(Visible(Remembered(log, a)));
      && id in items && id in after
      && var was, item := items[id], after[id];
      && item.content == (if a.content.Some? && !Blank(a.content.value) then Strip(a.content.value) else was.content)
      && StatusIs(item.status, a, was.status)
      && item.refs == Merged(was.refs, a.refs.value)
      && TextIs(item.note, a.note, was.note) && TextIs(item.kind, a.kind, was.kind)
      && (MovesTo(was.status, a) ==>
            && item.history != []
            && var e := item.history[|item.history| - 1];
            && (a.status == Some("active") ==> e == Reopen(id))
            && (a.status == Some("parked") ==> e == Park(id, Strip(a.parkReason)))
            && (a.status == Some("closed") ==> e == Close(id, Strip(a.closeScope))))
  {
    hide Project, Visible, AllLegible, Merged, Strip, Blank;
    AcceptedUpdate(log, a);
    var items := Project(Visible(log));
    var rows := RowsFor(items, a);
    var item := Project(Visible(Remembered(log, a)))[Strip(a.itemId)];
    assert item.history == items[Strip(a.itemId)].history + rows;
    if MovesTo(items[Strip(a.itemId)].status, a) {
      assert Moves(items[Strip(a.itemId)], a);
      assert rows[|rows| - 1] == MoveRow(Strip(a.itemId), Asked(a).value, a);
      assert item.history[|item.history| - 1] == rows[|rows| - 1];
    }
  }

  /** A new item whose row is not read back leaves no trace, and its id is
      dealt again. */
  lemma LostCreateIsDealtAgain(log: seq<Event>, a: Action, b: Action)
    requires Acceptable(Project(Visible(log)), a) && Strip(a.itemId) == ""
    requires Acceptable(Project(Visible(log)), b) && Strip(b.itemId) == ""
    requires !AllLegible(RowsFor(Project(Visible(log)), a))
    ensures Project(Visible(Remembered(log, a))) == Project(Visible(log))
    ensures OutcomeOf(Project(Visible(Remembered(log, a))), b).id == OutcomeOf(Project(Visible(log)), a).id
  {
    var rows := RowsFor(Project(Visible(log)), a);
    VisibleAppend(log, rows);
    assert Visible(rows) == Visible(rows[..0]) + [] == [];
    assert Visible(log) + [] == Visible(log);
  }

  /** Such a call exists: a separator inside the content. */
  lemma SeparatorLosesTheRow()
    ensures var a := Action("", None, Some("a\U{2028}b"), Some([]), "", "", "", "");
            Acceptable(Project(Visible([])), a) && !AllLegible(RowsFor(Project(Visible([])), a))
  {
    var a := Action("", None, Some("a\U{2028}b"), Some([]), "", "", "", "");
    var text := a.content.value;
    assert StripLeft(text) == text && StripRight(text) == text;
    assert Strip("") == "";
    var e := CreateRow(a, IdOf(Highest(Project(Visible([])).Keys) + 1));
    assert SplitsLine(e.content[1]);
    assert !Legible(e);
    assert e in RowsFor(Project(Visible([])), a);
  }

  // ---- references -----------------------------------------------------------

  lemma StepKeepsRefs(items: Items, e: Event, at: nat, id: string)
    requires id in items && (e.Create? ==> e.id != id)
    ensures id in Step(items, e, at) && items[id].refs <= Step(items, e, at)[id].refs
  {
    if e.Revise? && e.id == id { MergedGrows(items[id].refs, e.refs); }
  }

  /** Evidence on file is never taken back, whatever is appended, short of a
      second create for the same id. */
  lemma {:induction false} RefsOnlyGrow(rows: seq<Event>, more: seq<Event>, id: string)
    requires id in Project(rows)
    requires forall e | e in more && e.Create? :: e.id != id
    ensures id in Project(rows + more) && Project(rows)[id].refs <= Project(rows + more)[id].refs
  {
    if more == [] {
      assert rows + more == rows;
    } else {
      var init, e := more[..|more| - 1], more[|more| - 1];
      RefsOnlyGrow(rows, init, id);
      assert more == init + [e];
      Concat3(rows, init, [e]);
      ProjectAppend(rows + init, e);
      assert e in more;
      StepKeepsRefs(Project(rows + init), e, |rows + init|, id);
    }
  }
}
