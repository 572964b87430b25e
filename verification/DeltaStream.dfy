/** The observatory's bounded delta window and the followers that read it by
    cursor (scientist/ui/server.py). */
module DeltaStream {
  import opened Basics

  const WINDOW := 10000

  datatype Item = Item(kind: string, data: string)

  /** `delta-<id>`, the first of a service being `delta-1`. */
  datatype Delta = Delta(id: nat, item: Item)

  /** A cursor is the id last seen: of a delta, none, or something else. */
  datatype Cursor = Start | At(id: nat) | Foreign

  /** What goes to a follower. A snapshot request names the newest id. */
  datatype Event = Change(delta: Delta) | SnapshotRequired(resumeAt: Cursor)

  function CursorOf(e: Event): Cursor {
    match e
    case Change(d) => At(d.id)
    case SnapshotRequired(c) => c
  }

  /** All deltas of the service, numbered from one. */
  ghost predicate Numbered(all: seq<Delta>) {
    forall i | 0 <= i < |all| :: all[i].id == i + 1
  }

  /** The retained ones. */
  ghost predicate Retained(all: seq<Delta>, window: seq<Delta>) {
    && |window| == (if |all| <= WINDOW then |all| else WINDOW)
    && window == all[|all| - |window|..]
  }

  function Changes(ds: seq<Delta>): (es: seq<Event>)
    ensures |es| == |ds|
  {
    seq(|ds|, i requires 0 <= i < |ds| => Change(ds[i]))
  }

  /** Can replay from this cursor be gap-free: it is the id of a retained delta. */
  predicate Covered(total: nat, cursor: Cursor) {
    cursor.At? && cursor.id <= total && total - WINDOW < cursor.id && 1 <= cursor.id
  }

  /** What a follower at `cursor` is owed, in terms of all deltas ever. */
  ghost function Owed(all: seq<Delta>, cursor: Cursor): seq<Event> {
    if cursor == Start then Changes(if |all| <= WINDOW then all else all[|all| - WINDOW..])
    else if Covered(|all|, cursor) then Changes(all[cursor.id..])
    else [SnapshotRequired(if all == [] then Foreign else At(|all|))]
  }

  class Observatory {
    var deltas: seq<Delta>
    var nextDelta: nat
    ghost var all: seq<Delta>

    ghost predicate Valid()
      reads this
    {
      Numbered(all) && Retained(all, deltas) && nextDelta == |all| + 1
    }

    constructor ()
      ensures Valid() && all == []
    {
      deltas, nextDelta, all := [], 1, [];
    }

    /** Number the projected items and push them through the bounded window. */
    method PollOnce(projected: seq<Item>) returns (added: seq<Delta>)
      requires Valid()
      modifies this
      ensures Valid() && all == old(all) + added && |added| == |projected|
      ensures forall i | 0 <= i < |projected| :: added[i] == Delta(|old(all)| + 1 + i, projected[i])
      ensures deltas == if |all| <= 10000 then all else all[|all| - 10000..]
    {
      added := [];
      for i := 0 to |projected|
        invariant Valid() && all == old(all) + added && |added| == i
        invariant forall j | 0 <= j < i :: added[j] == Delta(|old(all)| + 1 + j, projected[j])
      {
        var delta := Append(projected[i]);
        Concat3(old(all), added, [delta]);
        added := added + [delta];
      }
      RetainedExactly(all, deltas);
    }

    /** `deque.append` at its bound drops the oldest. */
    method Append(item: Item) returns (delta: Delta)
      requires Valid()
      modifies this
      ensures Valid() && all == old(all) + [delta] && delta == Delta(|old(all)| + 1, item)
    {
      delta := Delta(nextDelta, item);
      nextDelta := nextDelta + 1;
      PushRetains(all, deltas, delta);
      deltas := deltas + [delta];
      if |deltas| > WINDOW {
        deltas := deltas[1..];
      }
      all := all + [delta];
    }

    method EventsAfter(cursor: Cursor) returns (events: seq<Event>)
      requires Valid()
      ensures events == Owed(all, cursor)
    {
      if cursor == Start {
        return Changes(deltas);
      }
      var index := 0;
      while index < |deltas|
        invariant index <= |deltas|
        invariant forall j | 0 <= j < index :: cursor != At(deltas[j].id)
      {
        if cursor == At(deltas[index].id) {
          FoundInWindow(all, deltas, index);
          return Changes(deltas[index + 1..]);
        }
        index := index + 1;
      }
      NotInWindow(all, deltas, cursor);
      if deltas == [] {
        return [SnapshotRequired(Foreign)];
      }
      return [SnapshotRequired(At(deltas[|deltas| - 1].id))];
    }
  }

  lemma RetainedExactly(all: seq<Delta>, window: seq<Delta>)
    requires Retained(all, window)
    ensures window == if |all| <= 10000 then all else all[|all| - 10000..]
  {
    assert all[0..] == all;
  }

  lemma PushRetains(all: seq<Delta>, window: seq<Delta>, delta: Delta)
    requires Retained(all, window)
    ensures Retained(all + [delta], if |window| + 1 > WINDOW then (window + [delta])[1..] else window + [delta])
  {
    AppendToSuffix(all, |all| - |window|, delta);
    if |window| == WINDOW {
      SuffixOfSuffix(all + [delta], |all| - |window|);
    }
  }

  lemma AppendToSuffix(all: seq<Delta>, k: nat, delta: Delta)
    requires k <= |all|
    ensures (all + [delta])[k..] == all[k..] + [delta]
  {
  }

  lemma SuffixOfSuffix(all: seq<Delta>, k: nat)
    requires k < |all|
    ensures all[k..][1..] == all[k + 1..]
  {
  }

  lemma FoundInWindow(all: seq<Delta>, window: seq<Delta>, index: nat)
    requires Numbered(all) && Retained(all, window) && index < |window|
    ensures Covered(|all|, At(window[index].id))
    ensures Changes(window[index + 1..]) == Changes(all[window[index].id..])
  {
    var at := |all| - |window| + index;
    assert window[index] == all[at];
    assert window[index + 1..] == all[at + 1..];
  }

  lemma CoveredIsFound(all: seq<Delta>, window: seq<Delta>, cursor: Cursor)
    requires Numbered(all) && Retained(all, window) && Covered(|all|, cursor)
    ensures exists j | 0 <= j < |window| :: At(window[j].id) == cursor
  {
    var j := cursor.id - 1 - (|all| - |window|);
    assert window[j] == all[cursor.id - 1];
  }

  lemma NotInWindow(all: seq<Delta>, window: seq<Delta>, cursor: Cursor)
    requires Numbered(all) && Retained(all, window)
    requires forall j | 0 <= j < |window| :: cursor != At(window[j].id)
    ensures !Covered(|all|, cursor)
    ensures all != [] ==> window != [] && window[|window| - 1].id == |all|
  {
    if Covered(|all|, cursor) {
      CoveredIsFound(all, window, cursor);
      assert false;
    }
  }

  // ---- followers ------------------------------------------------------------

  predicate NextTo(before: Cursor, e: Event) {
    e.Change? ==> before == Start || (before.At? && before.id + 1 == e.delta.id)
  }

  /** Each event continues from the cursor before it: a change carries the next
      id, a snapshot request may jump. */
  ghost predicate Continues(cursor: Cursor, events: seq<Event>) {
    forall i | 0 <= i < |events| :: NextTo(CursorBefore(cursor, events, i), events[i])
  }

  function CursorBefore(cursor: Cursor, events: seq<Event>, i: nat): Cursor
    requires i <= |events|
  {
    if i == 0 then cursor else CursorOf(events[i - 1])
  }

  /** Each change is the delta of that id. */
  ghost predicate Truthful(all: seq<Delta>, events: seq<Event>) {
    forall i | 0 <= i < |events| && events[i].Change? ::
      1 <= events[i].delta.id <= |all| && events[i].delta == all[events[i].delta.id - 1]
  }

  function After(cursor: Cursor, events: seq<Event>): Cursor {
    if events == [] then cursor else CursorOf(events[|events| - 1])
  }

  /** One reply: gap-free, true, and up to date at its end. */
  lemma OneReply(all: seq<Delta>, cursor: Cursor)
    requires Numbered(all)
    ensures var events := Owed(all, cursor);
      && Continues(cursor, events) && Truthful(all, events)
      && (all != [] ==> After(cursor, events) == At(|all|))
      && (all == [] ==> After(cursor, events) in {Start, Foreign})
      && (cursor == Start ==> |events| == if |all| <= 10000 then |all| else 10000)
      && (cursor.At? && 1 <= cursor.id <= |all| < cursor.id + 10000 ==> |events| == |all| - cursor.id)
      && (cursor != Start ==>
            ((exists i | 0 <= i < |events| :: events[i].SnapshotRequired?)
             <==> !(cursor.At? && 1 <= cursor.id <= |all| < cursor.id + 10000)))
  {
    if cursor == Start {
      var k := if |all| <= WINDOW then 0 else |all| - WINDOW;
      assert all[0..] == all;
      ChangesFrom(all, k, cursor);
    } else if Covered(|all|, cursor) {
      ChangesFrom(all, cursor.id, cursor);
    } else {
      assert Owed(all, cursor)[0].SnapshotRequired?;
    }
  }

  lemma ChangesFrom(all: seq<Delta>, k: nat, cursor: Cursor)
    requires Numbered(all) && k <= |all| && (cursor == Start || cursor == At(k))
    ensures var events := Changes(all[k..]);
      && Continues(cursor, events) && Truthful(all, events)
      && After(cursor, events) == (if k < |all| then At(|all|) else cursor)
      && forall i | 0 <= i < |events| :: events[i].Change?
  {
    var events := Changes(all[k..]);
    forall i | 0 <= i < |events|
      ensures events[i] == Change(all[k + i]) && NextTo(CursorBefore(cursor, events, i), events[i])
    {
      assert all[k..][i] == all[k + i];
      if i > 0 { assert events[i - 1] == Change(all[k + i - 1]); }
    }
  }

  lemma ContinuesAppend(cursor: Cursor, a: seq<Event>, b: seq<Event>)
    requires Continues(cursor, a) && Continues(After(cursor, a), b)
    ensures Continues(cursor, a + b)
  {
    var all := a + b;
    forall i | 0 <= i < |all| ensures NextTo(CursorBefore(cursor, all, i), all[i]) {
      if i < |a| {
        assert CursorBefore(cursor, all, i) == CursorBefore(cursor, a, i) && all[i] == a[i];
      } else {
        assert CursorBefore(cursor, all, i) == CursorBefore(After(cursor, a), b, i - |a|) && all[i] == b[i - |a|];
      }
    }
  }

  lemma TruthfulLater(all: seq<Delta>, more: seq<Delta>, events: seq<Event>)
    requires Truthful(all, events)
    ensures Truthful(all + more, events)
  {
  }

  /** How often a follower is told to take a new snapshot. */
  function Demands(events: seq<Event>): nat {
    if events == [] then 0
    else Demands(events[..|events| - 1]) + if events[|events| - 1].SnapshotRequired? then 1 else 0
  }

  lemma {:induction false} DemandsAppend(a: seq<Event>, b: seq<Event>)
    ensures Demands(a + b) == Demands(a) + Demands(b)
  {
    if b == [] {
      assert a + b == a;
    } else {
      DemandsAppend(a, b[..|b| - 1]);
      assert (a + b)[..|a + b| - 1] == a + b[..|b| - 1];
    }
  }

  lemma {:induction false} ChangesDemandNothing(ds: seq<Delta>)
    ensures Demands(Changes(ds)) == 0
  {
    if ds != [] {
      ChangesDemandNothing(ds[..|ds| - 1]);
      assert Changes(ds)[..|ds| - 1] == Changes(ds[..|ds| - 1]);
    }
  }

  lemma OwedDemands(all: seq<Delta>, cursor: Cursor)
    ensures Demands(Owed(all, cursor)) == if cursor == Start || Covered(|all|, cursor) then 0 else 1
  {
    if cursor == Start {
      ChangesDemandNothing(if |all| <= WINDOW then all else all[|all| - WINDOW..]);
    } else if Covered(|all|, cursor) {
      ChangesDemandNothing(all[cursor.id..]);
    } else {
      var e := SnapshotRequired(if all == [] then Foreign else At(|all|));
      assert [e][..0] == [];
    }
  }

  /** How many of the polls push the whole window out. */
  function Bursts(batches: seq<seq<Item>>): nat {
    if batches == [] then 0
    else Bursts(batches[..|batches| - 1]) + if |batches[|batches| - 1]| >= WINDOW then 1 else 0
  }

  lemma NothingSent(all: seq<Delta>, start: Cursor)
    ensures Continues(start, []) && Truthful(all, []) && After(start, []) == start && Demands([]) == 0
    ensures Bursts([]) == 0
  {
  }

  lemma BurstsMore(batches: seq<seq<Item>>, i: nat)
    requires i < |batches|
    ensures Bursts(batches[..i + 1]) == Bursts(batches[..i]) + if |batches[i]| >= WINDOW then 1 else 0
  {
    assert batches[..i + 1][..i] == batches[..i];
  }

  /** The loop of `_stream`, the observatory polling between two looks. Between
      snapshot requests a follower that starts at an id receives a run of
      consecutive ids; each look leaves it at the newest. Once there are deltas,
      it is told to take a snapshot once if its cursor is not covered at first,
      and once for each poll that pushes the whole window out between two looks;
      never otherwise. */
  method Follow(observatory: Observatory, start: Cursor, batches: seq<seq<Item>>)
    returns (sent: seq<Event>, cursor: Cursor)
    requires observatory.Valid()
    modifies observatory
    ensures observatory.Valid() && old(observatory.all) <= observatory.all
    ensures Continues(start, sent) && Truthful(observatory.all, sent)
    ensures cursor == After(start, sent)
    ensures observatory.all != [] ==> cursor == At(|observatory.all|)
    ensures old(observatory.all) != [] ==>
              Demands(sent) == Bursts(batches)
                               + if start == Start || Covered(|old(observatory.all)|, start) then 0 else 1
  {
    hide Continues, Truthful, Numbered, Retained, Owed, Demands, After, Bursts;
    NothingSent(observatory.all, start);
    sent, cursor := Look(observatory, start, [], start);
    ghost var first := Demands(sent);
    for i := 0 to |batches|
      invariant observatory.Valid() && old(observatory.all) <= observatory.all
      invariant Continues(start, sent) && Truthful(observatory.all, sent) && cursor == After(start, sent)
      invariant observatory.all != [] ==> cursor == At(|observatory.all|)
      invariant old(observatory.all) != [] ==> Demands(sent) == first + Bursts(batches[..i])
    {
      ghost var was := observatory.all;
      var added := observatory.PollOnce(batches[i]);
      TruthfulLater(was, added, sent);
      BurstsMore(batches, i);
      sent, cursor := Look(observatory, start, sent, cursor);
    }
    assert batches[..|batches|] == batches;
  }

  /** Write out whatever is owed and move the cursor along. */
  method Look(observatory: Observatory, ghost start: Cursor, before: seq<Event>, at: Cursor)
    returns (sent: seq<Event>, cursor: Cursor)
    requires observatory.Valid()
    requires Continues(start, before) && Truthful(observatory.all, before) && at == After(start, before)
    ensures sent == before + Owed(observatory.all, at)
    ensures Continues(start, sent) && Truthful(observatory.all, sent) && cursor == After(start, sent)
    ensures observatory.all != [] ==> cursor == At(|observatory.all|)
    ensures Demands(sent) == Demands(before) + if at == Start || Covered(|observatory.all|, at) then 0 else 1
  {
    var events := observatory.EventsAfter(at);
    OneReply(observatory.all, at);
    OwedDemands(observatory.all, at);
    DemandsAppend(before, events);
    ContinuesAppend(start, before, events);
    TruthfulAppend(observatory.all, before, events);
    sent, cursor := Write(before, at, events);
  }

  method Write(before: seq<Event>, at: Cursor, events: seq<Event>) returns (sent: seq<Event>, cursor: Cursor)
    ensures sent == before + events && cursor == After(at, events)
  {
    sent, cursor := before, at;
    for i := 0 to |events|
      invariant sent == before + events[..i]
      invariant cursor == After(at, events[..i])
    {
      sent := sent + [events[i]];
      cursor := CursorOf(events[i]);
    }
    assert events[..|events|] == events;
  }

  lemma TruthfulAppend(all: seq<Delta>, a: seq<Event>, b: seq<Event>)
    requires Truthful(all, a) && Truthful(all, b)
    ensures Truthful(all, a + b)
  {
  }
}
