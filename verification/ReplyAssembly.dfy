/** Putting a streamed reply together: the two decoders and their shared tail
    (scientist/model.py, scientist/model_stdlib.py). */
module ReplyAssembly {
  import opened Basics
  import NativeTools

  datatype Usage = Usage(text: string, completionTokens: Option<int>)

  datatype Function = Function(name: string, arguments: string)

  /** Part of a tool call; an absent id, name or argument text is empty. */
  datatype Fragment = Fragment(index: Option<int>, id: string, function_: Option<Function>)

  datatype Delta = Delta(content: string, reasoning: string, fragments: seq<Fragment>)

  datatype Choice = Choice(finish: string, delta: Option<Delta>)

  /** One piece of the stream, with its first choice if it has one. */
  datatype Chunk = Chunk(usage: Option<Usage>, choice: Option<Choice>)

  datatype Slot = Slot(id: string, name: string, arguments: string)

  type Slots = map<int, Slot>

  /** How the JSON reader takes argument text: the keys of an object, or
      nothing for text that is not one. */
  type ReadsJson = string -> Option<map<string, string>>

  datatype Outcome =
    | Delivered(reply: NativeTools.Reply, reasoning: string, usage: Option<Usage>)
    | Empty(finish: string, completionTokens: Option<int>)
    | Dropped

  // ---- what a stream says ---------------------------------------------------

  function Part(c: Chunk): Delta {
    if c.choice.Some? && c.choice.value.delta.Some? then c.choice.value.delta.value else Delta("", "", [])
  }

  function Content(chunks: seq<Chunk>): string {
    if chunks == [] then "" else Content(chunks[..|chunks| - 1]) + Part(chunks[|chunks| - 1]).content
  }

  function Reasoning(chunks: seq<Chunk>): string {
    if chunks == [] then "" else Reasoning(chunks[..|chunks| - 1]) + Part(chunks[|chunks| - 1]).reasoning
  }

  function Fragments(chunks: seq<Chunk>): seq<Fragment> {
    if chunks == [] then [] else Fragments(chunks[..|chunks| - 1]) + Part(chunks[|chunks| - 1]).fragments
  }

  function LastUsage(chunks: seq<Chunk>): Option<Usage> {
    if chunks == [] then None
    else if chunks[|chunks| - 1].usage.Some? then chunks[|chunks| - 1].usage
    else LastUsage(chunks[..|chunks| - 1])
  }

  function LastFinish(chunks: seq<Chunk>): string {
    if chunks == [] then ""
    else
      var c := chunks[|chunks| - 1].choice;
      if c.Some? && c.value.finish != "" then c.value.finish else LastFinish(chunks[..|chunks| - 1])
  }

  function IndexOf(f: Fragment): int {
    if f.index.Some? then f.index.value else 0
  }

  /** The fragments of one call, in order. */
  function At(fragments: seq<Fragment>, index: int): seq<Fragment> {
    if fragments == [] then []
    else
      var f := fragments[|fragments| - 1];
      At(fragments[..|fragments| - 1], index) + if IndexOf(f) == index then [f] else []
  }

  function LastId(fragments: seq<Fragment>): string {
    if fragments == [] then ""
    else if fragments[|fragments| - 1].id != "" then fragments[|fragments| - 1].id
    else LastId(fragments[..|fragments| - 1])
  }

  function NameIn(f: Fragment): string {
    if f.function_.Some? then f.function_.value.name else ""
  }

  function ArgumentsIn(f: Fragment): string {
    if f.function_.Some? then f.function_.value.arguments else ""
  }

  function Names(fragments: seq<Fragment>): string {
    if fragments == [] then "" else Names(fragments[..|fragments| - 1]) + NameIn(fragments[|fragments| - 1])
  }

  function Arguments(fragments: seq<Fragment>): string {
    if fragments == [] then ""
    else Arguments(fragments[..|fragments| - 1]) + ArgumentsIn(fragments[|fragments| - 1])
  }

  function SlotOf(fragments: seq<Fragment>): Slot {
    Slot(LastId(fragments), Names(fragments), Arguments(fragments))
  }

  function Indices(fragments: seq<Fragment>): set<int> {
    set f | f in fragments :: IndexOf(f)
  }

  /** The calls of a stream, by index. */
  function SlotsOf(fragments: seq<Fragment>): Slots {
    map i | i in Indices(fragments) :: SlotOf(At(fragments, i))
  }

  // ---- the shared tail ------------------------------------------------------

  function ToolCallOf(slot: Slot, json: ReadsJson): NativeTools.ToolCall {
    NativeTools.ToolCall(slot.id, slot.name, slot.arguments,
                         if Blank(slot.arguments) then Some(map[]) else json(slot.arguments))
  }

  ghost predicate IsLeastInt(m: int, s: set<int>) {
    m in s && forall x | x in s :: m <= x
  }

  lemma SomeMember<T>(s: set<T>) returns (x: T)
    requires s != {}
    ensures x in s
  {
    x :| x in s;
  }

  lemma SomeIndex(s: set<int>)
    requires s != {}
    ensures exists x :: x in s
  {
    var x := SomeMember(s);
    assert x in s;
  }

  lemma LeastIntExists(s: set<int>)
    requires s != {}
    ensures exists m :: IsLeastInt(m, s)
  {
    SomeIndex(s);
    var x :| x in s;
    if !IsLeastInt(x, s) {
      var y :| y in s && y < x;
      assert y in s - {x};
      LeastIntExists(s - {x});
      var m :| IsLeastInt(m, s - {x});
      assert forall z | z in s :: z == x || z in s - {x};
      assert IsLeastInt(m, s);
    }
  }

  ghost function Ascending(s: set<int>): (r: seq<int>)
    ensures Elements(r) == s && |r| == |s|
  {
    if s == {} then []
    else
      LeastIntExists(s);
      var m :| IsLeastInt(m, s);
      ElementsAppend([m], Ascending(s - {m}));
      [m] + Ascending(s - {m})
  }

  lemma AscendingFirst(s: set<int>, m: int)
    requires IsLeastInt(m, s)
    ensures Ascending(s) == [m] + Ascending(s - {m})
  {
  }

  ghost predicate Climbs(order: seq<int>) {
    forall i, j | 0 <= i < j < |order| :: order[i] < order[j]
  }

  lemma ClimbsFrom(m: int, rest: seq<int>)
    requires Climbs(rest) && forall j | 0 <= j < |rest| :: m < rest[j]
    ensures Climbs([m] + rest)
  {
  }

  lemma LeastComesFirst(s: set<int>, m: int)
    requires IsLeastInt(m, s)
    ensures forall j | 0 <= j < |Ascending(s - {m})| :: m < Ascending(s - {m})[j]
  {
    hide Ascending;
    var rest := Ascending(s - {m});
    forall j | 0 <= j < |rest| ensures m < rest[j] {
      assert rest[j] in Elements(rest);
    }
  }

  lemma {:induction false} AscendingIsSorted(s: set<int>)
    ensures Climbs(Ascending(s))
  {
    if s != {} {
      LeastIntExists(s);
      var m :| IsLeastInt(m, s);
      AscendingFirst(s, m);
      hide Ascending, Climbs;
      AscendingIsSorted(s - {m});
      LeastComesFirst(s, m);
      ClimbsFrom(m, Ascending(s - {m}));
    }
  }

  ghost function Named(slots: Slots): set<int> {
    set i | i in slots && slots[i].name != ""
  }

  /** The calls of the named slots among some indices, in that order. */
  ghost function CallsAt(slots: Slots, order: seq<int>, json: ReadsJson): seq<NativeTools.ToolCall>
    requires Elements(order) <= slots.Keys
  {
    if order == [] then []
    else
      var last := order[|order| - 1];
      assert last in Elements(order) && Elements(order[..|order| - 1]) <= Elements(order);
      CallsAt(slots, order[..|order| - 1], json)
      + if slots[last].name != "" then [ToolCallOf(slots[last], json)] else []
  }

  ghost function CallsOf(slots: Slots, json: ReadsJson): seq<NativeTools.ToolCall> {
    CallsAt(slots, Ascending(slots.Keys), json)
  }

  ghost function Assembled(text: string, usage: Option<Usage>, finish: string, slots: Slots, reasoning: string,
                           json: ReadsJson): Outcome {
    var calls := CallsOf(slots, json);
    if Blank(text) && calls == [] then
      Empty(finish, if usage.Some? then usage.value.completionTokens else None)
    else
      Delivered(NativeTools.Reply(text, calls), reasoning, usage)
  }

  /** The reply a stream of chunks stands for. */
  ghost function ReplyOf(chunks: seq<Chunk>, json: ReadsJson): Outcome {
    Assembled(Content(chunks), LastUsage(chunks), LastFinish(chunks), SlotsOf(Fragments(chunks)),
              Reasoning(chunks), json)
  }

  function Joined(parts: seq<string>): string {
    if parts == [] then "" else Joined(parts[..|parts| - 1]) + parts[|parts| - 1]
  }

  lemma JoinedMore(parts: seq<string>, part: string)
    ensures Joined(parts + [part]) == Joined(parts) + part
  {
    assert (parts + [part])[..|parts|] == parts;
  }

  /** The named calls in index order. */
  method OrderedCalls(slots: Slots, json: ReadsJson) returns (calls: seq<NativeTools.ToolCall>)
    ensures calls == CallsOf(slots, json)
  {
    calls := [];
    var left := slots.Keys;
    ghost var order: seq<int> := [];
    while left != {}
      invariant left <= slots.Keys
      invariant order + Ascending(left) == Ascending(slots.Keys)
      invariant Elements(order) <= slots.Keys
      invariant calls == CallsAt(slots, order, json)
      decreases |left|
    {
      var index := LeastOf(left);
      AscendingFirst(left, index);
      Concat3(order, [index], Ascending(left - {index}));
      ElementsAppend(order, [index]);
      CallsAtMore(slots, order, index, json);
      if slots[index].name != "" { calls := calls + [ToolCallOf(slots[index], json)]; }
      order := order + [index];
      left := left - {index};
    }
    assert order + [] == order;
  }

  lemma CallsAtMore(slots: Slots, order: seq<int>, index: int, json: ReadsJson)
    requires Elements(order) <= slots.Keys && index in slots && Elements(order + [index]) <= slots.Keys
    ensures CallsAt(slots, order + [index], json)
            == CallsAt(slots, order, json) + if slots[index].name != "" then [ToolCallOf(slots[index], json)] else []
  {
    assert (order + [index])[..|order|] == order;
  }

  /** Joins the text, puts the calls in index order, leaves out those that never
      got a name, and reports an empty reply with its evidence. */
  method AssembleStreamReply(parts: seq<string>, usage: Option<Usage>, finish: string, slots: Slots,
                             reasoning: string, json: ReadsJson)
      returns (outcome: Outcome)
    ensures outcome == Assembled(Joined(parts), usage, finish, slots, reasoning, json)
  {
    var text := Joined(parts);
    var calls := OrderedCalls(slots, json);
    if Blank(text) && calls == [] {
      outcome := Empty(finish, if usage.Some? then usage.value.completionTokens else None);
    } else {
      outcome := Delivered(NativeTools.Reply(text, calls), reasoning, usage);
    }
  }

  method LeastOf(s: set<int>) returns (m: int)
    requires s != {}
    ensures IsLeastInt(m, s)
  {
    SomeIndex(s);
    m :| m in s;
    var left := s - {m};
    while left != {}
      invariant left <= s && m in s
      invariant forall x | x in s && x !in left :: m <= x
      decreases |left|
    {
      SomeIndex(left);
      var x :| x in left;
      if x < m { m := x; }
      left := left - {x};
    }
  }

  // ---- the decoders ---------------------------------------------------------

  lemma AtMore(fragments: seq<Fragment>, f: Fragment, k: int)
    ensures At(fragments + [f], k) == if IndexOf(f) == k then At(fragments, k) + [f] else At(fragments, k)
  {
    assert (fragments + [f])[..|fragments|] == fragments;
    assert At(fragments, k) + [] == At(fragments, k);
  }

  function Grown(was: Slot, f: Fragment): Slot {
    Slot(if f.id != "" then f.id else was.id, was.name + NameIn(f), was.arguments + ArgumentsIn(f))
  }

  lemma SlotOfMore(fragments: seq<Fragment>, f: Fragment)
    ensures SlotOf(fragments + [f]) == Grown(SlotOf(fragments), f)
  {
    assert (fragments + [f])[..|fragments|] == fragments;
  }

  lemma IndicesMore(fragments: seq<Fragment>, f: Fragment)
    ensures Indices(fragments + [f]) == Indices(fragments) + {IndexOf(f)}
  {
  }

  function SlotAt(slots: Slots, index: int): Slot {
    if index in slots then slots[index] else Slot("", "", "")
  }

  lemma SlotAtIs(fragments: seq<Fragment>, index: int)
    ensures SlotAt(SlotsOf(fragments), index) == SlotOf(At(fragments, index))
  {
    if index !in Indices(fragments) { NoneAt(fragments, index); }
  }

  lemma SlotGrows(fragments: seq<Fragment>, f: Fragment, k: int)
    ensures SlotOf(At(fragments + [f], k))
            == if k == IndexOf(f) then Grown(SlotOf(At(fragments, k)), f) else SlotOf(At(fragments, k))
  {
    AtMore(fragments, f, k);
    SlotOfMore(At(fragments, k), f);
  }

  function Grew(slots: Slots, f: Fragment): Slots {
    slots[IndexOf(f) := Grown(SlotAt(slots, IndexOf(f)), f)]
  }

  lemma SlotsGrow(fragments: seq<Fragment>, f: Fragment)
    ensures SlotsOf(fragments + [f]) == Grew(SlotsOf(fragments), f)
  {
    var i := IndexOf(f);
    var after, before := SlotsOf(fragments + [f]), SlotsOf(fragments);
    IndicesMore(fragments, f);
    SlotAtIs(fragments, i);
    forall k | k in after.Keys ensures after[k] == before[i := Grown(SlotAt(before, i), f)][k] {
      SlotGrows(fragments, f, k);
    }
  }

  lemma {:induction false} NoneAt(fragments: seq<Fragment>, i: int)
    requires i !in Indices(fragments)
    ensures At(fragments, i) == []
  {
    if fragments != [] {
      var f := fragments[|fragments| - 1];
      assert f in fragments;
      NoneAt(fragments[..|fragments| - 1], i);
    }
  }

  /** Adds a fragment to its slot, a fresh one if need be. */
  method TakeFragment(before: Slots, f: Fragment) returns (slots: Slots)
    ensures slots == Grew(before, f)
  {
    var index := if f.index.Some? then f.index.value else 0;
    var slot := if index in before then before[index] else Slot("", "", "");
    assert slot.name + "" == slot.name && slot.arguments + "" == slot.arguments;
    if f.id != "" { slot := slot.(id := f.id); }
    if f.function_.Some? {
      if f.function_.value.name != "" { slot := slot.(name := slot.name + f.function_.value.name); }
      if f.function_.value.arguments != "" {
        slot := slot.(arguments := slot.arguments + f.function_.value.arguments);
      }
    }
    slots := before[index := slot];
  }

  lemma PrefixGrows(seen: seq<Fragment>, fragments: seq<Fragment>, i: nat)
    requires i < |fragments|
    ensures SlotsOf(seen + fragments[..i + 1]) == Grew(SlotsOf(seen + fragments[..i]), fragments[i])
  {
    SlotsGrow(seen + fragments[..i], fragments[i]);
    OneFurther(seen, fragments, i);
  }

  lemma OneFurther(seen: seq<Fragment>, fragments: seq<Fragment>, i: nat)
    requires i < |fragments|
    ensures seen + fragments[..i + 1] == seen + fragments[..i] + [fragments[i]]
  {
  }

  lemma WholePrefix(seen: seq<Fragment>, fragments: seq<Fragment>)
    ensures seen + fragments[..0] == seen && fragments[..|fragments|] == fragments
  {
  }

  /** Regroups the fragments of one chunk. */
  method TakeFragments(fragments: seq<Fragment>, before: Slots, ghost seen: seq<Fragment>) returns (slots: Slots)
    requires before == SlotsOf(seen)
    ensures slots == SlotsOf(seen + fragments)
  {
    slots := before;
    WholePrefix(seen, fragments);
    for i := 0 to |fragments|
      invariant slots == SlotsOf(seen + fragments[..i])
    {
      PrefixGrows(seen, fragments, i);
      slots := TakeFragment(slots, fragments[i]);
    }
  }

  /** What a decoder has gathered so far. */
  datatype Gathered = Gathered(parts: seq<string>, reasoning: seq<string>, usage: Option<Usage>, finish: string,
                               slots: Slots)

  ghost predicate Gathers(g: Gathered, chunks: seq<Chunk>) {
    && Joined(g.parts) == Content(chunks)
    && Joined(g.reasoning) == Reasoning(chunks)
    && g.usage == LastUsage(chunks)
    && g.finish == LastFinish(chunks)
    && g.slots == SlotsOf(Fragments(chunks))
  }

  lemma GathersChoiceless(g: Gathered, chunks: seq<Chunk>, c: Chunk)
    requires Gathers(g, chunks) && c.choice == None
    ensures Gathers(g.(usage := if c.usage.Some? then c.usage else g.usage), chunks + [c])
  {
    assert (chunks + [c])[..|chunks|] == chunks;
    assert Fragments(chunks) + [] == Fragments(chunks);
    assert Content(chunks) + "" == Content(chunks);
    assert Reasoning(chunks) + "" == Reasoning(chunks);
  }

  lemma GathersMore(g: Gathered, chunks: seq<Chunk>, c: Chunk, slots: Slots)
    requires Gathers(g, chunks) && c.choice.Some?
    requires slots == SlotsOf(Fragments(chunks) + Part(c).fragments)
    ensures Gathers(Gathered(g.parts + [Part(c).content], g.reasoning + [Part(c).reasoning],
                             if c.usage.Some? then c.usage else g.usage,
                             if c.choice.value.finish != "" then c.choice.value.finish else g.finish, slots),
                    chunks + [c])
  {
    assert (chunks + [c])[..|chunks|] == chunks;
    JoinedMore(g.parts, Part(c).content);
    JoinedMore(g.reasoning, Part(c).reasoning);
  }

  lemma EmptyPart(parts: seq<string>)
    ensures Joined(parts + [""]) == Joined(parts)
  {
    JoinedMore(parts, "");
    assert Joined(parts) + "" == Joined(parts);
  }

  /** One chunk, as the client library hands it over. */
  method TakeChunk(g: Gathered, c: Chunk, ghost chunks: seq<Chunk>) returns (next: Gathered)
    requires Gathers(g, chunks)
    ensures Gathers(next, chunks + [c])
  {
    next := g;
    if c.usage.Some? { next := next.(usage := c.usage); }
    if c.choice == None {
      GathersChoiceless(g, chunks, c);
      return;
    }
    if c.choice.value.finish != "" { next := next.(finish := c.choice.value.finish); }
    var slots := TakeFragments(if c.choice.value.delta.Some? then c.choice.value.delta.value.fragments else [],
                               g.slots, Fragments(chunks));
    GathersMore(g, chunks, c, slots);
    EmptyPart(g.parts);
    EmptyPart(g.reasoning);
    if c.choice.value.delta.Some? {
      var delta := c.choice.value.delta.value;
      if delta.content != "" { next := next.(parts := next.parts + [delta.content]); }
      if delta.reasoning != "" { next := next.(reasoning := next.reasoning + [delta.reasoning]); }
    }
    next := next.(slots := slots);
  }

  /** The decoder over the client library's chunks. */
  method SdkReply(response: seq<Chunk>, json: ReadsJson) returns (outcome: Outcome)
    ensures outcome == ReplyOf(response, json)
  {
    var g := Gathered([], [], None, "", map[]);
    for i := 0 to |response|
      invariant Gathers(g, response[..i])
    {
      assert response[..i] + [response[i]] == response[..i + 1];
      g := TakeChunk(g, response[i], response[..i]);
    }
    assert response[..|response|] == response;
    outcome := AssembleStreamReply(g.parts, g.usage, g.finish, g.slots, Joined(g.reasoning), json);
  }

  // ---- undecoded chunks -----------------------------------------------------

  /** A field of a JSON object: absent, of another type than expected, or as
      expected. */
  datatype Field<T> = Missing | Odd | Given(value: T)

  datatype RawFragment = RawFragment(index: Option<int>, id: string, function_: Field<Function>)

  datatype RawDelta = RawDelta(content: string, reasoning: string, toolCalls: seq<Field<RawFragment>>)

  datatype RawChoice = RawChoice(finish: string, delta: Field<RawDelta>)

  /** A chunk as the JSON reader gives it. */
  datatype RawChunk = RawChunk(usage: Field<Usage>, choices: seq<Field<RawChoice>>)

  function Kept<T>(f: Field<T>): Option<T> {
    if f.Given? then Some(f.value) else None
  }

  function FragmentIn(f: RawFragment): Fragment {
    Fragment(f.index, f.id, Kept(f.function_))
  }

  /** The fragments among the entries of a list, others passed over. */
  function FragmentsIn(entries: seq<Field<RawFragment>>): seq<Fragment> {
    if entries == [] then []
    else
      var last := entries[|entries| - 1];
      FragmentsIn(entries[..|entries| - 1]) + if last.Given? then [FragmentIn(last.value)] else []
  }

  function DeltaIn(d: RawDelta): Delta {
    Delta(d.content, d.reasoning, FragmentsIn(d.toolCalls))
  }

  function ChoiceIn(c: RawChoice): Choice {
    Choice(c.finish, if c.delta.Given? then Some(DeltaIn(c.delta.value)) else None)
  }

  /** The chunk a raw one stands for: whatever is not of the expected type is as
      good as absent, and only the first choice counts. */
  function ChunkIn(r: RawChunk): Chunk {
    Chunk(Kept(r.usage),
          if r.choices == [] then None
          else if r.choices[0].Given? then Some(ChoiceIn(r.choices[0].value))
          else Some(Choice("", None)))
  }

  function ChunksIn(rs: seq<RawChunk>): (chunks: seq<Chunk>)
    ensures |chunks| == |rs|
  {
    seq(|rs|, i requires 0 <= i < |rs| => ChunkIn(rs[i]))
  }

  /** Adds a raw fragment to its slot, as the line decoder does. */
  method TakeRawFragment(before: Slots, f: RawFragment) returns (slots: Slots)
    ensures slots == Grew(before, FragmentIn(f))
  {
    var index := match f.index case None => 0 case Some(i) => i;
    slots := if index in before then before else before[index := Slot("", "", "")];
    assert slots[index].name + "" == slots[index].name && slots[index].arguments + "" == slots[index].arguments;
    if f.id != "" { slots := slots[index := slots[index].(id := f.id)]; }
    if !f.function_.Given? {
      return;
    }
    var function_ := f.function_.value;
    if function_.name != "" { slots := slots[index := slots[index].(name := slots[index].name + function_.name)]; }
    if function_.arguments != "" {
      slots := slots[index := slots[index].(arguments := slots[index].arguments + function_.arguments)];
    }
  }

  lemma EntriesGrow(seen: seq<Fragment>, entries: seq<Field<RawFragment>>, i: nat)
    requires i < |entries|
    ensures SlotsOf(seen + FragmentsIn(entries[..i + 1]))
            == if entries[i].Given? then Grew(SlotsOf(seen + FragmentsIn(entries[..i])), FragmentIn(entries[i].value))
               else SlotsOf(seen + FragmentsIn(entries[..i]))
  {
    hide SlotsOf, Grew, FragmentIn;
    EntriesFurther(entries, i);
    if entries[i].Given? {
      var f := FragmentIn(entries[i].value);
      Concat3(seen, FragmentsIn(entries[..i]), [f]);
      SlotsGrow(seen + FragmentsIn(entries[..i]), f);
    }
  }

  lemma EntriesFurther(entries: seq<Field<RawFragment>>, i: nat)
    requires i < |entries|
    ensures FragmentsIn(entries[..i + 1])
            == FragmentsIn(entries[..i]) + if entries[i].Given? then [FragmentIn(entries[i].value)] else []
    ensures !entries[i].Given? ==> FragmentsIn(entries[..i + 1]) == FragmentsIn(entries[..i])
  {
    assert entries[..i + 1][..i] == entries[..i];
    assert FragmentsIn(entries[..i]) + [] == FragmentsIn(entries[..i]);
  }

  lemma NoEntries(seen: seq<Fragment>, entries: seq<Field<RawFragment>>)
    ensures seen + FragmentsIn(entries[..0]) == seen && entries[..|entries|] == entries
  {
  }

  method TakeRawFragments(entries: seq<Field<RawFragment>>, before: Slots, ghost seen: seq<Fragment>)
      returns (slots: Slots)
    requires before == SlotsOf(seen)
    ensures slots == SlotsOf(seen + FragmentsIn(entries))
  {
    hide SlotsOf, Grew, FragmentsIn;
    slots := before;
    NoEntries(seen, entries);
    for i := 0 to |entries|
      invariant slots == SlotsOf(seen + FragmentsIn(entries[..i]))
    {
      EntriesGrow(seen, entries, i);
      if !entries[i].Given? { continue; }
      slots := TakeRawFragment(slots, entries[i].value);
    }
  }

  /** One chunk, as the line decoder takes it: it refines what the chunk stands
      for. */
  method TakeRawChunk(g: Gathered, r: RawChunk, ghost chunks: seq<Chunk>) returns (next: Gathered)
    requires Gathers(g, chunks)
    ensures Gathers(next, chunks + [ChunkIn(r)])
  {
    hide Gathers, SlotsOf, FragmentsIn, Joined;
    GathersSlots(g, chunks);
    next := g;
    if r.usage.Given? { next := next.(usage := Some(r.usage.value)); }
    if r.choices == [] {
      GathersChoiceless(g, chunks, ChunkIn(r));
      return;
    }
    var choice := if r.choices[0].Given? then r.choices[0].value else RawChoice("", Missing);
    if choice.finish != "" { next := next.(finish := choice.finish); }
    if !choice.delta.Given? {
      GathersNoDelta(g, chunks, ChunkIn(r));
      return;
    }
    var delta := choice.delta.value;
    var slots := TakeRawFragments(delta.toolCalls, g.slots, Fragments(chunks));
    GathersDelta(g, chunks, ChunkIn(r), slots);
    if delta.content != "" { next := next.(parts := next.parts + [delta.content]); }
    if delta.reasoning != "" { next := next.(reasoning := next.reasoning + [delta.reasoning]); }
    next := next.(slots := slots);
  }

  lemma GathersSlots(g: Gathered, chunks: seq<Chunk>)
    requires Gathers(g, chunks)
    ensures g.slots == SlotsOf(Fragments(chunks))
  {
  }

  lemma GathersNoDelta(g: Gathered, chunks: seq<Chunk>, c: Chunk)
    requires Gathers(g, chunks) && c.choice.Some? && c.choice.value.delta == None
    ensures Gathers(g.(usage := if c.usage.Some? then c.usage else g.usage,
                       finish := if c.choice.value.finish != "" then c.choice.value.finish else g.finish),
                    chunks + [c])
  {
    assert Fragments(chunks) + [] == Fragments(chunks);
    GathersMore(g, chunks, c, g.slots);
    EmptyPart(g.parts);
    EmptyPart(g.reasoning);
  }

  /** Empty pieces of text need not be kept. */
  lemma GathersDelta(g: Gathered, chunks: seq<Chunk>, c: Chunk, slots: Slots)
    requires Gathers(g, chunks) && c.choice.Some? && c.choice.value.delta.Some?
    requires slots == SlotsOf(Fragments(chunks) + c.choice.value.delta.value.fragments)
    ensures var d := c.choice.value.delta.value;
            Gathers(Gathered(if d.content != "" then g.parts + [d.content] else g.parts,
                             if d.reasoning != "" then g.reasoning + [d.reasoning] else g.reasoning,
                             if c.usage.Some? then c.usage else g.usage,
                             if c.choice.value.finish != "" then c.choice.value.finish else g.finish, slots),
                    chunks + [c])
  {
    GathersMore(g, chunks, c, slots);
    EmptyPart(g.parts);
    EmptyPart(g.reasoning);
  }

  // ---- the line protocol ----------------------------------------------------

  /** What the connection gives: a line, or its death. */
  datatype Arrival = Line(text: string) | Death

  datatype Read = Noise | Stop | Data(chunk: RawChunk)

  /** How the JSON reader takes a payload: a chunk, or nothing when the text is
      not an object. */
  type ReadsChunk = string -> Option<RawChunk>

  function ReadLine(raw: string, parse: ReadsChunk): Read {
    var line := Strip(raw);
    if !("data:" <= line) then Noise
    else
      var payload := Strip(line[5..]);
      if payload == "[DONE]" then Stop
      else match parse(payload) case None => Noise case Some(c) => Data(c)
  }

  /** The chunks that arrive before the end mark. */
  function Payloads(lines: seq<Arrival>, parse: ReadsChunk): seq<RawChunk> {
    if lines == [] || lines[0].Death? then []
    else
      match ReadLine(lines[0].text, parse)
      case Noise => Payloads(lines[1..], parse)
      case Stop => []
      case Data(c) => [c] + Payloads(lines[1..], parse)
  }

  /** The connection dies before the end mark. */
  predicate Dies(lines: seq<Arrival>, parse: ReadsChunk) {
    lines != [] && (lines[0].Death? || (ReadLine(lines[0].text, parse) != Stop && Dies(lines[1..], parse)))
  }

  /** The decoder over raw lines: it gives the very reply the other decoder
      gives for the chunks the lines stand for. */
  method StdlibReply(response: seq<Arrival>, parse: ReadsChunk, json: ReadsJson) returns (outcome: Outcome)
    ensures outcome == if Dies(response, parse) then Dropped else ReplyOf(ChunksIn(Payloads(response, parse)), json)
  {
    hide Gathers, ReplyOf, ChunkIn;
    var g := Gathered([], [], None, "", map[]);
    ghost var seen: seq<RawChunk> := [];
    GathersNothing();
    var i := 0;
    while i < |response|
      invariant 0 <= i <= |response|
      invariant Gathers(g, ChunksIn(seen))
      invariant seen + Payloads(response[i..], parse) == Payloads(response, parse)
      invariant Dies(response[i..], parse) == Dies(response, parse)
    {
      var arrival := response[i];
      assert response[i..][1..] == response[i + 1..];
      if arrival.Death? { return Dropped; }
      var read := ReadLine(arrival.text, parse);
      if read == Stop { break; }
      if read.Data? {
        Concat3(seen, [read.chunk], Payloads(response[i + 1..], parse));
        g := TakeRawChunk(g, read.chunk, ChunksIn(seen));
        ChunksInMore(seen, read.chunk);
        seen := seen + [read.chunk];
      }
      i := i + 1;
    }
    assert seen + [] == seen;
    outcome := AssembleStreamReply(g.parts, g.usage, g.finish, g.slots, Joined(g.reasoning), json);
    GathersReply(g, ChunksIn(seen), json);
  }

  lemma GathersNothing()
    ensures Gathers(Gathered([], [], None, "", map[]), ChunksIn([])) && ChunksIn([]) == []
  {
  }

  lemma ChunksInMore(rs: seq<RawChunk>, r: RawChunk)
    ensures ChunksIn(rs + [r]) == ChunksIn(rs) + [ChunkIn(r)]
  {
  }

  lemma GathersReply(g: Gathered, chunks: seq<Chunk>, json: ReadsJson)
    requires Gathers(g, chunks)
    ensures Assembled(Joined(g.parts), g.usage, g.finish, g.slots, Joined(g.reasoning), json) == ReplyOf(chunks, json)
  {
  }
}
