/** What a streamed reply depends on, and what it does not. */
module ReplyLaws {
  import opened Basics
  import opened ReplyAssembly
  import NativeTools

  // ---- the order of the calls -----------------------------------------------

  ghost function NamedAmong(slots: Slots, order: seq<int>): seq<int>
    requires Elements(order) <= slots.Keys
  {
    if order == [] then []
    else
      var last := order[|order| - 1];
      assert last in Elements(order) && Elements(order[..|order| - 1]) <= Elements(order);
      NamedAmong(slots, order[..|order| - 1]) + if slots[last].name != "" then [last] else []
  }

  lemma ClimbsMore(order: seq<int>, next: int)
    requires Climbs(order) && forall i | 0 <= i < |order| :: order[i] < next
    ensures Climbs(order + [next])
  {
  }

  lemma BeforeTheLast(order: seq<int>, x: int)
    requires Climbs(order) && order != [] && x in order[..|order| - 1]
    ensures x < order[|order| - 1]
  {
    var j :| 0 <= j < |order| - 1 && order[j] == x;
  }

  lemma {:induction false} NamedAmongClimbs(slots: Slots, order: seq<int>)
    requires Elements(order) <= slots.Keys && Climbs(order)
    ensures Climbs(NamedAmong(slots, order))
    ensures forall i :: i in NamedAmong(slots, order) <==> i in order && slots[i].name != ""
  {
    if order != [] {
      var init, last := order[..|order| - 1], order[|order| - 1];
      assert last in Elements(order) && Elements(init) <= Elements(order);
      NamedAmongClimbs(slots, init);
      assert order == init + [last];
      var named := NamedAmong(slots, init);
      forall i | 0 <= i < |named| ensures named[i] < last {
        assert named[i] in named;
        BeforeTheLast(order, named[i]);
      }
      ClimbsMore(named, last);
    }
  }

  lemma {:induction false} CallsOfTheNamed(slots: Slots, order: seq<int>, json: ReadsJson)
    requires Elements(order) <= slots.Keys
    ensures |CallsAt(slots, order, json)| == |NamedAmong(slots, order)|
    ensures forall k | 0 <= k < |CallsAt(slots, order, json)| ::
              NamedAmong(slots, order)[k] in slots
              && CallsAt(slots, order, json)[k] == ToolCallOf(slots[NamedAmong(slots, order)[k]], json)
  {
    if order != [] {
      var init, last := order[..|order| - 1], order[|order| - 1];
      assert last in Elements(order) && Elements(init) <= Elements(order);
      CallsOfTheNamed(slots, init, json);
    }
  }

  /** The calls of a reply are those of the named indices, each once, by
      ascending index. */
  lemma CallsByAscendingIndex(slots: Slots, json: ReadsJson) returns (order: seq<int>)
    ensures Climbs(order) && Elements(order) == Named(slots)
    ensures |CallsOf(slots, json)| == |order|
    ensures forall k | 0 <= k < |order| ::
              order[k] in slots && CallsOf(slots, json)[k] == ToolCallOf(slots[order[k]], json)
  {
    var all := Ascending(slots.Keys);
    AscendingIsSorted(slots.Keys);
    NamedAmongClimbs(slots, all);
    CallsOfTheNamed(slots, all, json);
    order := NamedAmong(slots, all);
    forall i ensures i in Elements(order) <==> i in Named(slots) {
      assert i in all <==> i in Elements(all);
    }
  }

  // ---- when a reply is empty ------------------------------------------------

  predicate NamesNothing(fragments: seq<Fragment>) {
    forall i | 0 <= i < |fragments| :: NameIn(fragments[i]) == ""
  }

  lemma {:induction false} NamelessExactly(fragments: seq<Fragment>)
    ensures Names(fragments) == "" <==> NamesNothing(fragments)
  {
    if fragments != [] { NamelessExactly(fragments[..|fragments| - 1]); }
  }

  lemma {:induction false} AtKeeps(fragments: seq<Fragment>, index: int, f: Fragment)
    ensures f in At(fragments, index) <==> f in fragments && IndexOf(f) == index
  {
    if fragments != [] {
      var init, last := fragments[..|fragments| - 1], fragments[|fragments| - 1];
      AtKeeps(init, index, f);
      assert fragments == init + [last];
    }
  }

  lemma SomeSlotIsNamed(fragments: seq<Fragment>, k: nat)
    requires k < |fragments| && NameIn(fragments[k]) != ""
    ensures IndexOf(fragments[k]) in Named(SlotsOf(fragments))
  {
    var f := fragments[k];
    AtKeeps(fragments, IndexOf(f), f);
    NamelessExactly(At(fragments, IndexOf(f)));
  }

  lemma NoSlotIsNamed(fragments: seq<Fragment>, i: int)
    requires NamesNothing(fragments)
    ensures i !in Named(SlotsOf(fragments))
  {
    var mine := At(fragments, i);
    forall k | 0 <= k < |mine| ensures NameIn(mine[k]) == "" {
      AtKeeps(fragments, i, mine[k]);
    }
    NamelessExactly(mine);
  }

  /** A reply counts as empty if and only if its text is blank and no fragment
      of the stream ever named a function. */
  lemma EmptyExactly(chunks: seq<Chunk>, json: ReadsJson)
    ensures ReplyOf(chunks, json).Empty? <==> Blank(Content(chunks)) && NamesNothing(Fragments(chunks))
  {
    var fragments := Fragments(chunks);
    var order := CallsByAscendingIndex(SlotsOf(fragments), json);
    if NamesNothing(fragments) {
      forall i ensures i !in Named(SlotsOf(fragments)) { NoSlotIsNamed(fragments, i); }
      assert Named(SlotsOf(fragments)) == {};
      DistinctCount(order);
    } else {
      var k :| 0 <= k < |fragments| && NameIn(fragments[k]) != "";
      SomeSlotIsNamed(fragments, k);
      assert order != [];
    }
  }

  // ---- what a reply holds ---------------------------------------------------

  /** Some fragment of this index names a function. */
  predicate GetsAName(fragments: seq<Fragment>, index: int) {
    exists k | 0 <= k < |fragments| :: IndexOf(fragments[k]) == index && NameIn(fragments[k]) != ""
  }

  lemma NamedExactly(fragments: seq<Fragment>, index: int)
    ensures index in Named(SlotsOf(fragments)) <==> GetsAName(fragments, index)
  {
    var mine := At(fragments, index);
    NamelessExactly(mine);
    if index in Named(SlotsOf(fragments)) {
      var j :| 0 <= j < |mine| && NameIn(mine[j]) != "";
      AtKeeps(fragments, index, mine[j]);
    } else if GetsAName(fragments, index) {
      var k :| 0 <= k < |fragments| && IndexOf(fragments[k]) == index && NameIn(fragments[k]) != "";
      SomeSlotIsNamed(fragments, k);
    }
  }

  /** The id of a call is the last that is not empty among its fragments. */
  lemma {:induction false} LastIdIs(fragments: seq<Fragment>)
    ensures LastId(fragments) == "" ==> forall i | 0 <= i < |fragments| :: fragments[i].id == ""
    ensures LastId(fragments) != "" ==> exists k | 0 <= k < |fragments| ::
              fragments[k].id == LastId(fragments) && forall i | k < i < |fragments| :: fragments[i].id == ""
  {
    if fragments != [] && fragments[|fragments| - 1].id == "" {
      var init := fragments[..|fragments| - 1];
      LastIdIs(init);
      if LastId(init) != "" {
        var k :| 0 <= k < |init| && init[k].id == LastId(init) && forall i | k < i < |init| :: init[i].id == "";
        assert fragments[k].id == LastId(fragments) && forall i | k < i < |fragments| :: fragments[i].id == "";
      }
    }
  }

  /** The call that one index's fragments make: its last id, their names joined,
      their argument texts joined, and what the reader makes of those; blank
      arguments hold no keys. */
  predicate MadeOf(call: NativeTools.ToolCall, mine: seq<Fragment>, json: ReadsJson) {
    && call.id == LastId(mine) && call.name == Names(mine) && call.raw == Arguments(mine)
    && call.parsed == if Blank(call.raw) then Some(map[]) else json(call.raw)
  }

  /** What a reply holds: the joined text and reasoning, the last usage, and one
      call for each index that got a name, by ascending index, each made of its
      own fragments. An empty reply holds its evidence. */
  lemma ReplyHolds(chunks: seq<Chunk>, json: ReadsJson) returns (order: seq<int>)
    ensures Climbs(order) && forall i :: i in order <==> GetsAName(Fragments(chunks), i)
    ensures match ReplyOf(chunks, json)
      case Delivered(reply, reasoning, usage) =>
        && reply.text == Content(chunks) && reasoning == Reasoning(chunks) && usage == LastUsage(chunks)
        && |reply.calls| == |order|
        && forall k | 0 <= k < |order| :: MadeOf(reply.calls[k], At(Fragments(chunks), order[k]), json)
      case Empty(finish, tokens) =>
        && Blank(Content(chunks)) && order == [] && finish == LastFinish(chunks)
        && tokens == if LastUsage(chunks).Some? then LastUsage(chunks).value.completionTokens else None
      case Dropped => false
  {
    var slots := SlotsOf(Fragments(chunks));
    order := CallsByAscendingIndex(slots, json);
    forall i ensures i in order <==> GetsAName(Fragments(chunks), i) {
      NamedExactly(Fragments(chunks), i);
      assert i in order <==> i in Elements(order);
    }
  }

  // ---- interleaving and splitting -------------------------------------------

  lemma IndexHasFragments(fragments: seq<Fragment>, i: int)
    ensures i in Indices(fragments) <==> At(fragments, i) != []
  {
    if i in Indices(fragments) {
      var f :| f in fragments && IndexOf(f) == i;
      AtKeeps(fragments, i, f);
    } else {
      NoneAt(fragments, i);
    }
  }

  /** The calls depend on each index's own fragments only, not on how those of
      different indices are interleaved. */
  lemma InterleavingIsFree(a: seq<Fragment>, b: seq<Fragment>)
    requires forall i :: At(a, i) == At(b, i)
    ensures SlotsOf(a) == SlotsOf(b)
  {
    hide At, SlotOf;
    forall i ensures i in Indices(a) <==> i in Indices(b) {
      IndexHasFragments(a, i);
      IndexHasFragments(b, i);
    }
  }

  /** A reply depends on the joined content and reasoning, the last usage and
      finish reason, and each index's own fragments. */
  lemma ReplyDependsOn(a: seq<Chunk>, b: seq<Chunk>, json: ReadsJson)
    requires Content(a) == Content(b) && Reasoning(a) == Reasoning(b)
    requires LastUsage(a) == LastUsage(b) && LastFinish(a) == LastFinish(b)
    requires forall i :: At(Fragments(a), i) == At(Fragments(b), i)
    ensures ReplyOf(a, json) == ReplyOf(b, json)
  {
    InterleavingIsFree(Fragments(a), Fragments(b));
  }

  lemma {:induction false} SameSoFar(a: seq<Fragment>, b: seq<Fragment>, more: seq<Fragment>)
    requires SlotsOf(a) == SlotsOf(b)
    ensures SlotsOf(a + more) == SlotsOf(b + more)
  {
    if more == [] {
      assert a + more == a && b + more == b;
    } else {
      var init, last := more[..|more| - 1], more[|more| - 1];
      SameSoFar(a, b, init);
      SlotsGrow(a + init, last);
      SlotsGrow(b + init, last);
      Rejoin(a, more);
      Rejoin(b, more);
    }
  }

  lemma Rejoin(a: seq<Fragment>, more: seq<Fragment>)
    requires more != []
    ensures a + more[..|more| - 1] + [more[|more| - 1]] == a + more
  {
  }

  lemma GrewEitherWay(slots: Slots, x: Fragment, y: Fragment)
    requires IndexOf(x) != IndexOf(y)
    ensures Grew(Grew(slots, x), y) == Grew(Grew(slots, y), x)
  {
  }

  /** Two neighbours of different indices may change places. */
  lemma NeighboursMaySwap(before: seq<Fragment>, x: Fragment, y: Fragment, after: seq<Fragment>)
    requires IndexOf(x) != IndexOf(y)
    ensures SlotsOf(before + [x] + [y] + after) == SlotsOf(before + [y] + [x] + after)
  {
    PairGrows(before, x, y);
    PairGrows(before, y, x);
    GrewEitherWay(SlotsOf(before), x, y);
    SameSoFar(before + [x] + [y], before + [y] + [x], after);
  }

  function Head(f: Fragment, cut: nat): Fragment
    requires f.function_.Some? && cut <= |f.function_.value.arguments|
  {
    Fragment(f.index, f.id, Some(Function(f.function_.value.name, f.function_.value.arguments[..cut])))
  }

  function Rest(f: Fragment, cut: nat): Fragment
    requires f.function_.Some? && cut <= |f.function_.value.arguments|
  {
    Fragment(f.index, "", Some(Function("", f.function_.value.arguments[cut..])))
  }

  lemma GrownTwice(was: Slot, f: Fragment, cut: nat)
    requires f.function_.Some? && cut <= |f.function_.value.arguments|
    ensures Grown(Grown(was, Head(f, cut)), Rest(f, cut)) == Grown(was, f)
  {
    var text := f.function_.value.arguments;
    assert text[..cut] + text[cut..] == text;
    Concat3(was.arguments, text[..cut], text[cut..]);
    assert was.name + f.function_.value.name + "" == was.name + f.function_.value.name;
  }

  lemma GrewTwice(slots: Slots, f: Fragment, cut: nat)
    requires f.function_.Some? && cut <= |f.function_.value.arguments|
    ensures Grew(Grew(slots, Head(f, cut)), Rest(f, cut)) == Grew(slots, f)
  {
    GrownTwice(SlotAt(slots, IndexOf(f)), f, cut);
  }

  lemma PairGrows(before: seq<Fragment>, x: Fragment, y: Fragment)
    ensures SlotsOf(before + [x] + [y]) == Grew(Grew(SlotsOf(before), x), y)
  {
    SlotsGrow(before, x);
    SlotsGrow(before + [x], y);
  }

  /** Argument text may be cut anywhere. */
  lemma ArgumentsMaySplit(before: seq<Fragment>, f: Fragment, cut: nat, after: seq<Fragment>)
    requires f.function_.Some? && cut <= |f.function_.value.arguments|
    ensures SlotsOf(before + [Head(f, cut)] + [Rest(f, cut)] + after) == SlotsOf(before + [f] + after)
  {
    PairGrows(before, Head(f, cut), Rest(f, cut));
    GrewTwice(SlotsOf(before), f, cut);
    SlotsGrow(before, f);
    SameSoFar(before + [Head(f, cut)] + [Rest(f, cut)], before + [f], after);
  }

  // ---- the unstreamed form --------------------------------------------------

  function FragmentOf(index: int, slot: Slot): Fragment {
    Fragment(Some(index), slot.id, Some(Function(slot.name, slot.arguments)))
  }

  ghost function FragmentsFor(slots: Slots, order: seq<int>): seq<Fragment>
    requires Elements(order) <= slots.Keys
  {
    if order == [] then []
    else
      var last := order[|order| - 1];
      assert last in Elements(order) && Elements(order[..|order| - 1]) <= Elements(order);
      FragmentsFor(slots, order[..|order| - 1]) + [FragmentOf(last, slots[last])]
  }

  lemma GrownFromNothing(index: int, slot: Slot)
    ensures Grown(Slot("", "", ""), FragmentOf(index, slot)) == slot
  {
    assert "" + slot.name == slot.name && "" + slot.arguments == slot.arguments;
  }

  ghost function Among(slots: Slots, order: seq<int>): Slots
    requires Elements(order) <= slots.Keys
  {
    map i | i in Elements(order) :: slots[i]
  }

  lemma AmongMore(slots: Slots, init: seq<int>, last: int)
    requires last in slots && Elements(init) <= slots.Keys && last !in init
    ensures Elements(init + [last]) <= slots.Keys
    ensures Among(slots, init + [last]) == Grew(Among(slots, init), FragmentOf(last, slots[last]))
  {
    GrownFromNothing(last, slots[last]);
    ElementsAppend(init, [last]);
  }

  lemma LastOfClimb(order: seq<int>)
    requires Climbs(order) && order != []
    ensures var init, last := order[..|order| - 1], order[|order| - 1];
            && order == init + [last] && Climbs(init) && last !in init
            && last in Elements(order) && Elements(init) <= Elements(order)
  {
  }

  lemma FragmentsForMore(slots: Slots, init: seq<int>, last: int)
    requires Elements(init) <= slots.Keys && Elements(init + [last]) <= slots.Keys && last in slots
    ensures FragmentsFor(slots, init + [last]) == FragmentsFor(slots, init) + [FragmentOf(last, slots[last])]
  {
    InitOfSnoc(init, last);
  }

  lemma NoFragments(slots: Slots)
    ensures SlotsOf(FragmentsFor(slots, [])) == Among(slots, [])
  {
    assert SlotsOf([]) == map[];
  }

  lemma {:induction false} SlotsOfTheirFragments(slots: Slots, order: seq<int>)
    requires Elements(order) <= slots.Keys && Climbs(order)
    ensures SlotsOf(FragmentsFor(slots, order)) == Among(slots, order)
  {
    if order == [] {
      NoFragments(slots);
    } else {
      hide SlotsOf, FragmentsFor, Among, Grew, Climbs, FragmentOf;
      LastOfClimb(order);
      var init, last := order[..|order| - 1], order[|order| - 1];
      SlotsOfTheirFragments(slots, init);
      FragmentsForMore(slots, init, last);
      SlotsGrow(FragmentsFor(slots, init), FragmentOf(last, slots[last]));
      AmongMore(slots, init, last);
    }
  }

  /** The whole reply as one chunk, with one fragment for each call. */
  ghost function Unstreamed(chunks: seq<Chunk>): Chunk {
    var slots := SlotsOf(Fragments(chunks));
    Chunk(LastUsage(chunks),
          Some(Choice(LastFinish(chunks),
                      Some(Delta(Content(chunks), Reasoning(chunks), FragmentsFor(slots, Ascending(slots.Keys)))))))
  }

  lemma OneChunk(c: Chunk)
    ensures Content([c]) == Part(c).content && Reasoning([c]) == Part(c).reasoning
    ensures Fragments([c]) == Part(c).fragments
    ensures LastUsage([c]) == c.usage
    ensures c.choice.Some? ==> LastFinish([c]) == c.choice.value.finish
  {
    assert [c][..0] == [];
    assert Content([c]) == Content([]) + Part(c).content;
    assert Reasoning([c]) == Reasoning([]) + Part(c).reasoning;
    assert Fragments([c]) == Fragments([]) + Part(c).fragments;
  }

  lemma FragmentsOfAllSlots(slots: Slots)
    ensures SlotsOf(FragmentsFor(slots, Ascending(slots.Keys))) == slots
  {
    hide SlotsOf, FragmentsFor, Ascending;
    AscendingIsSorted(slots.Keys);
    SlotsOfTheirFragments(slots, Ascending(slots.Keys));
    AmongAll(slots, Ascending(slots.Keys));
  }

  lemma AmongAll(slots: Slots, order: seq<int>)
    requires Elements(order) == slots.Keys
    ensures Among(slots, order) == slots
  {
  }

  /** However a reply is cut into chunks and fragments, it is the reply that
      would have come in one piece. */
  lemma StreamingIsTransparent(chunks: seq<Chunk>, json: ReadsJson)
    ensures ReplyOf([Unstreamed(chunks)], json) == ReplyOf(chunks, json)
  {
    hide SlotsOf, Content, Reasoning, LastUsage, LastFinish, Assembled, FragmentsFor;
    OneChunk(Unstreamed(chunks));
    FragmentsOfAllSlots(SlotsOf(Fragments(chunks)));
  }

  // ---- the line protocol ----------------------------------------------------

  predicate Trimmed(s: string) {
    s != "" && !IsSpace(s[0]) && !IsSpace(s[|s| - 1])
  }

  lemma StripTrimmed(s: string)
    requires Trimmed(s)
    ensures Strip(s) == s && Strip(" " + s) == s && Strip(s + "\n") == s
  {
    assert StripLeft(s) == s;
    assert (" " + s)[1..] == s;
    assert StripLeft(s + "\n") == s + "\n" && (s + "\n")[..|s|] == s;
  }

  /** The line that carries a payload. */
  function DataLine(payload: string): string {
    "data: " + payload + "\n"
  }

  lemma DataLineIsRead(payload: string, parse: ReadsChunk)
    requires Trimmed(payload)
    ensures ReadLine(DataLine(payload), parse)
            == if payload == "[DONE]" then Stop
               else match parse(payload) case None => Noise case Some(c) => Data(c)
  {
    var line := "data: " + payload;
    StripTrimmed(line);
    assert line[..5] == "data:" && line[5..] == " " + payload;
    StripTrimmed(payload);
  }

  /** How a server prints chunks, given how it prints one. */
  function Printed(chunks: seq<RawChunk>, show: RawChunk -> string): seq<Arrival> {
    if chunks == [] then [Line(DataLine("[DONE]"))]
    else [Line(DataLine(show(chunks[0])))] + Printed(chunks[1..], show)
  }

  ghost predicate ReadsBack(c: RawChunk, show: RawChunk -> string, parse: ReadsChunk) {
    Trimmed(show(c)) && show(c) != "[DONE]" && parse(show(c)) == Some(c)
  }

  /** A printed stream is read back whole, whatever follows its end mark, even
      the death of the connection. */
  lemma {:induction false} PrintedStreamReadsBack(chunks: seq<RawChunk>, show: RawChunk -> string, parse: ReadsChunk,
                                                  after: seq<Arrival>)
    requires forall c | c in chunks :: ReadsBack(c, show, parse)
    ensures Payloads(Printed(chunks, show) + after, parse) == chunks
    ensures !Dies(Printed(chunks, show) + after, parse)
  {
    var lines := Printed(chunks, show) + after;
    if chunks == [] {
      DataLineIsRead("[DONE]", parse);
    } else {
      assert lines[1..] == Printed(chunks[1..], show) + after;
      assert ReadsBack(chunks[0], show, parse);
      DataLineIsRead(show(chunks[0]), parse);
      PrintedStreamReadsBack(chunks[1..], show, parse, after);
    }
  }

  /** Lines that carry nothing may be put anywhere. */
  lemma {:induction false} NoiseIsSkipped(before: seq<Arrival>, noise: string, after: seq<Arrival>, parse: ReadsChunk)
    requires ReadLine(noise, parse) == Noise
    ensures Payloads(before + [Line(noise)] + after, parse) == Payloads(before + after, parse)
    ensures Dies(before + [Line(noise)] + after, parse) == Dies(before + after, parse)
  {
    var noisy, quiet := before + [Line(noise)] + after, before + after;
    if before == [] {
      assert noisy[1..] == after == quiet;
    } else {
      assert noisy[1..] == before[1..] + [Line(noise)] + after;
      assert quiet[1..] == before[1..] + after;
      NoiseIsSkipped(before[1..], noise, after, parse);
    }
  }

  // ---- the two decoders -----------------------------------------------------

  function RawFragmentOf(f: Fragment): Field<RawFragment> {
    Given(RawFragment(f.index, f.id, if f.function_.Some? then Given(f.function_.value) else Missing))
  }

  function RawFragmentsOf(fragments: seq<Fragment>): (entries: seq<Field<RawFragment>>)
    ensures |entries| == |fragments|
  {
    seq(|fragments|, i requires 0 <= i < |fragments| => RawFragmentOf(fragments[i]))
  }

  function RawDeltaOf(d: Delta): RawDelta {
    RawDelta(d.content, d.reasoning, RawFragmentsOf(d.fragments))
  }

  /** A chunk of the client library as the JSON object it was made from. */
  function RawOf(c: Chunk): RawChunk {
    RawChunk(if c.usage.Some? then Given(c.usage.value) else Missing,
             if c.choice == None then []
             else [Given(RawChoice(c.choice.value.finish,
                                   if c.choice.value.delta.Some? then Given(RawDeltaOf(c.choice.value.delta.value))
                                   else Missing))])
  }

  lemma {:induction false} FragmentsComeBack(fragments: seq<Fragment>)
    ensures FragmentsIn(RawFragmentsOf(fragments)) == fragments
  {
    if fragments != [] {
      var init, last := fragments[..|fragments| - 1], fragments[|fragments| - 1];
      FragmentsComeBack(init);
      assert RawFragmentsOf(fragments)[..|init|] == RawFragmentsOf(init);
      assert FragmentIn(RawFragmentOf(last).value) == last;
      assert init + [last] == fragments;
    }
  }

  lemma ChunkComesBack(c: Chunk)
    ensures ChunkIn(RawOf(c)) == c
  {
    if c.choice.Some? && c.choice.value.delta.Some? { FragmentsComeBack(c.choice.value.delta.value.fragments); }
  }

  function RawsOf(chunks: seq<Chunk>): (rs: seq<RawChunk>)
    ensures |rs| == |chunks|
  {
    seq(|chunks|, i requires 0 <= i < |chunks| => RawOf(chunks[i]))
  }

  /** The two decoders agree: the chunks of the client library, printed as lines
      with anything after the end mark, give the line decoder the same reply. */
  method DecodersAgree(chunks: seq<Chunk>, show: RawChunk -> string, parse: ReadsChunk, after: seq<Arrival>,
                       json: ReadsJson)
      returns (bySdk: Outcome, byLines: Outcome)
    requires forall r | r in RawsOf(chunks) :: ReadsBack(r, show, parse)
    ensures bySdk == byLines == ReplyOf(chunks, json)
  {
    hide ReplyOf, Payloads, Dies, ChunkIn, ReadsBack;
    bySdk := SdkReply(chunks, json);
    byLines := StdlibReply(Printed(RawsOf(chunks), show) + after, parse, json);
    PrintedStreamReadsBack(RawsOf(chunks), show, parse, after);
    ChunksComeBack(chunks);
  }

  lemma ChunksComeBack(chunks: seq<Chunk>)
    ensures ChunksIn(RawsOf(chunks)) == chunks
  {
    forall i | 0 <= i < |chunks| ensures ChunksIn(RawsOf(chunks))[i] == chunks[i] {
      ChunkComesBack(chunks[i]);
    }
  }
}
