/** Incremental reads of growing files (scientist/ui/reader.py): complete lines
    out of arbitrary chunks, and raw bytes back by location. */
module LineReader {
  import opened Basics

  /** A byte, as far as splitting into lines is concerned. */
  datatype Byte = Newline | Other(code: nat)

  type Bytes = seq<Byte>

  /** One complete line and where its bytes are. */
  datatype Line = Line(offset: nat, raw: Bytes)

  // ---- splitting ------------------------------------------------------------

  ghost predicate NoNewline(data: Bytes) {
    forall i | 0 <= i < |data| :: data[i] != Newline
  }

  /** The newline-terminated lines of `open` and then `data`, where `open`
      starts at byte `base` and holds no newline. */
  function Lines(open: Bytes, base: nat, data: Bytes): seq<Line>
    decreases |data|
  {
    if data == [] then []
    else if data[0] == Newline then
      [Line(base, open + [Newline])] + Lines([], base + |open| + 1, data[1..])
    else Lines(open + [data[0]], base, data[1..])
  }

  /** What follows the last newline. */
  function Tail(open: Bytes, data: Bytes): Bytes
    decreases |data|
  {
    if data == [] then open
    else if data[0] == Newline then Tail([], data[1..])
    else Tail(open + [data[0]], data[1..])
  }

  function AllLines(file: Bytes): seq<Line> {
    Lines([], 0, file)
  }

  function Joined(lines: seq<Line>): Bytes {
    if lines == [] then [] else lines[0].raw + Joined(lines[1..])
  }

  lemma JoinedStep(l: Line, more: seq<Line>)
    ensures Joined([l] + more) == l.raw + Joined(more)
  {
    assert ([l] + more)[1..] == more;
  }

  lemma JoinedAppend(a: seq<Line>, b: seq<Line>)
    ensures Joined(a + b) == Joined(a) + Joined(b)
  {
    if a == [] {
      assert a + b == b;
    } else {
      assert (a + b)[1..] == a[1..] + b;
      JoinedAppend(a[1..], b);
      Concat3(a[0].raw, Joined(a[1..]), Joined(b));
    }
  }

  /** Lines and tail are all of the bytes, in order. */
  lemma {:induction false} NothingLost(open: Bytes, base: nat, data: Bytes)
    ensures Joined(Lines(open, base, data)) + Tail(open, data) == open + data
    decreases |data|
  {
    if data == [] {
    } else if data[0] == Newline {
      NothingLost([], base + |open| + 1, data[1..]);
      JoinedStep(Line(base, open + [Newline]), Lines([], base + |open| + 1, data[1..]));
      assert [] + data[1..] == data[1..];
      Concat3(open + [Newline], Joined(Lines([], base + |open| + 1, data[1..])), Tail([], data[1..]));
      Concat3(open, [Newline], data[1..]);
      assert [Newline] + data[1..] == data;
    } else {
      NothingLost(open + [data[0]], base, data[1..]);
      Concat3(open, [data[0]], data[1..]);
      assert [data[0]] + data[1..] == data;
    }
  }

  /** Each line is newline-free up to its newline; so is the tail. */
  lemma {:induction false} LinesAreLines(open: Bytes, base: nat, data: Bytes)
    requires NoNewline(open)
    ensures NoNewline(Tail(open, data))
    ensures forall l | l in Lines(open, base, data) ::
              l.raw != [] && l.raw[|l.raw| - 1] == Newline && NoNewline(l.raw[..|l.raw| - 1])
    decreases |data|
  {
    if data == [] {
    } else if data[0] == Newline {
      LinesAreLines([], base + |open| + 1, data[1..]);
      assert (open + [Newline])[..|open|] == open;
    } else {
      LinesAreLines(open + [data[0]], base, data[1..]);
    }
  }

  /** A line's offset is the length of all that precedes it. */
  lemma {:induction false} OffsetsAddUp(open: Bytes, base: nat, data: Bytes, i: nat)
    requires i < |Lines(open, base, data)|
    ensures Lines(open, base, data)[i].offset == base + |Joined(Lines(open, base, data)[..i])|
    decreases |data|
  {
    if data[0] == Newline {
      if i > 0 {
        var first, more := Line(base, open + [Newline]), Lines([], base + |open| + 1, data[1..]);
        OffsetsAddUp([], base + |open| + 1, data[1..], i - 1);
        assert ([first] + more)[..i] == [first] + more[..i - 1];
        JoinedStep(first, more[..i - 1]);
      }
    } else {
      OffsetsAddUp(open + [data[0]], base, data[1..], i);
    }
  }

  /** Splitting does not depend on how the bytes were cut up. */
  lemma {:induction false} LinesOfChunk(open: Bytes, base: nat, data: Bytes, chunk: Bytes)
    ensures |Tail(open, data)| <= |open| + |data|
    ensures Lines(open, base, data + chunk)
         == Lines(open, base, data) + Lines(Tail(open, data), base + |open| + |data| - |Tail(open, data)|, chunk)
    ensures Tail(open, data + chunk) == Tail(Tail(open, data), chunk)
    decreases |data|
  {
    if data == [] {
      assert data + chunk == chunk;
    } else {
      assert (data + chunk)[1..] == data[1..] + chunk;
      if data[0] == Newline {
        LinesOfChunk([], base + |open| + 1, data[1..], chunk);
        Concat3([Line(base, open + [Newline])], Lines([], base + |open| + 1, data[1..]),
                Lines(Tail(open, data), base + |open| + |data| - |Tail(open, data)|, chunk));
      } else {
        LinesOfChunk(open + [data[0]], base, data[1..], chunk);
      }
    }
  }

  /** The open end may as well be read again with the bytes that follow it. */
  lemma {:induction false} OpenReadAgain(open: Bytes, more: Bytes, base: nat, chunk: Bytes)
    requires NoNewline(more)
    ensures Lines(open, base, more + chunk) == Lines(open + more, base, chunk)
    ensures Tail(open, more + chunk) == Tail(open + more, chunk)
    decreases |more|
  {
    if more == [] {
      assert more + chunk == chunk && open + more == open;
    } else {
      assert (more + chunk)[1..] == more[1..] + chunk;
      assert open + [more[0]] + more[1..] == open + more;
      OpenReadAgain(open + [more[0]], more[1..], base, chunk);
    }
  }

  // ---- where lines stand ----------------------------------------------------

  ghost predicate StandsIn(file: Bytes, l: Line) {
    && l.raw != [] && l.offset + |l.raw| <= |file|
    && file[l.offset..l.offset + |l.raw|] == l.raw
  }

  lemma MiddleOf(a: Bytes, b: Bytes, c: Bytes)
    ensures (a + b + c)[|a|..|a| + |b|] == b
  {
  }

  lemma JoinedMiddle(lines: seq<Line>, i: nat)
    requires i < |lines|
    ensures Joined(lines) == Joined(lines[..i]) + lines[i].raw + Joined(lines[i + 1..])
  {
    Middle(lines, i);
    JoinedAppend(lines[..i], [lines[i]] + lines[i + 1..]);
    JoinedStep(lines[i], lines[i + 1..]);
    Concat3(Joined(lines[..i]), lines[i].raw, Joined(lines[i + 1..]));
  }

  lemma LinesStand(read: Bytes, i: nat)
    requires i < |AllLines(read)|
    ensures StandsIn(read, AllLines(read)[i])
  {
    var lines := AllLines(read);
    var l := lines[i];
    LinesAreLines([], 0, read);
    OffsetsAddUp([], 0, read, i);
    NothingLost([], 0, read);
    JoinedMiddle(lines, i);
    Concat3(Joined(lines[..i]) + l.raw, Joined(lines[i + 1..]), Tail([], read));
    assert [] + read == read;
    MiddleOf(Joined(lines[..i]), l.raw, Joined(lines[i + 1..]) + Tail([], read));
  }

  lemma StandsInLonger(read: Bytes, file: Bytes, l: Line)
    requires read <= file && StandsIn(read, l)
    ensures StandsIn(file, l)
  {
    assert file[l.offset..l.offset + |l.raw|] == read[l.offset..l.offset + |l.raw|];
  }

  lemma LinesInOrder(read: Bytes, i: nat, j: nat)
    requires i < j < |AllLines(read)|
    ensures AllLines(read)[i].offset + |AllLines(read)[i].raw| <= AllLines(read)[j].offset
    ensures AllLines(read)[i].raw != []
  {
    var lines := AllLines(read);
    LinesAreLines([], 0, read);
    OffsetsAddUp([], 0, read, i);
    OffsetsAddUp([], 0, read, j);
    assert lines[..j] == lines[..i] + ([lines[i]] + lines[i + 1..j]);
    JoinedAppend(lines[..i], [lines[i]] + lines[i + 1..j]);
    JoinedStep(lines[i], lines[i + 1..j]);
  }

  // ---- records --------------------------------------------------------------

  /** A record: a line whose content could be decoded. */
  datatype Record = Record(offset: nat, length: nat, raw: Bytes, value: string)

  /** How the content of a line, newline excluded, decodes: a line of a JSON
      source need not. */
  type Decoder = Bytes -> Option<string>

  function Content(l: Line): Bytes {
    if l.raw == [] then [] else l.raw[..|l.raw| - 1]
  }

  function RecordOf(l: Line, decode: Decoder): seq<Record> {
    var value := decode(Content(l));
    if value.Some? then [Record(l.offset, |l.raw|, l.raw, value.value)] else []
  }

  function Records(lines: seq<Line>, decode: Decoder): seq<Record> {
    if lines == [] then [] else RecordOf(lines[0], decode) + Records(lines[1..], decode)
  }

  lemma RecordsAppend(a: seq<Line>, b: seq<Line>, decode: Decoder)
    ensures Records(a + b, decode) == Records(a, decode) + Records(b, decode)
  {
    if a == [] {
      assert a + b == b;
    } else {
      assert (a + b)[1..] == a[1..] + b;
      RecordsAppend(a[1..], b, decode);
      Concat3(RecordOf(a[0], decode), Records(a[1..], decode), Records(b, decode));
    }
  }

  lemma {:induction false} RecordsAreLines(lines: seq<Line>, decode: Decoder, r: Record)
    ensures r in Records(lines, decode) <==> exists l | l in lines :: r in RecordOf(l, decode)
  {
    if lines != [] {
      RecordsAreLines(lines[1..], decode, r);
      if exists l | l in lines :: r in RecordOf(l, decode) {
        var l :| l in lines && r in RecordOf(l, decode);
        if l != lines[0] { assert l in lines[1..]; }
      }
    }
  }

  ghost predicate IncreasingFrom(rs: seq<Record>, low: nat) {
    && (forall k | 0 <= k < |rs| :: low <= rs[k].offset)
    && (forall i, j | 0 <= i < j < |rs| :: rs[i].offset < rs[j].offset)
  }

  lemma PrependRecord(here: seq<Record>, more: seq<Record>, low: nat, next: nat)
    requires |here| <= 1 && (here != [] ==> here[0].offset == low)
    requires low < next && IncreasingFrom(more, next)
    ensures IncreasingFrom(here + more, low)
  {
    var rs := here + more;
    if here == [] { assert rs == more; }
  }

  /** Record ids are offsets: no two records of a file have the same. */
  lemma {:induction false} RecordIdsAreUnique(read: Bytes, decode: Decoder, n: nat)
    requires n <= |AllLines(read)|
    ensures IncreasingFrom(Records(AllLines(read)[n..], decode),
                           if n < |AllLines(read)| then AllLines(read)[n].offset else |read|)
    decreases |AllLines(read)| - n
  {
    var lines := AllLines(read);
    if n < |lines| {
      assert lines[n..][1..] == lines[n + 1..];
      RecordIdsAreUnique(read, decode, n + 1);
      if n + 1 < |lines| { LinesInOrder(read, n, n + 1); } else { LinesStand(read, n); }
      PrependRecord(RecordOf(lines[n], decode), Records(lines[n + 1..], decode), lines[n].offset,
                    if n + 1 < |lines| then lines[n + 1].offset else |read|);
    }
  }

  lemma NothingBefore(b: Bytes)
    ensures [] + b == b
  {
  }

  lemma InBetween(before: seq<Line>, l: Line, after: seq<Line>)
    ensures l in before + ([l] + after)
  {
    assert (before + ([l] + after))[|before|] == l;
  }

  /** What stands between the start of a file or a line and the next newline is
      a line. */
  lemma SegmentInParts(head: Bytes, here: Bytes, rest: Bytes)
    requires (head == [] || head[|head| - 1] == Newline) && NoNewline(here)
    ensures Line(|head|, here + [Newline]) in AllLines(head + (here + ([Newline] + rest)))
  {
    hide Lines, Tail, NoNewline;
    TailBehindNewline(head);
    LinesOfChunk([], 0, head, here + ([Newline] + rest));
    OpenReadAgain([], here, |head|, [Newline] + rest);
    NothingBefore(here);
    LineEnds(here, |head|, rest);
    InBetween(Lines([], 0, head), Line(|head|, here + [Newline]), Lines([], |head| + |here| + 1, rest));
  }

  lemma SegmentIsLine(read: Bytes, a: nat, b: nat)
    requires a <= b < |read| && (a == 0 || read[a - 1] == Newline)
    requires NoNewline(read[a..b]) && read[b] == Newline
    ensures Line(a, read[a..b + 1]) in AllLines(read)
  {
    hide AllLines, NoNewline;
    CutAround(read, a, b);
    SegmentInParts(read[..a], read[a..b], read[b + 1..]);
  }

  lemma CutAround(read: Bytes, a: nat, b: nat)
    requires a <= b < |read| && read[b] == Newline
    ensures read == read[..a] + (read[a..b] + ([Newline] + read[b + 1..]))
    ensures read[a..b] + [Newline] == read[a..b + 1]
  {
  }

  lemma LineEnds(open: Bytes, base: nat, rest: Bytes)
    ensures Lines(open, base, [Newline] + rest)
            == [Line(base, open + [Newline])] + Lines([], base + |open| + 1, rest)
  {
    assert ([Newline] + rest)[1..] == rest;
  }

  lemma TailBehindNewline(head: Bytes)
    requires head == [] || head[|head| - 1] == Newline
    ensures Tail([], head) == []
  {
    if head != [] {
      var init := head[..|head| - 1];
      assert head == init + [Newline];
      LinesOfChunk([], 0, init, [Newline]);
    }
  }

  /** A line that is not the first starts right behind a newline. */
  lemma LineStart(read: Bytes, i: nat)
    requires 0 < i < |AllLines(read)|
    ensures var before, here := AllLines(read)[i - 1], AllLines(read)[i];
      before.raw != [] && here.offset == before.offset + |before.raw| && before.raw[|before.raw| - 1] == Newline
  {
    var lines := AllLines(read);
    LinesAreLines([], 0, read);
    OffsetsAddUp([], 0, read, i);
    OffsetsAddUp([], 0, read, i - 1);
    hide AllLines, Lines;
    assert lines[i - 1] in lines;
    assert lines[..i] == lines[..i - 1] + [lines[i - 1]];
    JoinedAppend(lines[..i - 1], [lines[i - 1]]);
    JoinedStep(lines[i - 1], []);
    assert [lines[i - 1]] + [] == [lines[i - 1]];
  }

  lemma LastOf(read: Bytes, l: Line)
    requires StandsIn(read, l)
    ensures read[l.offset + |l.raw| - 1] == l.raw[|l.raw| - 1]
    ensures l.raw[..|l.raw| - 1] == read[l.offset..l.offset + |l.raw| - 1]
  {
  }

  lemma LineIsSegment(read: Bytes, l: Line)
    requires l in AllLines(read)
    ensures StandsIn(read, l)
    ensures var b := l.offset + |l.raw| - 1;
      read[b] == Newline && NoNewline(read[l.offset..b]) && Content(l) == read[l.offset..b]
    ensures l.offset == 0 || read[l.offset - 1] == Newline
  {
    var i :| 0 <= i < |AllLines(read)| && AllLines(read)[i] == l;
    LinesStand(read, i);
    LinesAreLines([], 0, read);
    LastOf(read, l);
    if i > 0 {
      hide AllLines, NoNewline;
      LineStart(read, i);
      LinesStand(read, i - 1);
      LastOf(read, AllLines(read)[i - 1]);
    } else {
      OffsetsAddUp([], 0, read, 0);
    }
  }

  /** The record is a stretch that begins the file or a line, ends right ahead of
      the next newline and decodes, with what it decodes to as its value and the
      newline among its bytes. */
  ghost predicate Stands(read: Bytes, decode: Decoder, r: Record) {
    && 0 < r.length && r.offset + r.length <= |read|
    && var b := r.offset + r.length - 1;
    && (r.offset == 0 || read[r.offset - 1] == Newline) && NoNewline(read[r.offset..b]) && read[b] == Newline
    && r.raw == read[r.offset..b + 1]
    && decode(read[r.offset..b]) == Some(r.value)
  }

  lemma RecordStands(read: Bytes, decode: Decoder, l: Line, r: Record)
    requires l in AllLines(read) && r in RecordOf(l, decode)
    ensures Stands(read, decode, r)
  {
    hide AllLines;
    LineIsSegment(read, l);
  }

  lemma StandingIsRecord(read: Bytes, decode: Decoder, r: Record)
    requires Stands(read, decode, r)
    ensures Line(r.offset, r.raw) in AllLines(read) && r in RecordOf(Line(r.offset, r.raw), decode)
  {
    hide AllLines;
    SegmentIsLine(read, r.offset, r.offset + r.length - 1);
    LineIsSegment(read, Line(r.offset, r.raw));
  }

  /** The records of a file are exactly those that stand in it. */
  lemma RecordsExactly(read: Bytes, decode: Decoder, r: Record)
    ensures r in Records(AllLines(read), decode) <==> Stands(read, decode, r)
  {
    hide AllLines, Stands, RecordOf, Records;
    RecordsAreLines(AllLines(read), decode, r);
    if r in Records(AllLines(read), decode) {
      var l :| l in AllLines(read) && r in RecordOf(l, decode);
      RecordStands(read, decode, l, r);
    } else if Stands(read, decode, r) {
      StandingIsRecord(read, decode, r);
    }
  }

  /** The records of a longer file are those already returned, then those of
      the pending bytes and the chunk. */
  lemma ChunkRecords(read: Bytes, chunk: Bytes, decode: Decoder)
    ensures var pending := Tail([], read);
      && |pending| <= |read|
      && Records(AllLines(read + chunk), decode)
         == Records(AllLines(read), decode) + Records(Lines([], |read| - |pending|, pending + chunk), decode)
      && Tail([], read + chunk) == Tail([], pending + chunk)
  {
    var pending := Tail([], read);
    LinesOfChunk([], 0, read, chunk);
    LinesAreLines([], 0, read);
    OpenReadAgain([], pending, |read| - |pending|, chunk);
    assert [] + pending == pending;
    RecordsAppend(AllLines(read), Lines(pending, |read| - |pending|, chunk), decode);
  }

  // ---- the cursor -----------------------------------------------------------

  /** What `stat` and then `open` show of the file at one poll. */
  datatype View = Missing | Seen(identity: nat, size: nat, content: Option<Bytes>)

  /** `handle.seek(offset); handle.read(limit)`. */
  function ReadAt(content: Bytes, offset: nat, limit: nat): (chunk: Bytes)
    ensures |chunk| <= limit
  {
    if offset >= |content| then []
    else if |content| - offset <= limit then content[offset..]
    else content[offset..offset + limit]
  }

  lemma ReadExtends(read: Bytes, file: Bytes, limit: nat)
    requires read <= file
    ensures read + ReadAt(file, |read|, limit) <= file
    ensures limit > 0 && |read| < |file| ==> |ReadAt(file, |read|, limit)| > 0
  {
  }

  /** The content the polls before the i-th saw last, `seen` at first. */
  function LastSeen(views: seq<View>, i: nat, seen: Bytes): Bytes
    requires i <= |views|
  {
    if i == 0 then seen
    else if views[i - 1].Seen? && views[i - 1].content.Some? then views[i - 1].content.value
    else LastSeen(views, i - 1, seen)
  }

  /** One file that is only appended to; at a poll it may be missing, or fail to
      open. */
  ghost predicate OnlyGrows(views: seq<View>, id: nat, seen: Bytes) {
    forall i | 0 <= i < |views| && views[i].Seen? ::
      && views[i].identity == id
      && |LastSeen(views, i, seen)| <= views[i].size
      && (views[i].content.Some? ==> LastSeen(views, i, seen) <= views[i].content.value)
  }

  /** Going on from what was read gives a part of the file exactly when what was
      read is still how it begins. */
  lemma ReadOnExactly(read: Bytes, file: Bytes, limit: nat)
    ensures read + ReadAt(file, |read|, limit) <= file <==> read <= file
  {
    if read <= file {
      ReadExtends(read, file, limit);
    } else if read + ReadAt(file, |read|, limit) <= file {
      HeadOfPrefix(read, ReadAt(file, |read|, limit), file);
    }
  }

  lemma HeadOfPrefix(a: Bytes, b: Bytes, file: Bytes)
    requires a + b <= file
    ensures a <= file
  {
    assert (a + b)[..|a|] == a;
  }

  lemma NothingPolled(views: seq<View>, seen: Bytes)
    ensures LastSeen(views, 0, seen) == seen
  {
  }

  /** What one more poll of a growing file adds. */
  lemma NextSeen(views: seq<View>, i: nat, id: nat, seen: Bytes, read: Bytes, limit: nat)
    requires OnlyGrows(views, id, seen) && i < |views| && read <= LastSeen(views, i, seen)
    ensures views[i].Seen? ==> views[i].identity == id && |read| <= views[i].size
    ensures read
            + (if views[i].Seen? && views[i].content.Some? then ReadAt(views[i].content.value, |read|, limit) else [])
            <= LastSeen(views, i + 1, seen)
  {
    if views[i].Seen? && views[i].content.Some? {
      ReadExtends(read, views[i].content.value, limit);
    }
  }

  class LineCursor {
    const decode: Decoder
    const maxRead: nat
    var offset: nat
    var pending: Bytes
    var pendingOffset: nat
    var identity: Option<nat>
    /** The bytes read and the records returned since the last reset. */
    ghost var consumed: Bytes
    ghost var emitted: seq<Record>

    ghost predicate Valid()
      reads this
    {
      && maxRead > 0
      && offset == |consumed|
      && pending == Tail([], consumed)
      && pendingOffset + |pending| == offset
      && emitted == Records(AllLines(consumed), decode)
    }

    constructor (decode: Decoder, maxRead: nat)
      requires maxRead > 0
      ensures Valid() && this.decode == decode && this.maxRead == maxRead && consumed == [] && identity == None
    {
      this.decode, this.maxRead := decode, maxRead;
      offset, pending, pendingOffset, identity := 0, [], 0, None;
      consumed, emitted := [], [];
    }

    /** One poll. It starts again from byte 0 when the file was replaced or is
        shorter than what was read, and otherwise goes on where it was: with the
        file open, what is consumed is how the file begins if and only if it
        started again or that was so before. */
    method Poll(view: View) returns (records: seq<Record>, reset: bool)
      requires Valid()
      modifies this
      ensures Valid()
      ensures reset <==>
              view.Seen? && ((old(identity).Some? && old(identity) != Some(view.identity)) || view.size < old(offset))
      ensures identity == if view.Seen? then Some(view.identity) else old(identity)
      ensures var kept := if reset then [] else old(consumed);
        consumed == kept + if view.Seen? && view.content.Some? then ReadAt(view.content.value, |kept|, maxRead) else []
      ensures emitted == (if reset then [] else old(emitted)) + records
      ensures view.Seen? && view.content.Some? ==>
                (consumed <= view.content.value <==> reset || old(consumed) <= view.content.value)
    {
      records, reset := [], false;
      if view.Missing? {
        return;
      }
      if (identity.Some? && view.identity != identity.value) || view.size < offset {
        offset, pending, pendingOffset := 0, [], 0;
        consumed, emitted := [], [];
        reset := true;
      }
      identity := Some(view.identity);
      if view.content == None {
        return;
      }
      ReadOnExactly(consumed, view.content.value, maxRead);
      records := Absorb(ReadAt(view.content.value, offset, maxRead));
    }

    /** The bytes of one read, after what was pending. */
    method Absorb(chunk: Bytes) returns (records: seq<Record>)
      requires Valid()
      modifies this`offset, this`pending, this`pendingOffset, this`consumed, this`emitted
      ensures Valid()
      ensures consumed == old(consumed) + chunk && emitted == old(emitted) + records
    {
      records := [];
      if chunk == [] {
        return;
      }
      ChunkRecords(consumed, chunk, decode);
      var dataOffset := if pending != [] then pendingOffset else offset;
      var data := pending + chunk;
      offset := offset + |chunk|;
      records, pendingOffset := RecordsOf(data, dataOffset, decode);
      pending := Tail([], data);
      consumed := consumed + chunk;
      emitted := emitted + records;
    }

    /** Any schedule of polls of a file that only grows, some before it exists or
        while it cannot be opened: nothing is reset and what comes back is what
        the part read since then holds. */
    method Follow(views: seq<View>, ghost id: nat, ghost seen: Bytes) returns (all: seq<Record>)
      requires Valid() && consumed <= seen && (identity == None || identity == Some(id))
      requires OnlyGrows(views, id, seen)
      modifies this
      ensures Valid() && emitted == old(emitted) + all && emitted == Records(AllLines(consumed), decode)
      ensures old(consumed) <= consumed <= LastSeen(views, |views|, seen)
    {
      hide OnlyGrows, LastSeen, ReadAt, Tail, Records, AllLines;
      all := [];
      assert emitted + all == emitted;
      NothingPolled(views, seen);
      for i := 0 to |views|
        invariant Valid() && emitted == old(emitted) + all
        invariant identity == None || identity == Some(id)
        invariant old(consumed) <= consumed <= LastSeen(views, i, seen)
      {
        NextSeen(views, i, id, seen, consumed, maxRead);
        var records, reset := Poll(views[i]);
        Concat3(old(emitted), all, records);
        all := all + records;
      }
    }

    /** Polling a file that stays as it is until it is read: all its complete
        lines have come back, whatever the size of a read. */
    method Drain(file: Bytes, id: nat)
      requires Valid() && consumed <= file && (identity == None || identity == Some(id))
      modifies this
      ensures Valid() && consumed == file
      ensures emitted == Records(AllLines(file), decode) && old(emitted) <= emitted
    {
      while offset < |file|
        invariant Valid() && consumed <= file && (identity == None || identity == Some(id))
        invariant old(emitted) <= emitted
        decreases |file| - offset
      {
        ReadExtends(consumed, file, maxRead);
        var records, reset := Poll(Seen(id, |file|, Some(file)));
      }
    }
  }

  lemma OneMoreLine(lines: seq<Line>, i: nat, decode: Decoder)
    requires i < |lines|
    ensures Records(lines[..i + 1], decode) == Records(lines[..i], decode) + RecordOf(lines[i], decode)
    ensures Joined(lines[..i + 1]) == Joined(lines[..i]) + lines[i].raw
  {
    assert lines[..i + 1] == lines[..i] + [lines[i]];
    RecordsAppend(lines[..i], [lines[i]], decode);
    JoinedAppend(lines[..i], [lines[i]]);
    OneLineAlone(lines[i], decode);
  }

  lemma NoLinesYet(decode: Decoder)
    ensures Records([], decode) == [] && Joined([]) == []
  {
  }

  lemma OneLineAlone(l: Line, decode: Decoder)
    ensures Records([l], decode) == RecordOf(l, decode) && Joined([l]) == l.raw
  {
    assert [l][1..] == [];
  }

  /** The complete lines of `data`, decoded, and where the tail begins. */
  method RecordsOf(data: Bytes, dataOffset: nat, decode: Decoder) returns (records: seq<Record>, tailOffset: nat)
    ensures records == Records(Lines([], dataOffset, data), decode)
    ensures tailOffset + |Tail([], data)| == dataOffset + |data|
  {
    hide Records, Joined, Lines;
    var complete := Lines([], dataOffset, data);
    NoLinesYet(decode);
    records, tailOffset := [], dataOffset;
    for i := 0 to |complete|
      invariant records == Records(complete[..i], decode)
      invariant tailOffset == dataOffset + |Joined(complete[..i])|
    {
      OffsetsAddUp([], dataOffset, data, i);
      OneMoreLine(complete, i, decode);
      var raw := complete[i].raw;
      var value := decode(Content(complete[i]));
      if value.Some? {
        records := records + [Record(tailOffset, |raw|, raw, value.value)];
      }
      tailOffset := tailOffset + |raw|;
    }
    assert complete[..|complete|] == complete;
    NothingLost([], dataOffset, data);
  }

  // ---- details by location --------------------------------------------------

  function AtMost(length: nat, limit: nat): nat {
    if length <= limit then length else limit
  }

  lemma Reading(file: Bytes, l: Line, n: nat)
    requires StandsIn(file, l) && n <= |l.raw|
    ensures ReadAt(file, l.offset, n) == l.raw[..n]
  {
    assert file[l.offset..l.offset + n] == file[l.offset..l.offset + |l.raw|][..n];
  }

  /** Every record reads back from its offset and length, now or after the file
      has grown. */
  lemma RecordReadsBack(read: Bytes, file: Bytes, decode: Decoder, r: Record, limit: nat)
    requires read <= file && r in Records(AllLines(read), decode)
    ensures r.length == |r.raw| > 0
    ensures ReadAt(file, r.offset, AtMost(r.length, limit)) == r.raw[..AtMost(r.length, limit)]
  {
    RecordsAreLines(AllLines(read), decode, r);
    var l :| l in AllLines(read) && r in RecordOf(l, decode);
    var i :| 0 <= i < |AllLines(read)| && AllLines(read)[i] == l;
    LinesStand(read, i);
    StandsInLonger(read, file, l);
    Reading(file, l, AtMost(r.length, limit));
  }

  datatype Locator = Locator(offset: nat, length: nat)

  class DetailIndex {
    /** By record id: the source and the offset. */
    var locators: map<(string, nat), Locator>

    constructor ()
      ensures locators == map[]
    {
      locators := map[];
    }

    method Register(source: string, r: Record)
      modifies this
      ensures locators == old(locators)[(source, r.offset) := Locator(r.offset, r.length)]
    {
      locators := locators[(source, r.offset) := Locator(r.offset, r.length)];
    }

    method Read(id: (string, nat), maxBytes: nat, file: Bytes) returns (raw: Option<Bytes>, truncated: bool)
      ensures raw.Some? <==> id in locators
      ensures raw == None ==> !truncated
      ensures raw.Some? ==>
        var l := locators[id];
        && raw.value == ReadAt(file, l.offset, AtMost(l.length, maxBytes))
        && (truncated <==> |raw.value| < l.length)
    {
      if id !in locators {
        return None, false;
      }
      var l := locators[id];
      var limit := if l.length < maxBytes then l.length else maxBytes;
      var bytes := ReadAt(file, l.offset, limit);
      return Some(bytes), |bytes| < l.length;
    }
  }

  /** Registered, then read: the record's bytes, cut only by the limit, however
      the file has grown since. */
  method RegisterThenRead(index: DetailIndex, source: string, read: Bytes, decode: Decoder, r: Record,
                          file: Bytes, maxBytes: nat)
    returns (raw: Bytes, truncated: bool)
    requires read <= file && r in Records(AllLines(read), decode)
    modifies index
    ensures r.length == |r.raw| && raw == r.raw[..AtMost(r.length, maxBytes)]
    ensures truncated <==> maxBytes < r.length
  {
    index.Register(source, r);
    var found;
    found, truncated := index.Read((source, r.offset), maxBytes, file);
    RecordReadsBack(read, file, decode, r, maxBytes);
    raw := found.value;
  }

  /** A file emptied and rewritten past the old offset between two polls, under
      the same identity, is not noticed: the cursor goes on in the middle and
      returns a line the file never held. */
  method RewriteGoesUnnoticed(decode: Decoder) returns (cursor: LineCursor, reset: bool)
    ensures cursor.Valid() && !reset
    ensures var now := [Other(2), Other(2), Newline];
      !(cursor.consumed <= now) && AllLines(cursor.consumed) != AllLines(now)
  {
    var was, now := [Other(1)], [Other(2), Other(2), Newline];
    cursor := new LineCursor(decode, 10);
    var records;
    records, reset := cursor.Poll(Seen(0, |was|, Some(was)));
    records, reset := cursor.Poll(Seen(0, |now|, Some(now)));
    assert cursor.consumed == [Other(1), Other(2), Newline];
    LinesShowBytes(cursor.consumed, now);
  }

  /** Files that end in a newline and have the same lines are the same. */
  lemma LinesShowBytes(a: Bytes, b: Bytes)
    requires Tail([], a) == Tail([], b) && a != b
    ensures AllLines(a) != AllLines(b)
  {
    NothingLost([], 0, a);
    NothingLost([], 0, b);
    assert [] + a == a && [] + b == b;
  }
}
