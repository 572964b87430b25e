/** Reading `git status --porcelain=v1 -z` (simpleevo/assistant/git_worktree.py). */
module GitStatus {
  import opened Basics

  const NUL: char := '\0'

  predicate NulFree(s: string) {
    forall i | 0 <= i < |s| :: s[i] != NUL
  }

  /** `str.split("\0")`. */
  function Split(s: string): (fields: seq<string>)
    ensures fields != []
  {
    if s == "" then [""]
    else
      var rest := Split(s[1..]);
      if s[0] == NUL then [""] + rest else [[s[0]] + rest[0]] + rest[1..]
  }

  lemma {:induction false} SplitField(field: string, rest: string)
    requires NulFree(field)
    ensures Split(field + [NUL] + rest) == [field] + Split(rest)
  {
    var s := field + [NUL] + rest;
    if field == "" {
      assert s[1..] == rest;
    } else {
      SplitField(field[1..], rest);
      assert s[1..] == field[1..] + [NUL] + rest;
      assert [field[0]] + field[1..] == field;
    }
  }

  predicate HasSource(code: string) {
    'R' in code || 'C' in code
  }

  function CodeOf(field: string): string {
    if |field| > 2 then field[..2] else field
  }

  function PathOf(field: string): string {
    if |field| > 3 then field[3..] else ""
  }

  /** The paths the fields name, repeats and all; a rename or copy takes the
      field after it as its source. */
  function Named(fields: seq<string>): seq<string> {
    if fields == [] then []
    else if fields[0] == "" then Named(fields[1..])
    else if HasSource(CodeOf(fields[0])) && |fields| > 1 then
      [PathOf(fields[0]), fields[1]] + Named(fields[2..])
    else [PathOf(fields[0])] + Named(fields[1..])
  }

  /** Non-empty texts, each at its first occurrence. */
  function Firsts(texts: seq<string>): seq<string> {
    if texts == [] then []
    else
      var before, last := Firsts(texts[..|texts| - 1]), texts[|texts| - 1];
      if last == "" || last in before then before else before + [last]
  }

  lemma FirstsMore(texts: seq<string>, text: string)
    ensures Firsts(texts + [text])
            == if text == "" || text in Firsts(texts) then Firsts(texts) else Firsts(texts) + [text]
  {
    assert (texts + [text])[..|texts|] == texts;
  }

  /** Where a text first occurs. */
  function FirstAt(texts: seq<string>, text: string): nat
    requires text in texts
  {
    if texts[0] == text then 0 else 1 + FirstAt(texts[1..], text)
  }

  lemma {:induction false} FirstAtStays(texts: seq<string>, more: seq<string>, text: string)
    requires text in texts
    ensures FirstAt(texts + more, text) == FirstAt(texts, text) < |texts|
  {
    if texts[0] != text {
      assert (texts + more)[1..] == texts[1..] + more;
      FirstAtStays(texts[1..], more, text);
    }
  }

  lemma {:induction false} FirstAtEnd(texts: seq<string>, text: string)
    requires text !in texts
    ensures FirstAt(texts + [text], text) == |texts|
  {
    if texts != [] {
      assert (texts + [text])[1..] == texts[1..] + [text];
      FirstAtEnd(texts[1..], text);
    }
  }

  /** The result holds each non-empty text once, in first-occurrence order. */
  lemma {:induction false} FirstsInOrder(texts: seq<string>)
    ensures forall t :: t in Firsts(texts) <==> t in texts && t != ""
    ensures forall i, j | 0 <= i < j < |Firsts(texts)| ::
              FirstAt(texts, Firsts(texts)[i]) < FirstAt(texts, Firsts(texts)[j])
    ensures Distinct(Firsts(texts))
  {
    if texts != [] {
      var init, last := texts[..|texts| - 1], texts[|texts| - 1];
      FirstsInOrder(init);
      assert texts == init + [last];
      var before := Firsts(init);
      forall t | t in before ensures FirstAt(texts, t) == FirstAt(init, t) < |init| {
        FirstAtStays(init, [last], t);
      }
      if last !in init { FirstAtEnd(init, last); }
      forall i | 0 <= i < |before| ensures before[i] in before {
      }
    }
  }

  // ---- the parser -----------------------------------------------------------

  method Add(paths: seq<string>, path: string) returns (more: seq<string>)
    ensures more == if path == "" || path in paths then paths else paths + [path]
  {
    more := paths;
    if path != "" && path !in paths { more := more + [path]; }
  }

  /** Collects the paths, retaining both paths of a rename. */
  method StatusPaths(status: string) returns (paths: seq<string>)
    ensures paths == Firsts(Named(Split(status)))
  {
    var fields := Split(status);
    ghost var named: seq<string> := [];
    paths := [];
    var index := 0;
    while index < |fields|
      invariant 0 <= index <= |fields|
      invariant paths == Firsts(named)
      invariant named + Named(fields[index..]) == Named(fields)
    {
      NamedNext(fields, index);
      var field := fields[index];
      index := index + 1;
      if field == "" { continue; }
      var path := if |field| > 3 then field[3..] else "";
      FirstsMore(named, path);
      paths := Add(paths, path);
      var code := if |field| > 2 then field[..2] else field;
      if ('R' in code || 'C' in code) && index < |fields| {
        var source := fields[index];
        index := index + 1;
        FirstsMore(named + [path], source);
        Concat4(named, [path], [source], Named(fields[index..]));
        paths := Add(paths, source);
        named := named + [path] + [source];
      } else {
        Concat3(named, [path], Named(fields[index..]));
        named := named + [path];
      }
    }
    assert named + [] == named;
  }

  lemma NamedNext(fields: seq<string>, i: nat)
    requires i < |fields|
    ensures fields[i] == "" ==> Named(fields[i..]) == Named(fields[i + 1..])
    ensures fields[i] != "" ==>
              Named(fields[i..])
              == if HasSource(CodeOf(fields[i])) && i + 1 < |fields| then
                   [PathOf(fields[i])] + [fields[i + 1]] + Named(fields[i + 2..])
                 else [PathOf(fields[i])] + Named(fields[i + 1..])
  {
    var left := fields[i..];
    assert left[1..] == fields[i + 1..];
    if |left| > 1 {
      assert left[2..] == fields[i + 2..];
      assert [PathOf(left[0])] + [left[1]] == [PathOf(left[0]), left[1]];
    }
  }

  // ---- the printer ----------------------------------------------------------

  /** A status entry; `source` counts for renames and copies. */
  datatype Entry = Entry(code: string, path: string, source: string)

  /** The entry is a rename or a copy, in the index or in the work tree. */
  predicate Moved(e: Entry) {
    'R' in e.code || 'C' in e.code
  }

  predicate Valid(e: Entry) {
    |e.code| == 2 && NulFree(e.code) && e.path != "" && NulFree(e.path) && e.source != "" && NulFree(e.source)
  }

  function Field(e: Entry): string {
    e.code + " " + e.path
  }

  function Print(entries: seq<Entry>): string {
    if entries == [] then ""
    else
      Field(entries[0]) + [NUL]
      + ((if Moved(entries[0]) then entries[0].source + [NUL] else "") + Print(entries[1..]))
  }

  /** The paths of the entries, sources right after their targets. */
  function Listing(entries: seq<Entry>): seq<string> {
    if entries == [] then []
    else
      (if Moved(entries[0]) then [entries[0].path, entries[0].source] else [entries[0].path])
      + Listing(entries[1..])
  }

  lemma FieldReads(e: Entry)
    requires Valid(e)
    ensures NulFree(Field(e)) && Field(e) != "" && CodeOf(Field(e)) == e.code && PathOf(Field(e)) == e.path
  {
  }

  lemma PrintedFields(e: Entry, rest: string)
    requires Valid(e)
    ensures Split(Field(e) + [NUL] + ((if Moved(e) then e.source + [NUL] else "") + rest))
            == (if Moved(e) then [Field(e), e.source] else [Field(e)]) + Split(rest)
  {
    FieldReads(e);
    var tail := (if Moved(e) then e.source + [NUL] else "") + rest;
    SplitField(Field(e), tail);
    if Moved(e) {
      SplitField(e.source, rest);
      Concat3([Field(e)], [e.source], Split(rest));
      assert [Field(e)] + [e.source] == [Field(e), e.source];
    } else {
      assert tail == rest;
    }
  }

  lemma NamedOfEntry(e: Entry, rest: seq<string>)
    requires Valid(e)
    ensures Named((if Moved(e) then [Field(e), e.source] else [Field(e)]) + rest)
            == (if Moved(e) then [e.path, e.source] else [e.path]) + Named(rest)
  {
    FieldReads(e);
    if Moved(e) {
      assert ([Field(e), e.source] + rest)[2..] == rest;
    } else {
      assert ([Field(e)] + rest)[1..] == rest;
    }
  }

  /** What is parsed from a printed status is the listing of its entries, so
      the paths found are exactly theirs, rename sources included. */
  lemma {:induction false} PrintedStatusReadsBack(entries: seq<Entry>)
    requires forall i | 0 <= i < |entries| :: Valid(entries[i])
    ensures Named(Split(Print(entries))) == Listing(entries)
  {
    if entries == [] {
      assert Split("") == [""];
      assert [""][1..] == [];
      assert Named([""]) == Named([]);
    } else {
      PrintedStatusReadsBack(entries[1..]);
      PrintedFields(entries[0], Print(entries[1..]));
      NamedOfEntry(entries[0], Split(Print(entries[1..])));
    }
  }

  /** Parsing a printed status gives the paths of its entries, each once, in the
      order they first occur. */
  method ParsePrinted(entries: seq<Entry>) returns (paths: seq<string>)
    requires forall i | 0 <= i < |entries| :: Valid(entries[i])
    ensures paths == Firsts(Listing(entries))
  {
    paths := StatusPaths(Print(entries));
    PrintedStatusReadsBack(entries);
  }
}
