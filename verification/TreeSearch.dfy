/** The bounded search over a directory tree (scientist/world.py). */
module TreeSearch {
  import opened Basics

  /** What the system shows of a tree: a directory has the entries it yields
      before it ends or fails, and a broken entry cannot be examined. */
  datatype Node =
    | File(name: string, size: nat)
    | Broken(name: string)
    | Dir(name: string, entries: seq<Node>)

  type Path = seq<string>

  datatype Found = Found(path: Path, size: nat)

  /** A directory still to be read. */
  datatype Task = Task(path: Path, entries: seq<Node>)

  // ---- sizes ----------------------------------------------------------------

  function Size(n: Node): nat {
    if n.Dir? then 1 + SizeAll(n.entries) else 0
  }

  /** The directories below some entries. */
  function SizeAll(entries: seq<Node>): nat {
    if entries == [] then 0 else Size(entries[0]) + SizeAll(entries[1..])
  }

  function StackSize(stack: seq<Task>): nat {
    if stack == [] then 0
    else StackSize(stack[..|stack| - 1]) + 1 + SizeAll(stack[|stack| - 1].entries)
  }

  lemma {:induction false} StackSizeAppend(a: seq<Task>, b: seq<Task>)
    ensures StackSize(a + b) == StackSize(a) + StackSize(b)
  {
    if b == [] {
      assert a + b == a;
    } else {
      StackSizeAppend(a, b[..|b| - 1]);
      assert (a + b)[..|a + b| - 1] == a + b[..|b| - 1];
    }
  }

  // ---- one directory --------------------------------------------------------

  function OwnFile(path: Path, n: Node): seq<Found> {
    if n.File? then [Found(path + [n.name], n.size)] else []
  }

  function OwnDir(path: Path, n: Node): seq<Task> {
    if n.Dir? then [Task(path + [n.name], n.entries)] else []
  }

  function FilesIn(path: Path, entries: seq<Node>): seq<Found> {
    if entries == [] then []
    else FilesIn(path, entries[..|entries| - 1]) + OwnFile(path, entries[|entries| - 1])
  }

  function DirsIn(path: Path, entries: seq<Node>): seq<Task> {
    if entries == [] then []
    else DirsIn(path, entries[..|entries| - 1]) + OwnDir(path, entries[|entries| - 1])
  }

  lemma {:induction false} SizeAllMore(entries: seq<Node>)
    requires entries != []
    ensures SizeAll(entries) == SizeAll(entries[..|entries| - 1]) + Size(entries[|entries| - 1])
  {
    if |entries| > 1 {
      SizeAllMore(entries[1..]);
      assert entries[1..][..|entries| - 2] == entries[..|entries| - 1][1..];
    } else {
      assert entries[1..] == [];
    }
  }

  lemma {:induction false} DirsInSize(path: Path, entries: seq<Node>)
    ensures StackSize(DirsIn(path, entries)) == SizeAll(entries)
  {
    if entries != [] {
      var init, n := entries[..|entries| - 1], entries[|entries| - 1];
      DirsInSize(path, init);
      SizeAllMore(entries);
      if n.Dir? {
        var t := Task(path + [n.name], n.entries);
        StackSizeAppend(DirsIn(path, init), [t]);
        assert [t][..0] == [];
        assert StackSize([t]) == StackSize([]) + 1 + SizeAll(n.entries);
      } else {
        assert DirsIn(path, init) + [] == DirsIn(path, init);
      }
    }
  }

  lemma PopShrinks(stack: seq<Task>)
    requires stack != []
    ensures var t := stack[|stack| - 1];
            StackSize(stack[..|stack| - 1] + DirsIn(t.path, t.entries)) == StackSize(stack) - 1
  {
    var t := stack[|stack| - 1];
    StackSizeAppend(stack[..|stack| - 1], DirsIn(t.path, t.entries));
    DirsInSize(t.path, t.entries);
  }

  // ---- the walk -------------------------------------------------------------

  /** The files met while a stack of directories is worked off, in order. */
  function Walk(stack: seq<Task>): seq<Found>
    decreases StackSize(stack)
  {
    if stack == [] then []
    else
      var t := stack[|stack| - 1];
      PopShrinks(stack);
      FilesIn(t.path, t.entries) + Walk(stack[..|stack| - 1] + DirsIn(t.path, t.entries))
  }

  /** The files of a tree, by recursion over it. */
  function FilesUnder(path: Path, entries: seq<Node>): seq<Found>
    decreases entries
  {
    if entries == [] then [] else FilesOf(path, entries[0]) + FilesUnder(path, entries[1..])
  }

  function FilesOf(path: Path, n: Node): seq<Found>
    decreases n
  {
    if n.File? then [Found(path + [n.name], n.size)]
    else if n.Dir? then FilesUnder(path + [n.name], n.entries)
    else []
  }

  function Under(stack: seq<Task>): seq<Found> {
    if stack == [] then []
    else Under(stack[..|stack| - 1]) + FilesUnder(stack[|stack| - 1].path, stack[|stack| - 1].entries)
  }

  lemma {:induction false} UnderAppend(a: seq<Task>, b: seq<Task>)
    ensures Under(a + b) == Under(a) + Under(b)
  {
    if b == [] {
      assert a + b == a;
    } else {
      var init, t := b[..|b| - 1], b[|b| - 1];
      UnderAppend(a, init);
      assert (a + b)[..|a + b| - 1] == a + init;
      Concat3(Under(a), Under(init), FilesUnder(t.path, t.entries));
    }
  }

  lemma {:induction false} FilesUnderMore(path: Path, init: seq<Node>, n: Node)
    ensures FilesUnder(path, init + [n]) == FilesUnder(path, init) + FilesUnder(path, [n])
  {
    if init == [] {
      assert init + [n] == [n];
    } else {
      FilesUnderMore(path, init[1..], n);
      assert (init + [n])[1..] == init[1..] + [n];
      assert FilesUnder(path, init) == FilesUnder(path, [init[0]]) + FilesUnder(path, init[1..]) by {
        OneEntry(path, init[0]);
      }
      OneEntry(path, init[0]);
      Concat3(FilesUnder(path, [init[0]]), FilesUnder(path, init[1..]), FilesUnder(path, [n]));
    }
  }

  lemma OneEntry(path: Path, n: Node)
    ensures FilesUnder(path, [n]) == FilesOf(path, n)
  {
    assert [n][1..] == [];
    assert FilesUnder(path, []) == [];
  }

  lemma OwnOrBelow(path: Path, n: Node)
    ensures multiset(FilesOf(path, n)) == multiset(OwnFile(path, n)) + multiset(Under(OwnDir(path, n)))
  {
    if n.Dir? {
      var t := Task(path + [n.name], n.entries);
      assert [t][..0] == [];
      assert Under([t]) == Under([]) + FilesUnder(t.path, t.entries);
    }
  }

  lemma Regrouped(x: seq<Found>, xOwn: seq<Found>, xBelow: seq<Found>,
                  y: seq<Found>, yOwn: seq<Found>, yBelow: seq<Found>)
    requires multiset(x) == multiset(xOwn) + multiset(xBelow)
    requires multiset(y) == multiset(yOwn) + multiset(yBelow)
    ensures multiset(x + y) == multiset(xOwn + yOwn) + multiset(xBelow + yBelow)
  {
  }

  lemma LastEntry(path: Path, entries: seq<Node>)
    requires entries != []
    ensures var init, n := entries[..|entries| - 1], entries[|entries| - 1];
            && FilesUnder(path, entries) == FilesUnder(path, init) + FilesOf(path, n)
            && FilesIn(path, entries) == FilesIn(path, init) + OwnFile(path, n)
            && Under(DirsIn(path, entries)) == Under(DirsIn(path, init)) + Under(OwnDir(path, n))
  {
    var init, n := entries[..|entries| - 1], entries[|entries| - 1];
    assert entries == init + [n];
    FilesUnderMore(path, init, n);
    OneEntry(path, n);
    UnderAppend(DirsIn(path, init), OwnDir(path, n));
  }

  /** The files of a directory are its own and those below its directories. */
  lemma {:induction false} OwnAndBelow(path: Path, entries: seq<Node>)
    ensures multiset(FilesUnder(path, entries))
            == multiset(FilesIn(path, entries)) + multiset(Under(DirsIn(path, entries)))
  {
    if entries != [] {
      var init, n := entries[..|entries| - 1], entries[|entries| - 1];
      OwnAndBelow(path, init);
      LastEntry(path, entries);
      OwnOrBelow(path, n);
      Regrouped(FilesUnder(path, init), FilesIn(path, init), Under(DirsIn(path, init)),
                FilesOf(path, n), OwnFile(path, n), Under(OwnDir(path, n)));
    }
  }

  /** The walk meets exactly the files of the tree. */
  lemma {:induction false} WalkMeetsAll(stack: seq<Task>)
    ensures multiset(Walk(stack)) == multiset(Under(stack))
    decreases StackSize(stack)
  {
    if stack != [] {
      var rest, t := stack[..|stack| - 1], stack[|stack| - 1];
      PopShrinks(stack);
      WalkMeetsAll(rest + DirsIn(t.path, t.entries));
      UnderAppend(rest, DirsIn(t.path, t.entries));
      OwnAndBelow(t.path, t.entries);
    }
  }

  // ---- lookup by path -------------------------------------------------------

  /** A name as a file system gives it: not empty, and without a slash. */
  predicate PlainName(name: string) {
    name != "" && forall i | 0 <= i < |name| :: name[i] != '/'
  }

  /** A directory gives plain names, each to one entry, at every level. */
  predicate WellNamed(entries: seq<Node>) {
    && (forall i | 0 <= i < |entries| :: PlainName(entries[i].name))
    && (forall i, j | 0 <= i < j < |entries| :: entries[i].name != entries[j].name)
    && (forall i | 0 <= i < |entries| :: entries[i].Dir? ==> WellNamed(entries[i].entries))
  }

  /** The size of the file at a path below some entries. */
  function Lookup(entries: seq<Node>, path: Path): Option<nat> {
    if entries == [] || path == [] then None
    else if entries[0].name != path[0] then Lookup(entries[1..], path)
    else if entries[0].Dir? then Lookup(entries[0].entries, path[1..])
    else if entries[0].File? && |path| == 1 then Some(entries[0].size)
    else None
  }

  lemma {:induction false} NotNamedNotFound(entries: seq<Node>, path: Path)
    requires path != [] && forall i | 0 <= i < |entries| :: entries[i].name != path[0]
    ensures Lookup(entries, path) == None
  {
    if entries != [] { NotNamedNotFound(entries[1..], path); }
  }

  /** The recursion lists a file if and only if its path leads to it. */
  lemma {:induction false} UnderIsLookup(path: Path, entries: seq<Node>, f: Found)
    requires WellNamed(entries)
    ensures f in FilesUnder(path, entries) <==> path <= f.path && Lookup(entries, f.path[|path|..]) == Some(f.size)
    decreases entries
  {
    if entries != [] {
      var n, rest := entries[0], entries[1..];
      UnderIsLookup(path, rest, f);
      OneEntry(path, n);
      HeadIsLookup(path, n, f);
      if path <= f.path && |path| < |f.path| && f.path[|path|] == n.name {
        NotNamedNotFound(rest, f.path[|path|..]);
      }
    }
  }

  lemma {:induction false} HeadIsLookup(path: Path, n: Node, f: Found)
    requires n.Dir? ==> WellNamed(n.entries)
    ensures f in FilesUnder(path, [n]) <==> path <= f.path && Lookup([n], f.path[|path|..]) == Some(f.size)
    decreases n
  {
    OneEntry(path, n);
    var deeper := path + [n.name];
    if n.Dir? { UnderIsLookup(deeper, n.entries, f); }
    assert [n][1..] == [];
    if path <= f.path && |path| < |f.path| {
      var below := f.path[|path|..];
      assert below[1..] == f.path[|path| + 1..];
      assert below[0] == n.name <==> deeper <= f.path;
      assert |below| == 1 && below[0] == n.name <==> f.path == deeper;
      assert Lookup([], below) == None;
    }
  }

  // ---- each file once -------------------------------------------------------

  lemma DistinctConcat(a: seq<Found>, b: seq<Found>)
    requires Distinct(a) && Distinct(b) && forall f | f in a :: f !in b
    ensures Distinct(a + b)
  {
    forall i, j | 0 <= i < j < |a + b| ensures (a + b)[i] != (a + b)[j] {
      if i < |a| <= j {
        assert a[i] in a;
        assert b[j - |a|] in b;
      }
    }
  }

  lemma {:induction false} UnderDistinct(path: Path, entries: seq<Node>)
    requires WellNamed(entries)
    ensures Distinct(FilesUnder(path, entries))
    decreases entries
  {
    if entries != [] {
      var n, rest := entries[0], entries[1..];
      UnderDistinct(path, rest);
      HeadDistinct(path, n);
      forall f | f in FilesOf(path, n) ensures f !in FilesUnder(path, rest) {
        HeadAndRestApart(path, entries, f);
      }
      DistinctConcat(FilesOf(path, n), FilesUnder(path, rest));
    }
  }

  lemma {:induction false} HeadDistinct(path: Path, n: Node)
    requires n.Dir? ==> WellNamed(n.entries)
    ensures Distinct(FilesOf(path, n))
    decreases n
  {
    if n.Dir? { UnderDistinct(path + [n.name], n.entries); }
  }

  lemma HeadAndRestApart(path: Path, entries: seq<Node>, f: Found)
    requires WellNamed(entries) && entries != [] && f in FilesOf(path, entries[0])
    ensures f !in FilesUnder(path, entries[1..])
  {
    var n, rest := entries[0], entries[1..];
    UnderIsLookup(path, rest, f);
    if n.Dir? { UnderIsLookup(path + [n.name], n.entries, f); }
    assert f.path[|path|] == n.name;
    NotNamedNotFound(rest, f.path[|path|..]);
  }

  lemma Permuted(a: seq<Found>, b: seq<Found>)
    requires multiset(a) == multiset(b)
    ensures forall f :: f in a <==> f in b
    ensures Distinct(a) <==> Distinct(b)
  {
    forall f ensures f in a <==> f in b {
      assert f in a <==> f in multiset(a);
      assert f in b <==> f in multiset(b);
    }
    assert Elements(a) == Elements(b);
    assert |a| == |multiset(a)| == |multiset(b)| == |b|;
    DistinctCount(a);
    DistinctCount(b);
  }

  /** The walk of a well-named tree meets a file if and only if a path leads to
      it, and meets it once. */
  lemma WalkIsTheTree(root: seq<Node>)
    requires WellNamed(root)
    ensures forall f :: f in Walk([Task([], root)]) <==> Lookup(root, f.path) == Some(f.size)
    ensures Distinct(Walk([Task([], root)]))
  {
    var stack := [Task([], root)];
    WalkMeetsAll(stack);
    assert stack[..0] == [];
    assert Under(stack) == Under([]) + FilesUnder([], root);
    Permuted(Walk(stack), FilesUnder([], root));
    UnderDistinct([], root);
    forall f ensures f in FilesUnder([], root) <==> Lookup(root, f.path) == Some(f.size) {
      UnderIsLookup([], root, f);
      assert f.path[0..] == f.path;
    }
  }

  // ---- hits -----------------------------------------------------------------

  type Hit = Found -> seq<string>

  function Hits(hit: Hit, files: seq<Found>): seq<string> {
    if files == [] then [] else Hits(hit, files[..|files| - 1]) + hit(files[|files| - 1])
  }

  lemma {:induction false} HitsAppend(hit: Hit, a: seq<Found>, b: seq<Found>)
    ensures Hits(hit, a + b) == Hits(hit, a) + Hits(hit, b)
  {
    if b == [] {
      assert a + b == a;
    } else {
      var init, f := b[..|b| - 1], b[|b| - 1];
      HitsAppend(hit, a, init);
      assert (a + b)[..|a + b| - 1] == a + init;
      Concat3(Hits(hit, a), Hits(hit, init), hit(f));
    }
  }

  // ---- entries seen ---------------------------------------------------------

  function CountAll(entries: seq<Node>): nat {
    if entries == [] then 0
    else 1 + (if entries[0].Dir? then CountAll(entries[0].entries) else 0) + CountAll(entries[1..])
  }

  function CountStack(stack: seq<Task>): nat {
    if stack == [] then 0 else CountStack(stack[..|stack| - 1]) + CountAll(stack[|stack| - 1].entries)
  }

  lemma {:induction false} CountStackAppend(a: seq<Task>, b: seq<Task>)
    ensures CountStack(a + b) == CountStack(a) + CountStack(b)
  {
    if b == [] {
      assert a + b == a;
    } else {
      CountStackAppend(a, b[..|b| - 1]);
      assert (a + b)[..|a + b| - 1] == a + b[..|b| - 1];
    }
  }

  lemma {:induction false} CountAllMore(entries: seq<Node>)
    requires entries != []
    ensures CountAll(entries) == CountAll(entries[..|entries| - 1]) + CountAll([entries[|entries| - 1]])
  {
    if |entries| > 1 {
      CountAllMore(entries[1..]);
      assert entries[1..][..|entries| - 2] == entries[..|entries| - 1][1..];
    } else {
      assert entries == [entries[0]];
    }
  }

  lemma {:induction false} CountOwnAndBelow(path: Path, entries: seq<Node>)
    ensures CountAll(entries) == |entries| + CountStack(DirsIn(path, entries))
  {
    if entries != [] {
      var init, n := entries[..|entries| - 1], entries[|entries| - 1];
      CountOwnAndBelow(path, init);
      CountAllMore(entries);
      CountStackAppend(DirsIn(path, init), OwnDir(path, n));
      assert [n][1..] == [];
      if n.Dir? {
        var t := Task(path + [n.name], n.entries);
        assert [t][..0] == [];
        assert CountStack([t]) == CountStack([]) + CountAll(t.entries);
      }
    }
  }

  // ---- the search -----------------------------------------------------------

  const SEARCH_MAX_RESULTS := 200

  datatype Note = NoNote | CapReached | BudgetRanOut

  datatype Report = Report(matches: seq<string>, scanned: nat, budgetExhausted: bool, note: Note)

  /** All hits below a directory, in the order of the walk. */
  function AllHits(hit: Hit, root: seq<Node>): seq<string> {
    Hits(hit, Walk([Task([], root)]))
  }

  lemma OneMoreEntry(path: Path, entries: seq<Node>, i: nat)
    requires i < |entries|
    ensures FilesIn(path, entries[..i + 1]) == FilesIn(path, entries[..i]) + OwnFile(path, entries[i])
    ensures DirsIn(path, entries[..i + 1]) == DirsIn(path, entries[..i]) + OwnDir(path, entries[i])
  {
    assert entries[..i + 1][..i] == entries[..i];
  }

  lemma {:induction false} HitsOfSomeEntries(hit: Hit, path: Path, entries: seq<Node>, i: nat)
    requires i <= |entries|
    ensures Hits(hit, FilesIn(path, entries[..i])) <= Hits(hit, FilesIn(path, entries))
    decreases |entries| - i
  {
    if i == |entries| {
      assert entries[..i] == entries;
    } else {
      HitsOfSomeEntries(hit, path, entries, i + 1);
      OneMoreEntry(path, entries, i);
      HitsAppend(hit, FilesIn(path, entries[..i]), OwnFile(path, entries[i]));
    }
  }

  lemma HitsOfOneMore(hit: Hit, path: Path, entries: seq<Node>, i: nat)
    requires i < |entries|
    ensures Hits(hit, FilesIn(path, entries[..i + 1]))
            == Hits(hit, FilesIn(path, entries[..i]))
               + if entries[i].File? then hit(Found(path + [entries[i].name], entries[i].size)) else []
  {
    OneMoreEntry(path, entries, i);
    HitsAppend(hit, FilesIn(path, entries[..i]), OwnFile(path, entries[i]));
    if entries[i].File? {
      var f := Found(path + [entries[i].name], entries[i].size);
      assert [f][..0] == [];
      assert Hits(hit, [f]) == Hits(hit, []) + hit(f);
    }
  }

  /** Reads one directory until it ends or the cap is reached. */
  method ScanDirectory(path: Path, entries: seq<Node>, hit: Hit, before: seq<string>)
      returns (matches: seq<string>, below: seq<Task>, scanned: nat, capped: bool)
    requires |before| < SEARCH_MAX_RESULTS
    ensures before <= matches <= before + Hits(hit, FilesIn(path, entries))
    ensures capped <==> |matches| >= SEARCH_MAX_RESULTS
    ensures !capped ==> matches == before + Hits(hit, FilesIn(path, entries))
    ensures !capped ==> below == DirsIn(path, entries) && scanned == |entries|
  {
    matches, below, scanned, capped := before, [], 0, false;
    for i := 0 to |entries|
      invariant matches == before + Hits(hit, FilesIn(path, entries[..i]))
      invariant below == DirsIn(path, entries[..i])
      invariant scanned == i
      invariant |matches| < SEARCH_MAX_RESULTS
    {
      scanned := scanned + 1;
      OneMoreEntry(path, entries, i);
      HitsOfOneMore(hit, path, entries, i);
      HitsOfSomeEntries(hit, path, entries, i + 1);
      var n := entries[i];
      if n.Dir? {
        below := below + [Task(path + [n.name], n.entries)];
      } else if n.File? {
        var found := hit(Found(path + [n.name], n.size));
        if found != [] {
          Concat3(before, Hits(hit, FilesIn(path, entries[..i])), found);
          matches := matches + found;
          if |matches| >= SEARCH_MAX_RESULTS {
            capped := true;
            return;
          }
        }
      }
    }
    assert entries[..|entries|] == entries;
  }

  lemma WalkStep(hit: Hit, stack: seq<Task>)
    requires stack != []
    ensures var t := stack[|stack| - 1];
            Hits(hit, Walk(stack))
            == Hits(hit, FilesIn(t.path, t.entries)) + Hits(hit, Walk(stack[..|stack| - 1] + DirsIn(t.path, t.entries)))
  {
    var t := stack[|stack| - 1];
    PopShrinks(stack);
    HitsAppend(hit, FilesIn(t.path, t.entries), Walk(stack[..|stack| - 1] + DirsIn(t.path, t.entries)));
  }

  lemma CountStep(stack: seq<Task>)
    requires stack != []
    ensures var t := stack[|stack| - 1];
            CountStack(stack) == |t.entries| + CountStack(stack[..|stack| - 1] + DirsIn(t.path, t.entries))
  {
    var t := stack[|stack| - 1];
    CountStackAppend(stack[..|stack| - 1], DirsIn(t.path, t.entries));
    CountOwnAndBelow(t.path, t.entries);
  }

  lemma OneTask(root: seq<Node>)
    ensures StackSize([Task([], root)]) == 1 + SizeAll(root)
    ensures CountStack([Task([], root)]) == CountAll(root)
  {
    var t := Task([], root);
    assert [t][..0] == [];
    assert StackSize([t]) == StackSize([]) + 1 + SizeAll(root);
    assert CountStack([t]) == CountStack([]) + CountAll(root);
  }

  /** The clock is past the deadline when some directory is about to be read. */
  ghost predicate RunsLate(late: nat -> bool, root: seq<Node>) {
    exists k: nat | k <= SizeAll(root) :: late(k)
  }

  /** Where a search stands: the hits so far and those still ahead make up all
      hits, below the cap, and no deadline was met. */
  ghost predicate Underway(hit: Hit, root: seq<Node>, late: nat -> bool, stack: seq<Task>, matches: seq<string>,
                           scanned: nat, read: nat) {
    && matches + Hits(hit, Walk(stack)) == AllHits(hit, root)
    && |matches| < SEARCH_MAX_RESULTS
    && scanned + CountStack(stack) == CountAll(root)
    && read + StackSize(stack) == 1 + SizeAll(root)
    && forall k: nat | k < read :: !late(k)
  }

  lemma UnderwayAtFirst(hit: Hit, root: seq<Node>, late: nat -> bool)
    ensures Underway(hit, root, late, [Task([], root)], [], 0, 0)
  {
    OneTask(root);
    assert [] + AllHits(hit, root) == AllHits(hit, root);
  }

  lemma UnderwayStill(hit: Hit, root: seq<Node>, late: nat -> bool, stack: seq<Task>, matches: seq<string>,
                      scanned: nat, read: nat)
    requires Underway(hit, root, late, stack, matches, scanned, read) && stack != [] && !late(read)
    requires var t := stack[|stack| - 1]; |matches + Hits(hit, FilesIn(t.path, t.entries))| < SEARCH_MAX_RESULTS
    ensures var t := stack[|stack| - 1];
            var rest := stack[..|stack| - 1] + DirsIn(t.path, t.entries);
            && Underway(hit, root, late, rest, matches + Hits(hit, FilesIn(t.path, t.entries)),
                        scanned + |t.entries|, read + 1)
            && StackSize(rest) < StackSize(stack)
  {
    var t := stack[|stack| - 1];
    var rest := stack[..|stack| - 1] + DirsIn(t.path, t.entries);
    PopShrinks(stack);
    WalkStep(hit, stack);
    CountStep(stack);
    Concat3(matches, Hits(hit, FilesIn(t.path, t.entries)), Hits(hit, Walk(rest)));
  }

  lemma UnderwayLate(hit: Hit, root: seq<Node>, late: nat -> bool, stack: seq<Task>, matches: seq<string>,
                     scanned: nat, read: nat)
    requires Underway(hit, root, late, stack, matches, scanned, read) && stack != [] && late(read)
    ensures matches <= AllHits(hit, root) && RunsLate(late, root)
  {
  }

  lemma UnderwayCapped(hit: Hit, root: seq<Node>, late: nat -> bool, stack: seq<Task>, matches: seq<string>,
                       scanned: nat, read: nat, more: seq<string>)
    requires Underway(hit, root, late, stack, matches, scanned, read) && stack != []
    requires var t := stack[|stack| - 1]; more <= matches + Hits(hit, FilesIn(t.path, t.entries))
    requires |more| >= SEARCH_MAX_RESULTS
    ensures more[..SEARCH_MAX_RESULTS] <= AllHits(hit, root) && |AllHits(hit, root)| >= SEARCH_MAX_RESULTS
  {
    var t := stack[|stack| - 1];
    WalkStep(hit, stack);
    Concat3(matches, Hits(hit, FilesIn(t.path, t.entries)),
            Hits(hit, Walk(stack[..|stack| - 1] + DirsIn(t.path, t.entries))));
    assert more <= AllHits(hit, root);
  }

  lemma UnderwayDone(hit: Hit, root: seq<Node>, late: nat -> bool, matches: seq<string>, scanned: nat, read: nat)
    requires Underway(hit, root, late, [], matches, scanned, read)
    ensures matches == AllHits(hit, root) && |matches| < SEARCH_MAX_RESULTS && !RunsLate(late, root)
    ensures scanned == CountAll(root)
  {
    assert matches + [] == matches;
  }

  /** Searches a tree; `late(k)` tells whether the deadline has passed when the
      k-th directory is about to be read. A report claims completeness exactly
      when the deadline was never met and the hits stay below the cap, and then
      it holds all hits. */
  method Search(root: seq<Node>, hit: Hit, late: nat -> bool) returns (report: Report)
    ensures report.matches <= AllHits(hit, root) && |report.matches| <= 200
    ensures report.budgetExhausted <==> |AllHits(hit, root)| >= 200 || RunsLate(late, root)
    ensures !report.budgetExhausted ==> report.matches == AllHits(hit, root) && report.scanned == CountAll(root)
    ensures report.note == if |report.matches| == 200 then CapReached
                           else if report.budgetExhausted then BudgetRanOut else NoNote
  {
    var stack := [Task([], root)];
    var matches: seq<string> := [];
    var scanned: nat, read: nat := 0, 0;
    UnderwayAtFirst(hit, root, late);
    while stack != []
      invariant Underway(hit, root, late, stack, matches, scanned, read)
      decreases StackSize(stack)
    {
      if late(read) {
        UnderwayLate(hit, root, late, stack, matches, scanned, read);
        return Report(matches, scanned, true, BudgetRanOut);
      }
      var t := stack[|stack| - 1];
      var more, below, seen, capped := ScanDirectory(t.path, t.entries, hit, matches);
      if capped {
        UnderwayCapped(hit, root, late, stack, matches, scanned, read, more);
        return Report(more[..SEARCH_MAX_RESULTS], scanned + seen, true, CapReached);
      }
      UnderwayStill(hit, root, late, stack, matches, scanned, read);
      matches, scanned, read := more, scanned + seen, read + 1;
      stack := stack[..|stack| - 1] + below;
    }
    UnderwayDone(hit, root, late, matches, scanned, read);
    report := Report(matches, scanned, false, NoNote);
  }

  // ---- finding files by name ------------------------------------------------

  predicate PlainPath(path: Path) {
    path != [] && forall i | 0 <= i < |path| :: PlainName(path[i])
  }

  /** `as_posix` of a relative path. */
  function SlashJoined(path: Path): string {
    if path == [] then ""
    else if |path| == 1 then path[0]
    else path[0] + "/" + SlashJoined(path[1..])
  }

  /** Joining by slashes is injective on the paths a tree can hold. */
  lemma {:induction false} SlashJoinedIsInjective(p: Path, q: Path)
    requires PlainPath(p) && PlainPath(q) && SlashJoined(p) == SlashJoined(q)
    ensures p == q
    decreases |p|
  {
    FirstName(p);
    FirstName(q);
    var text := SlashJoined(p);
    if |p[0]| < |q[0]| {
      SlashAfterFirst(p, q);
    } else if |q[0]| < |p[0]| {
      SlashAfterFirst(q, p);
    }
    assert p[0] == text[..|p[0]|] == q[0];
    if |p| > 1 && |q| > 1 {
      assert SlashJoined(p[1..]) == text[|p[0]| + 1..] == SlashJoined(q[1..]);
      SlashJoinedIsInjective(p[1..], q[1..]);
      assert p == [p[0]] + p[1..] && q == [q[0]] + q[1..];
    }
  }

  lemma FirstName(p: Path)
    requires PlainPath(p)
    ensures |p[0]| <= |SlashJoined(p)| && SlashJoined(p)[..|p[0]|] == p[0]
    ensures |p| == 1 <==> |SlashJoined(p)| == |p[0]|
    ensures |p| > 1 ==> SlashJoined(p)[|p[0]|] == '/' && SlashJoined(p)[|p[0]| + 1..] == SlashJoined(p[1..])
  {
  }

  lemma SlashAfterFirst(p: Path, q: Path)
    requires PlainPath(p) && PlainPath(q) && SlashJoined(p) == SlashJoined(q)
    ensures |q[0]| <= |p[0]|
  {
    FirstName(p);
    FirstName(q);
    NoSlashWithin(q);
  }

  lemma NoSlashWithin(q: Path)
    requires PlainPath(q)
    ensures |q[0]| <= |SlashJoined(q)| && forall i | 0 <= i < |q[0]| :: SlashJoined(q)[i] != '/'
  {
    FirstName(q);
    assert PlainName(q[0]);
    forall i | 0 <= i < |q[0]| ensures SlashJoined(q)[i] != '/' {
      assert SlashJoined(q)[..|q[0]|][i] == q[0][i];
    }
  }

  /** What a path leads to has a plain path. */
  lemma {:induction false} FoundPathsArePlain(entries: seq<Node>, path: Path)
    requires WellNamed(entries) && Lookup(entries, path).Some?
    ensures PlainPath(path)
    decreases entries
  {
    if entries[0].name != path[0] {
      FoundPathsArePlain(entries[1..], path);
    } else {
      assert PlainName(path[0]);
      if entries[0].Dir? {
        FoundPathsArePlain(entries[0].entries, path[1..]);
        forall i | 0 <= i < |path| ensures PlainName(path[i]) {
          if i > 0 { assert path[1..][i - 1] == path[i]; }
        }
      }
    }
  }

  /** The pattern fits the name or the path below the root. */
  predicate Wanted(fits: string -> bool, path: Path) {
    path != [] && (fits(path[|path| - 1]) || fits(SlashJoined(path)))
  }

  /** How a match is shown: below the root as the agent names it, `base` being
      that name with a slash at its end. */
  function Shown(base: string, path: Path): string {
    base + SlashJoined(path)
  }

  function NameHit(fits: string -> bool, base: string): Hit {
    (f: Found) => if Wanted(fits, f.path) then [Shown(base, f.path)] else []
  }

  /** Some listed file is wanted and shown like this. */
  ghost predicate ShownAmong(fits: string -> bool, base: string, files: seq<Found>, text: string) {
    exists f :: f in files && Wanted(fits, f.path) && Shown(base, f.path) == text
  }

  /** Some file of the tree is wanted and shown like this. */
  ghost predicate ShownInTree(fits: string -> bool, base: string, root: seq<Node>, text: string) {
    exists path ::
      && Lookup(root, path).Some? && path != []
      && (fits(path[|path| - 1]) || fits(SlashJoined(path))) && base + SlashJoined(path) == text
  }

  /** The files are shown differently. */
  ghost predicate ShownApart(base: string, files: seq<Found>) {
    forall i, j | 0 <= i < j < |files| :: Shown(base, files[i].path) != Shown(base, files[j].path)
  }

  lemma {:induction false} HitsAreShown(fits: string -> bool, base: string, files: seq<Found>)
    ensures forall text :: text in Hits(NameHit(fits, base), files) <==> ShownAmong(fits, base, files, text)
  {
    if files != [] {
      var init, last := files[..|files| - 1], files[|files| - 1];
      HitsAreShown(fits, base, init);
      assert files == init + [last];
      assert NameHit(fits, base)(last) == if Wanted(fits, last.path) then [Shown(base, last.path)] else [];
      assert forall f :: f in files <==> f in init || f == last;
    }
  }

  lemma {:induction false} HitsOnce(fits: string -> bool, base: string, files: seq<Found>)
    requires ShownApart(base, files)
    ensures Distinct(Hits(NameHit(fits, base), files))
  {
    if files != [] {
      var init, last := files[..|files| - 1], files[|files| - 1];
      HitsOnce(fits, base, init);
      HitsAreShown(fits, base, init);
      forall f | f in init ensures Shown(base, f.path) != Shown(base, last.path) {
        var i :| 0 <= i < |init| && init[i] == f;
        assert files[i] == f;
      }
      assert Shown(base, last.path) !in Hits(NameHit(fits, base), init);
    }
  }

  lemma ShownOnce(base: string, p: Path, q: Path)
    requires PlainPath(p) && PlainPath(q) && Shown(base, p) == Shown(base, q)
    ensures p == q
  {
    assert SlashJoined(p) == Shown(base, p)[|base|..];
    assert SlashJoined(q) == Shown(base, q)[|base|..];
    SlashJoinedIsInjective(p, q);
  }

  /** No two files of a tree are shown alike. */
  lemma FilesAreShownApart(root: seq<Node>, base: string)
    requires WellNamed(root)
    ensures ShownApart(base, Walk([Task([], root)]))
  {
    WalkIsTheTree(root);
    var files := Walk([Task([], root)]);
    forall i, j | 0 <= i < j < |files| ensures Shown(base, files[i].path) != Shown(base, files[j].path) {
      assert files[i] in files && files[j] in files;
      FoundPathsArePlain(root, files[i].path);
      FoundPathsArePlain(root, files[j].path);
      if Shown(base, files[i].path) == Shown(base, files[j].path) {
        ShownOnce(base, files[i].path, files[j].path);
      }
    }
  }

  lemma ShownFiles(root: seq<Node>, fits: string -> bool, base: string, text: string)
    requires WellNamed(root)
    ensures ShownAmong(fits, base, Walk([Task([], root)]), text) <==> ShownInTree(fits, base, root, text)
  {
    WalkIsTheTree(root);
    var files := Walk([Task([], root)]);
    if ShownInTree(fits, base, root, text) {
      var path :| Lookup(root, path).Some? && Wanted(fits, path) && Shown(base, path) == text;
      assert Found(path, Lookup(root, path).value) in files;
    }
  }

  /** What all hits are, when files are hit by their name or path. */
  lemma NameHitsAreTheFiles(root: seq<Node>, fits: string -> bool, base: string)
    requires WellNamed(root)
    ensures forall text :: text in AllHits(NameHit(fits, base), root) <==> ShownInTree(fits, base, root, text)
    ensures Distinct(AllHits(NameHit(fits, base), root))
  {
    var files := Walk([Task([], root)]);
    HitsAreShown(fits, base, files);
    FilesAreShownApart(root, base);
    HitsOnce(fits, base, files);
    forall text ensures ShownAmong(fits, base, files, text) <==> ShownInTree(fits, base, root, text) {
      ShownFiles(root, fits, base, text);
    }
  }

  /** Finds the files that fit a pattern and shows each by its path. Every match
      is such a file, none is given twice, and a report that claims completeness
      leaves none out. */
  method FindFiles(root: seq<Node>, fits: string -> bool, base: string, late: nat -> bool) returns (report: Report)
    requires WellNamed(root)
    ensures report.budgetExhausted <==>
            |AllHits(NameHit(fits, base), root)| >= 200 || RunsLate(late, root)
    ensures forall text | text in report.matches :: ShownInTree(fits, base, root, text)
    ensures !report.budgetExhausted ==>
              forall text :: text in report.matches <==> ShownInTree(fits, base, root, text)
    ensures Distinct(report.matches)
  {
    report := Search(root, NameHit(fits, base), late);
    NameHitsAreTheFiles(root, fits, base);
    assert forall text | text in report.matches :: text in AllHits(NameHit(fits, base), root);
  }
}
