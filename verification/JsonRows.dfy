/** Files of JSON rows: what `_read_rows` takes from each line, and the numbers
    dealt by counting it (scientist/ledger.py). */
module JsonRows {
  import opened Basics

  /** How the JSON reader takes a stripped piece of text: as an object or not. */
  type ReadsObject = string -> bool

  /** `str.splitlines` on one written row. */
  function Pieces(line: string): (pieces: seq<string>)
    ensures pieces != []
  {
    if line == "" then [""]
    else
      var rest := Pieces(line[1..]);
      if SplitsLine(line[0]) then [""] + rest else [[line[0]] + rest[0]] + rest[1..]
  }

  predicate Counts(piece: string, json: ReadsObject) {
    !Blank(piece) && json(Strip(piece))
  }

  function Taken(pieces: seq<string>, json: ReadsObject): nat {
    if pieces == [] then 0
    else Taken(pieces[..|pieces| - 1], json) + if Counts(pieces[|pieces| - 1], json) then 1 else 0
  }

  /** How many rows are read back from one that was written. */
  function Yield(line: string, json: ReadsObject): nat {
    Taken(Pieces(line), json)
  }

  /** How many rows a file gives back. */
  function RowsIn(lines: seq<string>, json: ReadsObject): nat {
    if lines == [] then 0 else RowsIn(lines[..|lines| - 1], json) + Yield(lines[|lines| - 1], json)
  }

  /** The loop of `_read_rows`, its rows counted. */
  method CountRows(lines: seq<string>, json: ReadsObject) returns (n: nat)
    ensures n == RowsIn(lines, json)
  {
    n := 0;
    for i := 0 to |lines|
      invariant n == RowsIn(lines[..i], json)
    {
      assert lines[..i + 1][..i] == lines[..i];
      var seen := CountPieces(Pieces(lines[i]), json);
      n := n + seen;
    }
    assert lines[..|lines|] == lines;
  }

  method CountPieces(pieces: seq<string>, json: ReadsObject) returns (n: nat)
    ensures n == Taken(pieces, json)
  {
    n := 0;
    for i := 0 to |pieces|
      invariant n == Taken(pieces[..i], json)
    {
      assert pieces[..i + 1][..i] == pieces[..i];
      var piece := Strip(pieces[i]);
      if piece != "" && json(piece) { n := n + 1; }
    }
    assert pieces[..|pieces|] == pieces;
  }

  // ---- what a row yields ----------------------------------------------------

  lemma {:induction false} OnePiece(line: string)
    requires OneLine(line)
    ensures Pieces(line) == [line]
  {
    if line != "" {
      OnePiece(line[1..]);
      assert [line[0]] + line[1..] == line;
    }
  }

  lemma {:induction false} FirstPiece(a: string, sep: char, rest: string)
    requires OneLine(a) && SplitsLine(sep)
    ensures Pieces(a + [sep] + rest) == [a] + Pieces(rest)
  {
    var line := a + [sep] + rest;
    if a == "" {
      assert line[1..] == rest;
    } else {
      FirstPiece(a[1..], sep, rest);
      assert line[1..] == a[1..] + [sep] + rest;
      assert [a[0]] + a[1..] == a;
    }
  }

  lemma TakenMore(pieces: seq<string>, piece: string, json: ReadsObject)
    ensures Taken(pieces + [piece], json) == Taken(pieces, json) + if Counts(piece, json) then 1 else 0
  {
    assert (pieces + [piece])[..|pieces|] == pieces;
  }

  lemma TakenOfTwo(a: string, b: string, json: ReadsObject)
    ensures Taken([a] + [b], json) == (if Counts(a, json) then 1 else 0) + if Counts(b, json) then 1 else 0
  {
    TakenMore([], a, json);
    assert [] + [a] == [a];
    TakenMore([a], b, json);
  }

  /** A row on one line is read back once, if it is an object at all. */
  lemma WholeRowYieldsOne(line: string, json: ReadsObject)
    requires OneLine(line)
    ensures Yield(line, json) == if Counts(line, json) then 1 else 0
  {
    OnePiece(line);
    assert [line][..0] == [];
  }

  /** A row cut in two by a separator is lost when neither half is an object. */
  lemma SplitRowYieldsNone(a: string, sep: char, b: string, json: ReadsObject)
    requires OneLine(a) && OneLine(b) && SplitsLine(sep) && !Counts(a, json) && !Counts(b, json)
    ensures Yield(a + [sep] + b, json) == 0
  {
    FirstPiece(a, sep, b);
    OnePiece(b);
    TakenOfTwo(a, b, json);
  }

  /** A lost row counts all the same when a piece of its text is an object. */
  lemma ObjectPieceStillCounts(a: string, sep: char, b: string, json: ReadsObject)
    requires OneLine(a) && OneLine(b) && SplitsLine(sep) && !Counts(a, json) && !Counts(b, json) && json("{}")
    ensures Yield(a + [sep] + ("{}" + [sep] + b), json) == 1
  {
    FirstPiece(a, sep, "{}" + [sep] + b);
    FirstPiece("{}", sep, b);
    OnePiece(b);
    Concat3([a], ["{}"], [b]);
    assert Strip("{}") == "{}";
    TakenOfTwo(a, "{}", json);
    TakenMore([a] + ["{}"], b, json);
  }

  // ---- rows numbered by counting --------------------------------------------

  /** The file after some rows, each printed with one more than the rows read
      back before it. */
  function Written<T>(items: seq<T>, show: (nat, T) -> string, json: ReadsObject): (lines: seq<string>)
    ensures |lines| == |items|
  {
    if items == [] then []
    else
      var before := Written(items[..|items| - 1], show, json);
      before + [show(RowsIn(before, json) + 1, items[|items| - 1])]
  }

  /** How many rows the first lines of a file give back. */
  function Before(lines: seq<string>, i: nat, json: ReadsObject): nat
    requires i <= |lines|
  {
    RowsIn(lines[..i], json)
  }

  /** The number dealt to the i-th row. */
  function NumberOf<T>(items: seq<T>, show: (nat, T) -> string, json: ReadsObject, i: nat): nat
    requires i < |items|
  {
    Before(Written(items, show, json), i, json) + 1
  }

  lemma WrittenMore<T>(items: seq<T>, item: T, show: (nat, T) -> string, json: ReadsObject)
    ensures var before := Written(items, show, json);
            Written(items + [item], show, json) == before + [show(RowsIn(before, json) + 1, item)]
  {
    hide RowsIn;
    InitOfSnoc(items, item);
  }

  lemma OneRowFurther(lines: seq<string>, i: nat, json: ReadsObject)
    requires i < |lines|
    ensures Before(lines, i + 1, json) == Before(lines, i, json) + Yield(lines[i], json)
  {
    assert lines[..i + 1][..i] == lines[..i];
  }

  lemma {:induction false} RowsOnlyAdd(lines: seq<string>, i: nat, j: nat, json: ReadsObject)
    requires i <= j <= |lines|
    ensures Before(lines, i, json) <= Before(lines, j, json)
    decreases j - i
  {
    if i < j {
      RowsOnlyAdd(lines, i, j - 1, json);
      OneRowFurther(lines, j - 1, json);
    }
  }

  /** Every row but the last gives back a row, whole or in pieces. */
  predicate EachYields(lines: seq<string>, json: ReadsObject) {
    forall i | 0 <= i < |lines| - 1 :: Yield(lines[i], json) >= 1
  }

  ghost predicate CountsApart(lines: seq<string>, json: ReadsObject) {
    forall i, j | 0 <= i < j < |lines| :: Before(lines, i, json) != Before(lines, j, json)
  }

  lemma CountsApartExactly(lines: seq<string>, json: ReadsObject)
    ensures CountsApart(lines, json) <==> EachYields(lines, json)
  {
    hide Before, Yield;
    if EachYields(lines, json) {
      forall i, j | 0 <= i < j < |lines| ensures Before(lines, i, json) != Before(lines, j, json) {
        OneRowFurther(lines, i, json);
        RowsOnlyAdd(lines, i + 1, j, json);
      }
    } else {
      var i :| 0 <= i < |lines| - 1 && Yield(lines[i], json) < 1;
      OneRowFurther(lines, i, json);
    }
  }

  /** The numbers are unique if and only if every row but the last gives back at
      least one row. */
  lemma NumbersUniqueExactly<T>(items: seq<T>, show: (nat, T) -> string, json: ReadsObject)
    ensures (forall i, j | 0 <= i < j < |items| ::
               NumberOf(items, show, json, i) != NumberOf(items, show, json, j))
            <==> EachYields(Written(items, show, json), json)
  {
    hide EachYields, Before, Written;
    var lines := Written(items, show, json);
    CountsApartExactly(lines, json);
    if CountsApart(lines, json) {
      forall i, j | 0 <= i < j < |items|
        ensures NumberOf(items, show, json, i) != NumberOf(items, show, json, j)
      {
        assert Before(lines, i, json) != Before(lines, j, json);
      }
    } else {
      var i, j :| 0 <= i < j < |lines| && Before(lines, i, json) == Before(lines, j, json);
      assert NumberOf(items, show, json, i) == NumberOf(items, show, json, j);
    }
  }

  /** While all rows are written on one line and read as objects, they are
      numbered one, two, three. */
  lemma {:induction false} WholeRowsAreCounted(lines: seq<string>, json: ReadsObject, n: nat)
    requires n <= |lines|
    requires forall i | 0 <= i < |lines| :: OneLine(lines[i]) && Counts(lines[i], json)
    ensures Before(lines, n, json) == n
  {
    if n > 0 {
      WholeRowsAreCounted(lines, json, n - 1);
      OneRowFurther(lines, n - 1, json);
      WholeRowYieldsOne(lines[n - 1], json);
    }
  }
}
