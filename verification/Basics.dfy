/** Vocabulary shared by the model: optional values, the few string operations
    the Python code relies on, and duplicate-free sequences. */
module Basics {

  datatype Option<+T> = None | Some(value: T)

  /** What Python's `str.strip` and `str.split` count as white space. */
  predicate IsSpace(c: char) {
    || '\t' <= c <= '\r' || '\U{1c}' <= c <= ' '
    || c == '\U{85}' || c == '\U{a0}' || c == '\U{1680}'
    || '\U{2000}' <= c <= '\U{200a}'
    || c == '\U{2028}' || c == '\U{2029}' || c == '\U{202f}'
    || c == '\U{205f}' || c == '\U{3000}'
  }

  function StripLeft(s: string): string {
    if s != [] && IsSpace(s[0]) then StripLeft(s[1..]) else s
  }

  function StripRight(s: string): string {
    if s != [] && IsSpace(s[|s| - 1]) then StripRight(s[..|s| - 1]) else s
  }

  function Strip(s: string): string {
    StripRight(StripLeft(s))
  }

  predicate Blank(s: string) {
    Strip(s) == ""
  }

  /** The characters that a JSON encoder told to keep non-ASCII text leaves
      raw and that `str.splitlines` nevertheless takes for a line end. */
  predicate SplitsLine(c: char) {
    c == '\U{85}' || c == '\U{2028}' || c == '\U{2029}'
  }

  /** Text that survives being written as one line and read back by lines. */
  predicate OneLine(s: string) {
    forall i | 0 <= i < |s| :: !SplitsLine(s[i])
  }

  predicate Contains(s: string, part: string) {
    exists i | 0 <= i <= |s| :: part <= s[i..]
  }

  function Digit(d: nat): char
    requires d < 10
  {
    '0' + d as char
  }

  function Decimal(n: nat): (s: string)
    ensures s != ""
  {
    if n < 10 then [Digit(n)] else Decimal(n / 10) + [Digit(n % 10)]
  }

  ghost predicate Distinct<T>(s: seq<T>) {
    forall i, j | 0 <= i < j < |s| :: s[i] != s[j]
  }

  ghost function Elements<T>(s: seq<T>): set<T> {
    set x | x in s
  }

  lemma ElementsAppend<T>(a: seq<T>, b: seq<T>)
    ensures Elements(a + b) == Elements(a) + Elements(b)
  {
  }

  lemma Concat3<T>(a: seq<T>, b: seq<T>, c: seq<T>)
    ensures a + b + c == a + (b + c)
  {
  }

  lemma Concat4<T>(a: seq<T>, b: seq<T>, c: seq<T>, d: seq<T>)
    ensures a + b + c + d == a + (b + c + d)
    ensures a + b + (c + d) == a + (b + c + d)
  {
  }

  lemma Middle<T>(s: seq<T>, i: nat)
    requires i < |s|
    ensures s == s[..i] + ([s[i]] + s[i + 1..])
  {
  }

  lemma HeadAndBlock<T>(head: T, block: seq<T>, rest: seq<T>)
    ensures var s := [head] + block + rest;
      && |s| == 1 + |block| + |rest| && s[0] == head
      && s[1..] == block + rest && s[1..1 + |block|] == block && s[1 + |block|..] == rest
  {
  }

  lemma HeadAndTail<T>(s: seq<T>)
    requires s != []
    ensures s == [s[0]] + s[1..]
  {
  }

  lemma InitOfSnoc<T>(s: seq<T>, x: T)
    ensures s + [x] != [] && (s + [x])[..|s + [x]| - 1] == s && (s + [x])[|s + [x]| - 1] == x
  {
  }

  lemma CutWithinBlock<T>(head: T, block: seq<T>, rest: seq<T>, n: nat)
    requires 1 <= n <= 1 + |block|
    ensures ([head] + block + rest)[..n] == [head] + block[..n - 1] + []
  {
  }

  lemma CutBehindBlock<T>(head: T, block: seq<T>, rest: seq<T>, n: nat)
    requires 1 + |block| <= n <= 1 + |block| + |rest|
    ensures ([head] + block + rest)[..n] == [head] + block + rest[..n - 1 - |block|]
  {
  }

  lemma TailOfAppend<T>(a: seq<T>, b: seq<T>)
    requires a != []
    ensures (a + b)[0] == a[0] && (a + b)[1..] == a[1..] + b
  {
  }

  lemma InsertBefore<T>(a: seq<T>, b: seq<T>, x: T, i: nat)
    requires i <= |a|
    ensures (a + b)[..i] + [x] + (a + b)[i..] == a[..i] + [x] + a[i..] + b
  {
  }

  lemma CutOfSplice<T>(s: seq<T>, f: nat, k: nat, j: nat)
    requires f <= k <= |s| && f <= j && k + j - f <= |s|
    ensures (s[..f] + s[k..])[..f] == s[..f] && (s[..f] + s[k..])[j..] == s[k + j - f..]
    ensures forall i | f <= i < |s[..f] + s[k..]| :: (s[..f] + s[k..])[i] == s[k + i - f]
  {
  }

  lemma DistinctCount<T>(s: seq<T>)
    ensures |Elements(s)| <= |s|
    ensures Distinct(s) <==> |Elements(s)| == |s|
  {
    if s != [] {
      var init, last := s[..|s| - 1], s[|s| - 1];
      DistinctCount(init);
      assert s == init + [last];
      ElementsAppend(init, [last]);
      assert Elements([last]) == {last};
      if last in init {
        assert Elements(s) == Elements(init);
        var i :| 0 <= i < |init| && init[i] == last;
        assert s[i] == s[|s| - 1];
      } else {
        assert last !in Elements(init);
        assert |Elements(s)| == |Elements(init)| + 1;
        if Distinct(init) {
          forall i, j | 0 <= i < j < |s| ensures s[i] != s[j] {
            if j == |s| - 1 { assert s[i] in init; }
          }
        }
        assert Distinct(s) ==> Distinct(init);
      }
    } else {
      assert Elements(s) == {};
    }
  }

  /** Order of Python strings: by code point, a proper prefix first. */
  predicate LexLe(a: string, b: string) {
    a == [] || (b != [] && (a[0] < b[0] || (a[0] == b[0] && LexLe(a[1..], b[1..]))))
  }

  lemma LexTotal(a: string, b: string)
    ensures LexLe(a, b) || LexLe(b, a)
    ensures LexLe(a, b) && LexLe(b, a) ==> a == b
  {
    if a != [] && b != [] && a[0] == b[0] {
      LexTotal(a[1..], b[1..]);
      assert a == [a[0]] + a[1..] && b == [b[0]] + b[1..];
    }
  }

  lemma LexTransitive(a: string, b: string, c: string)
    requires LexLe(a, b) && LexLe(b, c)
    ensures LexLe(a, c)
  {
    if a != [] && a[0] == b[0] && b[0] == c[0] {
      LexTransitive(a[1..], b[1..], c[1..]);
    }
  }

  predicate IsLeast(m: string, s: set<string>) {
    m in s && forall x | x in s :: LexLe(m, x)
  }

  lemma LeastExists(s: set<string>)
    requires s != {}
    ensures exists m :: IsLeast(m, s)
  {
    var x :| x in s;
    var rest := s - {x};
    LexTotal(x, x);
    if rest == {} {
      assert s == {x};
      assert IsLeast(x, s);
    } else {
      LeastExists(rest);
      var m :| IsLeast(m, rest);
      LexTotal(x, m);
      if LexLe(x, m) {
        forall y | y in s ensures LexLe(x, y) {
          if y != x { LexTransitive(x, m, y); }
        }
        assert IsLeast(x, s);
      } else {
        assert IsLeast(m, s);
      }
    }
  }

  /** `sorted` on a set of strings. */
  ghost function Sorted(s: set<string>): (r: seq<string>)
    ensures Elements(r) == s && |r| == |s|
  {
    if s == {} then [] else
      LeastExists(s);
      var m :| IsLeast(m, s);
      assert Elements([m] + Sorted(s - {m})) == {m} + Elements(Sorted(s - {m}));
      [m] + Sorted(s - {m})
  }

  lemma {:induction false} SortedIsOrdered(s: set<string>)
    ensures forall i, j | 0 <= i < j < |Sorted(s)| :: LexLe(Sorted(s)[i], Sorted(s)[j])
  {
    if s != {} {
      LeastExists(s);
      var m := Sorted(s)[0];
      assert IsLeast(m, s);
      SortedIsOrdered(s - {m});
      var rest := Sorted(s - {m});
      assert Sorted(s) == [m] + rest;
      forall j | 0 <= j < |rest| ensures LexLe(m, rest[j]) {
        assert rest[j] in Elements(rest);
      }
    }
  }

  /** `a` is what remains of `b` after dropping some elements. */
  ghost predicate Subsequence<T>(a: seq<T>, b: seq<T>) {
    if a == [] then true
    else b != [] && ((a[0] == b[0] && Subsequence(a[1..], b[1..])) || Subsequence(a, b[1..]))
  }

  lemma SubsequencePrepend<T>(a: seq<T>, b: seq<T>, extra: seq<T>)
    requires Subsequence(a, b)
    ensures Subsequence(a, extra + b)
  {
    if extra == [] {
      assert extra + b == b;
    } else {
      SubsequencePrepend(a, b, extra[1..]);
      assert (extra + b)[1..] == extra[1..] + b;
    }
  }
}
