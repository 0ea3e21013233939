/**
  The checksum gate of the finance backfill (modules/finance/scripts/backfill.ts).

  A column is compared by row count and by the md5 of its sorted values joined with newlines.
  md5 is taken to be injective, so the digest is represented by the joined text itself. Texts are
  sequences of UTF-16 code units, which is what Array.prototype.sort compares.
*/
module BackfillVerify {
  type Text = seq<nat>

  datatype Cell = Null | Value(text: Text)

  const NEWLINE: nat := 10
  /** ' NULL' */
  const NULL_MARK: Text := [32, 78, 85, 76, 76]

  function Norm(c: Cell): Text { if c.Null? then NULL_MARK else c.text }

  function Norms(cells: seq<Cell>): seq<Text> {
    seq(|cells|, i requires 0 <= i < |cells| => Norm(cells[i]))
  }

  // Lexicographic order by code unit.
  predicate LexLe(a: Text, b: Text) {
    a == [] || (b != [] && (a[0] < b[0] || (a[0] == b[0] && LexLe(a[1..], b[1..]))))
  }

  function Insert(x: Text, xs: seq<Text>): seq<Text> {
    if xs == [] || LexLe(x, xs[0]) then [x] + xs else [xs[0]] + Insert(x, xs[1..])
  }

  function Sort(xs: seq<Text>): seq<Text> {
    if xs == [] then [] else Insert(xs[0], Sort(xs[1..]))
  }

  function Join(xs: seq<Text>): Text {
    if xs == [] then [] else if |xs| == 1 then xs[0] else xs[0] + [NEWLINE] + Join(xs[1..])
  }

  function Md5OfSortedColumn(cells: seq<Cell>): Text { Join(Sort(Norms(cells))) }

  // ---------------------------------------------------------------------------------------------
  // The gate
  // ---------------------------------------------------------------------------------------------

  /** One compared table: the checksummed column on both sides, or only its row counts. */
  datatype Table = Table(name: string, source: seq<Cell>, target: seq<Cell>, checksummed: bool)

  datatype Verdict = Ok | CountMismatch(table: string) | ChecksumMismatch(table: string)

  predicate Counts(t: Table) { |t.source| == |t.target| }

  predicate Checksums(t: Table) { t.checksummed ==> Md5OfSortedColumn(t.source) == Md5OfSortedColumn(t.target) }

  predicate Agrees(t: Table) { Counts(t) && Checksums(t) }

  /** Table i is the first of `tables` to fail `check`. */
  ghost predicate FirstToFail(tables: seq<Table>, check: Table -> bool, i: nat) {
    i < |tables| && !check(tables[i]) && forall j | 0 <= j < i :: check(tables[j])
  }

  ghost predicate AllPass(tables: seq<Table>, check: Table -> bool) { forall i | 0 <= i < |tables| :: check(tables[i]) }

  /** A table's first failing check names it: its count, else its checksum. */
  ghost predicate Reports(v: Verdict, t: Table) {
    v == if !Counts(t) then CountMismatch(t.name) else ChecksumMismatch(t.name)
  }

  /**
    The verdict of a gate that stops at the first failure in this order: every count, then every
    checksum, then each auxiliary mirror's count and checksum.
  */
  ghost predicate StopsAtFirst(v: Verdict, tables: seq<Table>, aux: seq<Table>) {
    if !AllPass(tables, Counts) then exists i: nat :: FirstToFail(tables, Counts, i) && v == CountMismatch(tables[i].name)
    else if !AllPass(tables, Checksums) then exists i: nat :: FirstToFail(tables, Checksums, i) && v == ChecksumMismatch(tables[i].name)
    else if !AllPass(aux, Agrees) then exists i: nat :: FirstToFail(aux, Agrees, i) && Reports(v, aux[i])
    else v == Ok
  }

  /**
    verify(): it returns normally exactly when everything agrees, and otherwise names the first
    table and check to fail. A normal return certifies the contents of every plain checksummed column.
  */
  method Verify(tables: seq<Table>, aux: seq<Table>) returns (v: Verdict)
    ensures StopsAtFirst(v, tables, aux)
    ensures v == Ok <==> forall t | t in tables || t in aux :: Agrees(t)
    ensures v == Ok ==> forall t | t in tables || t in aux :: |t.source| == |t.target|
    ensures v == Ok ==> forall t | (t in tables || t in aux) && t.checksummed && Plain(t.source) && Plain(t.target) ::
              multiset(t.source) == multiset(t.target)
  {
    for i := 0 to |tables|
      invariant forall j | 0 <= j < i :: Counts(tables[j])
    {
      if |tables[i].source| != |tables[i].target| {
        assert FirstToFail(tables, Counts, i);
        assert tables[i] in tables && !Agrees(tables[i]);
        return CountMismatch(tables[i].name);
      }
    }
    for i := 0 to |tables|
      invariant forall j | 0 <= j < i :: Checksums(tables[j])
    {
      if tables[i].checksummed && Md5OfSortedColumn(tables[i].source) != Md5OfSortedColumn(tables[i].target) {
        assert FirstToFail(tables, Checksums, i);
        assert tables[i] in tables && !Agrees(tables[i]);
        return ChecksumMismatch(tables[i].name);
      }
    }
    for i := 0 to |aux|
      invariant forall j | 0 <= j < i :: Agrees(aux[j])
    {
      if |aux[i].source| != |aux[i].target| {
        assert FirstToFail(aux, Agrees, i);
        assert aux[i] in aux && !Agrees(aux[i]);
        return CountMismatch(aux[i].name);
      }
      if aux[i].checksummed && Md5OfSortedColumn(aux[i].source) != Md5OfSortedColumn(aux[i].target) {
        assert FirstToFail(aux, Agrees, i);
        assert aux[i] in aux && !Agrees(aux[i]);
        return ChecksumMismatch(aux[i].name);
      }
    }
    v := Ok;
    forall t | (t in tables || t in aux) && t.checksummed && Plain(t.source) && Plain(t.target)
      ensures multiset(t.source) == multiset(t.target)
    {
      GateIsSound(t);
    }
  }

  // ---------------------------------------------------------------------------------------------
  // Sorting decides multiset equality
  // ---------------------------------------------------------------------------------------------

  predicate Sorted(xs: seq<Text>) {
    forall i, j | 0 <= i < j < |xs| :: LexLe(xs[i], xs[j])
  }

  lemma {:induction false} LexTotal(a: Text, b: Text)
    ensures LexLe(a, b) || LexLe(b, a)
    ensures LexLe(a, b) && LexLe(b, a) ==> a == b
  {
    if a != [] && b != [] && a[0] == b[0] {
      LexTotal(a[1..], b[1..]);
      assert a == [a[0]] + a[1..] && b == [b[0]] + b[1..];
    }
  }

  lemma {:induction false} LexTransitive(a: Text, b: Text, c: Text)
    requires LexLe(a, b) && LexLe(b, c)
    ensures LexLe(a, c)
  {
    if a != [] && b != [] && c != [] && a[0] == b[0] == c[0] {
      LexTransitive(a[1..], b[1..], c[1..]);
    }
  }

  lemma {:induction false} InsertSorted(x: Text, xs: seq<Text>)
    requires Sorted(xs)
    ensures multiset(Insert(x, xs)) == multiset{x} + multiset(xs) && Sorted(Insert(x, xs))
  {
    if xs == [] {
    } else if LexLe(x, xs[0]) {
      forall j | 0 <= j < |xs| ensures LexLe(x, xs[j]) {
        if j > 0 {
          LexTransitive(x, xs[0], xs[j]);
        }
      }
    } else {
      LexTotal(x, xs[0]);
      InsertSorted(x, xs[1..]);
      assert xs == [xs[0]] + xs[1..];
      var rest := Insert(x, xs[1..]);
      forall j | 0 <= j < |rest| ensures LexLe(xs[0], rest[j]) {
        assert rest[j] in multiset(rest);
        assert rest[j] == x || rest[j] in xs[1..];
      }
    }
  }

  lemma {:induction false} SortSorts(xs: seq<Text>)
    ensures multiset(Sort(xs)) == multiset(xs) && Sorted(Sort(xs))
  {
    if xs != [] {
      SortSorts(xs[1..]);
      InsertSorted(xs[0], Sort(xs[1..]));
      assert xs == [xs[0]] + xs[1..];
    }
  }

  lemma FirstIsLeast(xs: seq<Text>, y: Text)
    requires Sorted(xs) && y in multiset(xs)
    ensures LexLe(xs[0], y)
  {
    var i :| 0 <= i < |xs| && xs[i] == y;
    LexTotal(y, y);
  }

  lemma RemoveFirst(xs: seq<Text>)
    requires xs != []
    ensures multiset(xs[1..]) == multiset(xs) - multiset{xs[0]} && xs[0] in multiset(xs)
  {
    assert xs == [xs[0]] + xs[1..];
  }

  lemma {:induction false} SortedUnique(xs: seq<Text>, ys: seq<Text>)
    requires Sorted(xs) && Sorted(ys) && multiset(xs) == multiset(ys)
    ensures xs == ys
  {
    assert |multiset(xs)| == |xs| && |multiset(ys)| == |ys|;
    if xs != [] {
      RemoveFirst(xs);
      RemoveFirst(ys);
      FirstIsLeast(xs, ys[0]);
      FirstIsLeast(ys, xs[0]);
      LexTotal(xs[0], ys[0]);
      SortedUnique(xs[1..], ys[1..]);
      assert xs == [xs[0]] + xs[1..] && ys == [ys[0]] + ys[1..];
    }
  }

  // ---------------------------------------------------------------------------------------------
  // What a joined text determines
  // ---------------------------------------------------------------------------------------------

  /** A text cut at its newlines; always at least one line. */
  function Lines(t: Text): (ls: seq<Text>)
    ensures ls != []
  {
    if t == [] then [[]] else Cut(t[0], Lines(t[1..]))
  }

  /** One more character in front of some lines. */
  function Cut(c: nat, ls: seq<Text>): (r: seq<Text>)
    requires ls != []
    ensures r != []
  {
    if c == NEWLINE then [[]] + ls else [[c] + ls[0]] + ls[1..]
  }

  function AllLines(xs: seq<Text>): seq<Text> {
    if xs == [] then [] else Lines(xs[0]) + AllLines(xs[1..])
  }

  predicate OneLine(t: Text) { NEWLINE !in t }

  lemma CutConcat(c: nat, ls: seq<Text>, more: seq<Text>)
    requires ls != []
    ensures Cut(c, ls + more) == Cut(c, ls) + more
  {
    assert (ls + more)[1..] == ls[1..] + more;
  }

  lemma {:induction false} LinesOfConcat(a: Text, b: Text)
    ensures Lines(a + [NEWLINE] + b) == Lines(a) + Lines(b)
  {
    if a == [] {
      assert a + [NEWLINE] + b == [NEWLINE] + b;
    } else {
      LinesOfConcat(a[1..], b);
      assert (a + [NEWLINE] + b)[1..] == a[1..] + [NEWLINE] + b;
      CutConcat(a[0], Lines(a[1..]), Lines(b));
    }
  }

  lemma {:induction false} JoinLines(t: Text)
    ensures Join(Lines(t)) == t
  {
    if t != [] {
      JoinLines(t[1..]);
      var rest := Lines(t[1..]);
      assert t == [t[0]] + t[1..];
      if t[0] != NEWLINE {
        assert Lines(t)[1..] == rest[1..];
      } else {
        assert Lines(t)[1..] == rest;
      }
    }
  }

  lemma {:induction false} LinesOfJoin(xs: seq<Text>)
    requires xs != []
    ensures Lines(Join(xs)) == AllLines(xs)
  {
    if |xs| == 1 {
      assert AllLines(xs[1..]) == [];
    } else {
      LinesOfConcat(xs[0], Join(xs[1..]));
      LinesOfJoin(xs[1..]);
    }
  }

  lemma {:induction false} OneLineLines(xs: seq<Text>)
    requires forall x | x in xs :: OneLine(x)
    ensures AllLines(xs) == xs
  {
    if xs != [] {
      LinesOfOneLine(xs[0]);
      OneLineLines(xs[1..]);
    }
  }

  lemma {:induction false} LinesOfOneLine(t: Text)
    requires OneLine(t)
    ensures Lines(t) == [t]
  {
    if t != [] {
      assert t == [t[0]] + t[1..];
      LinesOfOneLine(t[1..]);
    }
  }

  /** What the checksum certifies with equal counts, for any values: the lines of the sorted values. */
  lemma ChecksumIffLines(source: seq<Cell>, target: seq<Cell>)
    requires |source| == |target|
    ensures Md5OfSortedColumn(source) == Md5OfSortedColumn(target) <==>
            AllLines(Sort(Norms(source))) == AllLines(Sort(Norms(target)))
  {
    SortSorts(Norms(source));
    SortSorts(Norms(target));
    var s, t := Sort(Norms(source)), Sort(Norms(target));
    assert |s| == |multiset(s)| == |source| && |t| == |multiset(t)| == |target|;
    if source != [] {
      LinesOfJoin(s);
      LinesOfJoin(t);
      JoinLines(Join(s));
      JoinLines(Join(t));
    }
  }

  ghost predicate Plain(cells: seq<Cell>) {
    forall c | c in cells :: c.Value? ==> OneLine(c.text) && c.text != NULL_MARK
  }

  lemma ChecksumIffNorms(source: seq<Cell>, target: seq<Cell>)
    requires |source| == |target|
    requires forall c | c in source || c in target :: OneLine(Norm(c))
    ensures Md5OfSortedColumn(source) == Md5OfSortedColumn(target) <==> multiset(Norms(source)) == multiset(Norms(target))
  {
    ChecksumIffLines(source, target);
    SortKeepsOneLine(source);
    SortKeepsOneLine(target);
    var s, t := Norms(source), Norms(target);
    SortSorts(s);
    SortSorts(t);
    if multiset(s) == multiset(t) {
      SortedUnique(Sort(s), Sort(t));
    }
  }

  lemma SortKeepsOneLine(cells: seq<Cell>)
    requires forall c | c in cells :: OneLine(Norm(c))
    ensures AllLines(Sort(Norms(cells))) == Sort(Norms(cells))
  {
    var s := Norms(cells);
    SortSorts(s);
    forall x | x in Sort(s) ensures OneLine(x) {
      assert x in multiset(Sort(s));
      var i :| 0 <= i < |s| && s[i] == x;
      assert cells[i] in cells;
    }
    OneLineLines(Sort(s));
  }

  lemma NormsCons(c: Cell, rest: seq<Cell>)
    ensures Norms([c] + rest) == [Norm(c)] + Norms(rest)
  {
  }

  lemma NormInjective(a: Cell, b: Cell)
    requires (a.Value? ==> a.text != NULL_MARK) && (b.Value? ==> b.text != NULL_MARK)
    ensures Norm(a) == Norm(b) <==> a == b
  {
  }

  lemma MultisetCons<T>(x: T, rest: seq<T>, y: T)
    ensures multiset([x] + rest)[y] == multiset(rest)[y] + if x == y then 1 else 0
  {
  }

  lemma {:induction false} NormCount(cells: seq<Cell>, c: Cell)
    requires Plain(cells) && (c.Value? ==> c.text != NULL_MARK)
    ensures multiset(Norms(cells))[Norm(c)] == multiset(cells)[c]
  {
    if cells != [] {
      NormCount(cells[1..], c);
      assert cells == [cells[0]] + cells[1..];
      NormsCons(cells[0], cells[1..]);
      NormInjective(cells[0], c);
      MultisetCons(cells[0], cells[1..], c);
      MultisetCons(Norm(cells[0]), Norms(cells[1..]), Norm(c));
    }
  }

  /** No newline and no literal ' NULL': equal count and checksum say exactly that the columns are the same multiset. */
  lemma GateIsSound(t: Table)
    requires t.checksummed && Plain(t.source) && Plain(t.target)
    ensures Counts(t) && Checksums(t) <==> multiset(t.source) == multiset(t.target)
  {
    assert |t.source| == |multiset(t.source)| && |t.target| == |multiset(t.target)|;
    if |t.source| == |t.target| {
      ChecksumIffNorms(t.source, t.target);
      var s, g := multiset(t.source), multiset(t.target);
      if multiset(Norms(t.source)) == multiset(Norms(t.target)) {
        forall c ensures s[c] == g[c] {
          if c.Value? && c.text == NULL_MARK {
            assert c !in t.source && c !in t.target;
          } else {
            NormCount(t.source, c);
            NormCount(t.target, c);
          }
        }
        assert s == g;
      }
      if s == g {
        forall x ensures multiset(Norms(t.source))[x] == multiset(Norms(t.target))[x] {
          var c := if x == NULL_MARK then Null else Value(x);
          NormCount(t.source, c);
          NormCount(t.target, c);
        }
      }
    }
  }

  /** A newline inside a value moves the boundary between two values without changing the digest. */
  lemma NewlineCollides()
    ensures var source := [Value([1, NEWLINE, 2]), Value([3])]; var target := [Value([1]), Value([2, NEWLINE, 3])];
            Md5OfSortedColumn(source) == Md5OfSortedColumn(target) && multiset(source) != multiset(target)
  {
    var a, b: Text := [1, NEWLINE, 2], [3];
    var c, d: Text := [1], [2, NEWLINE, 3];
    var source, target := [Value(a), Value(b)], [Value(c), Value(d)];
    assert Norms(source) == [a, b] && Norms(target) == [c, d];
    assert [a, b][1..] == [b] && [c, d][1..] == [d];
    assert Sort([b]) == [b] && Sort([d]) == [d];
    assert Sort([a, b]) == [a, b] && Sort([c, d]) == [c, d];
    assert Join([a, b]) == Join([c, d]);
    assert Value(a) in multiset(source) && Value(a) !in multiset(target);
  }

  /** A value that spells the marker is not told apart from NULL. */
  lemma MarkerCollides()
    ensures Md5OfSortedColumn([Null]) == Md5OfSortedColumn([Value(NULL_MARK)]) &&
            multiset([Null]) != multiset([Value(NULL_MARK)])
  {
    assert Norms([Null]) == Norms([Value(NULL_MARK)]);
    assert Null in multiset([Null]) && Null !in multiset([Value(NULL_MARK)]);
  }

  /** A NULL is told apart from every value but that one, the empty value included. */
  lemma NullIsNotAValue(text: Text)
    ensures Md5OfSortedColumn([Null]) == Md5OfSortedColumn([Value(text)]) <==> text == [32, 78, 85, 76, 76]
  {
    assert Norms([Null]) == [NULL_MARK] && Norms([Value(text)]) == [text];
    assert Sort([NULL_MARK]) == [NULL_MARK] && Sort([text]) == [text];
  }
}
