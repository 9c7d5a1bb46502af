/** Data frames and numeric arrays as the pipeline sees them.

    A frame is a sequence of column names and a sequence of rows; a cell is a string,
    a number or pandas' missing marker. A numeric array is a width and rows of reals. */
module Tables {
  import opened Errors

  datatype Cell = Str(text: string) | Num(number: real) | Missing

  type Row = seq<Cell>

  datatype Table = Table(columns: seq<string>, rows: seq<Row>) {
    /** Every row has one cell per column, and column names are distinct (frames read
        from CSV and frames built from documents or dictionaries never repeat a name). */
    ghost predicate Valid() {
      && Distinct(columns)
      && forall i :: 0 <= i < |rows| ==> |rows[i]| == |columns|
    }
  }

  /** A two-dimensional numeric array. */
  datatype Matrix = Matrix(width: nat, rows: seq<seq<real>>) {
    ghost predicate Valid() {
      forall i :: 0 <= i < |rows| ==> |rows[i]| == width
    }
  }

  /** A frame as pandas builds it: rectangular, with distinct column names. */
  type Frame = t: Table | t.Valid() witness Table([], [])

  /** A NumPy array: always rectangular. */
  type NdArray = m: Matrix | m.Valid() witness Matrix(0, [])

  ghost predicate Distinct<T>(s: seq<T>) {
    forall i, j :: 0 <= i < j < |s| ==> s[i] != s[j]
  }

  /** The first position of `x` in `s`. */
  function IndexOf<T(==)>(s: seq<T>, x: T): (k: nat)
    requires x in s
    ensures k < |s| && s[k] == x && x !in s[..k]
  {
    if s[0] == x then 0 else 1 + IndexOf(s[1..], x)
  }

  /** A position holding `x` with no `x` before it is the first position of `x`. */
  lemma {:induction false} IndexOfUnique<T>(s: seq<T>, k: nat, x: T)
    requires k < |s| && s[k] == x && x !in s[..k]
    ensures IndexOf(s, x) == k
  {
    if k > 0 {
      assert s[..k][0] == s[0];
      assert s[1..][..k - 1] == s[..k][1..];
      IndexOfUnique(s[1..], k - 1, x);
    }
  }

  /** In a sequence without repetitions, every element's first position is its own. */
  lemma IndexOfDistinct<T>(s: seq<T>, k: nat)
    requires Distinct(s) && k < |s|
    ensures IndexOf(s, s[k]) == k
  {
    assert s[k] !in s[..k] by {
      forall j | 0 <= j < k ensures s[..k][j] != s[k] {
        assert s[..k][j] == s[j];
      }
    }
    IndexOfUnique(s, k, s[k]);
  }

  /** The first position of `x` in `s` is its first position in any prefix that holds it. */
  lemma IndexOfPrefix<T>(s: seq<T>, n: nat, x: T)
    requires n <= |s| && x in s[..n]
    ensures IndexOf(s, x) == IndexOf(s[..n], x)
  {
    var k := IndexOf(s[..n], x);
    assert s[..n][..k] == s[..k];
    IndexOfUnique(s, k, x);
  }

  /** `df[name]`: the cells of one column, top to bottom. */
  function ColumnValues(t: Table, name: string): (r: seq<Cell>)
    requires t.Valid() && name in t.columns
    ensures |r| == |t.rows|
  {
    var k := IndexOf(t.columns, name);
    seq(|t.rows|, i requires 0 <= i < |t.rows| => t.rows[i][k])
  }

  /** The names of `names` that are not in `drop`, in their original order. */
  function Without(names: seq<string>, drop: set<string>): seq<string>
  {
    if names == [] then []
    else (if names[0] in drop then [] else [names[0]]) + Without(names[1..], drop)
  }

  lemma {:induction false} WithoutMembers(names: seq<string>, drop: set<string>)
    ensures forall x :: x in Without(names, drop) <==> x in names && x !in drop
  {
    if names != [] {
      WithoutMembers(names[1..], drop);
      assert names == [names[0]] + names[1..];
    }
  }

  lemma {:induction false} WithoutLength(names: seq<string>, drop: set<string>)
    ensures |Without(names, drop)| <= |names|
    ensures (forall x :: x in names ==> x !in drop) ==> Without(names, drop) == names
  {
    if names != [] {
      WithoutLength(names[1..], drop);
    }
  }

  /** Filtering a sequence extended by one name filters the sequence and then the name. */
  lemma {:induction false} WithoutSnoc(names: seq<string>, x: string, drop: set<string>)
    ensures Without(names + [x], drop) == Without(names, drop) + (if x in drop then [] else [x])
  {
    if names == [] {
      assert [x][1..] == [];
    } else {
      assert (names + [x])[1..] == names[1..] + [x];
      WithoutSnoc(names[1..], x, drop);
    }
  }

  /** Dropping a name that occurs makes the sequence strictly shorter. */
  lemma {:induction false} WithoutShorter(names: seq<string>, x: string, drop: set<string>)
    requires x in names && x in drop
    ensures |Without(names, drop)| < |names|
  {
    WithoutLength(names[1..], drop);
    if names[0] != x {
      WithoutShorter(names[1..], x, drop);
    }
  }

  lemma DistinctCons<T>(x: T, s: seq<T>)
    requires Distinct(s) && x !in s
    ensures Distinct([x] + s)
  {
    var t := [x] + s;
    forall i, j | 0 <= i < j < |t| ensures t[i] != t[j] {
      if i == 0 {
        assert t[j] == s[j - 1];
      } else {
        assert t[i] == s[i - 1] && t[j] == s[j - 1];
      }
    }
  }

  lemma {:induction false} WithoutDistinct(names: seq<string>, drop: set<string>)
    requires Distinct(names)
    ensures Distinct(Without(names, drop))
  {
    if names != [] {
      var tail := names[1..];
      assert Distinct(tail) by {
        forall i, j | 0 <= i < j < |tail| ensures tail[i] != tail[j] {
          assert tail[i] == names[i + 1] && tail[j] == names[j + 1];
        }
      }
      WithoutDistinct(tail, drop);
      WithoutMembers(tail, drop);
      if names[0] !in drop {
        assert names[0] !in tail by {
          forall j | 0 <= j < |tail| ensures tail[j] != names[0] {
            assert tail[j] == names[j + 1];
          }
        }
        DistinctCons(names[0], Without(tail, drop));
      }
    }
  }

  /** The cells of `row` that sit under a column not in `drop`. */
  function ProjectRow(names: seq<string>, row: Row, drop: set<string>): (r: Row)
    requires |row| == |names|
    ensures |r| == |Without(names, drop)|
  {
    if names == [] then []
    else (if names[0] in drop then [] else [row[0]]) + ProjectRow(names[1..], row[1..], drop)
  }

  /** A kept column's cell is carried over unchanged: the cell under the first `c` of
      the projected row is the cell under the first `c` of the original row. */
  lemma {:induction false} ProjectRowAt(names: seq<string>, row: Row, drop: set<string>, c: string)
    requires |row| == |names| && c in names && c !in drop
    ensures c in Without(names, drop)
    ensures ProjectRow(names, row, drop)[IndexOf(Without(names, drop), c)] == row[IndexOf(names, c)]
  {
    WithoutMembers(names, drop);
    var w, p := Without(names, drop), ProjectRow(names, row, drop);
    if names[0] == c {
      assert w[0] == c && p[0] == row[0];
    } else {
      var tail, rest := names[1..], row[1..];
      assert c in tail;
      ProjectRowAt(tail, rest, drop, c);
      var w', p' := Without(tail, drop), ProjectRow(tail, rest, drop);
      assert IndexOf(names, c) == 1 + IndexOf(tail, c);
      if names[0] in drop {
        assert w == w' && p == p';
      } else {
        assert w == [names[0]] + w' && p == [row[0]] + p';
        assert IndexOf(w, c) == 1 + IndexOf(w', c);
      }
    }
  }

  /** `df.drop(columns=...)` once every dropped name is known to be present: the frame
      without the columns named in `drop`, with the other columns in order. */
  function RemoveColumns(t: Table, drop: set<string>): (r: Table)
    requires t.Valid()
    ensures r.Valid()
    ensures r.columns == Without(t.columns, drop)
    ensures |r.rows| == |t.rows|
  {
    WithoutDistinct(t.columns, drop);
    Table(Without(t.columns, drop),
          seq(|t.rows|, i requires 0 <= i < |t.rows| => ProjectRow(t.columns, t.rows[i], drop)))
  }

  /** Every column that survives the drop holds exactly the cells it held before. */
  lemma RemoveColumnsKeepsCells(t: Table, drop: set<string>, c: string)
    requires t.Valid() && c in t.columns && c !in drop
    ensures c in RemoveColumns(t, drop).columns
    ensures ColumnValues(RemoveColumns(t, drop), c) == ColumnValues(t, c)
  {
    var r := RemoveColumns(t, drop);
    WithoutMembers(t.columns, drop);
    forall i | 0 <= i < |t.rows|
      ensures ColumnValues(r, c)[i] == ColumnValues(t, c)[i]
    {
      ProjectRowAt(t.columns, t.rows[i], drop, c);
    }
  }

  lemma RemoveColumnsKeepsAllCells(t: Table, drop: set<string>)
    requires t.Valid()
    ensures forall c :: c in RemoveColumns(t, drop).columns ==>
              c in t.columns && ColumnValues(RemoveColumns(t, drop), c) == ColumnValues(t, c)
  {
    WithoutMembers(t.columns, drop);
    forall c | c in RemoveColumns(t, drop).columns
      ensures c in t.columns && ColumnValues(RemoveColumns(t, drop), c) == ColumnValues(t, c)
    {
      RemoveColumnsKeepsCells(t, drop, c);
    }
  }

  /** The elements of `s` that `keep` accepts, in their original order (a boolean mask
      applied to a frame's rows). */
  function Filter<T>(s: seq<T>, keep: T -> bool): (r: seq<T>)
    ensures |r| <= |s|
    ensures forall i :: 0 <= i < |r| ==> r[i] in s && keep(r[i])
    ensures forall j :: 0 <= j < |s| && keep(s[j]) ==> s[j] in r
  {
    if s == [] then []
    else
      var n := |s| - 1;
      assert s == s[..n] + [s[n]];
      Filter(s[..n], keep) + (if keep(s[n]) then [s[n]] else [])
  }

  /** The positions of the elements `keep` accepts, ascending: every listed position is
      accepted, and every accepted position is listed. */
  function KeptPositions<T>(s: seq<T>, keep: T -> bool): (p: seq<nat>)
    ensures forall i :: 0 <= i < |p| ==> p[i] < |s| && keep(s[p[i]])
    ensures forall i, j :: 0 <= i < j < |p| ==> p[i] < p[j]
    ensures forall j :: 0 <= j < |s| && keep(s[j]) ==> j in p
  {
    if s == [] then []
    else
      var n := |s| - 1;
      KeptPositions(s[..n], keep) + (if keep(s[n]) then [n] else [])
  }

  /** The filtered sequence is the original read at the accepted positions: nothing
      accepted is dropped, nothing rejected is kept, and the order is unchanged. */
  lemma {:induction false} FilterAtKeptPositions<T>(s: seq<T>, keep: T -> bool)
    ensures |Filter(s, keep)| == |KeptPositions(s, keep)|
    ensures forall i :: 0 <= i < |Filter(s, keep)| ==> Filter(s, keep)[i] == s[KeptPositions(s, keep)[i]]
  {
    if s != [] {
      var n := |s| - 1;
      FilterAtKeptPositions(s[..n], keep);
      var r, p := Filter(s[..n], keep), KeptPositions(s[..n], keep);
      forall i | 0 <= i < |r| ensures s[..n][p[i]] == s[p[i]] {
      }
    }
  }

  /** A sequence whose elements are all accepted passes the filter unchanged. */
  lemma {:induction false} FilterKeepsAccepted<T>(s: seq<T>, keep: T -> bool)
    requires forall i :: 0 <= i < |s| ==> keep(s[i])
    ensures Filter(s, keep) == s
  {
    if s != [] {
      var n := |s| - 1;
      FilterKeepsAccepted(s[..n], keep);
      assert s[..n] + [s[n]] == s;
    }
  }

  /** `np.c_[m, y]`: the array with `y` as an extra last column; arrays of different
      lengths cannot be put side by side. */
  function AppendColumn(m: NdArray, y: seq<real>): (r: Result<NdArray>)
    ensures r.Ok? <==> |y| == |m.rows|
    ensures r.Ok? ==> r.value.width == m.width + 1 && |r.value.rows| == |m.rows|
  {
    if |y| != |m.rows| then Err(LengthMismatch)
    else Ok(Matrix(m.width + 1, seq(|m.rows|, i requires 0 <= i < |m.rows| => m.rows[i] + [y[i]])))
  }

  /** `arr[:, :-1], arr[:, -1]`: all columns but the last, and the last; an array without
      columns has no last column to take. */
  function SplitLastColumn(a: NdArray): (r: Result<(NdArray, seq<real>)>)
    ensures r.Ok? <==> a.width > 0
    ensures r.Ok? ==> && r.value.0.width == a.width - 1
                      && |r.value.0.rows| == |r.value.1| == |a.rows|
  {
    if a.width == 0 then Err(NoColumns)
    else
      var w := a.width - 1;
      Ok((Matrix(w, seq(|a.rows|, i requires 0 <= i < |a.rows| => a.rows[i][..w])),
          seq(|a.rows|, i requires 0 <= i < |a.rows| => a.rows[i][w])))
  }

  /** Splitting off the last column undoes appending it, ... */
  lemma SplitUndoesAppend(m: NdArray, y: seq<real>)
    requires |y| == |m.rows|
    ensures SplitLastColumn(AppendColumn(m, y).value) == Ok((m, y))
  {
    var a := AppendColumn(m, y).value;
    var r := SplitLastColumn(a).value;
    assert r.0.rows == m.rows by {
      forall i | 0 <= i < |m.rows| ensures r.0.rows[i] == m.rows[i] {
        assert a.rows[i] == m.rows[i] + [y[i]];
      }
    }
    assert r.1 == y by {
      forall i | 0 <= i < |m.rows| ensures r.1[i] == y[i] {
        assert a.rows[i] == m.rows[i] + [y[i]];
      }
    }
    assert r.0 == m;
  }

  /** ... and appending it back rebuilds the array that was split. */
  lemma AppendUndoesSplit(a: NdArray)
    requires a.width > 0
    ensures AppendColumn(SplitLastColumn(a).value.0, SplitLastColumn(a).value.1) == Ok(a)
  {
    var (m, y) := SplitLastColumn(a).value;
    var b := AppendColumn(m, y).value;
    assert b.rows == a.rows by {
      forall i | 0 <= i < |a.rows| ensures b.rows[i] == a.rows[i] {
        assert a.rows[i] == a.rows[i][..a.width - 1] + [a.rows[i][a.width - 1]];
      }
    }
  }
}
