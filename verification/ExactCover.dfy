/** Exact cover, abstractly: what a dancing-links solver counts. Every row of the
  * matrix names four distinct columns; primary columns must be covered exactly
  * once, the others at most once. */
module ExactCover {
  import opened Counting

  datatype Matrix = Matrix(columns: nat, primary: set<nat>, rows: seq<seq<nat>>) {

    /** Columns are numbered 1..columns, as their header nodes are. */
    ghost predicate Valid() {
      && (forall c :: c in primary ==> 1 <= c <= columns)
      && (forall r :: 0 <= r < |rows| ==> |rows[r]| == 4)
      && (forall r, k :: 0 <= r < |rows| && 0 <= k < 4 ==> 1 <= rows[r][k] <= columns)
      && (forall r, k, l :: 0 <= r < |rows| && 0 <= k < l < 4 ==> rows[r][k] != rows[r][l])
    }

    ghost function ColumnsOf(r: nat): set<nat> {
      if r < |rows| then set k | 0 <= k < |rows[r]| :: rows[r][k] else {}
    }

    ghost function AllRows(): set<nat> {
      Below(|rows|)
    }
  }

  /** A set of rows that covers every primary column outside `covered` exactly
    * once, every other column at most once, and no column in `covered`. */
  ghost predicate IsCover(m: Matrix, covered: set<nat>, s: set<nat>) {
    && (forall r :: r in s ==> r < |m.rows| && m.ColumnsOf(r) !! covered)
    && (forall r, t :: r in s && t in s && r != t ==> m.ColumnsOf(r) !! m.ColumnsOf(t))
    && (forall c :: c in m.primary && c !in covered ==> exists r :: r in s && c in m.ColumnsOf(r))
  }

  ghost function Covers(m: Matrix, covered: set<nat>): set<set<nat>> {
    set s | s <= m.AllRows() && IsCover(m, covered, s)
  }

  lemma CoversIff(m: Matrix, covered: set<nat>, s: set<nat>)
    ensures s in Covers(m, covered) <==> IsCover(m, covered, s)
  {
    if IsCover(m, covered, s) { assert s <= m.AllRows(); }
  }

  /** With every primary column covered only the empty selection is left. */
  lemma NothingLeft(m: Matrix, covered: set<nat>)
    requires m.primary <= covered
    requires forall r :: 0 <= r < |m.rows| ==> m.ColumnsOf(r) * m.primary != {}
    ensures |Covers(m, covered)| == 1
  {
    forall s ensures s in Covers(m, covered) <==> s == {} {
      CoversIff(m, covered, s);
      if s != {} {
        var r :| r in s;
        assert r < |m.rows| ==> !(m.ColumnsOf(r) !! covered);
      }
    }
    assert Covers(m, covered) == {{}};
  }

  // ------------------------------------------------------- branching on a column

  /** The candidate rows of column c: all that contain it and hit nothing covered. */
  ghost predicate RowsOfColumn(m: Matrix, covered: set<nat>, c: nat, list: seq<nat>) {
    && (forall i, j :: 0 <= i < j < |list| ==> list[i] != list[j])
    && (forall r: nat :: r in list <==> r < |m.rows| && c in m.ColumnsOf(r) && m.ColumnsOf(r) !! covered)
  }

  ghost function SumCovers(m: Matrix, covered: set<nat>, list: seq<nat>, i: nat): nat
    requires i <= |list|
  {
    if i == 0 then 0
    else SumCovers(m, covered, list, i - 1) + |Covers(m, covered + m.ColumnsOf(list[i - 1]))|
  }

  ghost function Using(m: Matrix, covered: set<nat>, r: nat): set<set<nat>> {
    set s | s in Covers(m, covered) && r in s
  }

  ghost function UsingFirst(m: Matrix, covered: set<nat>, list: seq<nat>, i: nat): set<set<nat>>
    requires i <= |list|
  {
    set s | s in Covers(m, covered) && exists k :: 0 <= k < i && list[k] in s
  }

  /** Selecting row r leaves exactly the problem in which r's columns are covered. */
  lemma SelectRow(m: Matrix, covered: set<nat>, r: nat, s: set<nat>)
    requires r < |m.rows| && m.ColumnsOf(r) !! covered
    ensures IsCover(m, covered, s) && r in s ==> IsCover(m, covered + m.ColumnsOf(r), s - {r})
    ensures IsCover(m, covered + m.ColumnsOf(r), s) && m.ColumnsOf(r) != {} ==> r !in s && IsCover(m, covered, s + {r})
  {
    var cols := m.ColumnsOf(r);
    if IsCover(m, covered, s) && r in s {
      var t := s - {r};
      forall c | c in m.primary && c !in covered + cols ensures exists q :: q in t && c in m.ColumnsOf(q) {
        var q :| q in s && c in m.ColumnsOf(q);
        assert q in t;
      }
    }
    if IsCover(m, covered + cols, s) && cols != {} {
      var c0 :| c0 in cols;
      assert r in s ==> cols !! covered + cols;
      assert r !in s;
      var t := s + {r};
      forall c | c in m.primary && c !in covered ensures exists q :: q in t && c in m.ColumnsOf(q) {
        if c in cols {
          assert r in t && c in m.ColumnsOf(r);
        } else {
          var q :| q in s && c in m.ColumnsOf(q);
          assert q in t;
        }
      }
    }
  }

  lemma UsingCard(m: Matrix, covered: set<nat>, r: nat)
    requires r < |m.rows| && m.ColumnsOf(r) !! covered && m.ColumnsOf(r) != {}
    ensures |Using(m, covered, r)| == |Covers(m, covered + m.ColumnsOf(r))|
  {
    var a, b := Using(m, covered, r), Covers(m, covered + m.ColumnsOf(r));
    var f := (s: set<nat>) => s - {r};
    var g := (s: set<nat>) => s + {r};
    forall s | s in a ensures f(s) in b && g(f(s)) == s {
      CoversIff(m, covered, s);
      SelectRow(m, covered, r, s);
      CoversIff(m, covered + m.ColumnsOf(r), s - {r});
      assert s - {r} + {r} == s;
    }
    forall s | s in b ensures g(s) in a && f(g(s)) == s {
      CoversIff(m, covered + m.ColumnsOf(r), s);
      SelectRow(m, covered, r, s);
      CoversIff(m, covered, s + {r});
      assert s + {r} - {r} == s;
    }
    BijectionCard(a, b, f, g);
  }

  lemma OneRowPerColumn(m: Matrix, covered: set<nat>, c: nat, s: set<nat>, r: nat, t: nat)
    requires s in Covers(m, covered) && r != t && r < |m.rows| && t < |m.rows|
    requires c in m.ColumnsOf(r) && c in m.ColumnsOf(t)
    ensures !(r in s && t in s)
  {
    assert IsCover(m, covered, s);
  }

  lemma UsingFirstStep(m: Matrix, covered: set<nat>, c: nat, list: seq<nat>, i: nat)
    requires RowsOfColumn(m, covered, c, list) && 0 < i <= |list|
    ensures |UsingFirst(m, covered, list, i)| == |UsingFirst(m, covered, list, i - 1)| + |Using(m, covered, list[i - 1])|
  {
    var r := list[i - 1];
    assert r in list;
    hide IsCover, Covers;
    forall s | s in UsingFirst(m, covered, list, i - 1) ensures s !in Using(m, covered, r) {
      var k :| 0 <= k < i - 1 && list[k] in s;
      assert list[k] in list && list[k] != r;
      OneRowPerColumn(m, covered, c, s, list[k], r);
    }
    UnionCard(UsingFirst(m, covered, list, i), UsingFirst(m, covered, list, i - 1), Using(m, covered, r));
  }

  lemma CandidateRow(m: Matrix, covered: set<nat>, c: nat, list: seq<nat>, k: nat)
    requires RowsOfColumn(m, covered, c, list) && k < |list|
    ensures list[k] < |m.rows| && m.ColumnsOf(list[k]) !! covered && m.ColumnsOf(list[k]) != {}
  {
    assert list[k] in list;
    assert c in m.ColumnsOf(list[k]);
  }

  lemma UsingNone(m: Matrix, covered: set<nat>, list: seq<nat>)
    ensures |UsingFirst(m, covered, list, 0)| == SumCovers(m, covered, list, 0)
  {
    assert UsingFirst(m, covered, list, 0) == {};
  }

  lemma SumStep(m: Matrix, covered: set<nat>, list: seq<nat>, i: nat)
    requires 0 < i <= |list|
    ensures SumCovers(m, covered, list, i)
         == SumCovers(m, covered, list, i - 1) + |Covers(m, covered + m.ColumnsOf(list[i - 1]))|
  {
  }

  lemma {:induction false} UsingFirstCard(m: Matrix, covered: set<nat>, c: nat, list: seq<nat>, i: nat)
    requires RowsOfColumn(m, covered, c, list) && i <= |list|
    ensures |UsingFirst(m, covered, list, i)| == SumCovers(m, covered, list, i)
  {
    hide *;
    if i == 0 {
      UsingNone(m, covered, list);
    } else {
      var r := list[i - 1];
      CandidateRow(m, covered, c, list, i - 1);
      SumStep(m, covered, list, i);
      UsingFirstCard(m, covered, c, list, i - 1);
      UsingCard(m, covered, r);
      UsingFirstStep(m, covered, c, list, i);
    }
  }

  /** Whatever uncovered primary column is picked, the covers split over its rows. */
  lemma BranchOnColumn(m: Matrix, covered: set<nat>, c: nat, list: seq<nat>)
    requires c in m.primary && c !in covered && RowsOfColumn(m, covered, c, list)
    ensures |Covers(m, covered)| == SumCovers(m, covered, list, |list|)
  {
    UsingFirstCard(m, covered, c, list, |list|);
    forall s | s in Covers(m, covered) ensures exists k :: 0 <= k < |list| && list[k] in s {
      CoversIff(m, covered, s);
      assert IsCover(m, covered, s);
      var r :| r in s && c in m.ColumnsOf(r);
      assert r in list;
    }
    assert UsingFirst(m, covered, list, |list|) == Covers(m, covered);
  }
}
