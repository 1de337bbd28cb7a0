/**
 The level grid: a row-major sequence of cells, 0 for empty and N > 0 for a
 wall textured with material N - 1.
 */
module Levels {

  datatype Level = Level(width: int, height: int, data: seq<int>)

  /** The data covers the width-by-height grid exactly, as after initialising an empty level. */
  predicate Valid(l: Level)
  {
    l.width >= 0 && l.height >= 0 && |l.data| == l.width * l.height
  }

  /** Whether column i of row j lies on the border ring of a w-by-h grid. */
  predicate OnBorder(w: int, h: int, i: int, j: int)
  {
    j == 0 || j == h - 1 || i == 0 || i == w - 1
  }

  /** The value the border builder gives column i of row j. */
  function BorderValue(w: int, h: int, i: int, j: int): int
  {
    if OnBorder(w, h, i, j) then 1 else 0
  }

  /** Row j of the border grid: one cell per column. */
  function RowCells(w: int, h: int, j: int): seq<int>
  {
    seq(if w > 0 then w else 0, i => BorderValue(w, h, i, j))
  }

  /** Rows 0 .. n-1 of the border grid, one after another. */
  function Rows(w: int, h: int, n: nat): seq<int>
  {
    if n == 0 then [] else Rows(w, h, n - 1) + RowCells(w, h, n - 1)
  }

  /** The cells Level::initialize appends: every row of a w-by-h border grid. */
  function BorderGrid(w: int, h: int): seq<int>
  {
    Rows(w, h, if h > 0 then h else 0)
  }

  /**
   Level::initialize: for each row, push a full row of 1s on the first and
   last rows and 1, 0 ... 0, 1 otherwise. It only appends, so the prior data
   survives as a prefix.
   */
  method Initialize(l: Level) returns (r: Level)
    ensures r.width == l.width && r.height == l.height
    ensures r.data == l.data + BorderGrid(l.width, l.height)
  {
    var data := l.data;
    var j := 0;
    while j < l.height
      invariant (l.height > 0 ==> 0 <= j <= l.height) && (l.height <= 0 ==> j == 0)
      invariant data == l.data + Rows(l.width, l.height, j)
    {
      ghost var row := RowCells(l.width, l.height, j);
      var i := 0;
      if j == 0 || j == l.height - 1 {
        while i < l.width
          invariant 0 <= i <= |row|
          invariant data == l.data + Rows(l.width, l.height, j) + row[..i]
        {
          data := data + [1];
          assert row[..i + 1] == row[..i] + [1];
          i := i + 1;
        }
      } else {
        while i < l.width
          invariant 0 <= i <= |row|
          invariant data == l.data + Rows(l.width, l.height, j) + row[..i]
        {
          if i == 0 || i == l.width - 1 {
            data := data + [1];
          } else {
            data := data + [0];
          }
          assert row[..i + 1] == row[..i] + [row[i]];
          i := i + 1;
        }
      }
      assert row[..i] == row;
      j := j + 1;
    }
    r := Level(l.width, l.height, data);
  }

  /** The level a fresh Level(w, h) holds: initialize applied to empty data. */
  function NewLevel(w: int, h: int): Level
  {
    Level(w, h, BorderGrid(w, h))
  }

  lemma {:induction false} RowsLength(w: int, h: int, n: nat)
    requires w >= 0
    ensures |Rows(w, h, n)| == n * w
  {
    if n > 0 {
      RowsLength(w, h, n - 1);
    }
  }

  lemma RowMajorBound(w: int, h: int, i: int, j: int)
    requires 0 <= i < w && 0 <= j < h
    ensures 0 <= j * w + i < w * h
  {
    assert j * w <= (h - 1) * w;
  }

  lemma {:induction false} RowsIndex(w: int, h: int, n: nat, i: int, j: int)
    requires 0 <= i < w && 0 <= j < n
    ensures |Rows(w, h, n)| == n * w
    ensures Rows(w, h, n)[j * w + i] == BorderValue(w, h, i, j)
  {
    RowsLength(w, h, n);
    RowsLength(w, h, n - 1);
    if j < n - 1 {
      RowMajorBound(w, n - 1, i, j);
      RowsIndex(w, h, n - 1, i, j);
    }
  }

  /** Starting from empty data the builder yields exactly width times height cells. */
  lemma NewLevelValid(w: int, h: int)
    requires w >= 0 && h >= 0
    ensures Valid(NewLevel(w, h))
  {
    RowsLength(w, h, h);
  }

  /** Row-major lookup: column i of row j sits at index j * width + i. */
  function Cell(l: Level, i: int, j: int): int
    requires Valid(l)
    requires 0 <= i < l.width && 0 <= j < l.height
  {
    RowMajorBound(l.width, l.height, i, j);
    l.data[j * l.width + i]
  }

  /**
   The shape of a fresh level: 1 on the first and last rows, 1 on the first
   and last columns, 0 everywhere inside.
   */
  lemma {:induction false} NewLevelShape(w: int, h: int)
    requires w >= 0 && h >= 0
    ensures Valid(NewLevel(w, h))
    ensures forall i, j :: 0 <= i < w && 0 <= j < h && (j == 0 || j == h - 1) ==> Cell(NewLevel(w, h), i, j) == 1
    ensures forall i, j :: 0 <= i < w && 0 <= j < h && (i == 0 || i == w - 1) ==> Cell(NewLevel(w, h), i, j) == 1
    ensures forall i, j :: 0 < i < w - 1 && 0 < j < h - 1 ==> Cell(NewLevel(w, h), i, j) == 0
  {
    NewLevelValid(w, h);
    forall i, j | 0 <= i < w && 0 <= j < h
      ensures Cell(NewLevel(w, h), i, j) == BorderValue(w, h, i, j)
    {
      RowsIndex(w, h, h, i, j);
    }
  }

  /** Every cell of a fresh level is 0 or 1. */
  lemma NewLevelBinary(w: int, h: int)
    requires w >= 0 && h >= 0
    ensures forall k :: 0 <= k < |NewLevel(w, h).data| ==> NewLevel(w, h).data[k] in {0, 1}
  {
    BinaryRows(w, h, if h > 0 then h else 0);
  }

  lemma {:induction false} BinaryRows(w: int, h: int, n: nat)
    ensures forall k :: 0 <= k < |Rows(w, h, n)| ==> Rows(w, h, n)[k] in {0, 1}
  {
    if n > 0 {
      BinaryRows(w, h, n - 1);
    }
  }

  /** The const operator[]: the cell at linear index i (no bounds check in the source). */
  function At(l: Level, i: int): int
    requires 0 <= i < |l.data|
  {
    l.data[i]
  }

  /** A write through the mutable operator[]: index i takes v and nothing else changes. */
  function Update(l: Level, i: int, v: int): (r: Level)
    requires 0 <= i < |l.data|
    ensures r.width == l.width && r.height == l.height && |r.data| == |l.data|
    ensures r.data[i] == v
    ensures forall k :: 0 <= k < |l.data| && k != i ==> r.data[k] == l.data[k]
  {
    l.(data := l.data[i := v])
  }

  /** Reading after a write sees the write at i and the old cell elsewhere. */
  lemma ReadAfterUpdate(l: Level, i: int, v: int, k: int)
    requires 0 <= i < |l.data| && 0 <= k < |l.data|
    ensures At(Update(l, i, v), k) == if k == i then v else At(l, k)
  {
  }
}
