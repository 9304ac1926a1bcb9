/** The four-column listing of partition types (list_types in fdisk.c). */
module ListTypes {
  import opened Words
  import opened Seqs

  const COLUMNS := 4

  /** `ends[c]` is the index after the last one in column `c`; heights differ by at most one and never grow. */
  predicate Balanced(ends: seq<u32>, size: nat) {
    && |ends| == COLUMNS
    && ends[3] == size
    && (var h0: int, h1: int, h2: int, h3: int :=
          ends[0], ends[1] as int - ends[0], ends[2] as int - ends[1], ends[3] as int - ends[2];
        h0 >= h1 >= h2 >= h3 >= h0 - 1 && 0 <= h3)
  }

  /** Column `col` comes before `i`, reading row by row, or the row comes before `row`. */
  predicate Before(r: int, col: int, row: int, i: int) {
    r < row || (r == row && col < i)
  }

  /** Index `k` has been listed when the listing is about to fill row `row` of column `i`. */
  predicate Listed(ends: seq<u32>, k: int, row: int, i: int)
    requires |ends| == COLUMNS
  {
    if k < ends[0] then Before(k, 0, row, i)
    else if k < ends[1] then Before(k - ends[0], 1, row, i)
    else if k < ends[2] then Before(k - ends[1], 2, row, i)
    else Before(k - ends[2], 3, row, i)
  }

  /** Where column `i` starts. */
  function Start(ends: seq<u32>, i: nat): u32
    requires |ends| == COLUMNS && i <= COLUMNS
  {
    if i == 0 then 0 else ends[i - 1]
  }

  /** The column of index `k`. */
  function Column(ends: seq<u32>, k: int): nat
    requires |ends| == COLUMNS
  {
    if k < ends[0] then 0 else if k < ends[1] then 1 else if k < ends[2] then 2 else 3
  }

  /** Reading row by row, index `k` comes before index `m`. */
  predicate Earlier(ends: seq<u32>, k: int, m: int)
    requires |ends| == COLUMNS
  {
    var c, d := Column(ends, k), Column(ends, m);
    Before(k - Start(ends, c), c, m - Start(ends, d), d)
  }

  /** The indices are printed row by row. */
  predicate RowByRow(ends: seq<u32>, printed: seq<u32>)
    requires |ends| == COLUMNS
  {
    forall a, b :: 0 <= a < b < |printed| ==> Earlier(ends, printed[a], printed[b])
  }

  lemma CellLater(ends: seq<u32>, size: nat, row: nat, i: nat, k: nat)
    requires Balanced(ends, size) && i < COLUMNS && Start(ends, i) + row < ends[i] && Listed(ends, k, row, i)
    ensures Earlier(ends, k, Start(ends, i) + row)
  {
  }

  lemma CellListed(ends: seq<u32>, size: nat, row: nat, i: nat, k: nat)
    requires Balanced(ends, size) && i < COLUMNS && Start(ends, i) + row < ends[i] && k < size
    ensures Start(ends, i) + row < size && !Listed(ends, Start(ends, i) + row, row, i)
    ensures Listed(ends, k, row, i + 1) <==> Listed(ends, k, row, i) || k == Start(ends, i) + row
  {
  }

  lemma RowListed(ends: seq<u32>, size: nat, row: nat, i: nat, k: nat)
    requires Balanced(ends, size) && 0 < i <= COLUMNS && k < size
    requires i == COLUMNS || ends[i] <= Start(ends, i) + row
    ensures Listed(ends, k, row, i) <==> Listed(ends, k, row + 1, 0)
  {
  }

  lemma AllListed(ends: seq<u32>, size: nat, k: nat)
    requires Balanced(ends, size) && k < size
    ensures Listed(ends, k, ends[0], 0) && !Listed(ends, k, 0, 0)
  {
  }

  /** What column `3 - i` gets of the indices from `done` on. */
  method Share(size: nat, i: nat, done: u32) returns (share: u32)
    requires size < 0x8000_0000 && i <= 3 && done <= size
    ensures share == if i == 3 then (size + 3 - done) / 4 else if i == 2 then (size + 2 - done) / 3
      else if i == 1 then (size + 1 - done) / 2 else size - done
  {
    share := (size + i - done) / (i + 1);
  }

  /** The loop that computes the column ends. */
  method ColumnEnds(size: nat) returns (last: array<u32>)
    requires size < 0x8000_0000
    ensures fresh(last) && Balanced(last[..], size)
  {
    last := new u32[COLUMNS];
    var done: u32 := 0;
    var i := 3;
    while 0 <= i
      invariant -1 <= i <= 3 && done <= size
      invariant done == if i == 3 then 0 else last[2 - i]
      invariant i <= 2 ==> last[0] == (size + 3) / 4
      invariant i <= 1 ==> last[1] == last[0] + (size + 2 - last[0]) / 3
      invariant i <= 0 ==> last[2] == last[1] + (size + 1 - last[1]) / 2
      invariant i <= -1 ==> last[3] == size
    {
      var share := Share(size, i, done);
      done := done + share;
      last[3 - i] := done;
      i := i - 1;
    }
  }

  /**
   list_types: the indices in the order they are printed.  Every index of a
   non-empty table is printed exactly once and nothing else; an empty table
   makes it print index 0 all the same.  They are printed row by row, in four columns
   of consecutive indices whose heights differ by at most one and never grow.
   */
  method ListTypes(size: nat) returns (printed: seq<u32>, ghost ends: seq<u32>)
    requires size < 0x8000_0000
    ensures Balanced(ends, size) && RowByRow(ends, printed)
    ensures 0 < size ==> NoDup(printed) && forall k: u32 :: k in printed <==> k < size
    ensures size == 0 ==> printed == [0]
  {
    hide Listed, Earlier;
    var last := ColumnEnds(size);
    ends := last[..];
    var i, done: u32, next: u32 := 0, 0, 0;
    printed := [];
    forall k: nat | k < size ensures !Listed(ends, k, 0, 0) {
      AllListed(ends, size, k);
    }
    while true
      invariant 0 <= i < COLUMNS && last[..] == ends && Balanced(ends, size) && next == Start(ends, i) + done
      invariant size == 0 ==> printed == [] && done == 0 && i == 0
      invariant 0 < size ==> done < ends[0] && next < ends[i]
      invariant RowByRow(ends, printed)
      invariant NoDup(printed) && forall k: u32 :: k in printed <==> k < size && Listed(ends, k, done, i)
      decreases ends[0] - done, COLUMNS - i
    {
      forall k: nat | 0 < size && k < size
        ensures Listed(ends, k, done, i + 1) <==> Listed(ends, k, done, i) || k == next
      {
        CellListed(ends, size, done, i, k);
      }
      if 0 < size {
        CellListed(ends, size, done, i, 0);
      }
      forall k | k in printed ensures Earlier(ends, k, next) {
        CellLater(ends, size, done, i, k);
      }
      printed := printed + [next];
      next := last[i] + done;
      i := i + 1;
      if i > 3 || next >= last[i] {
        forall k: nat | k < size ensures Listed(ends, k, done, i) <==> Listed(ends, k, done + 1, 0) {
          RowListed(ends, size, done, i, k);
        }
        i := 0;
        done := done + 1;
        next := done;
      }
      if done >= last[0] {
        break;
      }
    }
    forall k: nat | k < size ensures Listed(ends, k, ends[0], 0) {
      AllListed(ends, size, k);
    }
  }
}
