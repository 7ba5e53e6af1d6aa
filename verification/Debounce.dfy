// Key matrix debouncing of keyboard_matrix.c, with the raw row readings as input.
module Debounce {
  type Row = bv32
  type Snapshot = seq<Row>

  // The d readings that end with the i-th are all the same.
  predicate Stable(h: seq<Snapshot>, d: nat, i: nat) {
    1 <= d <= i <= |h| && forall j :: i - d <= j < i ==> h[j] == h[i - 1]
  }

  // How many readings at the end of the history are the same.
  function RunLength(h: seq<Snapshot>): (n: nat)
    ensures n <= |h|
  {
    if h == [] then 0
    else if |h| == 1 || h[|h| - 2] != h[|h| - 1] then 1
    else 1 + RunLength(h[..|h| - 1])
  }

  lemma {:induction false} RunIsStable(h: seq<Snapshot>, d: nat)
    requires d >= 1
    ensures RunLength(h) >= d <==> Stable(h, d, |h|)
  {
    if |h| <= 1 || h[|h| - 2] != h[|h| - 1] {
      if d > 1 && |h| > 1 {
        assert h[|h| - 2] != h[|h| - 1];
      }
    } else {
      var t := h[..|h| - 1];
      if d > 1 {
        RunIsStable(t, d - 1);
        if Stable(h, d, |h|) {
          assert forall j :: |t| - (d - 1) <= j < |t| ==> t[j] == h[j] == h[|h| - 1];
          assert Stable(t, d - 1, |t|);
        }
        if Stable(t, d - 1, |t|) {
          assert forall j :: |h| - d <= j < |t| ==> h[j] == t[j] == t[|t| - 1];
          assert Stable(h, d, |h|);
        }
      }
    }
  }

  // The debounced matrix: the reading last seen d times in a row, or off.
  function Published(h: seq<Snapshot>, d: nat, off: Snapshot): Snapshot {
    if h == [] then off
    else if Stable(h, d, |h|) then h[|h| - 1]
    else Published(h[..|h| - 1], d, off)
  }

  lemma {:induction false} PublishedIsLastStable(h: seq<Snapshot>, d: nat, off: Snapshot, i: nat)
    requires i <= |h|
    requires forall k :: i < k <= |h| ==> !Stable(h, d, k)
    ensures Stable(h, d, i) ==> Published(h, d, off) == h[i - 1]
    ensures i == 0 ==> Published(h, d, off) == off
    decreases |h|
  {
    if i < |h| {
      var t := h[..|h| - 1];
      forall k | 0 <= k <= |t|
        ensures Stable(t, d, k) <==> Stable(h, d, k)
      {
        StablePrefix(h, d, k);
      }
      PublishedIsLastStable(t, d, off, i);
    }
  }

  lemma StablePrefix(h: seq<Snapshot>, d: nat, k: nat)
    requires k < |h|
    ensures Stable(h[..|h| - 1], d, k) <==> Stable(h, d, k)
  {
    var t := h[..|h| - 1];
    assert forall j :: 0 <= j < |t| ==> t[j] == h[j];
  }

  function Off(rows: nat): Snapshot { seq(rows, _ => 0) }

  function Last(h: seq<Snapshot>, rows: nat): Snapshot {
    if h == [] then Off(rows) else h[|h| - 1]
  }

  lemma Extend(h: seq<Snapshot>, raw: Snapshot, d: nat, off: Snapshot)
    ensures RunLength(h + [raw]) == if h != [] && h[|h| - 1] == raw then RunLength(h) + 1 else 1
    ensures Published(h + [raw], d, off) == if Stable(h + [raw], d, |h| + 1) then raw else Published(h, d, off)
  {
    assert (h + [raw])[..|h|] == h;
  }

  class Matrix {
    const debounce: nat
    const matrix: array<Row>
    const debouncingRows: array<Row>
    var debouncing: nat
    // Every whole-matrix reading so far.
    ghost var history: seq<Snapshot>

    // What debouncing guarantees after any sequence of scans.
    ghost predicate Valid()
      reads this, matrix, debouncingRows
    {
      && debounce >= 1
      && matrix != debouncingRows && matrix.Length == debouncingRows.Length
      && (forall i :: 0 <= i < |history| ==> |history[i]| == matrix.Length)
      && debouncingRows[..] == Last(history, matrix.Length)
      && debouncing == (if RunLength(history) < debounce then debounce - RunLength(history) else 0)
      && matrix[..] == Published(history, debounce, Off(matrix.Length))
    }

    constructor (rows: nat, debounce: nat)
      requires debounce >= 1
      ensures Valid() && history == [] && this.debounce == debounce && matrix.Length == rows
      ensures fresh(matrix) && fresh(debouncingRows)
    {
      this.debounce := debounce;
      debouncing := debounce;
      history := [];
      var m := new Row[rows](_ => 0);
      var n := new Row[rows](_ => 0);
      matrix, debouncingRows := m, n;
      new;
      assert m[..] == Off(rows) && n[..] == Off(rows);
    }

    // matrix_scan_kb for the row readings raw.
    method Scan(raw: Snapshot)
      requires Valid() && |raw| == matrix.Length
      modifies this, matrix, debouncingRows
      ensures Valid() && history == old(history) + [raw]
    {
      hide Stable, RunLength, Published;
      ghost var h := history;
      ghost var before := debouncingRows[..];
      ghost var wasMatrix := matrix[..];
      var i := 0;
      while i < matrix.Length
        invariant 0 <= i <= matrix.Length
        invariant forall j :: 0 <= j < i ==> debouncingRows[j] == raw[j]
        invariant forall j :: i <= j < matrix.Length ==> debouncingRows[j] == before[j]
        invariant debouncing == if before[..i] == raw[..i] then old(debouncing) else debounce
        invariant matrix[..] == wasMatrix && history == h
      {
        assert before[..i + 1] == before[..i] + [before[i]] && raw[..i + 1] == raw[..i] + [raw[i]];
        if debouncingRows[i] != raw[i] {
          debouncingRows[i] := raw[i];
          debouncing := debounce;
        }
        i := i + 1;
      }
      assert before[..i] == before && raw[..i] == raw && debouncingRows[..] == raw;
      Extend(h, raw, debounce, Off(matrix.Length));
      RunIsStable(h + [raw], debounce);
      RunIsStable(h, debounce);
      FirstRun(h);
      if debouncing != 0 {
        debouncing := debouncing - 1;
        if debouncing == 0 {
          CopyRows();
        }
      } else {
        StillPublished(h, debounce, Off(matrix.Length));
      }
      history := history + [raw];
    }

    method CopyRows()
      requires matrix != debouncingRows && matrix.Length == debouncingRows.Length
      modifies matrix
      ensures matrix[..] == debouncingRows[..]
    {
      for i := 0 to matrix.Length
        invariant matrix[..i] == debouncingRows[..i]
      {
        matrix[i] := debouncingRows[i];
      }
      assert matrix[..] == matrix[..matrix.Length];
    }
  }

  lemma FirstRun(h: seq<Snapshot>)
    ensures h == [] ==> RunLength(h) == 0
    ensures h != [] ==> RunLength(h) >= 1
  {
  }

  lemma StillPublished(h: seq<Snapshot>, d: nat, off: Snapshot)
    requires h != []
    ensures Stable(h, d, |h|) ==> Published(h, d, off) == h[|h| - 1]
  {
  }
}
