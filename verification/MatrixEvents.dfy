// Change detection of keyboard.c: matrix snapshots become key events, with
// ghosted rows held back.
module MatrixEvents {
  import opened KeyEvents
  import opened MatrixBits

  datatype Change = Change(key: KeyPos, pressed: bool)

  // The key is down after the events so far.
  function Held(log: seq<Change>, key: KeyPos): bool {
    if log == [] then false
    else if log[|log| - 1].key == key then log[|log| - 1].pressed
    else Held(log[..|log| - 1], key)
  }

  // Each event changes the state of its key.
  predicate Alternating(log: seq<Change>) {
    forall i :: 0 <= i < |log| ==> log[i].pressed != Held(log[..i], log[i].key)
  }

  // The events of one key.
  function Stream(log: seq<Change>, key: KeyPos): seq<bool> {
    if log == [] then []
    else Stream(log[..|log| - 1], key) + if log[|log| - 1].key == key then [log[|log| - 1].pressed] else []
  }

  // Read key by key: press, release, press, ...
  lemma {:induction false} StreamAlternates(log: seq<Change>, key: KeyPos)
    requires Alternating(log)
    ensures var s := Stream(log, key);
      && (forall i :: 0 <= i < |s| ==> s[i] == (i % 2 == 0))
      && Held(log, key) == (|s| % 2 == 1)
  {
    if log != [] {
      var before := log[..|log| - 1];
      assert forall i :: 0 <= i < |before| ==> before[..i] == log[..i];
      StreamAlternates(before, key);
    }
  }

  lemma HeldSnoc(log: seq<Change>, e: Change, key: KeyPos)
    ensures Held(log + [e], key) == if e.key == key then e.pressed else Held(log, key)
  {
    assert (log + [e])[..|log|] == log;
  }

  lemma AlternatingSnoc(log: seq<Change>, e: Change)
    requires Alternating(log) && e.pressed != Held(log, e.key)
    ensures Alternating(log + [e])
  {
    var l := log + [e];
    assert l[..|log|] == log;
    assert forall i :: 0 <= i < |log| ==> l[..i] == log[..i];
  }

  // Rows r and s share a column in which both have a key down.
  ghost predicate ShareColumn(x: Row, y: Row) {
    exists c :: 0 <= c < WIDTH && Down(x, c) && Down(y, c)
  }

  // At least two keys of the row are down and another row shares a column.
  ghost predicate Ghosted(rows: seq<Row>, r: nat)
    requires r < |rows|
  {
    TwoKeys(rows[r]) && exists s :: 0 <= s < |rows| && s != r && ShareColumn(rows[s], rows[r])
  }

  lemma CommonOfMask(x: Row, y: Row, m: Row)
    requires x & m == m && y & m == m && m != 0
    ensures Common(x, y) != 0
  {
  }

  lemma BothHit(x: Row, y: Row, m: Row)
    requires Single(m) && Hits(x, m) && Hits(y, m)
    ensures Common(x, y) != 0
  {
    AllOrNothing(x, m);
    AllOrNothing(y, m);
    CommonOfMask(x, y, m);
  }

  lemma CommonShares(x: Row, y: Row)
    ensures Common(x, y) != 0 <==> ShareColumn(x, y)
  {
    hide Hits, Common, Single, Mask;
    if Common(x, y) != 0 {
      var c := SomeDown(Common(x, y));
      CommonHits(x, y, Mask(c));
      assert Down(x, c) && Down(y, c);
    }
    if ShareColumn(x, y) {
      var c :| 0 <= c < WIDTH && Down(x, c) && Down(y, c);
      MaskSingle(c);
      BothHit(x, y, Mask(c));
    }
  }

  method HasGhostInRow(rows: seq<Row>, row: nat) returns (b: bool)
    requires row < |rows|
    ensures b == Ghosted(rows, row)
  {
    hide Common, Rest, TwoKeys, ShareColumn;
    var matrixRow := rows[row];
    TwoDown(matrixRow);
    if Rest(matrixRow) == 0 { return false; }
    for i := 0 to |rows|
      invariant forall s :: 0 <= s < i && s != row ==> !ShareColumn(rows[s], matrixRow)
    {
      CommonShares(rows[i], matrixRow);
      if i != row && Common(rows[i], matrixRow) != 0 { return true; }
    }
    return false;
  }

  // Row-major order of keys.
  predicate Before(p: KeyPos, q: KeyPos) {
    p.row < q.row || (p.row == q.row && p.col < q.col)
  }

  predicate Narrow(x: Row, cols: nat) {
    forall c :: cols <= c < WIDTH ==> !Down(x, c)
  }

  // The events that turn a row into the next, for the columns below c.
  function RowChanges(x: Row, y: Row, r: nat, c: nat): seq<Change>
    requires c <= WIDTH
  {
    if c == 0 then []
    else
      RowChanges(x, y, r, c - 1)
      + if Down(x, c - 1) != Down(y, c - 1) then [Change(KeyPos(r, c - 1), Down(y, c - 1))] else []
  }

  lemma {:induction false} NoRowChanges(x: Row, r: nat, c: nat)
    requires c <= WIDTH
    ensures RowChanges(x, x, r, c) == []
    decreases c
  {
    hide Down;
    if c > 0 {
      NoRowChanges(x, r, c - 1);
    }
  }

  ghost predicate HeldBack(detect: bool, rows: seq<Row>, r: nat)
    requires r < |rows|
  {
    detect && Ghosted(rows, r)
  }

  // The events of a snapshot, for the rows below n.
  ghost function MatrixChanges(detect: bool, cols: nat, prev: seq<Row>, rows: seq<Row>, n: nat): seq<Change>
    requires n <= |rows| == |prev| && cols <= WIDTH
  {
    if n == 0 then []
    else
      MatrixChanges(detect, cols, prev, rows, n - 1)
      + if HeldBack(detect, rows, n - 1) then [] else RowChanges(prev[n - 1], rows[n - 1], n - 1, cols)
  }

  lemma {:induction false} RowChangesOrdered(x: Row, y: Row, r: nat, c: nat)
    requires c <= WIDTH
    ensures forall i :: 0 <= i < |RowChanges(x, y, r, c)| ==>
              RowChanges(x, y, r, c)[i].key.row == r && RowChanges(x, y, r, c)[i].key.col < c
    ensures Ordered(RowChanges(x, y, r, c))
    decreases c
  {
    hide Down;
    if c > 0 {
      RowChangesOrdered(x, y, r, c - 1);
    }
  }

  // In row and column order.
  predicate Ordered(log: seq<Change>) {
    forall i, j :: 0 <= i < j < |log| ==> Before(log[i].key, log[j].key)
  }

  // A snapshot's events come in row and column order: at most one of each key.
  lemma {:induction false} ChangesOrdered(detect: bool, cols: nat, prev: seq<Row>, rows: seq<Row>, n: nat)
    requires n <= |rows| == |prev| && cols <= WIDTH
    ensures forall i :: 0 <= i < |MatrixChanges(detect, cols, prev, rows, n)| ==>
              MatrixChanges(detect, cols, prev, rows, n)[i].key.row < n
    ensures Ordered(MatrixChanges(detect, cols, prev, rows, n))
    decreases n
  {
    hide RowChanges, HeldBack;
    if n > 0 {
      ChangesOrdered(detect, cols, prev, rows, n - 1);
      RowChangesOrdered(prev[n - 1], rows[n - 1], n - 1, cols);
    }
  }

  class Keyboard {
    const cols: nat
    const detectGhosts: bool
    const matrixPrev: array<Row>
    const matrixGhost: array<Row>
    // Every event emitted so far.
    var log: seq<Change>

    // The events so far alternate per key and replay to matrix_prev.
    ghost predicate Valid()
      reads this, matrixPrev
    {
      && cols <= WIDTH && matrixPrev != matrixGhost && matrixPrev.Length == matrixGhost.Length
      && Alternating(log)
      && Replays(log, matrixPrev[..])
      && (forall r :: 0 <= r < matrixPrev.Length ==> Narrow(matrixPrev[r], cols))
    }

    static ghost predicate Replays(log: seq<Change>, prev: seq<Row>) {
      forall r, c :: 0 <= r < |prev| && 0 <= c < WIDTH ==> Down(prev[r], c) == Held(log, KeyPos(r, c))
    }

    constructor (rows: nat, cols: nat, detectGhosts: bool)
      requires cols <= WIDTH
      ensures Valid() && log == [] && matrixPrev.Length == rows && fresh(matrixPrev) && fresh(matrixGhost)
      ensures forall r :: 0 <= r < rows ==> matrixPrev[r] == 0
      ensures this.cols == cols && this.detectGhosts == detectGhosts
    {
      this.cols := cols;
      this.detectGhosts := detectGhosts;
      matrixPrev := new Row[rows](_ => 0);
      matrixGhost := new Row[rows](_ => 0);
      log := [];
      new;
      NothingDown();
    }

    static lemma NothingDown()
      ensures forall c :: 0 <= c < WIDTH ==> !Down(0, c)
    {
    }

    // action_exec for one changed key.
    method Emit(r: nat, c: nat, pressed: bool)
      requires Valid() && r < matrixPrev.Length && c < cols && pressed != Down(matrixPrev[r], c)
      modifies this`log, matrixPrev
      ensures Valid()
      ensures log == old(log) + [Change(KeyPos(r, c), pressed)]
      ensures matrixPrev[..] == old(matrixPrev[..])[r := Xor(old(matrixPrev[r]), Mask(c))]
    {
      hide Alternating, Held, Down, Xor, Mask;
      var e := Change(KeyPos(r, c), pressed);
      AlternatingSnoc(log, e);
      ghost var prev := matrixPrev[..];
      forall q, d | 0 <= q < |prev| && 0 <= d < WIDTH
        ensures Held(log + [e], KeyPos(q, d)) ==
                Down(if q == r then Xor(prev[r], Mask(c)) else prev[q], d)
      {
        HeldSnoc(log, e, KeyPos(q, d));
        if q == r { FlipDown(prev[r], c, d); }
      }
      forall d | cols <= d < WIDTH
        ensures !Down(Xor(prev[r], Mask(c)), d)
      {
        FlipDown(prev[r], c, d);
      }
      log := log + [e];
      matrixPrev[r] := Xor(matrixPrev[r], Mask(c));
    }

    // The events of one row, in column order.
    method RowEvents(r: nat, matrixRow: Row)
      requires Valid() && r < matrixPrev.Length && Narrow(matrixRow, cols)
      modifies this`log, matrixPrev
      ensures Valid()
      ensures matrixPrev[..] == old(matrixPrev[..])[r := matrixRow]
      ensures log == old(log) + RowChanges(old(matrixPrev[r]), matrixRow, r, cols)
    {
      hide Alternating, Held, Down, Xor, Mask, Replays;
      ghost var before, start := matrixPrev[r], log;
      var matrixChange := Xor(matrixRow, matrixPrev[r]);
      var c := 0;
      var colMask: Row := 1;
      MaskZero();
      while c < cols
        invariant 0 <= c <= cols && colMask == Mask(c)
        invariant Valid()
        invariant matrixPrev[..] == old(matrixPrev[..])[r := matrixPrev[r]]
        invariant forall d :: 0 <= d < WIDTH ==>
          Down(matrixPrev[r], d) == if d < c then Down(matrixRow, d) else Down(before, d)
        invariant log == start + RowChanges(before, matrixRow, r, c)
      {
        XorDown(matrixRow, before, c);
        DownIs(matrixChange, c);
        DownIs(matrixRow, c);
        if Hits(matrixChange, colMask) {
          forall d | 0 <= d < WIDTH
            ensures Down(Xor(matrixPrev[r], Mask(c)), d) ==
                    if d == c then !Down(matrixPrev[r], d) else Down(matrixPrev[r], d)
          {
            FlipDown(matrixPrev[r], c, d);
          }
          Emit(r, c, Hits(matrixRow, colMask));
        }
        MaskNext(c);
        c, colMask := c + 1, Twice(colMask);
      }
      forall d | 0 <= d < WIDTH
        ensures Down(matrixPrev[r], d) == Down(matrixRow, d)
      {
      }
      SameRow(matrixPrev[r], matrixRow);
    }

    static lemma MaskZero()
      ensures Mask(0) == 1
    {
    }

    static lemma MaskNext(c: nat)
      ensures Mask(c + 1) == Twice(Mask(c))
    {
    }

    static lemma DownIs(x: Row, c: nat)
      ensures Down(x, c) == Hits(x, Mask(c))
    {
    }

    // One row of a snapshot.
    method RowTask(rows: seq<Row>, r: nat)
      requires Valid() && |rows| == matrixPrev.Length && r < |rows| && Narrow(rows[r], cols)
      modifies this`log, matrixPrev, matrixGhost
      ensures Valid()
      ensures matrixPrev[..] ==
              old(matrixPrev[..])[r := if HeldBack(detectGhosts, rows, r) then old(matrixPrev[r]) else rows[r]]
      ensures log == old(log) + if HeldBack(detectGhosts, rows, r) then []
                                else RowChanges(old(matrixPrev[r]), rows[r], r, cols)
    {
      hide Alternating, Held, Down, Xor, Ghosted, Replays, Narrow, RowChanges;
      var matrixRow := rows[r];
      var matrixChange := Xor(matrixRow, matrixPrev[r]);
      XorZero(matrixRow, matrixPrev[r]);
      NoRowChanges(matrixRow, r, cols);
      if matrixChange != 0 {
        if detectGhosts {
          var ghosted := HasGhostInRow(rows, r);
          matrixGhost[r] := matrixRow;
          if ghosted { return; }
        }
        RowEvents(r, matrixRow);
      }
    }

    // keyboard_task for one snapshot of the debounced matrix.
    method Task(rows: seq<Row>)
      requires Valid() && |rows| == matrixPrev.Length
      requires forall r :: 0 <= r < |rows| ==> Narrow(rows[r], cols)
      modifies this`log, matrixPrev, matrixGhost
      ensures Valid()
      ensures forall r :: 0 <= r < |rows| ==>
        matrixPrev[r] == if HeldBack(detectGhosts, rows, r) then old(matrixPrev[r]) else rows[r]
      ensures log == old(log) + MatrixChanges(detectGhosts, cols, old(matrixPrev[..]), rows, |rows|)
    {
      hide Valid, HeldBack, Narrow, RowChanges;
      ghost var start, prev := log, matrixPrev[..];
      ValidWidth();
      for r := 0 to |rows|
        invariant Valid()
        invariant forall q :: 0 <= q < r ==>
          matrixPrev[q] == if HeldBack(detectGhosts, rows, q) then prev[q] else rows[q]
        invariant forall q :: r <= q < |rows| ==> matrixPrev[q] == prev[q]
        invariant log == start + MatrixChanges(detectGhosts, cols, prev, rows, r)
      {
        RowTask(rows, r);
      }
    }

    lemma ValidWidth()
      requires Valid()
      ensures cols <= WIDTH
    {
    }
  }
}
