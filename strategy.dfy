/** `RoundRobinStrategy`: a list of addresses and a cursor into it. */
module Strategy {

  /** The cursor after one draw. */
  function Advance(pos: nat, n: nat): (next: nat)
    requires pos < n
    ensures next == if pos + 1 == n then 0 else pos + 1
  {
    (pos + 1) % n
  }

  /** The `k` entries that `k` consecutive draws return, starting with the cursor at `pos`. */
  function Rotation<T>(addrs: seq<T>, pos: nat, k: nat): (draws: seq<T>)
    requires pos < |addrs|
    ensures |draws| == k
    decreases k
  {
    if k == 0 then [] else [addrs[pos]] + Rotation(addrs, Advance(pos, |addrs|), k - 1)
  }

  /** The cursor after `k` draws, starting at `pos`. */
  function Cursor(pos: nat, k: nat, n: nat): (c: nat)
    requires pos < n
    ensures c < n
  {
    if k == 0 then pos else Advance(Cursor(pos, k - 1, n), n)
  }

  /** Draws compose: `a` draws then `b` draws are `a + b` draws. */
  lemma {:induction false} CursorAdd(pos: nat, a: nat, b: nat, n: nat)
    requires pos < n
    ensures Cursor(Cursor(pos, a, n), b, n) == Cursor(pos, a + b, n)
  {
    if b > 0 {
      CursorAdd(pos, a, b - 1, n);
    }
  }

  /** Short of the end of the list, `k` draws move the cursor `k` places. */
  lemma {:induction false} CursorWalk(pos: nat, k: nat, n: nat)
    requires pos + k < n
    ensures Cursor(pos, k, n) == pos + k
  {
    if k > 0 {
      CursorWalk(pos, k - 1, n);
    }
  }

  /** Every position is reached from any cursor in fewer than `n` draws. */
  lemma CursorReaches(pos: nat, i: nat, n: nat) returns (d: nat)
    requires pos < n && i < n
    ensures d < n && Cursor(pos, d, n) == i
  {
    if pos <= i {
      d := i - pos;
      CursorWalk(pos, d, n);
    } else {
      CursorWalk(pos, n - 1 - pos, n);
      assert Cursor(pos, n - pos, n) == 0;
      CursorWalk(0, i, n);
      CursorAdd(pos, n - pos, i, n);
      d := n - pos + i;
    }
  }

  /** From cursor 0, the first `n` draws visit the positions 0, 1, ..., n - 1,
      and the `n`-th draw finds the cursor back at 0. */
  lemma {:induction false} CursorFromStart(k: nat, n: nat)
    requires k <= n && n > 0
    ensures Cursor(0, k, n) == if k == n then 0 else k
  {
    if k > 0 {
      CursorFromStart(k - 1, n);
    }
  }

  /** The `i`-th of `k` consecutive draws is the entry at the cursor after `i` draws. */
  lemma {:induction false} RotationAt<T>(addrs: seq<T>, pos: nat, k: nat, i: nat)
    requires pos < |addrs| && i < k
    ensures Rotation(addrs, pos, k)[i] == addrs[Cursor(pos, i, |addrs|)]
    decreases i
  {
    if i > 0 {
      RotationAt(addrs, Advance(pos, |addrs|), k - 1, i - 1);
      CursorAdd(pos, 1, i - 1, |addrs|);
    }
  }

  /** From a fresh strategy, `n + r` draws leave the cursor at `r`. */
  lemma CursorSecondRound(r: nat, n: nat)
    requires r < n
    ensures Cursor(0, n + r, n) == r
  {
    CursorFromStart(n, n);
    CursorAdd(0, n, r, n);
    CursorWalk(0, r, n);
  }

  /** From a fresh strategy, after `j` full rounds and `r` more draws the
      cursor is at `r`. */
  lemma {:induction false} CursorRounds(j: nat, r: nat, n: nat)
    requires r < n
    ensures Cursor(0, j * n + r, n) == r
  {
    if j == 0 {
      CursorWalk(0, r, n);
    } else {
      CursorRounds(j - 1, r, n);
      CursorFromStart(n, n);
      CursorAdd(0, n, (j - 1) * n + r, n);
      assert n + ((j - 1) * n + r) == j * n + r;
    }
  }

  /** From a fresh strategy, the cursor after `k` draws is `k % n`. */
  lemma CursorFromZero(k: nat, n: nat)
    requires n > 0
    ensures Cursor(0, k, n) == k % n
  {
    assert k == (k / n) * n + k % n;
    CursorRounds(k / n, k % n, n);
  }

  /** From a fresh strategy, draw `i` (counting from 0) returns entry `i % len`. */
  lemma FreshDrawAt<T>(addrs: seq<T>, k: nat, i: nat)
    requires |addrs| > 0 && i < k
    ensures Rotation(addrs, 0, k)[i] == addrs[i % |addrs|]
  {
    RotationAt(addrs, 0, k, i);
    CursorFromZero(i, |addrs|);
  }

  /** Helper of FreshRotation: over the first two rounds, draw `i` returns
      entry `i` of the list written out twice. */
  lemma FreshDrawTwoRounds<T>(addrs: seq<T>, k: nat, i: nat)
    requires 0 <= i < k <= 2 * |addrs|
    ensures Rotation(addrs, 0, k)[i] == (addrs + addrs)[i]
  {
    var n := |addrs|;
    RotationAt(addrs, 0, k, i);
    if i < n {
      CursorFromStart(i, n);
    } else {
      CursorSecondRound(i - n, n);
    }
  }

  /** From a fresh strategy, the first `len(addrs)` draws return the list in
      order, and the next `len(addrs)` draws repeat it. */
  lemma FreshRotation<T>(addrs: seq<T>)
    requires |addrs| > 0
    ensures Rotation(addrs, 0, |addrs|) == addrs
    ensures Rotation(addrs, 0, 2 * |addrs|) == addrs + addrs
  {
    var n := |addrs|;
    var once, twice := Rotation(addrs, 0, n), Rotation(addrs, 0, 2 * n);
    forall i | 0 <= i < n
      ensures once[i] == addrs[i]
    {
      FreshDrawTwoRounds(addrs, n, i);
    }
    forall i | 0 <= i < 2 * n
      ensures twice[i] == (addrs + addrs)[i]
    {
      FreshDrawTwoRounds(addrs, 2 * n, i);
    }
  }

  class RoundRobinStrategy<T> {
    var addrs: seq<T>
    var pos: nat

    /** The cursor points into the list (so the list is not empty). */
    ghost predicate Valid()
      reads this
    {
      pos < |addrs|
    }

    constructor (addrs: seq<T>)
      ensures this.addrs == addrs && pos == 0
    {
      this.addrs := addrs;
      pos := 0;
    }

    /** `getnext`: the entry at the cursor; the cursor moves one place, cyclically. */
    method GetNext() returns (a: T)
      requires Valid()
      modifies this`pos
      ensures Valid() && addrs == old(addrs)
      ensures a == addrs[old(pos)] && [a] == Rotation(addrs, old(pos), 1)
      ensures pos == Advance(old(pos), |addrs|)
    {
      var tmp := pos;
      pos := (pos + 1) % |addrs|;
      a := addrs[tmp];
    }
  }
}
