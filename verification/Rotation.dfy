/** The rotating recovery scan over accepted intents.  A key stands for an intent's place in the durable
    order of creation time and identifier. */
module Rotation {
  import opened Common

  type Key = nat

  const DEFAULT_LIMIT := 100
  const MAX_LIMIT := 1000

  /** The position after which a listing starts; before everything without a cursor. */
  function After(cursor: Option<Key>): int {
    if cursor.None? then -1 else cursor.value
  }

  /** The live keys strictly between two positions. */
  function Between(live: set<Key>, low: int, high: int): set<Key> {
    set y | y in live && low < y < high
  }

  function Beyond(live: set<Key>, low: int): set<Key> {
    set y | y in live && low < y
  }

  predicate IsNext(live: set<Key>, low: int, m: Key) {
    m in live && low < m && forall y | y in live && low < y :: m <= y
  }

  lemma {:induction false} NextExists(keys: set<Key>) returns (m: Key)
    requires keys != {}
    ensures m in keys && forall y | y in keys :: m <= y
    decreases |keys|
  {
    var x :| x in keys;
    m := x;
    var rest := keys - {x};
    if rest == {} {
      assert keys == {x};
    } else {
      var n := NextExists(rest);
      m := if n < x then n else x;
      assert forall y | y in keys :: y == x || y in rest;
    }
  }

  /** The first k live keys after a position, in order. */
  function Page(live: set<Key>, low: int, k: nat): seq<Key>
    decreases k
  {
    if k == 0 || Beyond(live, low) == {} then [] else
      assert exists m :: IsNext(live, low, m) by { NextInLive(live, low); }
      var m :| IsNext(live, low, m);
      [m] + Page(live, m, k - 1)
  }

  lemma NextInLive(live: set<Key>, low: int)
    requires Beyond(live, low) != {}
    ensures exists m :: IsNext(live, low, m)
  {
    var m := NextExists(Beyond(live, low));
    assert forall y | y in live && low < y :: y in Beyond(live, low);
    assert IsNext(live, low, m);
  }

  lemma {:induction false} PageIsLive(live: set<Key>, low: int, k: nat)
    ensures |Page(live, low, k)| <= k && (k > 0 && Beyond(live, low) != {} ==> Page(live, low, k) != [])
    ensures forall i | 0 <= i < |Page(live, low, k)| :: Page(live, low, k)[i] in live && low < Page(live, low, k)[i]
    decreases k
  {
    if k > 0 && Beyond(live, low) != {} {
      NextInLive(live, low);
      PageIsLive(live, Page(live, low, k)[0], k - 1);
    }
  }

  lemma StepBetween(live: set<Key>, low: int, m: Key, x: Key)
    requires IsNext(live, low, m) && m < x
    ensures |Between(live, low, x)| == |Between(live, m, x)| + 1
  {
    assert Between(live, low, x) == Between(live, m, x) + {m};
  }

  lemma StepBeyond(live: set<Key>, low: int, m: Key)
    requires IsNext(live, low, m)
    ensures |Beyond(live, low)| == |Beyond(live, m)| + 1
  {
    assert Beyond(live, low) == Beyond(live, m) + {m};
  }

  /** A page that does not reach x is full, stays below x, and uses up k of the keys before x. */
  lemma {:induction false} PageBefore(live: set<Key>, low: int, k: nat, x: Key)
    requires k > 0 && x in live && low < x && x !in Page(live, low, k)
    ensures var page := Page(live, low, k);
            && |page| == k && page[k - 1] < x
            && |Between(live, low, x)| == |Between(live, page[k - 1], x)| + k
    decreases k
  {
    assert x in Beyond(live, low);
    NextInLive(live, low);
    var page := Page(live, low, k);
    var m := page[0];
    assert m < x;
    StepBetween(live, low, m, x);
    if k == 1 {
      assert Page(live, m, 0) == [];
    } else {
      assert page[1..] == Page(live, m, k - 1);
      PageBefore(live, m, k - 1, x);
      assert page[k - 1] == Page(live, m, k - 1)[k - 2];
    }
  }

  /** A page uses up its own length of the keys beyond the cursor, and is full unless none remain. */
  lemma {:induction false} PageBeyond(live: set<Key>, low: int, k: nat)
    requires k > 0 && Beyond(live, low) != {}
    ensures var page := Page(live, low, k); var n := |page|;
            && n > 0 && low < page[n - 1]
            && |Beyond(live, low)| == |Beyond(live, page[n - 1])| + n
            && (n < k ==> Beyond(live, page[n - 1]) == {})
    decreases k
  {
    NextInLive(live, low);
    var page := Page(live, low, k);
    var m := page[0];
    StepBeyond(live, low, m);
    if k == 1 || Beyond(live, m) == {} {
      assert Page(live, m, k - 1) == [];
    } else {
      PageBeyond(live, m, k - 1);
      var rest := Page(live, m, k - 1);
      assert page == [m] + rest;
      assert page[|page| - 1] == rest[|rest| - 1];
    }
  }

  class Scan {
    var cursor: Option<Key>

    /** nextAcceptedRemoteRunPage and nextAcceptedRemoteSubmitPage: the next page, or the first one again
        when the end is reached.  A limit above the maximum is an error and moves nothing. */
    method NextPage(live: set<Key>, limit: int) returns (ok: bool, page: seq<Key>)
      modifies this
      ensures ok == (limit <= MAX_LIMIT)
      ensures !ok ==> cursor == old(cursor) && page == []
      ensures ok ==>
                page == Turn(live, old(cursor), PageSize(limit)).0
                && cursor == Turn(live, old(cursor), PageSize(limit)).1
    {
      if limit > MAX_LIMIT {
        return false, [];
      }
      var k := PageSize(limit);
      page := Page(live, After(cursor), k);
      if page == [] && cursor.Some? {
        cursor := None;
        page := Page(live, After(cursor), k);
      }
      if page != [] {
        cursor := Some(page[|page| - 1]);
      }
      ok := true;
    }
  }

  function PageSize(limit: int): (k: nat)
    requires limit <= MAX_LIMIT
    ensures 0 < k <= MAX_LIMIT
  {
    if limit <= 0 then DEFAULT_LIMIT else limit
  }

  /** One call: the page and the cursor it leaves. */
  function Turn(live: set<Key>, cursor: Option<Key>, k: nat): (seq<Key>, Option<Key>) {
    var first := Page(live, After(cursor), k);
    var page := if first == [] && cursor.Some? then Page(live, -1, k) else first;
    (page, if page != [] then Some(page[|page| - 1]) else if first == [] && cursor.Some? then None else cursor)
  }

  // ---- nobody starves ----

  /** n / k rounded up. */
  function Ceil(n: nat, k: nat): nat
    requires k > 0
  {
    if n == 0 then 0 else if n <= k then 1 else Ceil(n - k, k) + 1
  }

  /** n / k rounded down. */
  function Floor(n: nat, k: nat): nat
    requires k > 0
  {
    if n < k then 0 else Floor(n - k, k) + 1
  }

  lemma {:induction false} CeilMeans(n: nat, k: nat)
    requires k > 0
    ensures n <= Ceil(n, k) * k < n + k
  {
    if n > k {
      CeilMeans(n - k, k);
      Distribute(Ceil(n - k, k), k);
    }
  }

  lemma Distribute(c: nat, k: nat)
    ensures (c + 1) * k == c * k + k
  {
  }

  /** How many calls may still pass, this one included, until x is returned. */
  function Wait(live: set<Key>, cursor: Option<Key>, x: Key, k: nat): nat
    requires k > 0
  {
    if After(cursor) < x then Floor(|Between(live, After(cursor), x)|, k) + 1
    else Ceil(|Beyond(live, After(cursor))|, k) + Floor(|Between(live, -1, x)|, k) + 1
  }

  lemma {:induction false} RoundMonotone(a: nat, b: nat, k: nat)
    requires a <= b && k > 0
    ensures Floor(a, k) <= Floor(b, k) && Ceil(a, k) <= Ceil(b, k)
    decreases b
  {
    if a >= k {
      RoundMonotone(a - k, b - k, k);
    }
  }

  lemma {:induction false} FloorBelowCeil(n: nat, k: nat)
    requires k > 0
    ensures Floor(n, k) <= Ceil(n, k)
  {
    if n >= k {
      FloorBelowCeil(n - k, k);
    }
  }

  lemma WaitShrinks(live: set<Key>, fewer: set<Key>, cursor: Option<Key>, x: Key, k: nat)
    requires k > 0 && fewer <= live
    ensures Wait(fewer, cursor, x, k) <= Wait(live, cursor, x, k)
  {
    var low := After(cursor);
    SubsetSize(Between(fewer, low, x), Between(live, low, x));
    SubsetSize(Between(fewer, -1, x), Between(live, -1, x));
    SubsetSize(Beyond(fewer, low), Beyond(live, low));
    RoundMonotone(|Between(fewer, low, x)|, |Between(live, low, x)|, k);
    RoundMonotone(|Between(fewer, -1, x)|, |Between(live, -1, x)|, k);
    RoundMonotone(|Beyond(fewer, low)|, |Beyond(live, low)|, k);
  }

  /** A call that does not return x brings it one call closer. */
  lemma TurnProgress(live: set<Key>, cursor: Option<Key>, x: Key, k: nat)
    requires k > 0 && x in live && x !in Turn(live, cursor, k).0
    ensures Wait(live, Turn(live, cursor, k).1, x, k) < Wait(live, cursor, x, k)
  {
    var low := After(cursor);
    PageIsLive(live, low, k);
    if low < x {
      assert x in Beyond(live, low);
      FrontProgress(live, low, x, k);
    } else if Beyond(live, low) == {} {
      assert Page(live, low, k) == [];
      assert cursor.Some?;
      assert x in Beyond(live, -1);
      PageIsLive(live, -1, k);
      FrontProgress(live, -1, x, k);
    } else {
      BackProgress(live, low, x, k);
    }
  }

  lemma FrontProgress(live: set<Key>, low: int, x: Key, k: nat)
    requires k > 0 && x in live && low < x && x !in Page(live, low, k)
    ensures var page := Page(live, low, k);
            page != [] && page[|page| - 1] < x
            && Floor(|Between(live, page[|page| - 1], x)|, k) < Floor(|Between(live, low, x)|, k)
  {
    PageBefore(live, low, k, x);
  }

  lemma BackProgress(live: set<Key>, low: int, x: Key, k: nat)
    requires k > 0 && x in live && x <= low && Beyond(live, low) != {}
    ensures var page := Page(live, low, k);
            page != [] && x <= page[|page| - 1]
            && Ceil(|Beyond(live, page[|page| - 1])|, k) < Ceil(|Beyond(live, low)|, k)
  {
    PageBeyond(live, low, k);
    var page := Page(live, low, k);
    PageIsLive(live, low, k);
    var rest := |Beyond(live, page[|page| - 1])|;
    assert |page| < k ==> rest == 0;
  }

  /** From any cursor the wait is at most one round of the whole set. */
  lemma WaitBound(live: set<Key>, cursor: Option<Key>, x: Key, k: nat)
    requires k > 0 && x in live
    ensures Wait(live, cursor, x, k) <= Ceil(|live|, k) + 1
  {
    var low := After(cursor);
    if low < x {
      SubsetSize(Between(live, low, x), live);
      RoundMonotone(|Between(live, low, x)|, |live|, k);
      FloorBelowCeil(|live|, k);
    } else {
      var a, b := Beyond(live, low), Between(live, -1, x);
      assert a !! b && a + b <= live;
      SubsetSize(a + b, live);
      RoundUpDown(|a|, |b|, k);
      RoundMonotone(|a| + |b|, |live|, k);
    }
  }

  /** Rounding one part up and the other down is at most rounding the sum up. */
  lemma {:induction false} RoundUpDown(a: nat, b: nat, k: nat)
    requires k > 0
    ensures Ceil(a, k) + Floor(b, k) <= Ceil(a + b, k)
    decreases b
  {
    if b >= k {
      RoundUpDown(a, b - k, k);
    } else {
      RoundMonotone(a, a + b, k);
    }
  }

  /** A whole scan: one call per entry of `lives`, each of which finds no more intents than the one before. */
  predicate Shrinking(lives: seq<set<Key>>) {
    forall i | 0 <= i < |lives| - 1 :: lives[i + 1] <= lives[i]
  }

  function CursorAt(lives: seq<set<Key>>, cursor: Option<Key>, k: nat, n: nat): Option<Key>
    requires n <= |lives|
  {
    if n == 0 then cursor else Turn(lives[n - 1], CursorAt(lives, cursor, k, n - 1), k).1
  }

  function PageAt(lives: seq<set<Key>>, cursor: Option<Key>, k: nat, n: nat): seq<Key>
    requires n < |lives|
  {
    Turn(lives[n], CursorAt(lives, cursor, k, n), k).0
  }

  lemma {:induction false} WaitAfter(lives: seq<set<Key>>, cursor: Option<Key>, x: Key, k: nat, n: nat)
    requires k > 0 && Shrinking(lives) && n < |lives| && forall i | 0 <= i < |lives| :: x in lives[i]
    requires forall i | 0 <= i < n :: x !in PageAt(lives, cursor, k, i)
    ensures Wait(lives[n], CursorAt(lives, cursor, k, n), x, k) + n <= Wait(lives[0], cursor, x, k)
    decreases n
  {
    if n > 0 {
      WaitAfter(lives, cursor, x, k, n - 1);
      assert x !in PageAt(lives, cursor, k, n - 1);
      TurnProgress(lives[n - 1], CursorAt(lives, cursor, k, n - 1), x, k);
      WaitShrinks(lives[n - 1], lives[n], CursorAt(lives, cursor, k, n), x, k);
    }
  }

  lemma {:induction false} CeilIsLeast(n: nat, k: nat, c: nat)
    requires k > 0 && n <= c * k
    ensures Ceil(n, k) <= c
  {
    CeilMeans(n, k);
    if Ceil(n, k) > c {
      MultipleMonotone(c + 1, Ceil(n, k), k);
      Distribute(c, k);
    }
  }

  lemma MultipleMonotone(a: nat, b: nat, k: nat)
    requires a <= b
    ensures a * k <= b * k
  {
  }

  /** Over a set of n intents that does not grow, every intent that stays is returned within c + 1 calls,
      wherever the cursor stands, for every c with c pages of k enough for n. */
  lemma NobodyStarves(lives: seq<set<Key>>, cursor: Option<Key>, x: Key, k: nat, c: nat)
    requires k > 0 && lives != [] && Shrinking(lives) && |lives[0]| <= c * k && c < |lives|
    requires forall i | 0 <= i < |lives| :: x in lives[i]
    ensures exists i :: 0 <= i <= c && x in PageAt(lives, cursor, k, i)
  {
    CeilIsLeast(|lives[0]|, k, c);
    var n := Ceil(|lives[0]|, k);
    if forall i | 0 <= i <= n :: x !in PageAt(lives, cursor, k, i) {
      NeverReturned(lives, cursor, x, k, n);
    }
  }

  lemma NeverReturned(lives: seq<set<Key>>, cursor: Option<Key>, x: Key, k: nat, n: nat)
    requires k > 0 && lives != [] && Shrinking(lives) && n < |lives|
    requires forall i | 0 <= i < |lives| :: x in lives[i]
    requires forall i | 0 <= i <= n :: x !in PageAt(lives, cursor, k, i)
    ensures n < Ceil(|lives[0]|, k)
  {
    WaitAfter(lives, cursor, x, k, n);
    WaitBound(lives[0], cursor, x, k);
    assert x !in PageAt(lives, cursor, k, n);
    TurnProgress(lives[n], CursorAt(lives, cursor, k, n), x, k);
  }
}
