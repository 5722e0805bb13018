/**
 * Walking round the table: the seat arithmetic behind `nextTurn`'s
 * `nextIndex = (nextIndex + 1) % players.size` loop, stated with offsets
 * from a starting seat so that "the first seat after" has a closed form.
 */
module Seats {
  import opened State

  /** The seat `d` places after seat `s` at a table of `n` seats. */
  function Walk(s: nat, d: nat, n: nat): (j: nat)
    requires s < n && d <= n
    ensures j < n
    ensures d < n ==> (j == s <==> d == 0)
  {
    if s + d < n then s + d else s + d - n
  }

  /** One more step of the source's loop is one more offset. */
  lemma WalkStep(s: nat, d: nat, n: nat)
    requires s < n && d + 1 <= n
    ensures (Walk(s, d, n) + 1) % n == Walk(s, d + 1, n)
  {
  }

  lemma WalkInjective(s: nat, a: nat, b: nat, n: nat)
    requires s < n && a < n && b < n
    requires Walk(s, a, n) == Walk(s, b, n)
    ensures a == b
  {
  }

  lemma WalkCompose(s: nat, a: nat, b: nat, n: nat)
    requires s < n && a <= n && b <= n && a + b <= n
    requires Walk(s, a, n) < n
    ensures Walk(Walk(s, a, n), b, n) == Walk(s, a + b, n)
  {
  }

  /** Every seat is reached from `s` at some offset below `n`. */
  function OffsetOf(s: nat, i: nat, n: nat): (e: nat)
    requires s < n && i < n
    ensures e < n && Walk(s, e, n) == i
  {
    if i >= s then i - s else i + n - s
  }

  /** The seat a turn may land on: alive, and also connected when `needConnected`. */
  predicate Eligible(p: Player, needConnected: bool)
  {
    p.isAlive && (needConnected ==> p.connected)
  }

  /** The least offset `k >= d` whose seat is eligible, or `|ps|` when there is none. */
  function FirstOffset(ps: seq<Player>, s: nat, d: nat, needConnected: bool): (k: nat)
    requires s < |ps| && d <= |ps|
    ensures d <= k <= |ps|
    ensures k < |ps| ==> Eligible(ps[Walk(s, k, |ps|)], needConnected)
    ensures forall e :: d <= e < k ==> !Eligible(ps[Walk(s, e, |ps|)], needConnected)
    decreases |ps| - d
  {
    if d == |ps| then d
    else if Eligible(ps[Walk(s, d, |ps|)], needConnected) then d
    else FirstOffset(ps, s, d + 1, needConnected)
  }

  /** An eligible seat at offset `e` bounds the search; an eligible seat with none before it is the answer. */
  lemma FirstOffsetIs(ps: seq<Player>, s: nat, d: nat, c: bool, e: nat)
    requires s < |ps| && d <= e < |ps|
    requires Eligible(ps[Walk(s, e, |ps|)], c)
    ensures FirstOffset(ps, s, d, c) <= e
    ensures (forall x :: d <= x < e ==> !Eligible(ps[Walk(s, x, |ps|)], c)) ==> FirstOffset(ps, s, d, c) == e
  {
  }

  /** The alive players in seating order: `players.values().filter(p => p.isAlive)`. */
  function Living(ps: seq<Player>): (alive: seq<Player>)
    ensures |alive| <= |ps|
    ensures forall p :: p in alive ==> p in ps && p.isAlive
    ensures forall i :: 0 <= i < |ps| && ps[i].isAlive ==> ps[i] in alive
  {
    if ps == [] then []
    else (if ps[0].isAlive then [ps[0]] else []) + Living(ps[1..])
  }

  /** The first entry of `Living` is the first alive seat. */
  lemma {:induction false} LivingHead(ps: seq<Player>)
    requires |Living(ps)| > 0
    ensures exists i :: 0 <= i < |ps| && ps[i] == Living(ps)[0] && (forall j :: 0 <= j < i ==> !ps[j].isAlive)
  {
    if !ps[0].isAlive {
      LivingHead(ps[1..]);
      var i :| 0 <= i < |ps[1..]| && ps[1..][i] == Living(ps[1..])[0]
        && (forall j :: 0 <= j < i ==> !ps[1..][j].isAlive);
      assert ps[i + 1] == Living(ps)[0];
      forall j | 0 <= j < i + 1 ensures !ps[j].isAlive {
        if j > 0 { assert ps[j] == ps[1..][j - 1]; }
      }
    }
  }

  /** With two players alive, every seat has an alive seat other than itself. */
  lemma {:induction false} AnotherAlive(ps: seq<Player>, t: nat)
    requires |Living(ps)| >= 2 && t < |ps|
    ensures exists i :: 0 <= i < |ps| && i != t && ps[i].isAlive
  {
    if ps[0].isAlive && t != 0 {
      assert ps[0].isAlive;
    } else if t == 0 {
      assert |Living(ps[1..])| >= 1;
      var p := Living(ps[1..])[0];
      assert p in ps[1..];
      var i :| 0 <= i < |ps[1..]| && ps[1..][i] == p;
      assert ps[i + 1] == p;
    } else {
      AnotherAlive(ps[1..], t - 1);
      var i :| 0 <= i < |ps[1..]| && i != t - 1 && ps[1..][i].isAlive;
      assert ps[i + 1] == ps[1..][i];
    }
  }

  /** The seat the source's walk starts from: the one after `turnIndex`. */
  function StartSeat(turnIndex: nat, n: nat): (s: nat)
    requires n > 0
    ensures s < n
    ensures turnIndex < n ==> s == if turnIndex + 1 < n then turnIndex + 1 else 0
  {
    (turnIndex + 1) % n
  }

  /**
   * With at least two players alive the first alive seat after `t` is found
   * before the walk comes back round to `t`, so it is a different seat.
   */
  lemma FirstAliveBeforeWrap(ps: seq<Player>, t: nat)
    requires |Living(ps)| >= 2 && t < |ps|
    ensures FirstOffset(ps, StartSeat(t, |ps|), 0, false) < |ps| - 1
    ensures Walk(StartSeat(t, |ps|), FirstOffset(ps, StartSeat(t, |ps|), 0, false), |ps|) != t
  {
    var n := |ps|;
    var s := StartSeat(t, n);
    AnotherAlive(ps, t);
    var i :| 0 <= i < n && i != t && ps[i].isAlive;
    var e := OffsetOf(s, i, n);
    assert Walk(s, n - 1, n) == t;
    assert e != n - 1;
    FirstOffsetIs(ps, s, 0, false, e);
    var k := FirstOffset(ps, s, 0, false);
    assert Walk(s, k, n) != t by {
      if Walk(s, k, n) == t { WalkInjective(s, k, n - 1, n); }
    }
  }

  /**
   * Skipping a disconnected alive seat at offset `k` leaves the first alive
   * connected seat `D - k - 1` places after the seat following it: the
   * measure that ends the source's recursion.
   */
  lemma SkipShortens(ps: seq<Player>, s: nat, k: nat, d: nat)
    requires s < |ps|
    requires k == FirstOffset(ps, s, 0, false)
    requires d == FirstOffset(ps, s, 0, true) && d < |ps|
    requires !ps[Walk(s, k, |ps|)].connected
    ensures k < d
    ensures FirstOffset(ps, Walk(s, k + 1, |ps|), 0, true) == d - k - 1
  {
    var n := |ps|;
    FirstOffsetIs(ps, s, 0, false, d);
    assert k < d;
    var s1 := Walk(s, k + 1, n);
    WalkCompose(s, k + 1, d - k - 1, n);
    forall x | 0 <= x < d - k - 1 ensures !Eligible(ps[Walk(s1, x, n)], true) {
      WalkCompose(s, k + 1, x, n);
    }
    FirstOffsetIs(ps, s1, 0, true, d - k - 1);
  }

  /** One `AutoSkipped` entry per alive seat at offsets `d .. D-1`, in walking order. */
  function SkipLog(ps: seq<Player>, s: nat, d: nat, D: nat): (log: seq<LogEntry>)
    requires s < |ps| && d <= D <= |ps|
    ensures |log| <= D - d
    decreases D - d
  {
    if d == D then []
    else
      var p := ps[Walk(s, d, |ps|)];
      (if p.isAlive then [AutoSkipped(p.name)] else []) + SkipLog(ps, s, d + 1, D)
  }

  /** Dead seats leave no entry. */
  lemma {:induction false} SkipLogOverDead(ps: seq<Player>, s: nat, d: nat, k: nat, D: nat)
    requires s < |ps| && d <= k <= D <= |ps|
    requires forall e :: d <= e < k ==> !ps[Walk(s, e, |ps|)].isAlive
    ensures SkipLog(ps, s, d, D) == SkipLog(ps, s, k, D)
    decreases k - d
  {
    if d < k {
      SkipLogOverDead(ps, s, d + 1, k, D);
    }
  }

  /** Starting `m` seats later is the same as counting `m` more offsets. */
  lemma {:induction false} SkipLogShift(ps: seq<Player>, s: nat, m: nat, d: nat, D: nat)
    requires s < |ps| && m <= |ps| && d <= D && D + m <= |ps|
    ensures SkipLog(ps, Walk(s, m, |ps|), d, D) == SkipLog(ps, s, d + m, D + m)
    decreases D - d
  {
    WalkCompose(s, m, d, |ps|);
    if d < D {
      SkipLogShift(ps, s, m, d + 1, D);
    }
  }
}
