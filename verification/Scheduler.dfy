/** Rounds of the delay scheduler (redis_adapter.go): at most 100 due items at a time, their order,
    and how fast a backlog drains. */
module Scheduler {
  import opened ZSets

  const BATCH := 100

  /** A clock reading in nanoseconds, cut to milliseconds. */
  function UnixMilli(ns: int): int {
    ns / 1_000_000
  }

  // ---------------------------------------------------------------- rounds

  function RemoveAll<T(==)>(z: ZSet<T>, batch: ZSet<T>): ZSet<T>
    decreases |batch|
  {
    if |batch| == 0 then z else RemoveAll(ZRem(z, batch[0].member), batch[1..])
  }

  /** One round: the items published, and the set afterwards. */
  function Round<T(==)>(z: ZSet<T>, now: int): (ZSet<T>, ZSet<T>) {
    var batch := ZRange(z, UnixMilli(now), BATCH);
    (batch, RemoveAll(z, batch))
  }

  lemma {:induction false} NothingToRemove<T>(z: ZSet<T>, m: T)
    requires m !in Members(z)
    ensures ZRem(z, m) == z
  {
    if |z| > 0 {
      NothingToRemove(z[1..], m);
    }
  }

  lemma {:induction false} RemoveFront<T>(z: ZSet<T>, n: nat)
    requires Valid(z) && n <= |z|
    ensures RemoveAll(z, z[..n]) == z[n..] && Valid(z[n..])
    decreases n
  {
    if n > 0 {
      NothingToRemove(z[1..], z[0].member);
      assert ZRem(z, z[0].member) == z[1..];
      RemoveFront(z[1..], n - 1);
      assert z[..n][1..] == z[1..][..n - 1] && z[1..][n - 1..] == z[n..];
    }
  }

  /** A round publishes the front of the set, in score order and at most 100 items, and exactly
      these leave it. */
  lemma RoundTakesFront<T>(z: ZSet<T>, now: int)
    requires Valid(z)
    ensures
      var (batch, after) := Round(z, now);
      && batch + after == z && Valid(after)
      && |batch| == (if Due(z, now / 1_000_000) <= 100 then Due(z, now / 1_000_000) else 100)
      && forall i, j | 0 <= i < j < |batch| :: batch[i].score <= batch[j].score
  {
    ZRangeIsFront(z, UnixMilli(now), BATCH);
    var batch := ZRange(z, UnixMilli(now), BATCH);
    RemoveFront(z, |batch|);
    forall i, j | 0 <= i < j < |batch| ensures batch[i].score <= batch[j].score {
      ValidMeaning(z, i, j);
    }
  }

  /** Rounds at successive times, with nothing added in between. */
  function Rounds<T(==)>(z: ZSet<T>, times: seq<int>): ZSet<T>
    decreases |times|
  {
    if |times| == 0 then z else Rounds(Round(z, times[0]).1, times[1..])
  }

  lemma {:induction false} DueLater<T>(z: ZSet<T>, a: int, b: int)
    requires a <= b
    ensures Due(z, a) <= Due(z, b)
  {
    if |z| > 0 && z[0].score <= a {
      DueLater(z[1..], a, b);
    }
  }

  lemma {:induction false} DueTail<T>(z: ZSet<T>, max: int, n: nat)
    requires n <= |z|
    ensures n <= Due(z, max) ==> Due(z[n..], max) == Due(z, max) - n
    decreases n
  {
    if 0 < n <= Due(z, max) {
      DueTail(z[1..], max, n - 1);
      assert z[1..][n - 1..] == z[n..];
    } else if n == 0 {
      assert z[0..] == z;
    }
  }

  function Min(a: int, b: int): int {
    if a <= b then a else b
  }

  /** After k rounds the items due at `start` have left from the front, 100 a round: `c` items
      are gone. */
  lemma {:induction false} RoundsDrain<T>(z: ZSet<T>, times: seq<int>, start: int) returns (c: nat)
    requires Valid(z) && forall i | 0 <= i < |times| :: start <= times[i]
    ensures c <= |z| && Rounds(z, times) == z[c..]
    ensures Min(BATCH * |times|, Due(z, UnixMilli(start))) <= c <= BATCH * |times|
    decreases |times|
  {
    if |times| == 0 {
      c := 0;
      assert z[0..] == z;
    } else {
      RoundTakesFront(z, times[0]);
      var n := |Round(z, times[0]).0|;
      assert Round(z, times[0]).1 == z[n..];
      RoundKeepsPace(z, times[0], start);
      var k := RoundsDrain(z[n..], times[1..], start);
      c := n + k;
      assert z[n..][k..] == z[c..];
    }
  }

  lemma RoundKeepsPace<T>(z: ZSet<T>, now: int, start: int)
    requires Valid(z) && start <= now
    ensures
      var (n, due) := (|Round(z, now).0|, Due(z, UnixMilli(start)));
      && n <= |z| && n <= BATCH
      && (n < due ==> n == BATCH && Due(z[n..], UnixMilli(start)) == due - n)
  {
    RoundTakesFront(z, now);
    DueLater(z, UnixMilli(start), UnixMilli(now));
    DueTail(z, UnixMilli(start), |Round(z, now).0|);
  }

  /** A backlog of N due items needs exactly N/100 rounds, rounded up, until all of it is
      published. */
  lemma DrainsInExactly<T>(z: ZSet<T>, times: seq<int>, start: int)
    requires Valid(z) && forall i | 0 <= i < |times| :: start <= times[i]
    ensures
      var backlog := Due(z, UnixMilli(start));
      Members(z[..Min(backlog, |z|)]) !! Members(Rounds(z, times)) <==> |times| >= (backlog + 99) / 100
  {
    var backlog := Due(z, UnixMilli(start));
    DueBound(z, UnixMilli(start));
    var c := RoundsDrain(z, times, start);
    FrontGone(z, backlog, c);
  }

  lemma {:induction false} InMembers<T>(z: ZSet<T>, m: T) returns (i: nat)
    requires m in Members(z)
    ensures i < |z| && z[i].member == m
  {
    if z[0].member == m {
      i := 0;
    } else {
      var k := InMembers(z[1..], m);
      i := k + 1;
    }
  }

  lemma FrontGone<T>(z: ZSet<T>, n: nat, c: nat)
    requires Valid(z) && n <= |z| && c <= |z|
    ensures Members(z[..n]) !! Members(z[c..]) <==> n <= c
  {
    if n <= c {
      forall m | m in Members(z[..n]) && m in Members(z[c..]) ensures false {
        var i := InMembers(z[..n], m);
        var j := InMembers(z[c..], m);
        ValidMeaning(z, i, c + j);
      }
    } else {
      MemberAt(z[..n], c);
      MemberAt(z[c..], 0);
      assert z[..n][c] == z[c] == z[c..][0];
    }
  }
}
