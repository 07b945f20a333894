/** The Redis sorted set: distinct members in the order of their scores. Members with equal
    scores stay in the order in which they were added. */
module ZSets {
  datatype Scored<T> = Scored(score: int, member: T)

  type ZSet<T> = seq<Scored<T>>

  function Members<T>(z: ZSet<T>): set<T> {
    if |z| == 0 then {} else {z[0].member} + Members(z[1..])
  }

  predicate StartsAt<T>(z: ZSet<T>, score: int) {
    |z| == 0 || score <= z[0].score
  }

  ghost predicate Valid<T>(z: ZSet<T>) {
    |z| > 0 ==>
      && z[0].member !in Members(z[1..])
      && StartsAt(z[1..], z[0].score)
      && Valid(z[1..])
  }

  lemma {:induction false} MemberAt<T>(z: ZSet<T>, i: nat)
    requires i < |z|
    ensures z[i].member in Members(z)
  {
    if i > 0 {
      MemberAt(z[1..], i - 1);
    }
  }

  /** A valid set is in score order and holds every member once. */
  lemma {:induction false} ValidMeaning<T>(z: ZSet<T>, i: nat, j: nat)
    requires Valid(z) && i < j < |z|
    ensures z[i].score <= z[j].score && z[i].member != z[j].member
  {
    if i == 0 {
      MemberAt(z[1..], j - 1);
      if j > 1 {
        ValidMeaning(z[1..], 0, j - 1);
      }
    } else {
      ValidMeaning(z[1..], i - 1, j - 1);
    }
  }

  function ZRem<T(==)>(z: ZSet<T>, m: T): ZSet<T> {
    if |z| == 0 then []
    else if z[0].member == m then ZRem(z[1..], m)
    else [z[0]] + ZRem(z[1..], m)
  }

  function Insert<T>(z: ZSet<T>, e: Scored<T>): ZSet<T> {
    if |z| == 0 || e.score < z[0].score then [e] + z
    else [z[0]] + Insert(z[1..], e)
  }

  /** ZADD: a member that is already there only gets a new score. */
  function ZAdd<T(==)>(z: ZSet<T>, m: T, score: int): ZSet<T> {
    Insert(ZRem(z, m), Scored(score, m))
  }

  /** ZRANGEBYSCORE -inf max LIMIT 0 count. */
  function ZRange<T>(z: ZSet<T>, max: int, count: nat): ZSet<T> {
    if |z| == 0 || count == 0 || z[0].score > max then []
    else [z[0]] + ZRange(z[1..], max, count - 1)
  }

  lemma {:induction false} ZRemMembers<T>(z: ZSet<T>, m: T)
    ensures Members(ZRem(z, m)) == Members(z) - {m}
  {
    if |z| > 0 {
      ZRemMembers(z[1..], m);
      assert ([z[0]] + ZRem(z[1..], m))[1..] == ZRem(z[1..], m);
    }
  }

  lemma {:induction false} InsertMembers<T>(z: ZSet<T>, e: Scored<T>)
    ensures Members(Insert(z, e)) == Members(z) + {e.member}
  {
    if |z| == 0 || e.score < z[0].score {
      assert ([e] + z)[1..] == z;
    } else {
      InsertMembers(z[1..], e);
      assert Insert(z, e)[1..] == Insert(z[1..], e);
    }
  }

  lemma ZAddMembers<T>(z: ZSet<T>, m: T, score: int)
    ensures Members(ZAdd(z, m, score)) == Members(z) + {m}
  {
    ZRemMembers(z, m);
    InsertMembers(ZRem(z, m), Scored(score, m));
  }

  lemma {:induction false} ZRemValid<T>(z: ZSet<T>, m: T, low: int)
    requires Valid(z) && StartsAt(z, low)
    ensures Valid(ZRem(z, m)) && StartsAt(ZRem(z, m), low)
  {
    if |z| > 0 {
      ZRemMembers(z[1..], m);
      ZRemValid(z[1..], m, z[0].score);
      assert ([z[0]] + ZRem(z[1..], m))[1..] == ZRem(z[1..], m);
    }
  }

  lemma {:induction false} InsertValid<T>(z: ZSet<T>, e: Scored<T>)
    requires Valid(z) && e.member !in Members(z)
    ensures Valid(Insert(z, e))
    ensures forall low | StartsAt(z, low) && low <= e.score :: StartsAt(Insert(z, e), low)
  {
    if |z| == 0 || e.score < z[0].score {
      assert ([e] + z)[1..] == z;
    } else {
      InsertMembers(z[1..], e);
      InsertValid(z[1..], e);
      assert Insert(z, e)[1..] == Insert(z[1..], e);
    }
  }

  /** ZADD and ZREM keep the set sorted and free of duplicates. */
  lemma StaysValid<T>(z: ZSet<T>, m: T, score: int)
    requires Valid(z)
    ensures Valid(ZAdd(z, m, score)) && Valid(ZRem(z, m))
  {
    var low := if |z| == 0 then score else z[0].score;
    ZRemValid(z, m, low);
    ZRemMembers(z, m);
    InsertValid(ZRem(z, m), Scored(score, m));
  }

  /** ZREM takes out one member and nothing else. */
  lemma {:induction false} ZRemMeaning<T>(z: ZSet<T>, m: T, e: Scored<T>)
    ensures e in ZRem(z, m) <==> e in z && e.member != m
    ensures m !in Members(z) ==> ZRem(z, m) == z
  {
    if |z| > 0 {
      ZRemMeaning(z[1..], m, e);
      assert z == [z[0]] + z[1..];
    }
  }

  lemma {:induction false} InsertThenRem<T>(z: ZSet<T>, m: T, score: int)
    requires m !in Members(z)
    ensures Scored(score, m) in Insert(z, Scored(score, m)) && ZRem(Insert(z, Scored(score, m)), m) == z
  {
    var e := Scored(score, m);
    ZRemMeaning(z, m, e);
    if |z| == 0 || score < z[0].score {
      assert ([e] + z)[1..] == z;
    } else {
      InsertThenRem(z[1..], m, score);
      assert Insert(z, e)[1..] == Insert(z[1..], e);
    }
  }

  /** After ZADD the member has its new score, and the others are as they were. */
  lemma ZAddThenRem<T>(z: ZSet<T>, m: T, score: int)
    ensures Scored(score, m) in ZAdd(z, m, score) && ZRem(ZAdd(z, m, score), m) == ZRem(z, m)
  {
    ZRemMembers(z, m);
    InsertThenRem(ZRem(z, m), m, score);
  }

  lemma {:induction false} ZRemCommutes<T>(z: ZSet<T>, a: T, b: T)
    ensures ZRem(ZRem(z, a), b) == ZRem(ZRem(z, b), a)
  {
    if |z| > 0 {
      ZRemCommutes(z[1..], a, b);
      assert ([z[0]] + ZRem(z[1..], a))[1..] == ZRem(z[1..], a);
      assert ([z[0]] + ZRem(z[1..], b))[1..] == ZRem(z[1..], b);
    }
  }

  lemma RangeBeyond<T>(z: ZSet<T>, max: int, count: nat)
    requires StartsAt(z, max + 1)
    ensures ZRange(z, max, count) == []
  {
  }

  /** A member that is not due yet makes no difference to what is read. */
  lemma {:induction false} RangeWithoutLater<T>(z: ZSet<T>, e: Scored<T>, max: int, count: nat)
    requires Valid(z) && e in z && max < e.score
    ensures ZRange(ZRem(z, e.member), max, count) == ZRange(z, max, count)
    decreases |z|
  {
    if z[0].member == e.member {
      if e != z[0] {
        var i :| 0 < i < |z| && z[i] == e;
        ValidMeaning(z, 0, i);
      }
      ZRemValid(z[1..], e.member, z[0].score);
      RangeBeyond(ZRem(z, e.member), max, count);
    } else {
      assert e in z[1..];
      if count > 0 && z[0].score <= max {
        RangeWithoutLater(z[1..], e, max, count - 1);
        assert ([z[0]] + ZRem(z[1..], e.member))[1..] == ZRem(z[1..], e.member);
      }
    }
  }

  lemma {:induction false} InsertMeaning<T>(z: ZSet<T>, e: Scored<T>) returns (k: nat)
    requires Valid(z)
    ensures k <= |z| && Insert(z, e) == z[..k] + [e] + z[k..]
    ensures forall i | 0 <= i < k :: z[i].score <= e.score
    ensures k < |z| ==> z[k].score > e.score
  {
    if |z| == 0 || e.score < z[0].score {
      k := 0;
    } else {
      var j := InsertMeaning(z[1..], e);
      k := j + 1;
      assert z == [z[0]] + z[1..];
      assert z[..k] == [z[0]] + z[1..][..j] && z[k..] == z[1..][j..];
      assert forall i | 0 < i < k :: z[i] == z[1..][i - 1];
    }
  }

  /** ZADD puts the member under its score behind the entries due no later, and keeps all other
      entries with their scores and in their order. */
  lemma ZAddMeaning<T>(z: ZSet<T>, m: T, score: int) returns (k: nat)
    requires Valid(z)
    ensures k <= |ZRem(z, m)|
    ensures ZAdd(z, m, score) == ZRem(z, m)[..k] + [Scored(score, m)] + ZRem(z, m)[k..]
    ensures forall i | 0 <= i < k :: ZRem(z, m)[i].score <= score
    ensures k < |ZRem(z, m)| ==> ZRem(z, m)[k].score > score
  {
    StaysValid(z, m, score);
    k := InsertMeaning(ZRem(z, m), Scored(score, m));
  }

  /** How many entries are due. */
  function Due<T>(z: ZSet<T>, max: int): nat {
    if |z| == 0 || z[0].score > max then 0 else 1 + Due(z[1..], max)
  }

  lemma {:induction false} DueBound<T>(z: ZSet<T>, max: int)
    ensures Due(z, max) <= |z|
    ensures forall i | 0 <= i < Due(z, max) :: z[i].score <= max
    ensures Due(z, max) < |z| ==> z[Due(z, max)].score > max
  {
    if |z| > 0 && z[0].score <= max {
      DueBound(z[1..], max);
      assert forall i | 0 < i < |z| :: z[i] == z[1..][i - 1];
    }
  }

  /** The range is the front of the set: due entries in score order, as many as the limit lets
      through. */
  lemma {:induction false} ZRangeIsFront<T>(z: ZSet<T>, max: int, count: nat)
    ensures
      var n := if Due(z, max) <= count then Due(z, max) else count;
      n <= |z| && ZRange(z, max, count) == z[..n]
    decreases |z|
  {
    if |z| > 0 && count > 0 && z[0].score <= max {
      ZRangeIsFront(z[1..], max, count - 1);
      var n := if Due(z, max) <= count then Due(z, max) else count;
      assert z[..n] == [z[0]] + z[1..][..n - 1];
    }
  }
}
