/** The session table and `SessionService` (src/api/session/session.service.ts):
    a bounded, insertion-ordered pool of `(user_id, token)` rows per user. */
module Sessions {
  import opened Common

  /** A bearer token, as the signer produced it. */
  type Token = string

  /** One row of the session table. */
  datatype Session = Session(userId: Id, token: Token)

  /** Number of rows owned by user `u`, the `count({ where: { user_id } })` query. */
  function Count(rows: seq<Session>, u: Id): (n: nat)
    ensures n <= |rows|
    ensures n == 0 <==> forall i :: 0 <= i < |rows| ==> rows[i].userId != u
  {
    if rows == [] then 0
    else (if rows[0].userId == u then 1 else 0) + Count(rows[1..], u)
  }

  lemma {:induction false} CountAppend(a: seq<Session>, b: seq<Session>, u: Id)
    ensures Count(a + b, u) == Count(a, u) + Count(b, u)
  {
    if a == [] {
      assert a + b == b;
    } else {
      assert (a + b)[1..] == a[1..] + b;
      CountAppend(a[1..], b, u);
    }
  }

  /** Removing one row lowers its owner's count by one and no other user's. */
  lemma CountRemoveAt(rows: seq<Session>, i: nat, u: Id)
    requires i < |rows|
    ensures Count(RemoveAt(rows, i), u) == Count(rows, u) - (if rows[i].userId == u then 1 else 0)
  {
    assert rows == rows[..i] + [rows[i]] + rows[i + 1..];
    CountAppend(rows[..i] + [rows[i]], rows[i + 1..], u);
    CountAppend(rows[..i], [rows[i]], u);
    CountAppend(rows[..i], rows[i + 1..], u);
  }

  /** Row `i` belongs to user `u`: a row the unordered
      `findOne({ where: { user_id } })` of the eviction may return. */
  predicate RowOf(rows: seq<Session>, u: Id, i: nat)
  {
    i < |rows| && rows[i].userId == u
  }

  /** `findOne({ where: { user_id, token } })` finds a row. */
  predicate Live(rows: seq<Session>, u: Id, t: Token)
  {
    Session(u, t) in rows
  }

  /** No row is stored twice. */
  ghost predicate Distinct(rows: seq<Session>)
  {
    forall i, j :: 0 <= i < j < |rows| ==> rows[i] != rows[j]
  }

  /** The table after `destroy({ where: { user_id: u, token: t } })`. */
  function WithoutSession(rows: seq<Session>, u: Id, t: Token): (r: seq<Session>)
    ensures multiset(r) == multiset(rows)[Session(u, t) := 0]
    ensures forall x :: x in r <==> x in rows && x != Session(u, t)
    ensures Count(r, u) <= Count(rows, u)
    ensures Live(rows, u, t) ==> Count(r, u) < Count(rows, u)
    ensures forall v :: v != u ==> Count(r, v) == Count(rows, v)
    ensures |r| <= |rows|
    ensures |r| < |rows| <==> Live(rows, u, t)
  {
    if rows == [] then []
    else
      assert rows == [rows[0]] + rows[1..];
      if rows[0] == Session(u, t) then WithoutSession(rows[1..], u, t)
      else [rows[0]] + WithoutSession(rows[1..], u, t)
  }

  /** The table after `destroy({ where: { user_id: u } })`. */
  function WithoutUser(rows: seq<Session>, u: Id): (r: seq<Session>)
    ensures forall x :: x in r <==> x in rows && x.userId != u
    ensures Count(r, u) == 0
    ensures forall v :: v != u ==> Count(r, v) == Count(rows, v)
  {
    if rows == [] then []
    else if rows[0].userId == u then WithoutUser(rows[1..], u)
    else [rows[0]] + WithoutUser(rows[1..], u)
  }

  /** `createSession` fails only when the count equals the cap and the
      eviction lookup finds no row, that is, when the cap is 0 and the user
      has no rows. */
  predicate CreateFails(rows: seq<Session>, cap: int, u: Id)
  {
    Count(rows, u) == cap && cap == 0
  }

  /** `after` is a table `createSession(u, t)` can leave behind `before`:
      when the user holds exactly `cap` rows, one of them, whichever the
      unordered lookup returns, is evicted before the new row is appended;
      with no row to evict (`cap` is 0) nothing is inserted. */
  ghost function AfterCreate(before: seq<Session>, after: seq<Session>, cap: int, u: Id, t: Token): (ok: bool)
    ensures ok && CreateFails(before, cap, u) ==> after == before
    ensures ok && !CreateFails(before, cap, u) ==> Live(after, u, t) && |after| >= 1
  {
    if Count(before, u) != cap then after == before + [Session(u, t)]
    else if cap == 0 then after == before
    else exists i :: RowOf(before, u, i) && after == RemoveAt(before, i) + [Session(u, t)]
  }

  /** Below or above the cap nothing is removed and exactly one row is appended. */
  lemma CreateWithoutEviction(before: seq<Session>, after: seq<Session>, cap: int, u: Id, t: Token)
    requires AfterCreate(before, after, cap, u, t) && Count(before, u) != cap
    ensures after == before + [Session(u, t)]
    ensures Count(after, u) == Count(before, u) + 1
    ensures forall v :: v != u ==> Count(after, v) == Count(before, v)
  {
    CountAppend(before, [Session(u, t)], u);
    forall v | v != u
      ensures Count(before + [Session(u, t)], v) == Count(before, v)
    {
      CountAppend(before, [Session(u, t)], v);
    }
  }

  /** At the cap, one row of the user is evicted and the new row appended, so
      the user's count stays at the cap; other users keep their counts. */
  lemma CreateAtCap(before: seq<Session>, after: seq<Session>, cap: int, u: Id, t: Token)
    requires AfterCreate(before, after, cap, u, t) && Count(before, u) == cap > 0
    ensures exists i :: RowOf(before, u, i) && after == RemoveAt(before, i) + [Session(u, t)]
    ensures Count(after, u) == cap
    ensures forall v :: v != u ==> Count(after, v) == Count(before, v)
  {
    var i :| RowOf(before, u, i) && after == RemoveAt(before, i) + [Session(u, t)];
    CountRemoveAt(before, i, u);
    CountAppend(RemoveAt(before, i), [Session(u, t)], u);
    forall v | v != u
      ensures Count(after, v) == Count(before, v)
    {
      CountRemoveAt(before, i, v);
      CountAppend(RemoveAt(before, i), [Session(u, t)], v);
    }
  }

  /** Sequentially, `createSession` never lets any user exceed the cap. */
  lemma CreateKeepsBound(before: seq<Session>, after: seq<Session>, cap: int, u: Id, t: Token)
    requires AfterCreate(before, after, cap, u, t)
    requires forall v :: Count(before, v) <= cap
    ensures forall v :: Count(after, v) <= cap
  {
    if Count(before, u) != cap {
      CreateWithoutEviction(before, after, cap, u, t);
    } else if Count(before, u) > 0 {
      CreateAtCap(before, after, cap, u, t);
    }
  }

  /** The evicted row is gone afterwards (rows are stored once each), unless
      the new token happens to equal it. */
  lemma EvictedIsNotLive(rows: seq<Session>, i: nat, u: Id, t: Token)
    requires Distinct(rows)
    requires RowOf(rows, u, i) && rows[i].token != t
    ensures !Live(RemoveAt(rows, i) + [Session(u, t)], u, rows[i].token)
  {
    var r := RemoveAt(rows, i);
    forall k | 0 <= k < |r|
      ensures r[k] != rows[i]
    {
      if k < i {
        assert r[k] == rows[k];
      } else {
        assert r[k] == rows[k + 1];
      }
    }
  }

  /** Three sequential logins of a user that had no session, with a cap of 2:
      the third token and exactly one of the first two stay live. Which one
      is up to the lookup: the code's "oldest" is not an ordering it asks for. */
  lemma ThreeLoginsWithCapTwo(rows: seq<Session>, r1: seq<Session>, r2: seq<Session>, r3: seq<Session>,
                              u: Id, t1: Token, t2: Token, t3: Token)
    requires Count(rows, u) == 0
    requires t1 != t2 && t1 != t3 && t2 != t3
    requires AfterCreate(rows, r1, 2, u, t1) && AfterCreate(r1, r2, 2, u, t2) && AfterCreate(r2, r3, 2, u, t3)
    ensures Count(r3, u) == 2 && Live(r3, u, t3)
    ensures Live(r3, u, t1) <==> !Live(r3, u, t2)
  {
    var s1, s2, s3 := Session(u, t1), Session(u, t2), Session(u, t3);
    CreateWithoutEviction(rows, r1, 2, u, t1);
    CreateWithoutEviction(r1, r2, 2, u, t2);
    assert r2 == rows + [s1, s2];
    CreateAtCap(r2, r3, 2, u, t3);
    var i :| RowOf(r2, u, i) && r3 == RemoveAt(r2, i) + [s3];
    LastTwoEvicted(rows, s1, s2, s3, i);
  }

  /** Removing one of the two rows appended after a table of other users'
      rows, then appending a third: what is left of the two. */
  lemma LastTwoEvicted(rows: seq<Session>, s1: Session, s2: Session, s3: Session, i: nat)
    requires s1.userId == s2.userId == s3.userId
    requires Count(rows, s1.userId) == 0
    requires s1 != s2 && s1 != s3 && s2 != s3
    requires RowOf(rows + [s1, s2], s1.userId, i)
    ensures var r := RemoveAt(rows + [s1, s2], i) + [s3];
      s3 in r && (s1 in r <==> s2 !in r)
  {
    var r2 := rows + [s1, s2];
    assert i >= |rows|;
    assert s1 !in rows && s2 !in rows;
    if i == |rows| {
      assert RemoveAt(r2, i) + [s3] == rows + [s2, s3];
    } else {
      assert RemoveAt(r2, i) + [s3] == rows + [s1, s3];
    }
  }

  /** `SessionService` over the session table. `cap` is
      `CONFIG.allowedSessions`, read once at start-up. */
  class SessionStore {
    const cap: int
    var rows: seq<Session>

    /** No user holds more than `cap` rows. A negative cap never equals a
        count, so nothing is ever evicted and no bound holds. */
    ghost predicate Valid()
      reads this
    {
      cap >= 0 ==> forall v :: Count(rows, v) <= cap
    }

    constructor (cap: int)
      ensures Valid()
      ensures this.cap == cap && rows == []
    {
      this.cap := cap;
      rows := [];
    }

    /** Counts the user's rows; at exactly the cap, evicts one of them;
        then inserts `(u, t)`. Failure never throws: it becomes a BADREQUEST reply. */
    method CreateSession(u: Id, t: Token) returns (reply: Reply)
      requires Valid()
      modifies this
      ensures Valid()
      ensures reply.error <==> CreateFails(old(rows), cap, u)
      ensures reply == if reply.error then Reply(true, BadRequest, DataFetchError)
                       else Reply(false, Success, DataSuccess)
      ensures AfterCreate(old(rows), rows, cap, u, t)
    {
      ghost var before := rows;
      var n := Count(rows, u);
      if n == cap {
        if n == 0 {
          // `findOne` returned null: DATA_FETCH_ERROR, nothing inserted
          return Reply(true, BadRequest, DataFetchError);
        }
        assert !forall i :: 0 <= i < |rows| ==> rows[i].userId != u;
        var victim :| 0 <= victim < |rows| && rows[victim].userId == u;
        rows := RemoveAt(rows, victim);
        rows := rows + [Session(u, t)];
        assert RowOf(before, u, victim) && rows == RemoveAt(before, victim) + [Session(u, t)];
      } else {
        rows := rows + [Session(u, t)];
      }
      reply := Reply(false, Success, DataSuccess);
      assert AfterCreate(before, rows, cap, u, t);
      if cap >= 0 {
        CreateKeepsBound(before, rows, cap, u, t);
      }
    }

    /** True iff some row carries both the user id and the token. */
    method ValidateSession(u: Id, t: Token) returns (live: bool)
      ensures live <==> exists i :: 0 <= i < |rows| && rows[i].userId == u && rows[i].token == t
    {
      live := Session(u, t) in rows;
    }

    /** Removes every row matching both fields; true iff at least one went. */
    method DeleteSession(u: Id, t: Token) returns (deleted: bool)
      requires Valid()
      modifies this
      ensures Valid()
      ensures deleted <==> Live(old(rows), u, t)
      ensures rows == WithoutSession(old(rows), u, t)
    {
      var before := |rows|;
      rows := WithoutSession(rows, u, t);
      deleted := |rows| < before;
    }

    /** Removes every row of the user; false when the user had none. */
    method DeleteAllSessions(u: Id) returns (ok: bool)
      requires Valid()
      modifies this
      ensures Valid()
      ensures ok <==> Count(old(rows), u) > 0
      ensures rows == WithoutUser(old(rows), u)
    {
      var removed := Count(rows, u);
      rows := WithoutUser(rows, u);
      ok := removed > 0;
    }
  }
}
