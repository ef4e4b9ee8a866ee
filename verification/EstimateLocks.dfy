/**
  Edit locks on estimates (backend/internal/presence/locks.go). The clock is read before
  the mutex is taken, so the readings of successive calls may go backwards; each call
  carries its own reading.
 */
module EstimateLocks {
  import opened Wrappers

  datatype EstimateLock = EstimateLock(estimateId: string, userId: string, userName: string,
                                       companyId: string, updatedAt: int)
  type Locks = map<string, EstimateLock>

  const LOCK_TTL := 90_000_000_000  // nanoseconds

  function Purged(locks: Locks, now: int): Locks {
    map e | e in locks && now - locks[e].updatedAt <= LOCK_TTL :: locks[e]
  }

  datatype Call =
    | Acquire(now: int, estimate: string, user: string, name: string, company: string)
    | Release(estimate: string, user: string)
    | ReleaseAll(user: string)
    | List(now: int)
    | ForceRelease(now: int, estimate: string)

  predicate Grants(locks: Locks, c: Call) {
    c.Acquire? &&
    var l := Purged(locks, c.now);
    c.estimate in l ==> l[c.estimate].userId == c.user
  }

  /** The lock a granted Acquire leaves: a renewal keeps the company of the first grant. */
  function GrantedLock(locks: Locks, c: Call): EstimateLock
    requires c.Acquire?
  {
    var l := Purged(locks, c.now);
    if c.estimate in l then l[c.estimate].(userName := c.name, updatedAt := c.now)
    else EstimateLock(c.estimate, c.user, c.name, c.company, c.now)
  }

  function Without(locks: Locks, estimate: string): Locks {
    map e | e in locks && e != estimate :: locks[e]
  }

  function Apply(locks: Locks, c: Call): Locks {
    match c
    case Acquire(now, estimate, _, _, _) =>
      if Grants(locks, c) then Purged(locks, now)[estimate := GrantedLock(locks, c)] else Purged(locks, now)
    case Release(estimate, user) =>
      if estimate in locks && locks[estimate].userId == user then Without(locks, estimate) else locks
    case ReleaseAll(user) => map e | e in locks && locks[e].userId != user :: locks[e]
    case List(now) => Purged(locks, now)
    case ForceRelease(now, estimate) => Without(Purged(locks, now), estimate)
  }

  class LockTable {
    var locks: Locks

    constructor ()
      ensures locks == map[]
    {
      locks := map[];
    }

    method PurgeExpiredLocked(now: int)
      modifies this
      ensures locks == Purged(old(locks), now)
    {
      var pending := locks.Keys;
      while pending != {}
        invariant forall e :: e in old(locks) && e in pending ==> e in locks
        invariant forall e :: e in locks ==> e in old(locks) && locks[e] == old(locks)[e]
        invariant forall e :: e in old(locks) && e !in pending ==>
          (e in locks <==> now - old(locks)[e].updatedAt <= LOCK_TTL)
      {
        var e :| e in pending;
        if e in locks && now - locks[e].updatedAt > LOCK_TTL {
          locks := Without(locks, e);
        }
        pending := pending - {e};
      }
    }

    method Acquire(now: int, estimate: string, user: string, name: string, company: string)
      returns (granted: Option<EstimateLock>, conflict: Option<EstimateLock>)
      modifies this
      ensures var c := Call.Acquire(now, estimate, user, name, company);
        && locks == Apply(old(locks), c)
        && (granted.Some? <==> Grants(old(locks), c))
        && (granted.Some? ==> conflict.None? && estimate in locks && locks[estimate] == granted.value)
        && (granted.None? ==> conflict.Some? && estimate in locks && locks[estimate] == conflict.value
                              && conflict.value.userId != user && now - conflict.value.updatedAt <= LOCK_TTL)
    {
      PurgeExpiredLocked(now);
      if estimate in locks {
        var existing := locks[estimate];
        if existing.userId != user {
          return None, Some(existing);
        }
        existing := existing.(userName := name, updatedAt := now);
        locks := locks[estimate := existing];
        return Some(existing), None;
      }
      var lock := EstimateLock(estimate, user, name, company, now);
      locks := locks[estimate := lock];
      return Some(lock), None;
    }

    method Release(estimate: string, user: string) returns (released: bool)
      modifies this
      ensures locks == Apply(old(locks), Call.Release(estimate, user))
      ensures released == (estimate in old(locks) && old(locks)[estimate].userId == user)
    {
      if estimate !in locks || locks[estimate].userId != user {
        return false;
      }
      locks := Without(locks, estimate);
      return true;
    }

    method ReleaseAll(user: string)
      modifies this
      ensures locks == Apply(old(locks), Call.ReleaseAll(user))
    {
      var pending := locks.Keys;
      while pending != {}
        invariant forall e :: e in old(locks) && e in pending ==> e in locks
        invariant forall e :: e in locks ==> e in old(locks) && locks[e] == old(locks)[e]
        invariant forall e :: e in old(locks) && e !in pending ==> (e in locks <==> old(locks)[e].userId != user)
      {
        var e :| e in pending;
        if e in locks && locks[e].userId == user {
          locks := Without(locks, e);
        }
        pending := pending - {e};
      }
    }

    method ForceRelease(now: int, estimate: string) returns (released: Option<EstimateLock>)
      modifies this
      ensures locks == Apply(old(locks), Call.ForceRelease(now, estimate))
      ensures estimate !in locks
      ensures released == if estimate in Purged(old(locks), now) then Some(old(locks)[estimate]) else None
    {
      PurgeExpiredLocked(now);
      if estimate !in locks {
        return None;
      }
      released := Some(locks[estimate]);
      locks := Without(locks, estimate);
    }
  }

  /** The table after a run of calls on a fresh LockTable. */
  function After(run: seq<Call>): Locks
    decreases |run|
  {
    if run == [] then map[] else Apply(After(run[..|run| - 1]), run[|run| - 1])
  }

  predicate GrantAt(run: seq<Call>, i: nat, estimate: string) {
    i < |run| && run[i].Acquire? && run[i].estimate == estimate && Grants(After(run[..i]), run[i])
  }

  /** Call c gives up user's lock on the estimate. */
  predicate ReleasesFor(c: Call, estimate: string, user: string) {
    || c == Release(estimate, user)
    || c == ReleaseAll(user)
    || (c.ForceRelease? && c.estimate == estimate)
  }

  /** Call c purges, and its clock reading is more than 90 seconds past the stamp. */
  predicate ExpiresStamp(c: Call, stamp: int) {
    (c.Acquire? || c.List? || c.ForceRelease?) && c.now - stamp > 90_000_000_000
  }

  predicate Ends(c: Call, estimate: string, user: string, stamp: int) {
    ReleasesFor(c, estimate, user) || ExpiresStamp(c, stamp)
  }

  /** A call that neither grants nor ends a lock leaves it alone. */
  lemma StaysHeld(locks: Locks, c: Call, estimate: string)
    requires estimate in locks && !(c.Acquire? && c.estimate == estimate && Grants(locks, c))
    requires !Ends(c, estimate, locks[estimate].userId, locks[estimate].updatedAt)
    ensures estimate in Apply(locks, c) && Apply(locks, c)[estimate] == locks[estimate]
  {
  }

  lemma GrantTakes(locks: Locks, c: Call)
    requires c.Acquire? && Grants(locks, c)
    ensures var after := Apply(locks, c);
      c.estimate in after && after[c.estimate].userId == c.user && after[c.estimate].updatedAt == c.now
  {
  }

  /** Until a release or an expiry the lock stays with the user it was granted to. */
  lemma {:induction false} HolderStays(run: seq<Call>, i: nat, m: nat, estimate: string)
    requires i < m <= |run| && GrantAt(run, i, estimate)
    requires forall k :: i < k < m ==> !GrantAt(run, k, estimate)
    requires forall k :: i < k < m ==> !Ends(run[k], estimate, run[i].user, run[i].now)
    ensures var locks := After(run[..m]);
      estimate in locks && locks[estimate].userId == run[i].user && locks[estimate].updatedAt == run[i].now
    decreases m
  {
    hide Apply;
    hide Grants;
    hide Ends;
    assert run[..m][..m - 1] == run[..m - 1];
    if m == i + 1 {
      GrantTakes(After(run[..i]), run[i]);
    } else {
      HolderStays(run, i, m - 1, estimate);
      assert !GrantAt(run, m - 1, estimate) && !Ends(run[m - 1], estimate, run[i].user, run[i].now);
      StaysHeld(After(run[..m - 1]), run[m - 1], estimate);
    }
  }

  /**
    Two successive grants of one estimate to different users are separated by a release of
    the first user's lock, or by a call whose clock is more than the TTL past its stamp.
   */
  lemma GrantsSeparated(run: seq<Call>, i: nat, j: nat, estimate: string)
    requires i < j && GrantAt(run, i, estimate) && GrantAt(run, j, estimate)
    requires forall k :: i < k < j ==> !GrantAt(run, k, estimate)
    requires run[i].user != run[j].user
    ensures exists k :: i < k <= j && Ends(run[k], estimate, run[i].user, run[i].now)
  {
    if forall k :: i < k < j ==> !Ends(run[k], estimate, run[i].user, run[i].now) {
      HolderStays(run, i, j, estimate);
      assert Ends(run[j], estimate, run[i].user, run[i].now);
    }
  }

  /** The last grant of the estimate is the i-th call, and nothing has ended it since. */
  ghost predicate Holds(run: seq<Call>, i: nat, estimate: string) {
    && GrantAt(run, i, estimate)
    && (forall k :: i < k < |run| ==> !GrantAt(run, k, estimate) && !Ends(run[k], estimate, run[i].user, run[i].now))
  }

  lemma HoldsMeans(run: seq<Call>, i: nat, estimate: string)
    requires Holds(run, i, estimate)
    ensures var locks := After(run);
      estimate in locks && locks[estimate].userId == run[i].user && locks[estimate].updatedAt == run[i].now
  {
    assert run[..|run|] == run;
    HolderStays(run, i, |run|, estimate);
  }

  lemma HoldsOn(before: seq<Call>, c: Call, i: nat, estimate: string)
    requires !GrantAt(before + [c], |before|, estimate)
    requires Holds(before, i, estimate) && !Ends(c, estimate, before[i].user, before[i].now)
    ensures Holds(before + [c], i, estimate)
  {
    hide After;
    hide Grants;
    hide Ends;
    var run := before + [c];
    assert run[..|before|] == before && forall k :: 0 <= k < |before| ==> run[..k] == before[..k];
    assert forall k :: 0 <= k < |before| ==> (GrantAt(run, k, estimate) <==> GrantAt(before, k, estimate));
  }

  /** A lock in the table is a grant that nothing has ended. */
  lemma {:induction false} LockIsHeld(run: seq<Call>, estimate: string) returns (i: nat)
    requires estimate in After(run)
    ensures Holds(run, i, estimate)
    decreases |run|
  {
    var before, c := run[..|run| - 1], run[|run| - 1];
    assert run == before + [c];
    if GrantAt(run, |run| - 1, estimate) {
      i := |run| - 1;
    } else {
      i := LockIsHeld(before, estimate);
      HoldsMeans(before, i, estimate);
      HoldsOn(before, c, i, estimate);
    }
  }

  /**
    After any calls an Acquire is granted exactly if every grant to another user that nothing has
    ended yet is more than 90 seconds old by its clock: a release of either kind frees the estimate at once.
   */
  lemma GrantedIff(run: seq<Call>, c: Call)
    requires c.Acquire?
    ensures Grants(After(run), c) <==>
      forall i :: 0 <= i < |run| && Holds(run, i, c.estimate) && run[i].user != c.user ==> c.now - run[i].now > 90_000_000_000
  {
    forall i: nat | Holds(run, i, c.estimate)
      ensures c.estimate in After(run) && After(run)[c.estimate].userId == run[i].user && After(run)[c.estimate].updatedAt == run[i].now
    {
      HoldsMeans(run, i, c.estimate);
    }
    if c.estimate in After(run) {
      var i := LockIsHeld(run, c.estimate);
    }
  }
}
