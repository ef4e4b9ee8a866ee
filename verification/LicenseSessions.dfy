/** Pool licences per company and subsection (backend/internal/presence/license_sessions.go). */
module LicenseSessions {
  datatype Session = Session(subsection: string, user: string, userName: string, company: string, updatedAt: int)
  type Sessions = map<string, Session>

  const SESSION_TTL := 90_000_000_000  // nanoseconds

  function Key(company: string, subsection: string, user: string): string {
    company + "|" + subsection + "|" + user
  }

  function Purged(sessions: Sessions, now: int): Sessions {
    map k | k in sessions && now - sessions[k].updatedAt <= SESSION_TTL :: sessions[k]
  }

  function ActiveKeys(sessions: Sessions, company: string, subsection: string): set<string> {
    set k | k in sessions && sessions[k].company == company && sessions[k].subsection == subsection
  }

  function Count(sessions: Sessions, company: string, subsection: string): nat {
    |ActiveKeys(sessions, company, subsection)|
  }

  /** The non-empty ids, each once, in order of first appearance. */
  function Ordered(ids: seq<string>): (r: seq<string>)
    ensures forall id :: id in r <==> id in ids && id != ""
    ensures forall i, j :: 0 <= i < j < |r| ==> r[i] != r[j]
  {
    if ids == [] then []
    else
      var r := Ordered(ids[..|ids| - 1]);
      var last := ids[|ids| - 1];
      assert forall id :: id in ids <==> id in ids[..|ids| - 1] || id == last;
      if last == "" || last in r then r else r + [last]
  }

  predicate IsBlocked(sessions: Sessions, company: string, user: string, id: string, available: string -> int) {
    Key(company, id, user) !in sessions && Count(sessions, company, id) >= available(id)
  }

  function Blocked(sessions: Sessions, company: string, user: string, ordered: seq<string>,
                   available: string -> int): (r: seq<string>)
    ensures forall id :: id in r <==> id in ordered && IsBlocked(sessions, company, user, id, available)
  {
    if ordered == [] then []
    else
      var r := Blocked(sessions, company, user, ordered[..|ordered| - 1], available);
      var last := ordered[|ordered| - 1];
      assert forall id :: id in ordered <==> id in ordered[..|ordered| - 1] || id == last;
      if IsBlocked(sessions, company, user, last, available) then r + [last] else r
  }

  predicate Unwanted(s: Session, company: string, user: string, ordered: seq<string>) {
    s.user == user && s.company == company && s.subsection !in ordered
  }

  function Dropped(sessions: Sessions, company: string, user: string, ordered: seq<string>): Sessions {
    map k | k in sessions && !Unwanted(sessions[k], company, user, ordered) :: sessions[k]
  }

  function Installed(sessions: Sessions, company: string, user: string, userName: string,
                     ordered: seq<string>, now: int): Sessions {
    if ordered == [] then sessions
    else
      var id := ordered[|ordered| - 1];
      Installed(sessions, company, user, userName, ordered[..|ordered| - 1], now)
        [Key(company, id, user) := Session(id, user, userName, company, now)]
  }

  datatype Call =
    | Sync(now: int, company: string, user: string, userName: string, ids: seq<string>)
    | ReleaseAll(user: string)

  function Refused(sessions: Sessions, c: Call, available: string -> int): bool
    requires c.Sync?
  {
    Blocked(Purged(sessions, c.now), c.company, c.user, Ordered(c.ids), available) != []
  }

  function Apply(sessions: Sessions, c: Call, available: string -> int): Sessions {
    match c
    case Sync(now, company, user, userName, ids) =>
      var p := Purged(sessions, now);
      var ordered := Ordered(ids);
      if Refused(sessions, c, available) then p
      else Installed(Dropped(p, company, user, ordered), company, user, userName, ordered, now)
    case ReleaseAll(user) => map k | k in sessions && sessions[k].user != user :: sessions[k]
  }

  class SessionTable {
    var sessions: Sessions

    constructor ()
      ensures sessions == map[]
    {
      sessions := map[];
    }

    method PurgeExpiredLocked(now: int)
      modifies this
      ensures sessions == Purged(old(sessions), now)
    {
      var pending := sessions.Keys;
      while pending != {}
        invariant forall k :: k in old(sessions) && k in pending ==> k in sessions
        invariant forall k :: k in sessions ==> k in old(sessions) && sessions[k] == old(sessions)[k]
        invariant forall k :: k in old(sessions) && k !in pending ==>
          (k in sessions <==> now - old(sessions)[k].updatedAt <= SESSION_TTL)
      {
        var k :| k in pending;
        if k in sessions && now - sessions[k].updatedAt > SESSION_TTL {
          sessions := map x | x in sessions && x != k :: sessions[x];
        }
        pending := pending - {k};
      }
    }

    method CountActiveLocked(company: string, subsection: string) returns (count: nat)
      ensures count == Count(sessions, company, subsection)
    {
      var pending := sessions.Keys;
      ghost var active := ActiveKeys(sessions, company, subsection);
      count := 0;
      assert active * pending == active;
      while pending != {}
        invariant pending <= sessions.Keys
        invariant count + |active * pending| == |active|
      {
        var k :| k in pending;
        ghost var rest := active * (pending - {k});
        if sessions[k].company == company && sessions[k].subsection == subsection {
          count := count + 1;
          assert active * pending == rest + {k};
        } else {
          assert active * pending == rest;
        }
        pending := pending - {k};
      }
    }

    method Sync(now: int, company: string, user: string, userName: string, ids: seq<string>,
                available: string -> int, nameFor: string -> string)
      returns (granted: bool, held: seq<string>, blocked: seq<(string, string)>)
      modifies this
      ensures var c := Call.Sync(now, company, user, userName, ids);
        && sessions == Apply(old(sessions), c, available)
        && granted == !Refused(old(sessions), c, available)
        && held == (if granted then Ordered(ids) else [])
        && |blocked| == |Blocked(Purged(old(sessions), now), company, user, Ordered(ids), available)|
        && forall i :: 0 <= i < |blocked| ==>
             var id := Blocked(Purged(old(sessions), now), company, user, Ordered(ids), available)[i];
             blocked[i] == (id, nameFor(id))
    {
      var ordered := [];
      var i := 0;
      while i < |ids|
        invariant 0 <= i <= |ids| && ordered == Ordered(ids[..i])
      {
        assert ids[..i + 1][..i] == ids[..i];
        if ids[i] != "" && ids[i] !in ordered {
          ordered := ordered + [ids[i]];
        }
        i := i + 1;
      }
      assert ids[..|ids|] == ids;

      PurgeExpiredLocked(now);
      blocked := FindBlocked(company, user, ordered, available, nameFor);
      if |blocked| > 0 {
        return false, [], blocked;
      }
      DropUnwanted(company, user, ordered);
      held := InstallHeld(now, company, user, userName, ordered);
      granted := true;
    }

    method FindBlocked(company: string, user: string, ordered: seq<string>,
                       available: string -> int, nameFor: string -> string)
      returns (blocked: seq<(string, string)>)
      ensures |blocked| == |Blocked(sessions, company, user, ordered, available)|
      ensures forall j :: 0 <= j < |blocked| ==>
        var id := Blocked(sessions, company, user, ordered, available)[j];
        blocked[j] == (id, nameFor(id))
    {
      blocked := [];
      var i := 0;
      while i < |ordered|
        invariant 0 <= i <= |ordered|
        invariant |blocked| == |Blocked(sessions, company, user, ordered[..i], available)|
        invariant forall j :: 0 <= j < |blocked| ==>
          var id := Blocked(sessions, company, user, ordered[..i], available)[j];
          blocked[j] == (id, nameFor(id))
      {
        var id := ordered[i];
        assert ordered[..i + 1][..i] == ordered[..i];
        if Key(company, id, user) !in sessions {
          var count := CountActiveLocked(company, id);
          if count >= available(id) {
            blocked := blocked + [(id, nameFor(id))];
          }
        }
        i := i + 1;
      }
      assert ordered[..|ordered|] == ordered;
    }

    method DropUnwanted(company: string, user: string, ordered: seq<string>)
      modifies this
      ensures sessions == Dropped(old(sessions), company, user, ordered)
    {
      var pending := sessions.Keys;
      while pending != {}
        invariant forall k :: k in old(sessions) && k in pending ==> k in sessions
        invariant forall k :: k in sessions ==> k in old(sessions) && sessions[k] == old(sessions)[k]
        invariant forall k :: k in old(sessions) && k !in pending ==>
          (k in sessions <==> !Unwanted(old(sessions)[k], company, user, ordered))
      {
        var k :| k in pending;
        if k in sessions && sessions[k].user == user && sessions[k].company == company
           && sessions[k].subsection !in ordered {
          sessions := map x | x in sessions && x != k :: sessions[x];
        }
        pending := pending - {k};
      }
    }

    method InstallHeld(now: int, company: string, user: string, userName: string, ordered: seq<string>)
      returns (held: seq<string>)
      modifies this
      ensures sessions == Installed(old(sessions), company, user, userName, ordered, now) && held == ordered
    {
      held := [];
      var i := 0;
      while i < |ordered|
        invariant 0 <= i <= |ordered| && held == ordered[..i]
        invariant sessions == Installed(old(sessions), company, user, userName, ordered[..i], now)
      {
        assert ordered[..i + 1][..i] == ordered[..i];
        var id := ordered[i];
        sessions := sessions[Key(company, id, user) := Session(id, user, userName, company, now)];
        held := held + [id];
        i := i + 1;
      }
      assert ordered[..|ordered|] == ordered;
    }

    method ReleaseAll(user: string)
      modifies this
      ensures forall available: string -> int :: sessions == Apply(old(sessions), Call.ReleaseAll(user), available)
    {
      var pending := sessions.Keys;
      while pending != {}
        invariant forall k :: k in old(sessions) && k in pending ==> k in sessions
        invariant forall k :: k in sessions ==> k in old(sessions) && sessions[k] == old(sessions)[k]
        invariant forall k :: k in old(sessions) && k !in pending ==> (k in sessions <==> old(sessions)[k].user != user)
      {
        var k :| k in pending;
        if k in sessions && sessions[k].user == user {
          sessions := map x | x in sessions && x != k :: sessions[x];
        }
        pending := pending - {k};
      }
    }
  }

  // --- quotas ---------------------------------------------------------------

  /** Every session is stored under the key made of its own fields. */
  predicate KeysOk(sessions: Sessions) {
    forall k :: k in sessions ==> k == Key(sessions[k].company, sessions[k].subsection, sessions[k].user)
  }

  /** The key of a wanted session is free, or belongs to that very session. */
  predicate NoClash(sessions: Sessions, company: string, user: string, id: string) {
    Key(company, id, user) in sessions ==>
      var s := sessions[Key(company, id, user)];
      s.company == company && s.subsection == id && s.user == user
  }

  predicate BarFree(s: string) {
    '|' !in s
  }

  lemma BarFreePrefix(a: string, b: string, x: string, y: string)
    requires BarFree(a) && BarFree(b) && a + "|" + x == b + "|" + y
    ensures a == b && x == y
  {
    var s := a + "|" + x;
    assert s[|a|] == '|' && s[|b|] == '|';
    assert forall i :: 0 <= i < |a| ==> s[i] == a[i] && a[i] in a;
    assert forall i :: 0 <= i < |b| ==> s[i] == b[i] && b[i] in b;
    assert a == s[..|a|] && b == s[..|b|] && x == s[|a| + 1..] && y == s[|b| + 1..];
  }

  /** Without bars in company and subsection ids a key determines the three fields. */
  lemma KeyInjective(c1: string, s1: string, u1: string, c2: string, s2: string, u2: string)
    requires BarFree(c1) && BarFree(s1) && BarFree(c2) && BarFree(s2)
    requires Key(c1, s1, u1) == Key(c2, s2, u2)
    ensures c1 == c2 && s1 == s2 && u1 == u2
  {
    assert Key(c1, s1, u1) == c1 + "|" + (s1 + "|" + u1);
    assert Key(c2, s2, u2) == c2 + "|" + (s2 + "|" + u2);
    BarFreePrefix(c1, c2, s1 + "|" + u1, s2 + "|" + u2);
    BarFreePrefix(s1, s2, u1, u2);
  }

  lemma SameKeySameId(company: string, user: string, id1: string, id2: string)
    requires Key(company, id1, user) == Key(company, id2, user)
    ensures id1 == id2
  {
    var k1, k2 := Key(company, id1, user), Key(company, id2, user);
    assert |id1| == |id2|;
    var n := |company| + 1;
    assert id1 == k1[n..n + |id1|] && id2 == k2[n..n + |id2|];
  }

  lemma SameKeySameUser(company: string, id: string, user1: string, user2: string)
    ensures Key(company, id, user1) == Key(company, id, user2) ==> user1 == user2
  {
    var n := |company| + 1 + |id| + 1;
    assert Key(company, id, user1)[n..] == user1 && Key(company, id, user2)[n..] == user2;
  }

  lemma {:induction false} InstalledContents(sessions: Sessions, company: string, user: string, userName: string,
                                             ordered: seq<string>, now: int, k: string)
    ensures var g := Installed(sessions, company, user, userName, ordered, now);
      && (k in g <==> k in sessions || exists id :: id in ordered && k == Key(company, id, user))
      && (forall id :: id in ordered && k == Key(company, id, user) ==> g[k] == Session(id, user, userName, company, now))
      && (k in sessions && (forall id :: id in ordered ==> k != Key(company, id, user)) ==> g[k] == sessions[k])
  {
    if ordered != [] {
      var rest, last := ordered[..|ordered| - 1], ordered[|ordered| - 1];
      InstalledContents(sessions, company, user, userName, rest, now, k);
      assert forall id :: id in ordered <==> id in rest || id == last;
      forall id | id in ordered && k == Key(company, id, user) && k == Key(company, last, user) ensures id == last {
        SameKeySameId(company, user, id, last);
      }
    }
  }

  lemma SubsetCount<T>(a: set<T>, b: set<T>)
    requires a <= b
    ensures |a| <= |b|
  {
    assert b == a + (b - a);
  }

  function Max(a: int, b: int): int {
    if a > b then a else b
  }

  /** A call that is granted adds at most the caller's own session to each wanted count. */
  lemma GrantedCount(sessions: Sessions, c: Call, available: string -> int, company: string, subsection: string)
    requires c.Sync? && !Refused(sessions, c, available)
    requires forall id :: id in Ordered(c.ids) ==> NoClash(Purged(sessions, c.now), c.company, c.user, id)
    ensures var p, after := Purged(sessions, c.now), Apply(sessions, c, available);
      ActiveKeys(after, company, subsection) <= ActiveKeys(p, company, subsection)
        + (if company == c.company && subsection in Ordered(c.ids) then {Key(company, subsection, c.user)} else {})
  {
    var p := Purged(sessions, c.now);
    var ordered := Ordered(c.ids);
    var d := Dropped(p, c.company, c.user, ordered);
    var after := Apply(sessions, c, available);
    forall k | k in ActiveKeys(after, company, subsection)
      ensures k in ActiveKeys(p, company, subsection)
        + (if company == c.company && subsection in ordered then {Key(company, subsection, c.user)} else {})
    {
      InstalledContents(d, c.company, c.user, c.userName, ordered, c.now, k);
    }
  }

  lemma GrantedCountBounded(sessions: Sessions, c: Call, available: string -> int, subsection: string)
    requires c.Sync? && !Refused(sessions, c, available) && subsection in Ordered(c.ids)
    requires forall id :: id in Ordered(c.ids) ==> NoClash(Purged(sessions, c.now), c.company, c.user, id)
    ensures Count(Apply(sessions, c, available), c.company, subsection)
      <= Max(Count(Purged(sessions, c.now), c.company, subsection), available(subsection))
  {
    var p := Purged(sessions, c.now);
    var mine := Key(c.company, subsection, c.user);
    var keys := ActiveKeys(p, c.company, subsection);
    GrantedCount(sessions, c, available, c.company, subsection);
    SubsetCount(ActiveKeys(Apply(sessions, c, available), c.company, subsection), keys + {mine});
    assert NoClash(p, c.company, c.user, subsection);
    if mine in p {
      assert keys + {mine} == keys;
    } else {
      assert subsection !in Blocked(p, c.company, c.user, Ordered(c.ids), available);
    }
  }

  /** After any Sync a count is at most its previous value or its quota. */
  lemma CountBounded(sessions: Sessions, c: Call, available: string -> int, company: string, subsection: string)
    requires c.Sync?
    requires forall id :: id in Ordered(c.ids) ==> NoClash(Purged(sessions, c.now), c.company, c.user, id)
    ensures Count(Apply(sessions, c, available), company, subsection)
      <= if company == c.company then Max(Count(sessions, company, subsection), available(subsection))
         else Count(sessions, company, subsection)
  {
    var p := Purged(sessions, c.now);
    SubsetCount(ActiveKeys(p, company, subsection), ActiveKeys(sessions, company, subsection));
    if !Refused(sessions, c, available) {
      if company == c.company && subsection in Ordered(c.ids) {
        GrantedCountBounded(sessions, c, available, subsection);
      } else {
        GrantedCount(sessions, c, available, company, subsection);
        SubsetCount(ActiveKeys(Apply(sessions, c, available), company, subsection), ActiveKeys(p, company, subsection));
      }
    }
  }

  /** The caller's sessions are exactly the wanted ones, stamped now; all others are as in p. */
  ghost predicate Granted(p: Sessions, after: Sessions, c: Call)
    requires c.Sync?
  {
    && (forall k :: k in after && after[k].user == c.user && after[k].company == c.company ==>
          after[k].subsection in c.ids && k == Key(c.company, after[k].subsection, c.user)
          && after[k].updatedAt == c.now)
    && (forall id :: id in c.ids && id != "" ==>
          Key(c.company, id, c.user) in after
          && after[Key(c.company, id, c.user)] == Session(id, c.user, c.userName, c.company, c.now))
    && (forall k :: k in p && !(p[k].user == c.user && p[k].company == c.company) ==> k in after && after[k] == p[k])
    && (forall k :: k in after && !(after[k].user == c.user && after[k].company == c.company) ==> k in p)
  }

  /** What InstalledContents says of every key. */
  ghost predicate AllInstalled(d: Sessions, g: Sessions, c: Call)
    requires c.Sync?
  {
    && (forall k :: k in g ==> k in d || exists id :: id in Ordered(c.ids) && k == Key(c.company, id, c.user))
    && (forall id :: id in Ordered(c.ids) ==>
          Key(c.company, id, c.user) in g
          && g[Key(c.company, id, c.user)] == Session(id, c.user, c.userName, c.company, c.now))
    && (forall k :: k in d && (forall id :: id in Ordered(c.ids) ==> k != Key(c.company, id, c.user)) ==>
          k in g && g[k] == d[k])
  }

  lemma GrantInstalls(sessions: Sessions, c: Call, available: string -> int)
    requires c.Sync? && !Refused(sessions, c, available)
    ensures AllInstalled(Dropped(Purged(sessions, c.now), c.company, c.user, Ordered(c.ids)),
                         Apply(sessions, c, available), c)
  {
    var ordered := Ordered(c.ids);
    var d := Dropped(Purged(sessions, c.now), c.company, c.user, ordered);
    var g := Installed(d, c.company, c.user, c.userName, ordered, c.now);
    assert Apply(sessions, c, available) == g;
    hide Apply;
    hide Installed;
    hide Dropped;
    hide Refused;
    hide Ordered;
    hide Purged;
    hide Key;
    forall k | k in g ensures k in d || exists id :: id in ordered && k == Key(c.company, id, c.user) {
      InstalledContents(d, c.company, c.user, c.userName, ordered, c.now, k);
    }
    forall id | id in ordered
      ensures Key(c.company, id, c.user) in g
      ensures g[Key(c.company, id, c.user)] == Session(id, c.user, c.userName, c.company, c.now)
    {
      InstalledContents(d, c.company, c.user, c.userName, ordered, c.now, Key(c.company, id, c.user));
    }
    forall k | k in d && (forall id :: id in ordered ==> k != Key(c.company, id, c.user)) ensures k in g && g[k] == d[k] {
      InstalledContents(d, c.company, c.user, c.userName, ordered, c.now, k);
    }
  }

  lemma OutcomeFrom(p: Sessions, after: Sessions, c: Call)
    requires c.Sync? && KeysOk(p) && (forall id :: id in Ordered(c.ids) ==> NoClash(p, c.company, c.user, id))
    requires AllInstalled(Dropped(p, c.company, c.user, Ordered(c.ids)), after, c)
    ensures Granted(p, after, c)
  {
    hide Key;
    hide Ordered;
  }

  /** A refusal only expires sessions; a grant gives exactly the wanted set and touches nobody else. */
  lemma SyncOutcome(sessions: Sessions, c: Call, available: string -> int)
    requires c.Sync? && KeysOk(sessions)
    requires forall id :: id in Ordered(c.ids) ==> NoClash(Purged(sessions, c.now), c.company, c.user, id)
    ensures var p, after := Purged(sessions, c.now), Apply(sessions, c, available);
      if Refused(sessions, c, available) then after == p else Granted(p, after, c)
  {
    if !Refused(sessions, c, available) {
      GrantInstalls(sessions, c, available);
      OutcomeFrom(Purged(sessions, c.now), Apply(sessions, c, available), c);
    }
  }

  // --- when a call is granted --------------------------------------------------

  /** The sessions of a pool whose last call is at most 90 seconds old. */
  function LiveKeys(sessions: Sessions, now: int, company: string, subsection: string): set<string> {
    set k | k in sessions && sessions[k].company == company && sessions[k].subsection == subsection
            && now - sessions[k].updatedAt <= 90_000_000_000
  }

  /**
    A call is granted exactly if every wanted pool has a live session under the caller's key or
    fewer live sessions than licences.
   */
  lemma GrantedIff(sessions: Sessions, c: Call, available: string -> int)
    requires c.Sync?
    ensures !Refused(sessions, c, available) <==>
      forall id :: id in c.ids && id != "" ==>
        || (Key(c.company, id, c.user) in sessions
            && c.now - sessions[Key(c.company, id, c.user)].updatedAt <= 90_000_000_000)
        || |LiveKeys(sessions, c.now, c.company, id)| < available(id)
  {
    hide Key;
    var p, ordered := Purged(sessions, c.now), Ordered(c.ids);
    var blocked := Blocked(p, c.company, c.user, ordered, available);
    forall id ensures LiveKeys(sessions, c.now, c.company, id) == ActiveKeys(p, c.company, id) { }
    if blocked == [] {
      assert forall id :: id in ordered ==> id !in blocked;
    } else {
      assert blocked[0] in blocked;
    }
  }

  /** Once the leases of all other holders have run out, a call within the licences is granted. */
  lemma GrantedAfterExpiry(sessions: Sessions, c: Call, available: string -> int)
    requires c.Sync? && forall id :: id in c.ids && id != "" ==> available(id) >= 1
    requires forall k :: k in sessions && sessions[k].company == c.company && sessions[k].subsection in c.ids ==>
      k == Key(c.company, sessions[k].subsection, c.user) || c.now - sessions[k].updatedAt > 90_000_000_000
    ensures !Refused(sessions, c, available)
  {
    hide Key;
    hide Refused;
    GrantedIff(sessions, c, available);
    forall id | id in c.ids && id != ""
      ensures || (Key(c.company, id, c.user) in sessions
                  && c.now - sessions[Key(c.company, id, c.user)].updatedAt <= 90_000_000_000)
              || |LiveKeys(sessions, c.now, c.company, id)| < available(id)
    {
      var live := LiveKeys(sessions, c.now, c.company, id);
      if live != {} {
        var k :| k in live;
        assert k == Key(c.company, id, c.user);
      }
    }
  }

  /** The table after the users have released everything. */
  function Released(sessions: Sessions, users: seq<string>): Sessions {
    if users == [] then sessions
    else Apply(Released(sessions, users[..|users| - 1]), Call.ReleaseAll(users[|users| - 1]), (id: string) => 0)
  }

  lemma {:induction false} ReleasedKeepsOthers(sessions: Sessions, users: seq<string>)
    ensures var t := Released(sessions, users);
      && (forall k :: k in t <==> k in sessions && sessions[k].user !in users)
      && (forall k :: k in t ==> t[k] == sessions[k])
  {
    if users != [] {
      var n := |users| - 1;
      ReleasedKeepsOthers(sessions, users[..n]);
      assert forall u :: u in users <==> u in users[..n] || u == users[n];
    }
  }

  /** Once all other holders have released everything, a call within the licences is granted. */
  lemma GrantedAfterRelease(sessions: Sessions, users: seq<string>, c: Call, available: string -> int)
    requires c.Sync? && forall id :: id in c.ids && id != "" ==> available(id) >= 1
    requires forall k :: k in sessions && sessions[k].company == c.company && sessions[k].subsection in c.ids ==>
      k == Key(c.company, sessions[k].subsection, c.user) || sessions[k].user in users
    ensures !Refused(Released(sessions, users), c, available)
  {
    hide Key;
    hide Refused;
    hide Released;
    ReleasedKeepsOthers(sessions, users);
    GrantedAfterExpiry(Released(sessions, users), c, available);
  }

  /** One user wanting one pool. */
  datatype Want = Want(company: string, subsection: string, user: string)

  function KeyOf(w: Want): string {
    Key(w.company, w.subsection, w.user)
  }

  /** No two wants share a key. */
  ghost predicate Injective(wants: Want -> bool) {
    forall a, b :: wants(a) && wants(b) && a.subsection != "" && b.subsection != "" && KeyOf(a) == KeyOf(b) ==> a == b
  }

  /** The call wants nothing else. */
  ghost predicate CallWants(c: Call, wants: Want -> bool) {
    c.Sync? ==> forall id :: id in c.ids && id != "" ==> wants(Want(c.company, id, c.user))
  }

  ghost predicate SessionsWant(sessions: Sessions, wants: Want -> bool) {
    KeysOk(sessions)
    && forall k :: k in sessions ==>
         sessions[k].subsection != "" && wants(Want(sessions[k].company, sessions[k].subsection, sessions[k].user))
  }

  lemma InjectiveNoClash(sessions: Sessions, c: Call, wants: Want -> bool)
    requires c.Sync? && CallWants(c, wants) && SessionsWant(sessions, wants) && Injective(wants)
    ensures forall id :: id in Ordered(c.ids) ==> NoClash(sessions, c.company, c.user, id)
  {
    forall id | id in Ordered(c.ids) && Key(c.company, id, c.user) in sessions
      ensures NoClash(sessions, c.company, c.user, id)
    {
      var s := sessions[Key(c.company, id, c.user)];
      var mine, other := Want(c.company, id, c.user), Want(s.company, s.subsection, s.user);
      assert KeyOf(mine) == KeyOf(other);
    }
  }

  lemma WantsKept(sessions: Sessions, c: Call, available: string -> int, wants: Want -> bool)
    requires CallWants(c, wants) && SessionsWant(sessions, wants)
    ensures SessionsWant(Apply(sessions, c, available), wants)
  {
    if c.Sync? && !Refused(sessions, c, available) {
      var d := Dropped(Purged(sessions, c.now), c.company, c.user, Ordered(c.ids));
      var after := Apply(sessions, c, available);
      forall k | k in after
        ensures k == Key(after[k].company, after[k].subsection, after[k].user) && after[k].subsection != ""
        ensures wants(Want(after[k].company, after[k].subsection, after[k].user))
      {
        InstalledContents(d, c.company, c.user, c.userName, Ordered(c.ids), c.now, k);
      }
    }
  }

  /** The table after a run with fixed quotas, available(company)(subsection). */
  function After(run: seq<Call>, available: string -> string -> int): Sessions
    decreases |run|
  {
    if run == [] then map[]
    else
      var c := run[|run| - 1];
      Apply(After(run[..|run| - 1], available), c, if c.Sync? then available(c.company) else (id => 0))
  }

  ghost predicate RunWants(run: seq<Call>, wants: Want -> bool) {
    forall c :: c in run ==> CallWants(c, wants)
  }

  ghost predicate Bounded(run: seq<Call>, available: string -> string -> int, company: string, subsection: string) {
    Count(After(run, available), company, subsection) <= Max(0, available(company)(subsection))
  }

  /** With fixed quotas no count ever exceeds its quota while no two wants share a key, whatever the clock readings are. */
  lemma {:induction false} QuotaNeverExceeded(run: seq<Call>, available: string -> string -> int,
                                              company: string, subsection: string, wants: Want -> bool)
    requires RunWants(run, wants) && Injective(wants)
    ensures SessionsWant(After(run, available), wants)
    ensures Bounded(run, available, company, subsection)
    decreases |run|
  {
    hide Injective;
    hide CallWants;
    if run == [] {
      assert ActiveKeys(map[], company, subsection) == {};
    } else {
      var before, c := run[..|run| - 1], run[|run| - 1];
      QuotaNeverExceeded(before, available, company, subsection, wants);
      var s := After(before, available);
      assert c in run;
      WantsKept(s, c, if c.Sync? then available(c.company) else (id => 0), wants);
      if c.Sync? {
        InjectiveNoClash(Purged(s, c.now), c, wants);
        CountBounded(s, c, available(c.company), company, subsection);
      } else {
        SubsetCount(ActiveKeys(After(run, available), company, subsection), ActiveKeys(s, company, subsection));
      }
    }
  }

  /** Two wants with one key are for different pools: the second gets in on the first one's session. */
  lemma SharedKeyExceeds(a: Want, b: Want) returns (run: seq<Call>, available: string -> string -> int)
    requires a != b && KeyOf(a) == KeyOf(b) && a.subsection != "" && b.subsection != ""
    ensures forall wants: Want -> bool :: wants(a) && wants(b) ==> RunWants(run, wants)
    ensures !Bounded(run, available, b.company, b.subsection)
  {
    SameKeySameUser(a.company, a.subsection, a.user, b.user);
    var first, second := Sync(0, a.company, a.user, "", [a.subsection]), Sync(0, b.company, b.user, "", [b.subsection]);
    available := c => s => if c == a.company && s == a.subsection then 1 else 0;
    run := [first, second];
    assert run[..1] == [first] && [first][..0] == [];
    var s := After([first], available);
    FirstGranted(first, a.subsection, available(a.company));
    assert After([], available) == map[];
    assert s == Apply(map[], first, available(a.company));
    assert s == map[KeyOf(a) := Session(a.subsection, a.user, "", a.company, 0)];
    TakenKeyGranted(s, second, b.subsection, available(b.company));
    assert KeyOf(b) in ActiveKeys(After(run, available), b.company, b.subsection);
  }

  lemma FirstGranted(c: Call, id: string, available: string -> int)
    requires c.Sync? && c.ids == [id] && id != "" && available(id) >= 1
    ensures Apply(map[], c, available) == map[Key(c.company, id, c.user) := Session(id, c.user, c.userName, c.company, c.now)]
  {
    var one := [id];
    assert one[..|one| - 1] == [];
    assert Ordered(c.ids) == one;
    assert ActiveKeys(map[], c.company, id) == {};
    assert !IsBlocked(map[], c.company, c.user, id, available);
    assert Blocked(map[], c.company, c.user, [], available) == [];
    assert Blocked(map[], c.company, c.user, one, available) == [];
    assert Purged(map[], c.now) == map[];
    var d := Dropped(map[], c.company, c.user, one);
    assert Installed(d, c.company, c.user, c.userName, [], c.now) == d;
  }

  /** Over all runs with these wants and all fixed quotas no pool is exceeded if and only if no two wants share a key. */
  lemma QuotaHoldsIff(wants: Want -> bool)
    ensures (forall run, available, company, subsection :: RunWants(run, wants) ==>
               Bounded(run, available, company, subsection))
            <==> Injective(wants)
  {
    hide Bounded;
    hide RunWants;
    if Injective(wants) {
      forall run, available, company, subsection | RunWants(run, wants) ensures Bounded(run, available, company, subsection) {
        QuotaNeverExceeded(run, available, company, subsection, wants);
      }
    } else {
      var a, b :| wants(a) && wants(b) && a.subsection != "" && b.subsection != "" && KeyOf(a) == KeyOf(b) && a != b;
      var run, available := SharedKeyExceeds(a, b);
    }
  }

  /** Ids without bars share no key; users may have them. */
  lemma BarFreeInjective()
    ensures Injective((w: Want) => BarFree(w.company) && BarFree(w.subsection))
  {
    forall a: Want, b: Want | BarFree(a.company) && BarFree(a.subsection) && BarFree(b.company) && BarFree(b.subsection)
                              && KeyOf(a) == KeyOf(b)
      ensures a == b
    {
      KeyInjective(a.company, a.subsection, a.user, b.company, b.subsection, b.user);
    }
  }

  /**
    For one wanted subsection: the quota bound holds for every quota exactly when the key
    does not belong to another session. The branch for a key already present skips the quota.
   */
  lemma SingleSyncBoundedIff(sessions: Sessions, now: int, company: string, user: string, userName: string, id: string)
    requires KeysOk(sessions) && Purged(sessions, now) == sessions && id != ""
    ensures (forall quota: nat :: Count(Apply(sessions, Sync(now, company, user, userName, [id]), x => quota), company, id)
               <= Max(Count(sessions, company, id), quota))
            <==> NoClash(sessions, company, user, id)
  {
    var c := Sync(now, company, user, userName, [id]);
    assert Ordered([id]) == [id];
    if NoClash(sessions, company, user, id) {
      forall quota: nat ensures Count(Apply(sessions, c, x => quota), company, id) <= Max(Count(sessions, company, id), quota) {
        CountBounded(sessions, c, x => quota, company, id);
      }
    } else {
      ClashExceeds(sessions, c, id);
    }
  }

  /** A single id whose key is taken is granted without a look at the quota. */
  lemma TakenKeyGranted(sessions: Sessions, c: Call, id: string, available: string -> int)
    requires c.Sync? && c.ids == [id] && id != "" && Purged(sessions, c.now) == sessions
    requires Key(c.company, id, c.user) in sessions
    ensures Apply(sessions, c, available) == Dropped(sessions, c.company, c.user, [id])
      [Key(c.company, id, c.user) := Session(id, c.user, c.userName, c.company, c.now)]
  {
    var one := [id];
    assert one[..|one| - 1] == [];
    assert Ordered(c.ids) == one;
    assert one[|one| - 1] == id && !IsBlocked(sessions, c.company, c.user, id, available);
    assert Blocked(sessions, c.company, c.user, [], available) == [];
    assert Blocked(sessions, c.company, c.user, one, available) == [];
    assert !Refused(sessions, c, available);
    var d := Dropped(sessions, c.company, c.user, one);
    assert Installed(d, c.company, c.user, c.userName, [], c.now) == d;
  }

  lemma ClashExceeds(sessions: Sessions, c: Call, id: string)
    requires c.Sync? && c.ids == [id] && id != "" && KeysOk(sessions) && Purged(sessions, c.now) == sessions
    requires !NoClash(sessions, c.company, c.user, id)
    ensures Count(Apply(sessions, c, x => 0), c.company, id) > Max(Count(sessions, c.company, id), 0)
  {
    var mine := Key(c.company, id, c.user);
    TakenKeyGranted(sessions, c, id, x => 0);
    var s := sessions[mine];
    SameKeySameUser(c.company, id, c.user, s.user);
    var keys := ActiveKeys(sessions, c.company, id);
    assert ActiveKeys(Apply(sessions, c, x => 0), c.company, id) == keys + {mine};
  }

  /** Bars in ids do make keys clash: a second user gets in although the pool has no licence at all. */
  lemma BarsBreakQuota(now: int)
    ensures var sessions := map[Key("a", "b", "c|u") := Session("b", "c|u", "", "a", now)];
      && KeysOk(sessions) && Count(sessions, "a", "b|c") == 0
      && Count(Apply(sessions, Sync(now, "a", "u", "", ["b|c"]), x => 0), "a", "b|c") > 0
  {
    var other := Session("b", "c|u", "", "a", now);
    var sessions := map[Key("a", "b", "c|u") := other];
    assert Key("a", "b", "c|u") == "a|b|c|u" == Key("a", "b|c", "u");
    assert Purged(sessions, now) == sessions;
    assert ActiveKeys(sessions, "a", "b|c") == {};
    ClashExceeds(sessions, Sync(now, "a", "u", "", ["b|c"]), "b|c");
  }
}
