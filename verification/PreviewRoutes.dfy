/** The in-memory preview routes of the HTTP side, with their quotas. */
module PreviewRoutes {
  import opened Common
  import opened RouteModel

  type Key(==, !new)
  type OwnerId(==, !new)
  type SessionName(==, !new)

  const CREATE_ATTEMPTS := 8

  datatype Record = Record(
    owner: OwnerId,
    name: SessionName,
    session: SessionId,
    worker: NodeId,
    port: int,
    createdAt: int,
    expiresAt: int)

  type RouteMap = map<Key, Record>

  // ---------------------------------------------------------------- quotas

  function OfOwner(routes: RouteMap, owner: OwnerId): set<Key> {
    set k | k in routes && routes[k].owner == owner
  }

  function OfSession(routes: RouteMap, owner: OwnerId, name: SessionName): set<Key> {
    set k | k in routes && routes[k].owner == owner && routes[k].name == name
  }

  ghost predicate Within(routes: RouteMap, perAccount: nat, perSession: nat) {
    && (forall o :: |OfOwner(routes, o)| <= perAccount)
    && (forall o, n :: |OfSession(routes, o, n)| <= perSession)
  }

  predicate Submap(a: RouteMap, b: RouteMap) { forall k | k in a :: k in b && b[k] == a[k] }

  /** Removing routes keeps the quotas. */
  lemma SubmapWithin(a: RouteMap, b: RouteMap, perAccount: nat, perSession: nat)
    requires Submap(a, b) && Within(b, perAccount, perSession)
    ensures Within(a, perAccount, perSession)
  {
    forall o ensures |OfOwner(a, o)| <= perAccount {
      SubsetSize(OfOwner(a, o), OfOwner(b, o));
    }
    forall o, n ensures |OfSession(a, o, n)| <= perSession {
      SubsetSize(OfSession(a, o, n), OfSession(b, o, n));
    }
  }

  lemma OwnerAdded(routes: RouteMap, k: Key, r: Record, o: OwnerId)
    requires k !in routes
    ensures |OfOwner(routes[k := r], o)| == |OfOwner(routes, o)| + if o == r.owner then 1 else 0
  {
    var more := routes[k := r];
    assert OfOwner(more, o) == if o == r.owner then OfOwner(routes, o) + {k} else OfOwner(routes, o);
  }

  lemma SessionAdded(routes: RouteMap, k: Key, r: Record, o: OwnerId, n: SessionName)
    requires k !in routes
    ensures |OfSession(routes[k := r], o, n)| ==
      |OfSession(routes, o, n)| + if o == r.owner && n == r.name then 1 else 0
  {
    var more := routes[k := r];
    assert OfSession(more, o, n) ==
           if o == r.owner && n == r.name then OfSession(routes, o, n) + {k} else OfSession(routes, o, n);
  }

  /** Adding a route under a new key keeps the quotas if and only if its owner and its session have room. */
  lemma AddedWithin(routes: RouteMap, k: Key, r: Record, perAccount: nat, perSession: nat)
    requires Within(routes, perAccount, perSession) && k !in routes
    ensures Within(routes[k := r], perAccount, perSession) <==>
            |OfOwner(routes, r.owner)| < perAccount && |OfSession(routes, r.owner, r.name)| < perSession
  {
    OwnerAdded(routes, k, r, r.owner);
    SessionAdded(routes, k, r, r.owner, r.name);
    if |OfOwner(routes, r.owner)| < perAccount && |OfSession(routes, r.owner, r.name)| < perSession {
      var more := routes[k := r];
      forall o ensures |OfOwner(more, o)| <= perAccount {
        OwnerAdded(routes, k, r, o);
      }
      forall o, n ensures |OfSession(more, o, n)| <= perSession {
        SessionAdded(routes, k, r, o, n);
      }
    }
  }

  /** Counting one more route than those outside todo. */
  lemma CountedOneMore(mine: set<Key>, todo: set<Key>, k: Key)
    requires k in todo
    ensures |mine - (todo - {k})| == |mine - todo| + if k in mine then 1 else 0
  {
    assert mine - (todo - {k}) == if k in mine then (mine - todo) + {k} else mine - todo;
  }

  // ---------------------------------------------------------------- what the operations do

  function Alive(routes: RouteMap, now: int): RouteMap {
    map k | k in routes && routes[k].expiresAt > now :: routes[k]
  }

  function OfOthers(routes: RouteMap, owner: OwnerId): RouteMap {
    map k | k in routes && routes[k].owner != owner :: routes[k]
  }

  function NotIn(routes: RouteMap, sessions: set<SessionId>): RouteMap {
    map k | k in routes && routes[k].session !in sessions :: routes[k]
  }

  /** A change of the in-memory routes, as the methods below make them. */
  datatype Change =
    | Expire(now: int)
    | DropOwner(owner: OwnerId)
    | DropSessions(sessions: set<SessionId>)
    | DropKey(k: Key)
    | Add(k: Key, r: Record)

  function Changed(routes: RouteMap, c: Change, perAccount: nat, perSession: nat): RouteMap {
    match c
    case Expire(now) => Alive(routes, now)
    case DropOwner(owner) => OfOthers(routes, owner)
    case DropSessions(sessions) => NotIn(routes, sessions)
    case DropKey(k) => routes - {k}
    case Add(k, r) =>
      if k in routes || |OfOwner(routes, r.owner)| >= perAccount || |OfSession(routes, r.owner, r.name)| >= perSession
      then routes else routes[k := r]
  }

  function AfterChanges(routes: RouteMap, changes: seq<Change>, perAccount: nat, perSession: nat): RouteMap
    decreases |changes|
  {
    if changes == [] then routes
    else AfterChanges(Changed(routes, changes[0], perAccount, perSession), changes[1..], perAccount, perSession)
  }

  /** From any routes within the quotas, every run stays within them. */
  lemma {:induction false} QuotasOverRuns(routes: RouteMap, changes: seq<Change>, perAccount: nat, perSession: nat)
    requires Within(routes, perAccount, perSession)
    ensures Within(AfterChanges(routes, changes, perAccount, perSession), perAccount, perSession)
    decreases |changes|
  {
    if changes != [] {
      var next := Changed(routes, changes[0], perAccount, perSession);
      if changes[0].Add? {
        if next != routes {
          AddedWithin(routes, changes[0].k, changes[0].r, perAccount, perSession);
        }
      } else {
        SubmapWithin(next, routes, perAccount, perSession);
      }
      QuotasOverRuns(next, changes[1..], perAccount, perSession);
    }
  }

  /** How the store answers an insert: written, key already there, terminal session gone, or an error. */
  datatype InsertResult = Written | KeyTaken | SessionGone | InsertFailed

  /** What a draw of the random key generator and the insert that follows it yield. */
  datatype Draw = NoRandom | Drawn(key: Key, insert: InsertResult)

  datatype Created =
    | Created(key: Key)
    | AccountLimit
    | SessionLimit
    | NoRandomness
    | SessionNotFound
    | StoreError
    | NoUniqueKey

  /** A draw after which the creator simply draws again. */
  predicate Retries(routes: RouteMap, d: Draw) { d.Drawn? && (d.key in routes || d.insert.KeyTaken?) }

  class Previews {
    const perAccount: nat
    const perSession: nat
    const ttl: nat
    var routes: RouteMap

    constructor (perAccount: nat, perSession: nat, ttl: nat)
      requires perAccount > 0 && perSession > 0 && ttl > 0
      ensures routes == map[] && this.perAccount == perAccount && this.perSession == perSession && this.ttl == ttl
      ensures Valid()
    {
      this.perAccount, this.perSession, this.ttl := perAccount, perSession, ttl;
      routes := map[];
      new;
      forall o ensures OfOwner(routes, o) == {} {}
      forall o, n ensures OfSession(routes, o, n) == {} {}
    }

    ghost predicate Valid()
      reads this
    {
      Within(routes, perAccount, perSession)
    }

    /** Drop every listed key, one at a time. */
    method DropWhere(doomed: set<Key>)
      requires doomed <= routes.Keys
      modifies this
      ensures routes == old(routes) - doomed
    {
      var todo := doomed;
      while todo != {}
        invariant todo <= doomed && routes == old(routes) - (doomed - todo)
      {
        var k :| k in todo;
        routes := routes - {k};
        todo := todo - {k};
      }
    }

    method Prune(now: int)
      modifies this
      ensures routes == Alive(old(routes), now)
      ensures old(Valid()) ==> Valid()
    {
      DropWhere(set k | k in routes && routes[k].expiresAt <= now);
      assert routes == Alive(old(routes), now);
      if old(Valid()) {
        SubmapWithin(routes, old(routes), perAccount, perSession);
      }
    }

    method RevokeOwner(owner: OwnerId) returns (removed: nat)
      modifies this
      ensures routes == OfOthers(old(routes), owner) && removed == |OfOwner(old(routes), owner)|
      ensures old(Valid()) ==> Valid()
    {
      var doomed := OfOwner(routes, owner);
      DropWhere(doomed);
      assert routes == OfOthers(old(routes), owner);
      if old(Valid()) {
        SubmapWithin(routes, old(routes), perAccount, perSession);
      }
      return |doomed|;
    }

    method RevokeSessions(sessions: set<SessionId>)
      modifies this
      ensures routes == NotIn(old(routes), sessions)
      ensures old(Valid()) ==> Valid()
    {
      DropWhere(set k | k in routes && routes[k].session in sessions);
      assert routes == NotIn(old(routes), sessions);
      if old(Valid()) {
        SubmapWithin(routes, old(routes), perAccount, perSession);
      }
    }

    method Delete(owner: OwnerId, k: Key, now: int, up: bool) returns (deleted: Option<bool>)
      modifies this
      ensures var alive := Alive(old(routes), now);
        var mine := k in alive && alive[k].owner == owner;
        && deleted == (if !mine then Some(false) else if up then Some(true) else None)
        && routes == if deleted == Some(true) then alive - {k} else alive
      ensures old(Valid()) ==> Valid()
    {
      Prune(now);
      if k !in routes || routes[k].owner != owner {
        return Some(false);
      }
      if !up {
        return None;
      }
      ghost var alive := routes;
      routes := routes - {k};
      if old(Valid()) {
        SubmapWithin(routes, alive, perAccount, perSession);
      }
      return Some(true);
    }

    method CountRoutes(owner: OwnerId, name: SessionName) returns (account: nat, session: nat)
      ensures account == |OfOwner(routes, owner)| && session == |OfSession(routes, owner, name)|
    {
      account, session := 0, 0;
      var todo := routes.Keys;
      ghost var a, n := OfOwner(routes, owner), OfSession(routes, owner, name);
      assert a - todo == {} && n - todo == {};
      while todo != {}
        invariant todo <= routes.Keys
        invariant account == |a - todo| && session == |n - todo|
      {
        var k :| k in todo;
        CountedOneMore(a, todo, k);
        CountedOneMore(n, todo, k);
        if routes[k].owner == owner {
          account := account + 1;
          if routes[k].name == name {
            session := session + 1;
          }
        }
        todo := todo - {k};
      }
      assert a - todo == a && n - todo == n;
    }

    /** `draws` is what the generator and the store would answer, attempt by attempt. A route is added
        only under a key not in use and only while both quotas have room; otherwise only expired routes
        go. */
    method Create(owner: OwnerId, name: SessionName, session: SessionId, worker: NodeId, port: int, now: int,
                  draws: seq<Draw>)
      returns (result: Created)
      requires |draws| >= CREATE_ATTEMPTS
      modifies this
      ensures var alive := Alive(old(routes), now);
        && (result.AccountLimit? <==> |OfOwner(alive, owner)| >= perAccount)
        && (result.SessionLimit? <==>
              |OfOwner(alive, owner)| < perAccount && |OfSession(alive, owner, name)| >= perSession)
        && (result.NoUniqueKey? ==> forall i | 0 <= i < CREATE_ATTEMPTS :: Retries(alive, draws[i]))
        && (result.Created? ==>
              && result.key !in alive
              && routes == alive[result.key := Record(owner, name, session, worker, port, now, now + ttl)]
              && Drawn(result.key, Written) in draws)
        && (!result.Created? ==> routes == alive)
      ensures old(Valid()) ==> Valid()
    {
      Prune(now);
      var account, inSession := CountRoutes(owner, name);
      if account >= perAccount {
        return AccountLimit;
      }
      if inSession >= perSession {
        return SessionLimit;
      }
      for attempt := 0 to CREATE_ATTEMPTS
        invariant routes == Alive(old(routes), now)
        invariant old(Valid()) ==> Valid()
        invariant forall i | 0 <= i < attempt :: Retries(routes, draws[i])
      {
        if draws[attempt].NoRandom? {
          return NoRandomness;
        }
        var key := draws[attempt].key;
        if key in routes {
          continue;
        }
        var record := Record(owner, name, session, worker, port, now, now + ttl);
        match draws[attempt].insert {
          case SessionGone => return SessionNotFound;
          case InsertFailed => return StoreError;
          case KeyTaken => continue;
          case Written =>
            if old(Valid()) {
              AddedWithin(routes, key, record, perAccount, perSession);
            }
            routes := routes[key := record];
            return Created(key);
        }
      }
      return NoUniqueKey;
    }
  }
}
