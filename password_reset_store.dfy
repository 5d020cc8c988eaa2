/** passwordResetStore.js: reset tokens held in memory, each with its admin
    data, valid for 15 minutes. The JavaScript `Map` is a `map` plus the
    insertion order of its keys (which `getActiveTokens` lists in); every
    call that reads the clock takes it as `now`. */
module PasswordReset {
  import opened Common

  /** `15 * 60 * 1000` milliseconds. */
  const TokenExpiry: int := 15 * 60 * 1000

  /** A stored entry: the admin data and the two times added to it. */
  datatype TokenData = TokenData(adminData: Record, expiryTime: int, createdAt: int)

  /** The object the store holds, `{...adminData, expiryTime, createdAt}`:
      the admin data with the two time fields added, overriding fields of
      the same name. */
  function AsObject(d: TokenData): (r: Record)
    ensures Get(r, "expiryTime") == Num(d.expiryTime) && Get(r, "createdAt") == Num(d.createdAt)
    ensures forall k :: k != "expiryTime" && k != "createdAt" ==> Get(r, k) == Get(d.adminData, k)
    ensures r.Keys == d.adminData.Keys + {"expiryTime", "createdAt"}
  {
    d.adminData["expiryTime" := Num(d.expiryTime)]["createdAt" := Num(d.createdAt)]
  }

  /** The entry `storeResetToken` makes at `now`. */
  function Stamp(adminData: Record, now: int, ttl: int): TokenData {
    TokenData(adminData, now + ttl, now)
  }

  /** `now > data.expiryTime` */
  predicate Expired(d: TokenData, now: int) {
    now > d.expiryTime
  }

  /** A token is still good at its expiry instant and expired one
      millisecond later. */
  lemma ExpiryBoundary(adminData: Record, created: int)
    ensures Get(AsObject(Stamp(adminData, created, TokenExpiry)), "expiryTime") == Num(created + TokenExpiry)
    ensures !Expired(Stamp(adminData, created, TokenExpiry), created)
    ensures !Expired(Stamp(adminData, created, TokenExpiry), created + TokenExpiry)
    ensures Expired(Stamp(adminData, created, TokenExpiry), created + TokenExpiry + 1)
  {
  }

  predicate Distinct(s: seq<string>) {
    forall i, j :: 0 <= i < j < |s| ==> s[i] != s[j]
  }

  lemma DistinctTail(s: seq<string>)
    requires |s| > 0 && Distinct(s)
    ensures Distinct(s[1..]) && s[0] !in s[1..]
  {
    forall k | 0 <= k < |s[1..]| ensures s[1..][k] != s[0] {
      assert s[1..][k] == s[k + 1];
    }
  }

  lemma DistinctAt(s: seq<string>, i: nat)
    requires i < |s| && Distinct(s)
    ensures s[i] !in s[..i] && s[i] !in s[i + 1..]
    ensures s[i..] == [s[i]] + s[i + 1..]
  {
    forall k | 0 <= k < i ensures s[..i][k] != s[i] { }
    var rest := s[i + 1..];
    forall k | 0 <= k < |rest| ensures rest[k] != s[i] {
      assert rest[k] == s[i + 1 + k];
    }
  }

  /** The entries of `m` that have not expired at `now`. */
  function Live(m: map<string, TokenData>, now: int): (r: map<string, TokenData>)
    ensures forall t :: t in r <==> t in m && !Expired(m[t], now)
    ensures forall t :: t in r ==> r[t] == m[t]
  {
    map t | t in m && !Expired(m[t], now) :: m[t]
  }

  /** `s` without `t`. */
  function Without(s: seq<string>, t: string): seq<string> {
    if |s| == 0 then [] else (if s[0] == t then [] else [s[0]]) + Without(s[1..], t)
  }

  /** The keys of `ts` that are not expired entries of `m`. */
  function KeepLive(ts: seq<string>, m: map<string, TokenData>, now: int): seq<string> {
    if |ts| == 0 then []
    else (if ts[0] in m && Expired(m[ts[0]], now) then [] else [ts[0]]) + KeepLive(ts[1..], m, now)
  }

  lemma {:induction false} WithoutKeeps(s: seq<string>, t: string)
    ensures forall x :: x in Without(s, t) <==> x in s && x != t
    ensures Distinct(s) ==> Distinct(Without(s, t))
  {
    if |s| > 0 {
      WithoutKeeps(s[1..], t);
      if Distinct(s) { DistinctTail(s); }
    }
  }

  lemma {:induction false} KeepLiveKeeps(ts: seq<string>, m: map<string, TokenData>, now: int)
    ensures forall x :: x in KeepLive(ts, m, now) <==> x in ts && !(x in m && Expired(m[x], now))
    ensures Distinct(ts) ==> Distinct(KeepLive(ts, m, now))
  {
    if |ts| > 0 {
      KeepLiveKeeps(ts[1..], m, now);
      if Distinct(ts) { DistinctTail(ts); }
    }
  }

  lemma {:induction false} KeepLiveSnoc(ts: seq<string>, x: string, m: map<string, TokenData>, now: int)
    ensures KeepLive(ts + [x], m, now)
      == KeepLive(ts, m, now) + (if x in m && Expired(m[x], now) then [] else [x])
  {
    if |ts| > 0 {
      assert (ts + [x])[1..] == ts[1..] + [x];
      KeepLiveSnoc(ts[1..], x, m, now);
    }
  }

  lemma {:induction false} WithoutSplit(a: seq<string>, t: string, b: seq<string>)
    requires t !in a && t !in b
    ensures Without(a + [t] + b, t) == a + b
  {
    if |a| == 0 {
      assert a + [t] + b == [t] + b;
      assert ([t] + b)[1..] == b;
      WithoutAbsent(b, t);
    } else {
      assert (a + [t] + b)[1..] == a[1..] + [t] + b;
      WithoutSplit(a[1..], t, b);
      assert a + b == [a[0]] + (a[1..] + b);
    }
  }

  lemma {:induction false} WithoutAbsent(s: seq<string>, t: string)
    requires t !in s
    ensures Without(s, t) == s
  {
    if |s| > 0 {
      WithoutAbsent(s[1..], t);
      assert s == [s[0]] + s[1..];
    }
  }

  /** One visit of the cleanup walk: the keys still to visit start with
      `ts[i]`, and deleting it when expired (or keeping it) moves it into
      the kept part. */
  lemma CleanupStep(ts: seq<string>, i: nat, m: map<string, TokenData>, now: int)
    requires i < |ts| && Distinct(ts) && ts[i] in m
    ensures ts[i] in KeepLive(ts[..i], m, now) + ts[i..]
    ensures Expired(m[ts[i]], now) ==>
      Without(KeepLive(ts[..i], m, now) + ts[i..], ts[i]) == KeepLive(ts[..i + 1], m, now) + ts[i + 1..]
    ensures !Expired(m[ts[i]], now) ==>
      KeepLive(ts[..i], m, now) + ts[i..] == KeepLive(ts[..i + 1], m, now) + ts[i + 1..]
  {
    var t := ts[i];
    DistinctAt(ts, i);
    KeepLiveSnoc(ts[..i], t, m, now);
    assert ts[..i + 1] == ts[..i] + [t];
    var kept := KeepLive(ts[..i], m, now);
    assert kept + ts[i..] == kept + [t] + ts[i + 1..];
    if Expired(m[t], now) {
      KeepLiveKeeps(ts[..i], m, now);
      WithoutSplit(kept, t, ts[i + 1..]);
    }
  }

  /** The state of the cleanup walk after visiting the first `i` keys of
      `entries`, the keys of `m0` in order: the visited keys that expired
      are gone from both the map and the key order, nothing else changed. */
  ghost predicate Walked(m0: map<string, TokenData>, entries: seq<string>, i: nat,
                         rt: map<string, TokenData>, ord: seq<string>, now: int)
    requires i <= |entries|
  {
    && ord == KeepLive(entries[..i], m0, now) + entries[i..]
    && (forall t :: t in rt <==> t in ord)
    && (forall t :: t in rt ==> t in m0 && rt[t] == m0[t])
  }

  /** Visiting `entries[i]` deletes it exactly when it has expired, and
      keeps the walk's description. */
  lemma WalkStep(m0: map<string, TokenData>, entries: seq<string>, i: nat,
                 rt: map<string, TokenData>, ord: seq<string>, now: int)
    requires i < |entries| && Distinct(entries) && (forall t :: t in m0 <==> t in entries)
    requires Walked(m0, entries, i, rt, ord, now)
    ensures entries[i] in rt && rt[entries[i]] == m0[entries[i]]
    ensures Expired(m0[entries[i]], now) ==>
      Walked(m0, entries, i + 1, rt - {entries[i]}, Without(ord, entries[i]), now)
    ensures !Expired(m0[entries[i]], now) ==> Walked(m0, entries, i + 1, rt, ord, now)
  {
    CleanupStep(entries, i, m0, now);
    WithoutKeeps(ord, entries[i]);
  }

  /** A finished walk leaves exactly the live entries, in their order. */
  lemma WalkDone(m0: map<string, TokenData>, entries: seq<string>,
                 rt: map<string, TokenData>, ord: seq<string>, now: int)
    requires Distinct(entries) && (forall t :: t in m0 <==> t in entries)
    requires Walked(m0, entries, |entries|, rt, ord, now)
    ensures rt == Live(m0, now)
    ensures ord == KeepLive(entries, m0, now)
    ensures Distinct(ord) && (forall t :: t in rt <==> t in ord)
  {
    assert entries[..|entries|] == entries;
    KeepLiveKeeps(entries, m0, now);
  }

  /** One line of `getActiveTokens`. The two dates are the raw millisecond
      values `toISOString` formats. */
  datatype ActiveToken = ActiveToken(token: string, adminUsername: Value, createdAt: Value,
                                     expiresAt: Value, isExpired: bool)

  function ActiveEntry(token: string, data: TokenData, now: int): ActiveToken {
    var obj := AsObject(data);
    ActiveToken(token, Get(obj, "username"), Get(obj, "createdAt"), Get(obj, "expiryTime"), Expired(data, now))
  }

  class PasswordResetStore {
    /** The entries of the `Map`. */
    var resetTokens: map<string, TokenData>
    /** Its keys in insertion order. */
    var order: seq<string>
    const tokenExpiry: int

    ghost predicate Valid()
      reads this
    {
      tokenExpiry == TokenExpiry
      && Distinct(order)
      && (forall t :: t in resetTokens <==> t in order)
    }

    constructor ()
      ensures Valid()
      ensures resetTokens == map[] && order == []
    {
      resetTokens := map[];
      order := [];
      tokenExpiry := 15 * 60 * 1000;
    }

    /** `storeResetToken(token, adminData)`: sets the stamped entry (a new
        key goes last, an existing one keeps its place), then drops every
        expired entry; the new entry itself survives. */
    method StoreResetToken(token: string, adminData: Record, now: int) returns (r: string)
      requires Valid()
      modifies this
      ensures Valid()
      ensures r == token
      ensures resetTokens == Live(old(resetTokens)[token := Stamp(adminData, now, tokenExpiry)], now)
      ensures order == KeepLive(old(order) + (if token in old(resetTokens) then [] else [token]),
                                old(resetTokens)[token := Stamp(adminData, now, tokenExpiry)], now)
      ensures token in resetTokens && resetTokens[token] == Stamp(adminData, now, tokenExpiry)
      ensures forall t :: t in resetTokens ==> !Expired(resetTokens[t], now)
    {
      var data := Stamp(adminData, now, tokenExpiry);
      if token !in resetTokens {
        order := order + [token];
      }
      resetTokens := resetTokens[token := data];
      ghost var m1, o1 := resetTokens, order;
      assert o1 == old(order) + (if token in old(resetTokens) then [] else [token]);
      CleanupExpiredTokens(now);
      assert order == KeepLive(o1, m1, now);
      r := token;
    }

    /** `getResetToken(token)`: null for an unknown token; an expired one is
        deleted (and nothing else) and null returned; otherwise the stored
        record, unchanged. */
    method GetResetToken(token: string, now: int) returns (r: Option<Record>)
      requires Valid()
      modifies this
      ensures Valid()
      ensures token !in old(resetTokens) ==>
        r.None? && resetTokens == old(resetTokens) && order == old(order)
      ensures token in old(resetTokens) && Expired(old(resetTokens)[token], now) ==>
        r.None? && resetTokens == old(resetTokens) - {token} && order == Without(old(order), token)
      ensures token in old(resetTokens) && !Expired(old(resetTokens)[token], now) ==>
        r == Some(AsObject(old(resetTokens)[token])) && resetTokens == old(resetTokens) && order == old(order)
    {
      if token !in resetTokens {
        return None;
      }
      var tokenData := resetTokens[token];
      if Expired(tokenData, now) {
        WithoutKeeps(order, token);
        resetTokens := resetTokens - {token};
        order := Without(order, token);
        return None;
      }
      r := Some(AsObject(tokenData));
    }

    /** `removeResetToken(token)` */
    method RemoveResetToken(token: string)
      requires Valid()
      modifies this
      ensures Valid()
      ensures resetTokens == old(resetTokens) - {token}
      ensures order == Without(old(order), token)
    {
      WithoutKeeps(order, token);
      resetTokens := resetTokens - {token};
      order := Without(order, token);
    }

    /** `cleanupExpiredTokens()`: walks the entries in order and deletes
        each one that has expired. Deleting the entry being visited does
        not disturb the walk, so exactly the expired entries go. */
    method CleanupExpiredTokens(now: int)
      requires Valid()
      modifies this
      ensures Valid()
      ensures resetTokens == Live(old(resetTokens), now)
      ensures order == KeepLive(old(order), old(resetTokens), now)
    {
      var m0 := resetTokens;
      var entries := order;
      var i := 0;
      while i < |entries|
        invariant 0 <= i <= |entries|
        invariant Walked(m0, entries, i, resetTokens, order, now)
      {
        Visit(m0, entries, i, now);
        i := i + 1;
      }
      WalkDone(m0, entries, resetTokens, order, now);
    }

    /** One turn of the cleanup loop: the entry `entries[i]` is deleted
        exactly when it has expired. */
    method Visit(m0: map<string, TokenData>, entries: seq<string>, i: nat, now: int)
      requires i < |entries| && Distinct(entries) && (forall t :: t in m0 <==> t in entries)
      requires Walked(m0, entries, i, resetTokens, order, now)
      modifies this
      ensures Walked(m0, entries, i + 1, resetTokens, order, now)
    {
      var token := entries[i];
      WalkStep(m0, entries, i, resetTokens, order, now);
      var data := resetTokens[token];
      if Expired(data, now) {
        resetTokens := resetTokens - {token};
        order := Without(order, token);
      }
    }

    /** `getActiveTokens()`: cleans up, then lists every remaining entry
        once, in insertion order; under one `now` none of them is marked
        expired. */
    method GetActiveTokens(now: int) returns (tokens: seq<ActiveToken>)
      requires Valid()
      modifies this
      ensures Valid()
      ensures resetTokens == Live(old(resetTokens), now)
      ensures order == KeepLive(old(order), old(resetTokens), now)
      ensures |tokens| == |order|
      ensures forall i :: 0 <= i < |tokens| ==>
        tokens[i] == ActiveEntry(order[i], resetTokens[order[i]], now)
      ensures forall i :: 0 <= i < |tokens| ==> !tokens[i].isExpired
      ensures forall i, j :: 0 <= i < j < |tokens| ==> tokens[i].token != tokens[j].token
    {
      CleanupExpiredTokens(now);
      var o, m := order, resetTokens;
      tokens := seq(|o|, i requires 0 <= i < |o| && o[i] in m => ActiveEntry(o[i], m[o[i]], now));
    }

    /** `clearAllTokens()` */
    method ClearAllTokens()
      requires Valid()
      modifies this
      ensures Valid()
      ensures resetTokens == map[] && order == []
    {
      resetTokens := map[];
      order := [];
    }
  }

  /** The sequence test-token-store.js runs on a fresh store, under one
      `now`: store, read back, list, remove, read again, list again. */
  method TokenStoreScenario(token: string, adminData: Record, now: int)
    returns (retrieved: Option<Record>, activeCount: nat, afterRemoval: Option<Record>, activeAfterRemoval: nat)
    ensures retrieved == Some(AsObject(Stamp(adminData, now, TokenExpiry)))
    ensures Get(retrieved.value, "username") == Get(adminData, "username")
    ensures Get(retrieved.value, "email") == Get(adminData, "email")
    ensures activeCount == 1
    ensures afterRemoval.None?
    ensures activeAfterRemoval == 0
  {
    var store := new PasswordResetStore();
    var _ := store.StoreResetToken(token, adminData, now);
    assert store.order == [token];
    retrieved := store.GetResetToken(token, now);
    var active := store.GetActiveTokens(now);
    activeCount := |active|;
    store.RemoveResetToken(token);
    afterRemoval := store.GetResetToken(token, now);
    var after := store.GetActiveTokens(now);
    activeAfterRemoval := |after|;
  }
}
