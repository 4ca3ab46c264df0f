/** API-key verification: the `api_keys` table behind a cache keyed by secret hash. */
module Auth {
  import opened Tables

  /** A row of `api_keys`; public key and secret hash are each unique. */
  datatype ApiKey = ApiKey(id: string, projectId: string, publicKey: string, hash: string, expiresAt: Option<int>)

  datatype AuthError = InvalidCredentials | CredentialsExpired

  /** What `verify` comes to. It is `Broken` when reading the cache raises an error that is not
      handled. */
  datatype Verdict = Accepted(projectId: string, apiKeyId: string) | Rejected(error: AuthError) | Broken

  predicate IsExpired(expiresAt: Option<int>, now: int) {
    expiresAt.Some? && expiresAt.value <= now
  }

  ghost predicate UniqueKeys(table: set<ApiKey>) {
    forall r, s :: r in table && s in table && r.hash == s.hash ==> r == s
  }

  // --- the reference: a direct table lookup -------------------------------------------------

  predicate Matching(r: ApiKey, publicKey: string, hash: string) {
    r.hash == hash && r.publicKey == publicKey
  }

  /** What a lookup in the table, with no cache, says. */
  ghost predicate DirectVerdict(table: set<ApiKey>, publicKey: string, hash: string, now: int, v: Verdict) {
    match v
    case Accepted(projectId, apiKeyId) =>
      exists r :: r in table && Matching(r, publicKey, hash) && !IsExpired(r.expiresAt, now) &&
                  r.projectId == projectId && r.id == apiKeyId
    case Rejected(CredentialsExpired) =>
      exists r :: r in table && Matching(r, publicKey, hash) && IsExpired(r.expiresAt, now)
    case Rejected(InvalidCredentials) =>
      forall r :: r in table ==> !Matching(r, publicKey, hash)
    case Broken => false
  }

  /** The table, whose hashes are unique, gives one verdict. */
  lemma OneDirectVerdict(table: set<ApiKey>, publicKey: string, hash: string, now: int, v: Verdict, w: Verdict)
    requires UniqueKeys(table)
    requires DirectVerdict(table, publicKey, hash, now, v) && DirectVerdict(table, publicKey, hash, now, w)
    ensures v == w
  {
    if v != Rejected(InvalidCredentials) {
      var r :| r in table && Matching(r, publicKey, hash) && (v.Accepted? ==>
            r.projectId == v.projectId && r.id == v.apiKeyId)
               && (v.Accepted? <==> !IsExpired(r.expiresAt, now));
    }
  }

  // --- the cache --------------------------------------------------------------------------------

  /** What is kept under a hash. `Entry` is what `_cache_put` writes, until it lapses. The others
      are what an older version or a fault may leave: an empty string; text that is no JSON or
      lacks a key; JSON that is no object, so that looking a key up raises another error; an
      object whose expiry is not null and not a time with a zone. */
  datatype Cached =
    | Entry(projectId: string, apiKeyId: string, publicKey: string, expiresAt: Option<int>, until: int)
    | Blank
    | Garbled
    | NoObject
    | BadExpiry(publicKey: string)

  type Cache = map<string, Cached>

  /** What a look into the cache comes to: nothing usable, an object with all its keys, or an
      error that nothing handles. */
  datatype Reading = Nothing | Hit(found: Cached) | Failure

  /** A call of `verify` on parsed credentials: what the query on (hash, public key) returns at
      `now`, and which cache commands fail. */
  datatype Request = Request(publicKey: string, hash: string, row: Option<ApiKey>, now: int,
                             readFails: bool, deleteFails: bool, writeFails: bool)

  /** What the read of the request finds under its hash. */
  function ReadBy(cache: Cache, hasCache: bool, q: Request): Option<Cached> {
    if hasCache && !q.readFails && q.hash in cache then Some(cache[q.hash]) else None
  }

  /** The call meets something that raises: JSON that is no object, its own entry with an
      unreadable expiry, or a garbled one that cannot be deleted. */
  predicate Trips(cache: Cache, hasCache: bool, q: Request) {
    match ReadBy(cache, hasCache, q)
    case Some(NoObject) => true
    case Some(BadExpiry(publicKey)) => publicKey == q.publicKey
    case Some(Garbled) => q.deleteFails
    case _ => false
  }

  /** A usable entry for these very credentials is read. */
  predicate Served(cache: Cache, hasCache: bool, q: Request) {
    var read := ReadBy(cache, hasCache, q);
    read.Some? && read.value.Entry? && q.now < read.value.until && read.value.publicKey == q.publicKey
  }

  /** The cache after the read: a garbled entry is deleted if that succeeds. */
  function AfterRead(cache: Cache, hasCache: bool, q: Request): Cache {
    if ReadBy(cache, hasCache, q) == Some(Garbled) && !q.deleteFails then cache - {q.hash} else cache
  }

  function EntryOf(row: ApiKey, until: int): Cached {
    Entry(row.projectId, row.id, row.publicKey, row.expiresAt, until)
  }

  /** The verdict of one call and the cache it leaves. */
  function Verified(cache: Cache, hasCache: bool, ttl: int, q: Request): (Verdict, Cache) {
    var left := AfterRead(cache, hasCache, q);
    if Trips(cache, hasCache, q) then (Broken, left)
    else if Served(cache, hasCache, q) then
      var e := cache[q.hash];
      (if IsExpired(e.expiresAt, q.now) then Rejected(CredentialsExpired) else Accepted(e.projectId, e.apiKeyId), left)
    else if q.row.None? then (Rejected(InvalidCredentials), left)
    else if IsExpired(q.row.value.expiresAt, q.now) then (Rejected(CredentialsExpired), left)
    else
      (Accepted(q.row.value.projectId, q.row.value.id),
       if hasCache && !q.writeFails then left[q.row.value.hash := EntryOf(q.row.value, q.now + ttl)] else left)
  }

  class ApiKeyVerifier {
    const ttl: int
    const hasCache: bool
    var cache: Cache
    var hits: nat
    var misses: nat
    var rejects: nat

    constructor (ttl: int, hasCache: bool)
      ensures this.ttl == ttl && this.hasCache == hasCache && cache == map[]
    {
      this.ttl, this.hasCache := ttl, hasCache;
      cache, hits, misses, rejects := map[], 0, 0, 0;
    }

    /** `_cache_get`. */
    method CacheGet(q: Request) returns (r: Reading)
      modifies this`cache
      ensures var read := ReadBy(old(cache), hasCache, q);
              && (r.Failure? <==> read == Some(NoObject) || (read == Some(Garbled) && q.deleteFails))
              && (r.Hit? <==> read.Some? && (read.value.BadExpiry? || (read.value.Entry? && q.now < read.value.until)))
              && (r.Hit? ==> r.found == read.value)
      ensures cache == AfterRead(old(cache), hasCache, q)
    {
      if !hasCache || q.readFails || q.hash !in cache {
        return Nothing;
      }
      match cache[q.hash] {
        case Blank => return Nothing;
        case NoObject => return Failure;
        case Garbled =>
          if q.deleteFails { return Failure; }
          cache := cache - {q.hash};
          return Nothing;
        case BadExpiry(_) => return Hit(cache[q.hash]);
        case Entry(_, _, _, _, until) => return if q.now < until then Hit(cache[q.hash]) else Nothing;
      }
    }

    /** `_cache_put`: SET with expiry `ttl`; a failed write changes nothing. */
    method CachePut(row: ApiKey, now: int, writeFails: bool)
      modifies this`cache
      ensures cache == if !hasCache || writeFails then old(cache) else old(cache)[row.hash := EntryOf(row, now + ttl)]
    {
      if hasCache && !writeFails {
        cache := cache[row.hash := Entry(row.projectId, row.id, row.publicKey, row.expiresAt, now + ttl)];
      }
    }

    /** Entries lapse, are evicted or invalidated, or come to hold something unreadable. */
    method Disturb(dropped: set<string>, damaged: map<string, Cached>)
      modifies this`cache
      ensures cache == After(old(cache), hasCache, ttl, Disturbed(dropped, damaged))
      ensures forall h :: h in cache && cache[h].Entry? ==> h in old(cache) && cache[h] == old(cache)[h]
    {
      cache := map h | h in cache && h !in dropped :: cache[h];
      cache := cache + map h | h in damaged && !damaged[h].Entry? :: damaged[h];
    }

    /** `verify`: the verdict and the cache are those of `Verified`. It breaks exactly when the
        call trips, and counts a hit, a miss and a rejection as it should. */
    method Verify(q: Request) returns (v: Verdict)
      modifies this
      ensures (v, cache) == Verified(old(cache), hasCache, ttl, q)
      ensures v.Broken? <==>
                hasCache && !q.readFails && q.hash in old(cache) &&
                (old(cache)[q.hash] == NoObject || old(cache)[q.hash] == BadExpiry(q.publicKey) ||
                 (old(cache)[q.hash] == Garbled && q.deleteFails))
      ensures rejects == old(rejects) + if v.Rejected? then 1 else 0
      ensures hits == old(hits) + if Served(old(cache), hasCache, q) && v.Accepted? then 1 else 0
      ensures misses == old(misses) + if Served(old(cache), hasCache, q) || v.Broken? then 0 else 1
    {
      var cached := CacheGet(q);
      if cached.Failure? { return Broken; }
      if cached.Hit? && cached.found.publicKey == q.publicKey {
        if cached.found.BadExpiry? { return Broken; }
        if IsExpired(cached.found.expiresAt, q.now) {
          rejects := rejects + 1;
          return Rejected(CredentialsExpired);
        }
        hits := hits + 1;
        return Accepted(cached.found.projectId, cached.found.apiKeyId);
      }
      misses := misses + 1;
      if q.row.None? {
        rejects := rejects + 1;
        return Rejected(InvalidCredentials);
      }
      if IsExpired(q.row.value.expiresAt, q.now) {
        rejects := rejects + 1;
        return Rejected(CredentialsExpired);
      }
      CachePut(q.row.value, q.now, q.writeFails);
      return Accepted(q.row.value.projectId, q.row.value.id);
    }
  }

  // --- whole runs ---------------------------------------------------------------------------------

  /** Calls, and entries that lapse, are dropped or come to hold something unreadable. */
  datatype Event = Asked(q: Request) | Disturbed(dropped: set<string>, damaged: map<string, Cached>)

  /** The table as it was at each moment: any history of inserts, edits and revocations. */
  type History = int -> set<ApiKey>

  function After(cache: Cache, hasCache: bool, ttl: int, e: Event): Cache {
    match e
    case Asked(q) => Verified(cache, hasCache, ttl, q).1
    case Disturbed(dropped, damaged) =>
      (map h | h in cache && h !in dropped :: cache[h]) + (map h | h in damaged && !damaged[h].Entry? :: damaged[h])
  }

  /** The cache after a run that began with an empty one. */
  function Serve(events: seq<Event>, hasCache: bool, ttl: int): Cache {
    if events == [] then map[]
    else
      var n := |events| - 1;
      After(Serve(events[..n], hasCache, ttl), hasCache, ttl, events[n])
  }

  /** The query returned what the table held. */
  ghost predicate Queried(q: Request, tableAt: History) {
    && (q.row.Some? ==> q.row.value in tableAt(q.now) && Matching(q.row.value, q.publicKey, q.hash))
    && (q.row.None? ==> forall r :: r in tableAt(q.now) ==> !Matching(r, q.publicKey, q.hash))
  }

  /** All calls so far were made by `now`, on the table. */
  ghost predicate AskedBy(events: seq<Event>, tableAt: History, now: int) {
    forall e :: e in events && e.Asked? ==> Queried(e.q, tableAt) && e.q.now <= now
  }

  /** The row behind the entry was in the table at `t`, and the entry was put then or later
      only by less than its time to live. */
  ghost predicate Vouches(h: string, e: Cached, ttl: int, tableAt: History, t: int)
    requires e.Entry?
  {
    e.until <= t + ttl && ApiKey(e.apiKeyId, e.projectId, e.publicKey, h, e.expiresAt) in tableAt(t)
  }

  /** Every usable entry copies a row that was in the table at most `ttl` before it lapses. */
  ghost predicate Vouched(cache: Cache, ttl: int, tableAt: History, now: int) {
    forall h :: h in cache && cache[h].Entry? ==> exists t :: Vouches(h, cache[h], ttl, tableAt, t) && t <= now
  }

  lemma {:induction false} AlwaysVouched(events: seq<Event>, hasCache: bool, ttl: int, tableAt: History, now: int)
    requires AskedBy(events, tableAt, now)
    ensures Vouched(Serve(events, hasCache, ttl), ttl, tableAt, now)
  {
    if events != [] {
      var n := |events| - 1;
      AlwaysVouched(events[..n], hasCache, ttl, tableAt, now);
      var before, e := Serve(events[..n], hasCache, ttl), events[n];
      if e.Asked? {
        assert Queried(e.q, tableAt) && e.q.now <= now;
        AskedVouched(before, hasCache, ttl, tableAt, e.q, now);
      }
    }
  }

  lemma AskedVouched(cache: Cache, hasCache: bool, ttl: int, tableAt: History, q: Request, now: int)
    requires Vouched(cache, ttl, tableAt, now) && Queried(q, tableAt) && q.now <= now
    ensures Vouched(Verified(cache, hasCache, ttl, q).1, ttl, tableAt, now)
  {
    if q.row.Some? {
      assert Vouches(q.hash, EntryOf(q.row.value, q.now + ttl), ttl, tableAt, q.now);
    }
  }

  /** An unexpired row for these credentials was in the table less than `ttl` ago, or is now. */
  ghost predicate RecentlyIn(q: Request, v: Verdict, ttl: int, tableAt: History)
    requires v.Accepted?
  {
    exists t, expiresAt ::
      && (q.now - ttl < t <= q.now || t == q.now)
      && !IsExpired(expiresAt, q.now)
      && ApiKey(v.apiKeyId, v.projectId, q.publicKey, q.hash, expiresAt) in tableAt(t)
  }

  /** The table did not change within the last `ttl`. */
  ghost predicate Steady(tableAt: History, now: int, ttl: int) {
    UniqueKeys(tableAt(now)) && forall t :: now - ttl < t <= now ==> tableAt(t) == tableAt(now)
  }

  /** Over every run, whatever calls failed and whatever the cache lost or came to hold: an
      accepted key is an unexpired row that was in the table within the last `ttl`, and while the
      table is steady every verdict that does not break is the table's own. */
  lemma VerdictsSound(events: seq<Event>, hasCache: bool, ttl: int, tableAt: History, q: Request)
    requires ttl >= 0 && AskedBy(events, tableAt, q.now) && Queried(q, tableAt)
    ensures var v := Verified(Serve(events, hasCache, ttl), hasCache, ttl, q).0;
            && (v.Accepted? ==> RecentlyIn(q, v, ttl, tableAt))
            && (Steady(tableAt, q.now, ttl) ==> v.Broken? || DirectVerdict(tableAt(q.now), q.publicKey, q.hash, q.now, v))
  {
    AlwaysVouched(events, hasCache, ttl, tableAt, q.now);
    var cache := Serve(events, hasCache, ttl);
    if Served(cache, hasCache, q) {
      var e := cache[q.hash];
      var t :| Vouches(q.hash, e, ttl, tableAt, t) && t <= q.now;
      var behind := ApiKey(e.apiKeyId, e.projectId, e.publicKey, q.hash, e.expiresAt);
      assert q.now - ttl < t && behind in tableAt(t) && Matching(behind, q.publicKey, q.hash);
    }
  }

  /** Expiry, written out: over every run, what is accepted has not expired, and what is rejected as
      expired has; and a rejection as invalid means that the table has no such key. */
  lemma ExpiryWrittenOut(events: seq<Event>, hasCache: bool, ttl: int, tableAt: History, q: Request)
    requires ttl >= 0 && AskedBy(events, tableAt, q.now) && Queried(q, tableAt)
    ensures var v := Verified(Serve(events, hasCache, ttl), hasCache, ttl, q).0;
            && (v.Accepted? ==>
                  exists t, expiresAt ::
                    && t <= q.now && ApiKey(v.apiKeyId, v.projectId, q.publicKey, q.hash, expiresAt) in tableAt(t)
                    && (expiresAt.Some? ==> q.now < expiresAt.value))
            && (v == Rejected(CredentialsExpired) ==>
                  exists t, r :: t <= q.now && r in tableAt(t) && r.hash == q.hash && r.publicKey == q.publicKey &&
                    r.expiresAt.Some? && r.expiresAt.value <= q.now)
            && (v == Rejected(InvalidCredentials) ==>
                  forall r :: r in tableAt(q.now) ==> r.hash != q.hash || r.publicKey != q.publicKey)
  {
    AlwaysVouched(events, hasCache, ttl, tableAt, q.now);
    var cache := Serve(events, hasCache, ttl);
    if Served(cache, hasCache, q) {
      var e := cache[q.hash];
      var t :| Vouches(q.hash, e, ttl, tableAt, t) && t <= q.now;
      assert ApiKey(e.apiKeyId, e.projectId, q.publicKey, q.hash, e.expiresAt) in tableAt(t);
    } else if q.row.Some? {
      assert q.row.value in tableAt(q.now);
    }
  }

  /** The cache serves: after an accepted call whose write went through, the same call less than
      `ttl` later has the same verdict from the cache alone, until the key expires, whatever the
      table then says. */
  lemma ServedWithinTtl(cache: Cache, ttl: int, q: Request, again: Request)
    requires q.row.Some? ==> Matching(q.row.value, q.publicKey, q.hash)
    requires Verified(cache, true, ttl, q).0.Accepted? && !Served(cache, true, q) && !q.writeFails
    requires again.hash == q.hash && again.publicKey == q.publicKey && !again.readFails
    requires q.now <= again.now < q.now + ttl
    requires q.row.value.expiresAt.Some? ==> again.now < q.row.value.expiresAt.value
    ensures Verified(Verified(cache, true, ttl, q).1, true, ttl, again).0 == Verified(cache, true, ttl, q).0
  {
  }

  /** A garbled entry does not survive a call that reads it and can delete it. */
  lemma GarbledHealed(cache: Cache, ttl: int, q: Request)
    requires q.hash in cache && cache[q.hash] == Garbled && !q.readFails && !q.deleteFails
    requires q.row.Some? ==> q.row.value.hash == q.hash
    ensures var (v, after) := Verified(cache, true, ttl, q); !v.Broken? && (q.hash in after ==> after[q.hash].Entry?)
  {
  }

  predicate Damages(e: Event, h: string) {
    e.Disturbed? && h in e.damaged && !e.damaged[h].Entry?
  }

  /** A call breaks only on what was damaged: entries the code itself wrote never trip it. */
  lemma BreaksOnlyIfDamaged(events: seq<Event>, hasCache: bool, ttl: int, q: Request)
    requires Verified(Serve(events, hasCache, ttl), hasCache, ttl, q).0.Broken?
    ensures exists e :: e in events && Damages(e, q.hash)
  {
    FoundDamaged(events, hasCache, ttl, q.hash);
  }

  lemma {:induction false} FoundDamaged(events: seq<Event>, hasCache: bool, ttl: int, h: string)
    requires h in Serve(events, hasCache, ttl) && !Serve(events, hasCache, ttl)[h].Entry?
    ensures exists e :: e in events && Damages(e, h)
  {
    if events != [] {
      var n := |events| - 1;
      if Damages(events[n], h) {
        assert events[n] in events;
      } else {
        FoundDamaged(events[..n], hasCache, ttl, h);
        var e :| e in events[..n] && Damages(e, h);
        assert e in events;
      }
    }
  }
}
