/** The coach response cache of apps/web/src/lib/coach/cache.ts: a key
    derived from the request fingerprint, and an in-memory map whose entries
    expire after a time-to-live, behind an optional remote store. The clock,
    the SHA-256 digest and the remote store's replies are inputs. */
module CoachCache {
  import opened Wrappers
  import opened Text
  import opened CoachPrompt
  import opened CoachService

  const KeyPrefix: string := "coach:response:"

  /** A cached completion: the result, the mode it answered, and when it was stored (ms). */
  datatype Entry = Entry(completion: Completion, mode: Mode, cachedAt: nat)

  type Memory = map<string, Entry>

  /** `buildCoachCacheKey`: the prefix and the hex digest of the request
      fingerprint; `digest` stands for SHA-256 rendered in hex. */
  function CacheKey(digest: Fingerprint -> string, p: Payload, model: string): (k: string)
    ensures StartsWith(k, KeyPrefix)
    ensures k[|KeyPrefix|..] == digest(BuildFingerprint(p, model))
  {
    KeyPrefix + digest(BuildFingerprint(p, model))
  }

  /** Two requests share a key exactly when their fingerprints share a
      digest; in particular equal payloads under one model share a key. */
  lemma KeyIdentity(digest: Fingerprint -> string, p1: Payload, m1: string, p2: Payload, m2: string)
    ensures CacheKey(digest, p1, m1) == CacheKey(digest, p2, m2)
        <==> digest(BuildFingerprint(p1, m1)) == digest(BuildFingerprint(p2, m2))
    ensures p1 == p2 && m1 == m2 ==> CacheKey(digest, p1, m1) == CacheKey(digest, p2, m2)
  {
    var k1, k2 := CacheKey(digest, p1, m1), CacheKey(digest, p2, m2);
    if k1 == k2 {
      assert k1[|KeyPrefix|..] == k2[|KeyPrefix|..];
    }
  }

  /** What the remote store answered to a read: no store configured, no
      entry, or a stored entry. */
  datatype RemoteRead = NoRemote | RemoteMiss | RemoteHit(entry: Entry)

  /** The write sent to the remote store: the key, the value and its expiry in seconds. */
  datatype RemoteWrite = RemoteWrite(key: string, entry: Entry, expirySeconds: int)

  /** The answer of a read and the memory it leaves behind. */
  datatype Lookup = Lookup(found: Option<Entry>, memory: Memory)

  /** A local entry is still served at `now`: no more than `ttlSeconds`
      seconds have passed since it was stored. */
  predicate Fresh(e: Entry, now: nat, ttlSeconds: int) {
    now - e.cachedAt <= ttlSeconds * 1000
  }

  /** `getCachedCoachResponse`. */
  function GetCached(remote: RemoteRead, memory: Memory, key: string, now: nat, ttlSeconds: int): (r: Lookup)
    ensures remote.RemoteHit? ==> r.found == Some(remote.entry) && r.memory == memory
    ensures !remote.RemoteHit? && key !in memory ==> r.found.None? && r.memory == memory
    ensures !remote.RemoteHit? && key in memory && !Fresh(memory[key], now, ttlSeconds) ==>
      r.found.None? && key !in r.memory && r.memory == memory - {key}
    ensures !remote.RemoteHit? && key in memory && Fresh(memory[key], now, ttlSeconds) ==>
      r.found == Some(memory[key]) && r.memory == memory
    ensures forall k :: k != key ==> (k in r.memory <==> k in memory)
    ensures forall k :: k != key && k in memory ==> r.memory[k] == memory[k]
  {
    if remote.RemoteHit? then Lookup(Some(remote.entry), memory)
    else if key !in memory then Lookup(None, memory)
    else if now - memory[key].cachedAt > ttlSeconds * 1000 then Lookup(None, memory - {key})
    else Lookup(Some(memory[key]), memory)
  }

  /** The state after a write, and the command sent to the remote store if one is configured. */
  datatype Stored = Stored(remoteWrite: Option<RemoteWrite>, memory: Memory)

  /** `setCoachCacheResponse`: the entry is stamped with the current time,
      written through to the remote store with the TTL as expiry, and kept in memory. */
  function SetCached(remoteConfigured: bool, memory: Memory, key: string, entry: Entry, now: nat, ttlSeconds: int): (r: Stored)
    ensures key in r.memory
    ensures r.memory[key].cachedAt == now
    ensures r.memory[key].completion == entry.completion && r.memory[key].mode == entry.mode
    ensures r.remoteWrite.Some? <==> remoteConfigured
    ensures r.remoteWrite.Some? ==> r.remoteWrite.value == RemoteWrite(key, r.memory[key], ttlSeconds)
    ensures r.memory.Keys == memory.Keys + {key}
    ensures forall k :: k in memory && k != key ==> r.memory[k] == memory[k]
  {
    var stamped := entry.(cachedAt := now);
    Stored(if remoteConfigured then Some(RemoteWrite(key, stamped, ttlSeconds)) else None, memory[key := stamped])
  }

  /** `createCacheEntry`: the result and its mode, stamped now. */
  function CreateEntry(mode: Mode, result: Completion, now: nat): (e: Entry)
    ensures e.completion == result && e.mode == mode && e.cachedAt == now
  {
    Entry(result, mode, now)
  }

  /** A write followed by a read of the same key at the same instant serves
      the written entry (when the remote store has nothing newer and the TTL
      is not negative), and reads of other keys see what they saw before. */
  lemma SetThenGet(remoteConfigured: bool, memory: Memory, key: string, entry: Entry, now: nat, ttlSeconds: int,
                   remote: RemoteRead, other: string, later: nat)
    requires !remote.RemoteHit?
    requires ttlSeconds >= 0
    requires other != key
    ensures GetCached(remote, SetCached(remoteConfigured, memory, key, entry, now, ttlSeconds).memory, key, now, ttlSeconds).found
         == Some(entry.(cachedAt := now))
    ensures GetCached(remote, SetCached(remoteConfigured, memory, key, entry, now, ttlSeconds).memory, other, later, ttlSeconds).found
         == GetCached(remote, memory, other, later, ttlSeconds).found
  {
    var m := SetCached(remoteConfigured, memory, key, entry, now, ttlSeconds).memory;
    assert m[key] == entry.(cachedAt := now);
    assert Fresh(m[key], now, ttlSeconds);
    assert other in m <==> other in memory;
  }

  /** An entry stays served up to and including the instant the TTL runs
      out, and is gone one millisecond later; once evicted it stays missing. */
  lemma ExpiryBoundary(memory: Memory, key: string, ttlSeconds: int)
    requires key in memory && memory[key].cachedAt + ttlSeconds * 1000 >= 0
    ensures GetCached(RemoteMiss, memory, key, memory[key].cachedAt + ttlSeconds * 1000, ttlSeconds).found == Some(memory[key])
    ensures GetCached(RemoteMiss, memory, key, memory[key].cachedAt + ttlSeconds * 1000 + 1, ttlSeconds).found.None?
    ensures var after := GetCached(RemoteMiss, memory, key, memory[key].cachedAt + ttlSeconds * 1000 + 1, ttlSeconds).memory;
            forall t: nat :: GetCached(RemoteMiss, after, key, t, ttlSeconds).found.None?
  {
    var e := memory[key];
    assert Fresh(e, e.cachedAt + ttlSeconds * 1000, ttlSeconds);
    assert !Fresh(e, e.cachedAt + ttlSeconds * 1000 + 1, ttlSeconds);
  }

  /** Whatever a read serves from memory was stored no longer than the TTL ago. */
  lemma ServedEntriesAreFresh(remote: RemoteRead, memory: Memory, key: string, now: nat, ttlSeconds: int)
    requires !remote.RemoteHit?
    ensures var r := GetCached(remote, memory, key, now, ttlSeconds);
            r.found.Some? ==> key in memory && r.found.value == memory[key] && Fresh(r.found.value, now, ttlSeconds)
  {
  }
}
