/** The duplicate filter (ais/service.py, DedupeCache). */
module Deduplication {
  datatype Call = Call(key: string, time: int)

  /** Lifetime and capacity of the cache. */
  datatype Limits = Limits(ttl: int, maxEntries: nat)

  // ------------------------------------------------------------------ the operations on the ordered dictionary

  /** How many leading entries are older than the cutoff. */
  function Expired(entries: seq<Call>, cutoff: int): (n: nat)
    ensures n <= |entries|
    ensures forall i :: 0 <= i < n ==> entries[i].time < cutoff
    ensures n < |entries| ==> entries[n].time >= cutoff
  {
    if entries != [] && entries[0].time < cutoff then 1 + Expired(entries[1..], cutoff) else 0
  }

  function Purge(entries: seq<Call>, cutoff: int): seq<Call> {
    entries[Expired(entries, cutoff)..]
  }

  predicate Holds(entries: seq<Call>, key: string) {
    entries != [] && (entries[0].key == key || Holds(entries[1..], key))
  }

  lemma {:induction false} HoldsAt(entries: seq<Call>, key: string)
    ensures Holds(entries, key) <==> exists i :: 0 <= i < |entries| && entries[i].key == key
  {
    if entries != [] {
      HoldsAt(entries[1..], key);
      if Holds(entries[1..], key) {
        var i :| 0 <= i < |entries| - 1 && entries[1..][i].key == key;
        assert entries[i + 1].key == key;
      }
      if i :| 0 < i < |entries| && entries[i].key == key {
        assert entries[1..][i - 1].key == key;
      }
    }
  }

  function Remove(entries: seq<Call>, key: string): (r: seq<Call>)
    ensures |r| <= |entries|
  {
    if entries == [] then []
    else if entries[0].key == key then Remove(entries[1..], key)
    else [entries[0]] + Remove(entries[1..], key)
  }

  function KeepLast(entries: seq<Call>, n: nat): seq<Call> {
    if |entries| <= n then entries else entries[|entries| - n..]
  }

  function Hit(limits: Limits, entries: seq<Call>, call: Call): bool {
    Holds(Purge(entries, call.time - limits.ttl), call.key)
  }

  function After(limits: Limits, entries: seq<Call>, call: Call): seq<Call> {
    KeepLast(Remove(Purge(entries, call.time - limits.ttl), call.key) + [call], limits.maxEntries)
  }

  class DedupeCache {
    const limits: Limits
    var entries: seq<Call>
    ghost var history: seq<Call>

    constructor (ttl: int, maxEntries: nat)
      ensures Valid() && limits == Limits(ttl, maxEntries) && history == []
    {
      limits, entries, history := Limits(ttl, maxEntries), [], [];
    }

    /** The entries are what the calls so far leave in the cache. */
    ghost predicate Valid()
      reads this
    {
      entries == Cache(limits, history) && |entries| <= limits.maxEntries && DistinctKeys(entries)
    }

    method Seen(key: string, now: int) returns (hit: bool)
      requires Valid()
      modifies this
      ensures Valid() && history == old(history) + [Call(key, now)]
      ensures hit == Hit(limits, old(entries), Call(key, now))
      ensures entries == After(limits, old(entries), Call(key, now))
      ensures Monotone(history) ==> (hit <==> CalledRecently(limits, old(history), Call(key, now)))
    {
      AfterIsValid(limits, entries, Call(key, now));
      HitIffRecent(limits, history, entries, Call(key, now));
      CacheNext(limits, history, Call(key, now));
      DropOlder(now - limits.ttl);
      hit := Holds(entries, key);
      Record(key, now, hit);
      history := history + [Call(key, now)];
    }

    /** Moves a key that is present to the end; appends a new one and trims the oldest. */
    method Record(key: string, now: int, hit: bool)
      requires hit == Holds(entries, key) && |entries| <= limits.maxEntries
      modifies this`entries
      ensures entries == KeepLast(Remove(old(entries), key) + [Call(key, now)], limits.maxEntries)
    {
      if hit {
        RemoveShrinks(entries, key);
        entries := Remove(entries, key) + [Call(key, now)];
      } else {
        RemoveAbsent(entries, key);
        entries := entries + [Call(key, now)];
        Trim();
      }
    }

    method DropOlder(cutoff: int)
      modifies this`entries
      ensures entries == Purge(old(entries), cutoff)
    {
      while entries != [] && entries[0].time < cutoff
        invariant Purge(entries, cutoff) == Purge(old(entries), cutoff)
        decreases |entries|
      {
        entries := entries[1..];
      }
    }

    method Trim()
      modifies this`entries
      ensures entries == KeepLast(old(entries), limits.maxEntries)
    {
      while |entries| > limits.maxEntries
        invariant |entries| <= |old(entries)| && entries == old(entries)[|old(entries)| - |entries|..]
        invariant |entries| >= limits.maxEntries || entries == old(entries)
      {
        entries := entries[1..];
      }
    }
  }

  ghost predicate DistinctKeys(entries: seq<Call>) {
    forall i, j :: 0 <= i < j < |entries| ==> entries[i].key != entries[j].key
  }

  lemma {:induction false} RemoveIsDistinct(entries: seq<Call>, key: string)
    requires DistinctKeys(entries)
    ensures DistinctKeys(Remove(entries, key)) && !Holds(Remove(entries, key), key)
    ensures forall e :: e in Remove(entries, key) ==> e in entries
  {
    if entries != [] {
      var rest := Remove(entries[1..], key);
      assert entries == [entries[0]] + entries[1..];
      RemoveIsDistinct(entries[1..], key);
      if entries[0].key != key {
        assert forall j :: 0 <= j < |rest| ==> rest[j] in rest && rest[j] in entries[1..];
        ConsIsDistinct(entries[0], rest);
        assert ([entries[0]] + rest)[1..] == rest;
      }
    }
  }

  lemma ConsIsDistinct(call: Call, entries: seq<Call>)
    requires DistinctKeys(entries) && forall j :: 0 <= j < |entries| ==> entries[j].key != call.key
    ensures DistinctKeys([call] + entries)
  {
  }

  lemma SnocIsDistinct(entries: seq<Call>, call: Call)
    requires DistinctKeys(entries) && !Holds(entries, call.key)
    ensures DistinctKeys(entries + [call])
  {
    HoldsAt(entries, call.key);
  }

  /** The cache stays within its capacity, with one entry per key. */
  lemma AfterIsValid(limits: Limits, entries: seq<Call>, call: Call)
    requires DistinctKeys(entries)
    ensures |After(limits, entries, call)| <= limits.maxEntries && DistinctKeys(After(limits, entries, call))
  {
    var purged := Purge(entries, call.time - limits.ttl);
    SuffixIsDistinct(entries, Expired(entries, call.time - limits.ttl));
    RemoveIsDistinct(purged, call.key);
    SnocIsDistinct(Remove(purged, call.key), call);
    KeepLastIsDistinct(Remove(purged, call.key) + [call], limits.maxEntries);
  }

  lemma KeepLastIsDistinct(entries: seq<Call>, n: nat)
    requires DistinctKeys(entries)
    ensures DistinctKeys(KeepLast(entries, n)) && |KeepLast(entries, n)| <= n
  {
    if |entries| > n { SuffixIsDistinct(entries, |entries| - n); }
  }

  lemma SuffixIsDistinct(entries: seq<Call>, from: nat)
    requires DistinctKeys(entries) && from <= |entries|
    ensures DistinctKeys(entries[from..])
  {
  }

  lemma {:induction false} RemoveAbsent(entries: seq<Call>, key: string)
    requires !Holds(entries, key)
    ensures Remove(entries, key) == entries
  {
    if entries != [] {
      RemoveAbsent(entries[1..], key);
    }
  }

  lemma {:induction false} RemoveShrinks(entries: seq<Call>, key: string)
    requires Holds(entries, key)
    ensures |Remove(entries, key)| < |entries|
  {
    if entries[0].key != key {
      RemoveShrinks(entries[1..], key);
    }
  }

  // ------------------------------------------------------------------ the call history

  /** Entries after a whole history of calls on a new cache. */
  function Cache(limits: Limits, history: seq<Call>): seq<Call> {
    if history == [] then []
    else After(limits, Cache(limits, history[..|history| - 1]), history[|history| - 1])
  }

  lemma CacheNext(limits: Limits, history: seq<Call>, call: Call)
    ensures Cache(limits, history + [call]) == After(limits, Cache(limits, history), call)
  {
    assert (history + [call])[..|history|] == history;
  }

  ghost predicate Monotone(calls: seq<Call>) {
    forall i, j :: 0 <= i < j < |calls| ==> calls[i].time <= calls[j].time
  }

  /** `i` is the last call of its key. */
  ghost predicate LastCall(history: seq<Call>, key: string, i: nat) {
    i < |history| && history[i].key == key && forall j :: i < j < |history| ==> history[j].key != key
  }

  function KeysSince(history: seq<Call>, i: nat): set<string>
    requires i < |history|
  {
    set j | i < j < |history| :: history[j].key
  }

  /** Every key called so far with its last call, ordered by that call: the cache without limits. */
  ghost function Recency(history: seq<Call>): seq<Call> {
    if history == [] then []
    else
      var n := |history| - 1;
      Remove(Recency(history[..n]), history[n].key) + [history[n]]
  }

  lemma {:induction false} RemoveAppend(xs: seq<Call>, ys: seq<Call>, key: string)
    ensures Remove(xs + ys, key) == Remove(xs, key) + Remove(ys, key)
  {
    if xs == [] {
      assert xs + ys == ys;
    } else {
      assert (xs + ys)[1..] == xs[1..] + ys;
      RemoveAppend(xs[1..], ys, key);
    }
  }

  lemma {:induction false} RemoveMembers(entries: seq<Call>, key: string)
    ensures forall e :: e in Remove(entries, key) <==> e in entries && e.key != key
  {
    if entries != [] {
      RemoveMembers(entries[1..], key);
      assert entries == [entries[0]] + entries[1..];
    }
  }

  lemma {:induction false} RemoveMonotone(entries: seq<Call>, key: string)
    requires Monotone(entries)
    ensures Monotone(Remove(entries, key))
  {
    if entries != [] {
      RemoveMonotone(entries[1..], key);
      RemoveMembers(entries[1..], key);
      var rest := Remove(entries[1..], key);
      forall i | 0 <= i < |rest| ensures entries[0].time <= rest[i].time {
        assert rest[i] in entries[1..];
      }
    }
  }

  lemma {:induction false} RecencyShape(history: seq<Call>)
    requires Monotone(history)
    ensures Monotone(Recency(history)) && DistinctKeys(Recency(history))
    ensures forall e :: e in Recency(history) ==> e in history
  {
    if history != [] {
      var n := |history| - 1;
      RecencyShape(history[..n]);
      RemoveMonotone(Recency(history[..n]), history[n].key);
      RemoveMembers(Recency(history[..n]), history[n].key);
      RemoveIsDistinct(Recency(history[..n]), history[n].key);
      SnocIsDistinct(Remove(Recency(history[..n]), history[n].key), history[n]);
    }
  }

  /** What precedes the cache in the recency list was cut by capacity or by the cutoff. */
  ghost predicate CutOff(limits: Limits, older: seq<Call>, entries: seq<Call>, cutoff: int) {
    && |entries| <= limits.maxEntries
    && (|entries| == limits.maxEntries || older == [] || older[|older| - 1].time < cutoff)
  }

  lemma PurgeKeepsCutOff(limits: Limits, older: seq<Call>, entries: seq<Call>, oldCutoff: int, cutoff: int)
    returns (dropped: seq<Call>)
    requires CutOff(limits, older, entries, oldCutoff) && (older == [] || oldCutoff <= cutoff)
    ensures dropped + Purge(entries, cutoff) == older + entries
    ensures CutOff(limits, dropped, Purge(entries, cutoff), cutoff)
  {
    var n := Expired(entries, cutoff);
    dropped := older + entries[..n];
    assert entries == entries[..n] + entries[n..];
  }

  lemma HitKeepsCutOff(limits: Limits, older: seq<Call>, purged: seq<Call>, cutoff: int, call: Call)
    requires CutOff(limits, older, purged, cutoff) && DistinctKeys(older + purged) && Holds(purged, call.key)
    ensures var entries := KeepLast(Remove(purged, call.key) + [call], limits.maxEntries);
      CutOff(limits, older, entries, cutoff) && older + entries == Remove(older + purged, call.key) + [call]
  {
    var recency := older + purged;
    assert forall i :: 0 <= i < |purged| ==> recency[|older| + i] == purged[i];
    assert forall i :: 0 <= i < |older| ==> recency[i] == older[i];
    RemoveOnce(purged, call.key);
    HoldsAt(purged, call.key);
    HoldsAt(older, call.key);
    RemoveAbsent(older, call.key);
    RemoveAppend(older, purged, call.key);
  }

  lemma MissKeepsCutOff(limits: Limits, older: seq<Call>, purged: seq<Call>, cutoff: int, call: Call)
    returns (kept: seq<Call>)
    requires CutOff(limits, older, purged, cutoff) && Monotone(older) && !Holds(purged, call.key)
    ensures var entries := KeepLast(Remove(purged, call.key) + [call], limits.maxEntries);
      CutOff(limits, kept, entries, cutoff) && kept + entries == Remove(older + purged, call.key) + [call]
  {
    RemoveAppend(older, purged, call.key);
    RemoveAbsent(purged, call.key);
    kept := Remove(older, call.key);
    if |purged| < limits.maxEntries {
      OlderStaysCutOff(limits, older, purged, cutoff, call);
    } else {
      var dropped := OverflowIsDropped(limits, purged + [call]);
      kept := kept + dropped;
    }
  }

  lemma OlderStaysCutOff(limits: Limits, older: seq<Call>, purged: seq<Call>, cutoff: int, call: Call)
    requires CutOff(limits, older, purged, cutoff) && Monotone(older) && |purged| < limits.maxEntries
    ensures CutOff(limits, Remove(older, call.key), purged + [call], cutoff)
  {
    var kept := Remove(older, call.key);
    RemoveMembers(older, call.key);
    assert kept != [] ==> kept[|kept| - 1] in older;
  }

  lemma OverflowIsDropped(limits: Limits, entries: seq<Call>) returns (dropped: seq<Call>)
    requires |entries| >= limits.maxEntries
    ensures dropped + KeepLast(entries, limits.maxEntries) == entries
    ensures |KeepLast(entries, limits.maxEntries)| == limits.maxEntries
  {
    dropped := entries[..|entries| - limits.maxEntries];
  }

  /** A call keeps the cache the recent end of the recency list. */
  lemma CallKeepsCutOff(limits: Limits, recency: seq<Call>, older: seq<Call>, entries: seq<Call>, oldCutoff: int,
                        call: Call)
    returns (kept: seq<Call>)
    requires CutOff(limits, older, entries, oldCutoff) && recency == older + entries
    requires older == [] || oldCutoff <= call.time - limits.ttl
    requires Monotone(recency) && DistinctKeys(recency)
    ensures kept + After(limits, entries, call) == Remove(recency, call.key) + [call]
    ensures CutOff(limits, kept, After(limits, entries, call), call.time - limits.ttl)
  {
    var cutoff := call.time - limits.ttl;
    var dropped := PurgeKeepsCutOff(limits, older, entries, oldCutoff, cutoff);
    kept := RecordKeepsCutOff(limits, recency, dropped, Purge(entries, cutoff), cutoff, call);
  }

  lemma RecordKeepsCutOff(limits: Limits, recency: seq<Call>, older: seq<Call>, purged: seq<Call>, cutoff: int,
                          call: Call)
    returns (kept: seq<Call>)
    requires CutOff(limits, older, purged, cutoff) && recency == older + purged
    requires Monotone(recency) && DistinctKeys(recency)
    ensures var entries := KeepLast(Remove(purged, call.key) + [call], limits.maxEntries);
      CutOff(limits, kept, entries, cutoff) && kept + entries == Remove(recency, call.key) + [call]
  {
    if Holds(purged, call.key) {
      HitKeepsCutOff(limits, older, purged, cutoff, call);
      kept := older;
    } else {
      MonotonePrefix(older, purged);
      kept := MissKeepsCutOff(limits, older, purged, cutoff, call);
    }
  }

  lemma MonotonePrefix(xs: seq<Call>, ys: seq<Call>)
    requires Monotone(xs + ys)
    ensures Monotone(xs)
  {
    assert forall i :: 0 <= i < |xs| ==> (xs + ys)[i] == xs[i];
  }

  lemma {:induction false} RemoveOnce(entries: seq<Call>, key: string)
    requires DistinctKeys(entries) && Holds(entries, key)
    ensures |Remove(entries, key)| == |entries| - 1
  {
    if entries[0].key == key {
      HoldsAt(entries[1..], key);
      RemoveAbsent(entries[1..], key);
    } else {
      RemoveOnce(entries[1..], key);
    }
  }

  function LastCutoff(limits: Limits, history: seq<Call>): int {
    if history == [] then 0 else history[|history| - 1].time - limits.ttl
  }

  lemma {:induction false} CacheIsRecentEnd(limits: Limits, history: seq<Call>) returns (older: seq<Call>)
    requires Monotone(history)
    ensures older + Cache(limits, history) == Recency(history)
    ensures CutOff(limits, older, Cache(limits, history), LastCutoff(limits, history))
  {
    older := [];
    if history != [] {
      var n := |history| - 1;
      var earlier := history[..n];
      older := CacheIsRecentEnd(limits, earlier);
      RecencyShape(earlier);
      older := CallKeepsCutOff(limits, Recency(earlier), older, Cache(limits, earlier), LastCutoff(limits, earlier),
                               history[n]);
    }
  }

  /** Entries stay ordered by their last call, one per key, within the capacity. */
  lemma CacheIsOrderedAndBounded(limits: Limits, history: seq<Call>)
    requires Monotone(history)
    ensures var entries := Cache(limits, history);
      Monotone(entries) && DistinctKeys(entries) && |entries| <= limits.maxEntries
  {
    var older := CacheIsRecentEnd(limits, history);
    RecencyShape(history);
    EndKeepsShape(older, Cache(limits, history));
  }

  lemma EndKeepsShape(xs: seq<Call>, ys: seq<Call>)
    requires Monotone(xs + ys) && DistinctKeys(xs + ys)
    ensures Monotone(ys) && DistinctKeys(ys)
  {
    assert forall i :: 0 <= i < |ys| ==> (xs + ys)[|xs| + i] == ys[i];
  }

  function Keys(entries: seq<Call>): set<string> {
    set i | 0 <= i < |entries| :: entries[i].key
  }

  lemma {:induction false} DistinctKeysCount(entries: seq<Call>)
    requires DistinctKeys(entries)
    ensures |Keys(entries)| == |entries|
  {
    if entries != [] {
      var n := |entries| - 1;
      DistinctKeysCount(entries[..n]);
      assert Keys(entries) == Keys(entries[..n]) + {entries[n].key};
    }
  }

  lemma KeysOfRemove(entries: seq<Call>, call: Call)
    ensures Keys(Remove(entries, call.key) + [call]) == Keys(entries) + {call.key}
  {
    RemoveMembers(entries, call.key);
    var rest := Remove(entries, call.key);
    forall k | k in Keys(entries) ensures k in Keys(rest + [call]) {
      var i :| 0 <= i < |entries| && entries[i].key == k;
      if k != call.key {
        assert entries[i] in rest;
        var j :| 0 <= j < |rest| && rest[j] == entries[i];
        assert (rest + [call])[j].key == k;
      } else {
        assert (rest + [call])[|rest|].key == k;
      }
    }
    forall k | k in Keys(rest + [call]) ensures k in Keys(entries) + {call.key} {
      var i :| 0 <= i < |rest| + 1 && (rest + [call])[i].key == k;
      if i < |rest| {
        assert rest[i] in entries;
      }
    }
    assert (rest + [call])[|rest|].key == call.key;
  }

  /** Moving another key to the end shifts an entry left and keeps what is behind it. */
  lemma MovedPosition(entries: seq<Call>, q: nat, call: Call) returns (p: nat)
    requires q < |entries| && entries[q].key != call.key
    ensures var moved := Remove(entries, call.key) + [call];
      p < |moved| && moved[p] == entries[q] && moved[p + 1..] == Remove(entries[q + 1..], call.key) + [call]
  {
    var older, newer := entries[..q], entries[q + 1..];
    assert entries == older + ([entries[q]] + newer);
    RemoveAppend(older, [entries[q]] + newer, call.key);
    assert ([entries[q]] + newer)[1..] == newer;
    p := |Remove(older, call.key)|;
  }

  /** Where a last call stands in the recency list: behind it, exactly the keys called since. */
  lemma {:induction false} RecencyPosition(history: seq<Call>, key: string, i: nat) returns (p: nat)
    requires LastCall(history, key, i)
    ensures p < |Recency(history)| && Recency(history)[p] == history[i]
    ensures Keys(Recency(history)[p + 1..]) == KeysSince(history, i)
  {
    var n := |history| - 1;
    var earlier, call := history[..n], history[n];
    if i == n {
      p := |Recency(history)| - 1;
    } else {
      var q := RecencyPosition(earlier, key, i);
      p := MovedPosition(Recency(earlier), q, call);
      KeysOfRemove(Recency(earlier)[q + 1..], call);
      KeysSinceNext(history, i);
    }
  }

  lemma KeysSinceNext(history: seq<Call>, i: nat)
    requires i < |history| - 1
    ensures KeysSince(history, i) == KeysSince(history[..|history| - 1], i) + {history[|history| - 1].key}
  {
  }

  lemma {:induction false} CalledHasLastCall(history: seq<Call>, key: string) returns (i: nat)
    requires Holds(history, key)
    ensures LastCall(history, key, i)
  {
    HoldsAt(history, key);
    var n := |history| - 1;
    if history[n].key == key {
      i := n;
    } else {
      var j :| 0 <= j < |history| && history[j].key == key;
      HoldsAt(history[..n], key);
      assert history[..n][j].key == key;
      i := CalledHasLastCall(history[..n], key);
    }
  }

  /** The key's previous call is recent enough, and few enough other keys were called since. */
  ghost predicate Recent(limits: Limits, history: seq<Call>, call: Call, i: nat) {
    && LastCall(history, call.key, i)
    && history[i].time >= call.time - limits.ttl
    && |KeysSince(history, i)| < limits.maxEntries
  }

  ghost predicate CalledRecently(limits: Limits, history: seq<Call>, call: Call) {
    exists i :: Recent(limits, history, call, i)
  }

  /** A key found behind the cut was called recently. */
  lemma FoundIsRecent(limits: Limits, history: seq<Call>, call: Call, dropped: seq<Call>, purged: seq<Call>, j: nat)
    requires Monotone(history) && dropped + purged == Recency(history)
    requires |purged| <= limits.maxEntries
    requires forall i :: 0 <= i < |purged| ==> purged[i].time >= call.time - limits.ttl
    requires j < |purged| && purged[j].key == call.key
    ensures CalledRecently(limits, history, call)
  {
    var recency := Recency(history);
    RecencyShape(history);
    assert recency[|dropped| + j] == purged[j] && purged[j] in recency;
    HoldsAt(history, call.key);
    var i := CalledHasLastCall(history, call.key);
    var p := RecencyPosition(history, call.key, i);
    assert p == |dropped| + j;
    DistinctKeysCount(recency[p + 1..]);
    assert Recent(limits, history, call, i);
  }

  /** A recently called key was not cut. */
  lemma RecentIsFound(limits: Limits, history: seq<Call>, call: Call, dropped: seq<Call>, purged: seq<Call>, i: nat)
    returns (j: nat)
    requires Monotone(history) && dropped + purged == Recency(history)
    requires CutOff(limits, dropped, purged, call.time - limits.ttl)
    requires Recent(limits, history, call, i)
    ensures j < |purged| && purged[j].key == call.key
  {
    var recency := Recency(history);
    RecencyShape(history);
    var p := RecencyPosition(history, call.key, i);
    DistinctKeysCount(recency[p + 1..]);
    assert forall q :: 0 <= q < |dropped| ==> recency[q].time <= recency[|dropped| - 1].time;
    j := p - |dropped|;
  }

  lemma ClockMovesOn(history: seq<Call>, call: Call)
    requires Monotone(history + [call])
    ensures Monotone(history)
    ensures history == [] || history[|history| - 1].time <= call.time
  {
    MonotonePrefix(history, [call]);
    var calls := history + [call];
    assert history == [] || calls[|history| - 1].time <= calls[|history|].time;
  }

  /** The cache answers true exactly for recent keys, whatever was called before. */
  lemma SeenIffRecent(limits: Limits, history: seq<Call>, call: Call)
    requires Monotone(history + [call])
    ensures Hit(limits, Cache(limits, history), call) <==> CalledRecently(limits, history, call)
  {
    ClockMovesOn(history, call);
    var older := CacheIsRecentEnd(limits, history);
    RecencyIsEmpty(history);
    EndIffRecent(limits, history, call, older, Cache(limits, history), LastCutoff(limits, history));
  }

  lemma EndIffRecent(limits: Limits, history: seq<Call>, call: Call, older: seq<Call>, entries: seq<Call>,
                     oldCutoff: int)
    requires Monotone(history) && older + entries == Recency(history) && CutOff(limits, older, entries, oldCutoff)
    requires older == [] || oldCutoff <= call.time - limits.ttl
    ensures Hit(limits, entries, call) <==> CalledRecently(limits, history, call)
  {
    var dropped := PurgeKeepsCutOff(limits, older, entries, oldCutoff, call.time - limits.ttl);
    FoundIffRecent(limits, history, call, dropped, entries);
  }

  lemma HitIffRecent(limits: Limits, history: seq<Call>, entries: seq<Call>, call: Call)
    requires entries == Cache(limits, history)
    ensures Monotone(history + [call]) ==> (Hit(limits, entries, call) <==> CalledRecently(limits, history, call))
  {
    if Monotone(history + [call]) { SeenIffRecent(limits, history, call); }
  }

  lemma RecencyIsEmpty(history: seq<Call>)
    ensures history == [] <==> Recency(history) == []
  {
  }

  lemma HeldIsRecent(limits: Limits, history: seq<Call>, call: Call, dropped: seq<Call>, entries: seq<Call>)
    requires Monotone(history) && Hit(limits, entries, call)
    requires dropped + Purge(entries, call.time - limits.ttl) == Recency(history)
    requires |Purge(entries, call.time - limits.ttl)| <= limits.maxEntries
    ensures CalledRecently(limits, history, call)
  {
    var purged := Purge(entries, call.time - limits.ttl);
    HoldsAt(purged, call.key);
    var j :| 0 <= j < |purged| && purged[j].key == call.key;
    RecencyShape(history);
    PurgedIsFresh(entries, call.time - limits.ttl, dropped, Recency(history));
    FoundIsRecent(limits, history, call, dropped, purged, j);
  }

  lemma FoundIffRecent(limits: Limits, history: seq<Call>, call: Call, dropped: seq<Call>, entries: seq<Call>)
    requires Monotone(history)
    requires dropped + Purge(entries, call.time - limits.ttl) == Recency(history)
    requires CutOff(limits, dropped, Purge(entries, call.time - limits.ttl), call.time - limits.ttl)
    ensures Hit(limits, entries, call) <==> CalledRecently(limits, history, call)
  {
    var purged := Purge(entries, call.time - limits.ttl);
    if Hit(limits, entries, call) {
      HeldIsRecent(limits, history, call, dropped, entries);
    }
    if i :| Recent(limits, history, call, i) {
      var _ := RecentIsFound(limits, history, call, dropped, purged, i);
      HoldsAt(purged, call.key);
    }
  }

  lemma PurgedIsFresh(entries: seq<Call>, cutoff: int, dropped: seq<Call>, recency: seq<Call>)
    requires Monotone(recency) && dropped + Purge(entries, cutoff) == recency
    ensures forall i :: 0 <= i < |Purge(entries, cutoff)| ==> Purge(entries, cutoff)[i].time >= cutoff
  {
    var purged := Purge(entries, cutoff);
    assert forall i :: 0 <= i < |purged| ==> recency[|dropped| + i] == purged[i];
    assert purged != [] ==> purged[0] == entries[Expired(entries, cutoff)];
  }
}
