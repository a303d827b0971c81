/** The broker's cache of feature flags: a value is used until its time is up. Instants and durations are whole numbers; the
    source is asked at the instant of the lookup. */
module FlagCache {
  import opened Wrappers

  datatype Entry = Entry(value: bool, expiry: int)

  /** The configured duration in seconds, or a minute when it is missing or no number. */
  function CacheDuration(configured: Option<int>): int {
    if configured.Some? then configured.value else 60
  }

  class PluginManager {
    var cache: map<string, Entry>
    const duration: int

    constructor (configured: Option<int>)
      ensures cache == map[] && duration == CacheDuration(configured)
    {
      cache, duration := map[], CacheDuration(configured);
    }

    /** `answer` is what the source would say now, the default value included. */
    method GetPluginState(name: string, now: int, answer: bool) returns (value: bool, ghost asked: bool)
      modifies this
      ensures asked == Misses(old(cache), name, now)
      ensures value == Answer(old(cache), name, now, answer)
      ensures cache == Updated(old(cache), duration, name, now, answer)
    {
      if name in cache && cache[name].expiry > now {
        return cache[name].value, false;
      }
      cache := cache[name := Entry(answer, now + duration)];
      return answer, true;
    }

    /** A run of lookups on a fresh cache; every answer is the one that the specification gives. */
    method Serve(lookups: seq<Lookup>) returns (values: seq<bool>)
      requires cache == map[]
      modifies this
      ensures |values| == |lookups|
      ensures forall k :: 0 <= k < |lookups| ==> values[k] == AnswerAt(duration, lookups, k)
    {
      values := [];
      for k := 0 to |lookups|
        invariant cache == CacheAfter(duration, lookups, k)
        invariant |values| == k && forall j :: 0 <= j < k ==> values[j] == AnswerAt(duration, lookups, j)
      {
        var value, _ := GetPluginState(lookups[k].name, lookups[k].now, lookups[k].answer);
        values := values + [value];
      }
    }
  }

  predicate Misses(cache: map<string, Entry>, name: string, now: int) {
    !(name in cache && cache[name].expiry > now)
  }

  function Answer(cache: map<string, Entry>, name: string, now: int, answer: bool): bool {
    if Misses(cache, name, now) then answer else cache[name].value
  }

  function Updated(cache: map<string, Entry>, duration: int, name: string, now: int, answer: bool): map<string, Entry> {
    if Misses(cache, name, now) then cache[name := Entry(answer, now + duration)] else cache
  }

  // ----- Runs of lookups -----

  datatype Lookup = Lookup(name: string, now: int, answer: bool)

  ghost predicate ClockGoesOn(lookups: seq<Lookup>) {
    forall j, k :: 0 <= j < k < |lookups| ==> lookups[j].now <= lookups[k].now
  }

  function CacheAfter(duration: int, lookups: seq<Lookup>, k: nat): map<string, Entry>
    requires k <= |lookups|
  {
    if k == 0 then map[]
    else
      var l := lookups[k - 1];
      Updated(CacheAfter(duration, lookups, k - 1), duration, l.name, l.now, l.answer)
  }

  /** The k-th lookup asks the source. */
  predicate Asks(duration: int, lookups: seq<Lookup>, k: nat)
    requires k < |lookups|
  {
    Misses(CacheAfter(duration, lookups, k), lookups[k].name, lookups[k].now)
  }

  function AnswerAt(duration: int, lookups: seq<Lookup>, k: nat): bool
    requires k < |lookups|
  {
    Answer(CacheAfter(duration, lookups, k), lookups[k].name, lookups[k].now, lookups[k].answer)
  }

  /** The last lookup before the k-th that asked for this name, if there is one. */
  function LastAsk(duration: int, lookups: seq<Lookup>, name: string, k: nat): Option<nat>
    requires k <= |lookups|
  {
    if k == 0 then None
    else if lookups[k - 1].name == name && Asks(duration, lookups, k - 1) then Some(k - 1)
    else LastAsk(duration, lookups, name, k - 1)
  }

  /** The cache holds, for each name, the source's last answer and when it ends. */
  lemma {:induction false} CacheIsLastAsk(duration: int, lookups: seq<Lookup>, name: string, k: nat)
    requires k <= |lookups|
    ensures var last := LastAsk(duration, lookups, name, k); var cache := CacheAfter(duration, lookups, k);
      && (name in cache <==> last.Some?)
      && (last.Some? ==>
            && last.value < k && lookups[last.value].name == name && Asks(duration, lookups, last.value)
            && cache[name] == Entry(lookups[last.value].answer, lookups[last.value].now + duration))
  {
    if k > 0 {
      CacheIsLastAsk(duration, lookups, name, k - 1);
    }
  }

  /** Every answer is one that the source gave for that name: now, or less than the duration ago. */
  lemma AnswersAreFresh(duration: int, lookups: seq<Lookup>, k: nat) returns (j: nat)
    requires ClockGoesOn(lookups) && k < |lookups|
    ensures j <= k && lookups[j].name == lookups[k].name && Asks(duration, lookups, j)
    ensures AnswerAt(duration, lookups, k) == lookups[j].answer
    ensures j == k || lookups[k].now - duration < lookups[j].now <= lookups[k].now
  {
    CacheIsLastAsk(duration, lookups, lookups[k].name, k);
    j := if Asks(duration, lookups, k) then k else LastAsk(duration, lookups, lookups[k].name, k).value;
  }

  lemma {:induction false} LastAskIsLast(duration: int, lookups: seq<Lookup>, name: string, k: nat, j: nat)
    requires j < k <= |lookups| && lookups[j].name == name && Asks(duration, lookups, j)
    ensures LastAsk(duration, lookups, name, k).Some? && j <= LastAsk(duration, lookups, name, k).value
  {
    if j < k - 1 {
      LastAskIsLast(duration, lookups, name, k - 1, j);
    }
  }

  ghost predicate AskedRecently(duration: int, lookups: seq<Lookup>, k: nat, j: nat)
    requires k < |lookups|
  {
    j < k && lookups[j].name == lookups[k].name && Asks(duration, lookups, j) && lookups[k].now < lookups[j].now + duration
  }

  /** The source is asked exactly when it was not asked for that name within the duration: two questions for a name are
      never closer than that, and no lookup that far from the last question is answered from the cache. */
  lemma AsksIff(duration: int, lookups: seq<Lookup>, k: nat)
    requires ClockGoesOn(lookups) && k < |lookups|
    ensures Asks(duration, lookups, k) <==> !exists j: nat :: AskedRecently(duration, lookups, k, j)
  {
    CacheIsLastAsk(duration, lookups, lookups[k].name, k);
    var last := LastAsk(duration, lookups, lookups[k].name, k);
    forall j: nat | AskedRecently(duration, lookups, k, j) ensures !Asks(duration, lookups, k) {
      LastAskIsLast(duration, lookups, lookups[k].name, k, j);
      assert j < last.value ==> lookups[j].now <= lookups[last.value].now;
    }
    if !Asks(duration, lookups, k) {
      assert AskedRecently(duration, lookups, k, last.value);
    }
  }

  /** Without a configured duration the source is asked once a minute at most, and again after every minute. */
  lemma UnconfiguredAsksOncePerMinute(lookups: seq<Lookup>, k: nat)
    requires ClockGoesOn(lookups) && k < |lookups|
    ensures Asks(CacheDuration(None), lookups, k) <==>
            !exists j: nat :: j < k && lookups[j].name == lookups[k].name && Asks(CacheDuration(None), lookups, j)
                              && lookups[k].now - lookups[j].now < 60
  {
    var duration := CacheDuration(None);
    AsksIff(duration, lookups, k);
    forall j: nat | j < k && lookups[j].name == lookups[k].name && Asks(duration, lookups, j)
      ensures AskedRecently(duration, lookups, k, j) <==> lookups[k].now - lookups[j].now < 60
    {
    }
  }
}
