/**
 * System settings: stored rows over registered defaults, behind a process-local cache whose entries live thirty
 * seconds. Runs mix reads, upserts, writes behind the service's back, and the passing of time. Python's `int` and
 * `float` grammars are parameters.
 */
module SettingsCache {
  import opened Prelude
  import opened Text

  const TTL := 30.0

  type Key = string

  datatype Kind = Str | Int | Float | Bool
  datatype Entry = Entry(value: string, kind: Kind)
  datatype Cached = Cached(entry: Entry, expires: real)
  datatype Error = UnknownKey | Unparsable

  type Rows = map<Key, Entry>
  type Cache = map<Key, Cached>

  /** What Python's `int` and `float` accept. */
  datatype Grammar = Grammar(isInt: string -> bool, isFloat: string -> bool)

  function Lower(s: string): string {
    if s == "" then "" else [if 'A' <= s[0] <= 'Z' then s[0] - 'A' + 'a' else s[0]] + Lower(s[1..])
  }

  /** Lower case is taken letter by letter. */
  lemma {:induction false} LowerLetters(s: string)
    ensures |Lower(s)| == |s|
    ensures forall i :: 0 <= i < |s| ==>
      Lower(s)[i] as int == if 'A' <= s[i] <= 'Z' then s[i] as int + 32 else s[i] as int
  {
    if s != "" {
      LowerLetters(s[1..]);
    }
  }

  predicate Parses(g: Grammar, entry: Entry) {
    match entry.kind
    case Str => true
    case Int => g.isInt(entry.value)
    case Float => g.isFloat(entry.value)
    case Bool => Lower(Strip(entry.value)) in {"true", "false", "1", "0", "yes", "no", "on", "off"}
  }

  /** `_load_effective`: the row, or else the default; absent when the key is unknown. */
  function Effective(defaults: Rows, rows: Rows, key: Key): Option<Entry> {
    if key in rows then Some(rows[key]) else if key in defaults then Some(defaults[key]) else None
  }

  /** What a getter reads at time `now`. */
  function ReadAt(defaults: Rows, rows: Rows, cache: Cache, now: real, key: Key): Option<Entry> {
    if key in cache && cache[key].expires > now then Some(cache[key].entry) else Effective(defaults, rows, key)
  }

  function CacheAfterRead(defaults: Rows, rows: Rows, cache: Cache, now: real, key: Key): Cache {
    if key in cache && cache[key].expires > now then cache
    else
      match Effective(defaults, rows, key)
      case Some(entry) => cache[key := Cached(entry, now + TTL)]
      case None => cache
  }

  /** Why an upsert is refused. */
  function Refused(g: Grammar, defaults: Rows, key: Key, value: string): Option<Error> {
    if key !in defaults then Some(UnknownKey)
    else if !Parses(g, Entry(value, defaults[key].kind)) then Some(Unparsable)
    else None
  }

  class SettingsService {
    const defaults: Rows
    var rows: Rows
    var cache: Cache

    constructor (defaults: Rows, rows: Rows)
      ensures this.defaults == defaults && this.rows == rows && cache == map[]
    {
      this.defaults, this.rows, this.cache := defaults, rows, map[];
    }

    /** `invalidate_cache`. */
    method InvalidateCache(key: Option<Key>)
      modifies this`cache
      ensures cache == if key.Some? then old(cache) - {key.value} else map[]
    {
      cache := if key.Some? then cache - {key.value} else map[];
    }

    /** `_cached`, behind every typed getter. */
    method ReadCached(key: Key, now: real) returns (entry: Option<Entry>)
      modifies this`cache
      ensures entry == ReadAt(defaults, rows, old(cache), now, key)
      ensures cache == CacheAfterRead(defaults, rows, old(cache), now, key)
      ensures key in old(cache) && old(cache)[key].expires > now ==> entry == Some(old(cache)[key].entry)
      ensures !(key in old(cache) && old(cache)[key].expires > now) ==>
        && (key in rows ==> entry == Some(rows[key]))
        && (key !in rows && key in defaults ==> entry == Some(defaults[key]))
        && (key !in rows && key !in defaults ==> entry == None && cache == old(cache))
        && (entry.Some? ==> cache == old(cache)[key := Cached(entry.value, now + 30.0)])
    {
      if key in cache && cache[key].expires > now {
        return Some(cache[key].entry);
      }
      entry := if key in rows then Some(rows[key]) else if key in defaults then Some(defaults[key]) else None;
      if entry.Some? {
        cache := cache[key := Cached(entry.value, now + TTL)];
      }
    }

    /** `upsert`. */
    method Upsert(g: Grammar, key: Key, value: string) returns (error: Option<Error>)
      modifies this
      ensures error == Refused(g, defaults, key, value)
      ensures error.Some? ==> rows == old(rows) && cache == old(cache)
      ensures error.None? ==> rows == old(rows)[key := Entry(value, defaults[key].kind)] && cache == old(cache) - {key}
      ensures error == Some(UnknownKey) <==> key !in defaults
      ensures key in defaults ==>
        match defaults[key].kind
        case Str => error == None
        case Int => error == None <==> g.isInt(value)
        case Float => error == None <==> g.isFloat(value)
        case Bool => error == None <==> Lower(Strip(value)) in ["true", "1", "yes", "on", "false", "0", "no", "off"]
    {
      if key !in defaults {
        return Some(UnknownKey);
      }
      if !Parses(g, Entry(value, defaults[key].kind)) {
        return Some(Unparsable);
      }
      rows := rows[key := Entry(value, defaults[key].kind)];
      InvalidateCache(Some(key));
      error := None;
    }
  }

  // ---------------------------------------------------------------- runs

  /** The rows in force at some instant. */
  datatype Moment = Moment(time: real, rows: Rows)

  /** `seen` lists the rows in force so far, the present last. */
  datatype World = World(now: real, rows: Rows, cache: Cache, seen: seq<Moment>)

  datatype Step =
    | Read(key: Key)
    | Put(key: Key, value: string)
    | Drop(stale: Option<Key>)
    | Wait(seconds: real)
    | Outside(next: Rows)

  function Observed(now: real, rows: Rows, cache: Cache, seen: seq<Moment>): World {
    World(now, rows, cache, seen + [Moment(now, rows)])
  }

  function Start(rows: Rows, now: real): World {
    Observed(now, rows, map[], [])
  }

  function Next(g: Grammar, defaults: Rows, w: World, step: Step): World {
    match step
    case Read(key) => Observed(w.now, w.rows, CacheAfterRead(defaults, w.rows, w.cache, w.now, key), w.seen)
    case Put(key, value) =>
      if Refused(g, defaults, key, value).Some? then w
      else Observed(w.now, w.rows[key := Entry(value, defaults[key].kind)], w.cache - {key}, w.seen)
    case Drop(stale) => World(w.now, w.rows, if stale.Some? then w.cache - {stale.value} else map[], w.seen)
    case Wait(seconds) => if seconds > 0.0 then Observed(w.now + seconds, w.rows, w.cache, w.seen) else w
    case Outside(next) => Observed(w.now, next, w.cache, w.seen)
  }

  function Run(g: Grammar, defaults: Rows, w: World, steps: seq<Step>): World
    decreases |steps|
  {
    if steps == [] then w else Run(g, defaults, Next(g, defaults, w, steps[0]), steps[1..])
  }

  /** Some instant since `since` had this entry in force. */
  ghost predicate InForceSince(defaults: Rows, w: World, key: Key, entry: Entry, since: real) {
    exists i :: 0 <= i < |w.seen| && ShowsSince(defaults, w, i, key, entry, since)
  }

  predicate ShowsSince(defaults: Rows, w: World, i: nat, key: Key, entry: Entry, since: real)
    requires i < |w.seen|
  {
    since <= w.seen[i].time <= w.now && Effective(defaults, w.seen[i].rows, key) == Some(entry)
  }

  /** Every cached entry was in force at some instant since it was loaded, thirty seconds before it expires. */
  ghost predicate Witnessed(defaults: Rows, w: World) {
    && w.seen != [] && w.seen[|w.seen| - 1] == Moment(w.now, w.rows)
    && forall k :: k in w.cache ==> InForceSince(defaults, w, k, w.cache[k].entry, w.cache[k].expires - TTL)
  }

  lemma StillInForce(defaults: Rows, w: World, next: World, key: Key, entry: Entry, since: real)
    requires InForceSince(defaults, w, key, entry, since) && w.seen <= next.seen && w.now <= next.now
    ensures InForceSince(defaults, next, key, entry, since)
  {
    var i :| 0 <= i < |w.seen| && ShowsSince(defaults, w, i, key, entry, since);
    assert next.seen[i] == w.seen[i] && ShowsSince(defaults, next, i, key, entry, since);
  }

  lemma InForceNow(defaults: Rows, w: World, key: Key, entry: Entry, since: real)
    requires w.seen != [] && w.seen[|w.seen| - 1] == Moment(w.now, w.rows) && since <= w.now
    requires Effective(defaults, w.rows, key) == Some(entry)
    ensures InForceSince(defaults, w, key, entry, since)
  {
    assert ShowsSince(defaults, w, |w.seen| - 1, key, entry, since);
  }

  /** The entry was cached before the step, or was loaded by it. */
  predicate KeptOrLoaded(defaults: Rows, w: World, next: World, k: Key)
    requires k in next.cache
  {
    || (k in w.cache && next.cache[k] == w.cache[k])
    || (Effective(defaults, next.rows, k) == Some(next.cache[k].entry) && next.cache[k].expires == next.now + TTL)
  }

  lemma CacheSteps(g: Grammar, defaults: Rows, w: World, step: Step)
    ensures
      var next := Next(g, defaults, w, step);
      forall k :: k in next.cache ==> KeptOrLoaded(defaults, w, next, k)
  {
  }

  lemma NextSeen(g: Grammar, defaults: Rows, w: World, step: Step)
    requires w.seen != [] && w.seen[|w.seen| - 1] == Moment(w.now, w.rows)
    ensures Later(w, Next(g, defaults, w, step))
  {
  }

  predicate Later(w: World, next: World) {
    && w.seen <= next.seen && w.now <= next.now && next.seen != []
    && next.seen[|next.seen| - 1] == Moment(next.now, next.rows)
  }

  lemma WitnessedStays(defaults: Rows, w: World, next: World)
    requires Witnessed(defaults, w) && Later(w, next)
    requires forall k :: k in next.cache ==> KeptOrLoaded(defaults, w, next, k)
    ensures Witnessed(defaults, next)
  {
    forall k | k in next.cache
      ensures InForceSince(defaults, next, k, next.cache[k].entry, next.cache[k].expires - TTL)
    {
      if k in w.cache && next.cache[k] == w.cache[k] {
        StillInForce(defaults, w, next, k, w.cache[k].entry, w.cache[k].expires - TTL);
      } else {
        InForceNow(defaults, next, k, next.cache[k].entry, next.cache[k].expires - TTL);
      }
    }
  }

  lemma StepWitnessed(g: Grammar, defaults: Rows, w: World, step: Step)
    requires Witnessed(defaults, w)
    ensures Witnessed(defaults, Next(g, defaults, w, step))
  {
    NextSeen(g, defaults, w, step);
    CacheSteps(g, defaults, w, step);
    WitnessedStays(defaults, w, Next(g, defaults, w, step));
  }

  lemma {:induction false} RunWitnessed(g: Grammar, defaults: Rows, w: World, steps: seq<Step>)
    requires Witnessed(defaults, w)
    ensures Witnessed(defaults, Run(g, defaults, w, steps))
    decreases |steps|
  {
    if steps != [] {
      StepWitnessed(g, defaults, w, steps[0]);
      RunWitnessed(g, defaults, Next(g, defaults, w, steps[0]), steps[1..]);
    }
  }

  /**
   * Whatever is written behind the service's back, a value read was in force at some instant of the last thirty
   * seconds.
   */
  lemma ReadIsRecent(g: Grammar, defaults: Rows, rows: Rows, began: real, steps: seq<Step>, key: Key, entry: Entry)
    requires
      var w := Run(g, defaults, Start(rows, began), steps);
      ReadAt(defaults, w.rows, w.cache, w.now, key) == Some(entry)
    ensures
      var w := Run(g, defaults, Start(rows, began), steps);
      InForceSince(defaults, w, key, entry, w.now - TTL)
  {
    RunWitnessed(g, defaults, Start(rows, began), steps);
    var w := Run(g, defaults, Start(rows, began), steps);
    if key in w.cache && w.cache[key].expires > w.now {
      var since := w.cache[key].expires - TTL;
      var i :| 0 <= i < |w.seen| && ShowsSince(defaults, w, i, key, entry, since);
      assert ShowsSince(defaults, w, i, key, entry, w.now - TTL);
    } else {
      InForceNow(defaults, w, key, entry, w.now - TTL);
    }
  }

  /** What is cached for the key agrees with the rows. */
  predicate Coherent(defaults: Rows, w: World, key: Key) {
    key in w.cache ==> Effective(defaults, w.rows, key) == Some(w.cache[key].entry)
  }

  /** Every stored row has its registered type, and parses at it. */
  predicate WellTyped(g: Grammar, defaults: Rows, rows: Rows) {
    forall k :: k in rows && k in defaults ==> rows[k].kind == defaults[k].kind && Parses(g, rows[k])
  }

  predicate ThroughService(steps: seq<Step>) {
    forall i :: 0 <= i < |steps| ==> !steps[i].Outside?
  }

  lemma {:induction false} RunCoherent(g: Grammar, defaults: Rows, w: World, steps: seq<Step>, key: Key)
    requires Coherent(defaults, w, key) && ThroughService(steps)
    ensures Coherent(defaults, Run(g, defaults, w, steps), key)
    decreases |steps|
  {
    if steps != [] {
      assert !steps[0].Outside?;
      RunCoherent(g, defaults, Next(g, defaults, w, steps[0]), steps[1..], key);
    }
  }

  lemma {:induction false} RunWellTyped(g: Grammar, defaults: Rows, w: World, steps: seq<Step>)
    requires WellTyped(g, defaults, w.rows) && ThroughService(steps)
    ensures WellTyped(g, defaults, Run(g, defaults, w, steps).rows)
    decreases |steps|
  {
    if steps != [] {
      assert !steps[0].Outside?;
      RunWellTyped(g, defaults, Next(g, defaults, w, steps[0]), steps[1..]);
    }
  }

  /**
   * Whatever was written behind the service's back before, once a key or the whole cache is dropped every read of it
   * is the effective value again, for as long as writes go through the service.
   */
  lemma InvalidatedIsExact(
      g: Grammar, defaults: Rows, w: World, stale: Option<Key>, steps: seq<Step>, key: Key)
    requires (stale == None || stale == Some(key)) && ThroughService(steps)
    ensures
      var later := Run(g, defaults, Next(g, defaults, w, Drop(stale)), steps);
      ReadAt(defaults, later.rows, later.cache, later.now, key) == Effective(defaults, later.rows, key)
  {
    RunCoherent(g, defaults, Next(g, defaults, w, Drop(stale)), steps, key);
  }

  /**
   * With all writes through `upsert`, a getter reads exactly the uncached effective value in every run, and for a
   * registered key that value has the registered type and parses.
   */
  lemma ReadIsExact(g: Grammar, defaults: Rows, rows: Rows, began: real, steps: seq<Step>, key: Key)
    requires ThroughService(steps) && WellTyped(g, defaults, rows) && WellTyped(g, defaults, defaults)
    ensures
      var w := Run(g, defaults, Start(rows, began), steps);
      var read := ReadAt(defaults, w.rows, w.cache, w.now, key);
      && read == Effective(defaults, w.rows, key)
      && (key in defaults ==> read.Some? && read.value.kind == defaults[key].kind && Parses(g, read.value))
  {
    RunCoherent(g, defaults, Start(rows, began), steps, key);
    RunWellTyped(g, defaults, Start(rows, began), steps);
  }
}
