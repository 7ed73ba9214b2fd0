/**
  Invalidation of the optimizer's metadata cache. Callbacks count catalog
  changes; each task begins by comparing the count with the one seen last and
  starts from an empty cache if they differ. A failing task drops the cache.
 */
module MdCache {
  import opened Options

  datatype Catalog =
    | Aggregate | Amop | Cast | Constraint | Operator | Opfamily | Statistic | Type | Proc
    | Relation | Opclass | Inherits

  /** Catalogs with a callback: nine system caches, and the relation cache. */
  predicate Covered(c: Catalog) {
    c != Opclass && c != Inherits
  }

  /** A cached object: the catalog it is read from and its identity. */
  datatype Key = Key(catalog: Catalog, oid: nat)

  /**
    `versions` counts the changes delivered for each object; a cache entry
    holds the version it was loaded at; `start` is `versions` when the current
    task began.
   */
  datatype St = St(registered: bool, counter: nat, last: nat, cache: Option<map<Key, nat>>,
                   versions: Key -> nat, task: bool, start: Key -> nat)

  datatype Event =
    | Change(key: Key)
    | Begin
    | BeginFails
    | Load(key: Key)
    | Evict(key: Key)
    | Finish(caching: bool)
    | Fail
    | Abandon

  function Bump(versions: Key -> nat, key: Key): Key -> nat {
    k => if k == key then versions(k) + 1 else versions(k)
  }

  /** The start-of-task check: register once, then compare and remember. */
  function Checked(s: St): St {
    s.(registered := true, last := s.counter)
  }

  function Next(s: St, e: Event): St {
    match e
    case Change(key) =>
      s.(versions := Bump(s.versions, key),
         counter := if s.registered && Covered(key.catalog) then s.counter + 1 else s.counter)
    case Begin =>
      Checked(s).(cache := if s.cache.None? || s.last != s.counter then Some(map[]) else s.cache,
                  task := true, start := s.versions)
    case BeginFails => Checked(s).(cache := if s.cache.None? || s.last != s.counter then None else s.cache)
    case Load(key) =>
      if s.cache.Some? && key !in s.cache.value then s.(cache := Some(s.cache.value[key := s.versions(key)])) else s
    case Evict(key) => if s.cache.Some? then s.(cache := Some(s.cache.value - {key})) else s
    case Finish(caching) => s.(task := false, cache := if caching then s.cache else None)
    case Fail => s.(task := false, cache := None)
    case Abandon => s.(task := false)
  }

  /** Tasks do not overlap, entries are loaded by tasks, and only covered catalogs change. */
  predicate Allowed(s: St, e: Event) {
    match e
    case Change(key) => Covered(key.catalog)
    case Begin => !s.task
    case BeginFails => !s.task
    case Evict(_) => true
    case _ => s.task
  }

  function Initial(versions: Key -> nat): St {
    St(false, 0, 0, None, versions, false, versions)
  }

  function Run(s: St, es: seq<Event>): St {
    if es == [] then s else Next(Run(s, es[..|es| - 1]), es[|es| - 1])
  }

  predicate AllowedRun(s: St, es: seq<Event>) {
    es != [] ==> AllowedRun(s, es[..|es| - 1]) && Allowed(Run(s, es[..|es| - 1]), es[|es| - 1])
  }

  // ----- coherence -----

  /** Every entry holds its object's latest delivered version. */
  ghost predicate Current(s: St) {
    s.cache.Some? ==> forall k | k in s.cache.value :: s.cache.value[k] == s.versions(k)
  }

  /** No entry predates a change delivered before the current task began. */
  ghost predicate SinceStart(s: St) {
    s.task ==>
      && s.cache.Some?
      && (forall k | k in s.cache.value :: s.start(k) <= s.cache.value[k])
      && (forall k :: s.start(k) <= s.versions(k))
  }

  ghost predicate Inv(s: St) {
    && s.last <= s.counter
    && (s.cache.Some? ==> s.registered)
    && (s.last == s.counter ==> Current(s))
    && SinceStart(s)
  }

  lemma InvKept(s: St, e: Event)
    requires Inv(s) && Allowed(s, e)
    ensures Inv(Next(s, e))
    ensures e.Begin? ==> Current(Next(s, e))
  {
    var t := Next(s, e);
    match e
    case Change(_) =>
      assert t.cache.Some? ==> t.last < t.counter;
    case Load(key) =>
      if s.cache.Some? && s.task {
        assert s.start(key) <= s.versions(key);
      }
    case _ =>
  }

  /** Coherence over every allowed run from a cold start. */
  lemma {:induction false} InvAlways(versions: Key -> nat, es: seq<Event>)
    requires AllowedRun(Initial(versions), es)
    ensures Inv(Run(Initial(versions), es))
  {
    if es != [] {
      InvAlways(versions, es[..|es| - 1]);
      InvKept(Run(Initial(versions), es[..|es| - 1]), es[|es| - 1]);
    }
  }

  /** After any allowed run, a task that begins sees no entry older than a delivered change. */
  lemma BeginIsCurrent(versions: Key -> nat, es: seq<Event>)
    requires AllowedRun(Initial(versions), es) && !Run(Initial(versions), es).task
    ensures Current(Next(Run(Initial(versions), es), Begin))
  {
    InvAlways(versions, es);
    InvKept(Run(Initial(versions), es), Begin);
  }

  // ----- exactly the catalogs with a callback -----

  /** A run as the executor makes it, in which only the object `key` changes. */
  predicate RunChanging(key: Key, s: St, es: seq<Event>) {
    es != [] ==>
      && RunChanging(key, s, es[..|es| - 1])
      && (match es[|es| - 1] case Change(k) => k == key case e => Allowed(Run(s, es[..|es| - 1]), e))
  }

  lemma {:induction false} ChangingAllowed(key: Key, s: St, es: seq<Event>)
    requires Covered(key.catalog) && RunChanging(key, s, es)
    ensures AllowedRun(s, es)
  {
    if es != [] {
      ChangingAllowed(key, s, es[..|es| - 1]);
    }
  }

  /** Loading an object, changing it between two tasks, and beginning the second one. */
  function Witness(key: Key): seq<Event> {
    [Begin, Load(key), Finish(true), Change(key)]
  }

  /** A change to a catalog without a callback leaves a stale entry in the next task. */
  lemma UncoveredChangeMissed(versions: Key -> nat, key: Key)
    requires !Covered(key.catalog)
    ensures RunChanging(key, Initial(versions), Witness(key)) && !Run(Initial(versions), Witness(key)).task
    ensures !Current(Next(Run(Initial(versions), Witness(key)), Begin))
  {
    var s0 := Initial(versions);
    var e0: seq<Event> := [];
    var e1 := [Begin];
    var e2 := [Begin, Load(key)];
    var e3 := [Begin, Load(key), Finish(true)];
    var e4 := Witness(key);
    assert e4[..3] == e3 && e3[..2] == e2 && e2[..1] == e1 && e1[..0] == e0;
    var s1 := Next(s0, Begin);
    var s2 := Next(s1, Load(key));
    var s3 := Next(s2, Finish(true));
    assert Run(s0, e0) == s0 && Run(s0, e1) == s1 && Run(s0, e2) == s2 && Run(s0, e3) == s3;
    assert RunChanging(key, s0, e0) && RunChanging(key, s0, e1) && RunChanging(key, s0, e2) && RunChanging(key, s0, e3);
    var s4 := Run(s0, e4);
    assert s4 == Next(s3, Change(key));
    var s5 := Next(s4, Begin);
    assert s5.cache == s2.cache && key in s5.cache.value;
    assert s5.versions(key) == versions(key) + 1;
  }

  /**
    Changes to an object are seen at the start of every task, over all runs in
    which that object changes, exactly when its catalog has a callback.
   */
  lemma CoherentIffCovered(key: Key)
    ensures (forall versions: Key -> nat, es: seq<Event>
               | RunChanging(key, Initial(versions), es) && !Run(Initial(versions), es).task ::
               Current(Next(Run(Initial(versions), es), Begin)))
            <==> Covered(key.catalog)
  {
    if Covered(key.catalog) {
      forall versions: Key -> nat, es: seq<Event> | RunChanging(key, Initial(versions), es) &&
          !Run(Initial(versions), es).task
        ensures Current(Next(Run(Initial(versions), es), Begin))
      {
        ChangingAllowed(key, Initial(versions), es);
        BeginIsCurrent(versions, es);
      }
    } else {
      var versions: Key -> nat := k => 0;
      UncoveredChangeMissed(versions, key);
    }
  }

  // ----- the session's variables -----

  class Session {
    var registered: bool
    var counter: nat
    var last: nat
    var cache: Option<map<Key, nat>>
    var versions: Key -> nat
    ghost var task: bool
    ghost var start: Key -> nat

    constructor (versions: Key -> nat)
      ensures View() == Initial(versions)
    {
      registered, counter, last, cache := false, 0, 0, None;
      this.versions := versions;
      task, start := false, versions;
    }

    ghost function View(): St
      reads this
    {
      St(registered, counter, last, cache, versions, task, start)
    }

    /** A catalog change is delivered: its callback, once registered, counts it. */
    method Deliver(key: Key)
      modifies this
      ensures View() == Next(old(View()), Change(key))
    {
      versions := Bump(versions, key);
      if registered && Covered(key.catalog) {
        counter := counter + 1;
      }
    }

    method NeedsReset() returns (reset: bool)
      modifies this`registered, this`last
      ensures View() == Checked(old(View()))
      ensures reset <==> old(last) != counter
    {
      if !registered {
        registered := true;
      }
      if last == counter {
        return false;
      }
      last := counter;
      return true;
    }

    /** The beginning of a task; `failing` stands for an exception while the cache is set up. */
    method BeginTask(failing: bool) returns (ok: bool)
      modifies this
      ensures View() == Next(old(View()), if ok then Begin else BeginFails)
      ensures failing && (old(cache).None? || old(last) != old(counter)) <==> !ok
    {
      var reset := NeedsReset();
      if cache.None? {
        if failing {
          return false;
        }
        cache := Some(map[]);
      } else if reset {
        cache := None;
        if failing {
          return false;
        }
        cache := Some(map[]);
      }
      task, start := true, versions;
      return true;
    }

    /** Looks an object up, loading it when it is not cached. */
    method Lookup(key: Key) returns (version: nat)
      requires Inv(View()) && task
      modifies this`cache
      ensures View() == Next(old(View()), Load(key)) && Inv(View())
      ensures start(key) <= version
    {
      InvKept(View(), Load(key));
      if key !in cache.value {
        cache := Some(cache.value[key := versions(key)]);
      }
      version := cache.value[key];
    }

    /** The end of a task: an exception, or the setting that forbids keeping metadata, drops the cache. */
    method EndTask(failed: bool, caching: bool)
      modifies this
      ensures View() == Next(old(View()), if failed then Fail else Finish(caching))
    {
      if failed {
        cache := None;
      } else if !caching {
        cache := None;
      }
      task := false;
    }
  }
}
