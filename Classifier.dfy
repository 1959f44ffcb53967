/** `checkWordPress` (popup.js:59-110): consult the cache, and on a miss run
    the structural probe, fall back to a network probe when the probe
    mechanism itself fails, and cache whatever was decided. */
module Classifier {
  import opened Base
  import opened Probe
  import opened StatusCache

  /** The outcome of `chrome.scripting.executeScript` with the probe: it ran
      on `page`, or the mechanism threw (restricted page, denied permission,
      no active tab). */
  datatype ProbeOutcome = Ran(page: Document) | MechanismFailed

  /** The outcome of the `HEAD` request to `{origin}/wp-login.php`: it
      resolved (with any response, opaque included) or it threw. */
  datatype FetchOutcome = FetchOk | FetchFailed

  /** The calls `checkWordPress` makes after reading the cache, in order. */
  datatype Effect = RunProbe | FetchLogin | WriteCache(value: bool)

  /** The classification returned and the calls made to reach it. */
  datatype Classification = Classification(isWordPress: bool, effects: seq<Effect>)

  /** The values written to the cache, in order. */
  function Writes(effects: seq<Effect>): seq<bool>
  {
    if effects == [] then []
    else (if effects[0].WriteCache? then [effects[0].value] else []) + Writes(effects[1..])
  }

  /** The decision taken by `checkWordPress` once the cache has been read. */
  function Classify(cached: Option<bool>, probe: ProbeOutcome, fetch: FetchOutcome): (c: Classification)
    // a hit returns the cached value and makes no probe, no fetch and no write
    ensures cached.Some? ==> c.isWordPress == cached.value && c.effects == []
    // a miss writes exactly once, the value it returns, as its last call
    ensures cached.None? ==> Writes(c.effects) == [c.isWordPress] && c.effects[|c.effects| - 1] == WriteCache(c.isWordPress)
    // the probe is attempted exactly once, as the first call, and the
    // network probe at most once
    ensures cached.None? ==> c.effects[0] == RunProbe && multiset(c.effects)[RunProbe] == 1
    ensures multiset(c.effects)[FetchLogin] <= 1
    // a probe that ran decides, and no network request is made
    ensures cached.None? && probe.Ran? ==> c.isWordPress == LooksLikeWordPress(probe.page) && FetchLogin !in c.effects
    // a probe mechanism failure defers to the network probe
    ensures cached.None? && probe.MechanismFailed? ==> FetchLogin in c.effects && c.isWordPress == (fetch == FetchOk)
  {
    match cached
    case Some(b) => Classification(b, [])
    case None =>
      match probe
      case Ran(page) =>
        var isWP := LooksLikeWordPress(page);
        var effects := [RunProbe, WriteCache(isWP)];
        assert Writes(effects) == [isWP] by {
          assert effects[1..] == [WriteCache(isWP)];
          assert [WriteCache(isWP)][1..] == [];
          assert Writes([WriteCache(isWP)]) == [isWP];
        }
        Classification(isWP, effects)
      case MechanismFailed =>
        var isWP := fetch == FetchOk;
        var effects := [RunProbe, FetchLogin, WriteCache(isWP)];
        assert Writes(effects) == [isWP] by {
          assert effects[1..] == [FetchLogin, WriteCache(isWP)];
          assert effects[1..][1..] == [WriteCache(isWP)];
          assert [WriteCache(isWP)][1..] == [];
          assert Writes([WriteCache(isWP)]) == [isWP];
          assert Writes(effects[1..]) == [isWP];
        }
        Classification(isWP, effects)
  }

  /** Everything `checkWordPress` receives from its environment: the clock
      and storage outcome of the cache read, the probe and fetch outcomes,
      and the clock and the two storage outcomes of the cache write. */
  datatype Environment = Environment(
    readNow: int,
    cacheRead: StorageResult,
    probe: ProbeOutcome,
    fetch: FetchOutcome,
    writeNow: int,
    writeRead: StorageResult,
    write: StorageResult)

  /** The store after a classification: unchanged on a hit, and after the one
      cache write on a miss. */
  function StoreAfter(store: map<string, Entry>, domain: string, c: Classification, env: Environment): map<string, Entry>
  {
    if Writes(c.effects) == [] then store
    else AfterSet(store, domain, Writes(c.effects)[0], env.writeNow, env.writeRead, env.write)
  }

  /** The log entries recorded for cache writes of `values` under `domain`. */
  function Logged(domain: string, values: seq<bool>): (log: seq<(string, bool)>)
    ensures |log| == |values|
    ensures forall i :: 0 <= i < |values| ==> log[i] == (domain, values[i])
  {
    seq(|values|, i requires 0 <= i < |values| => (domain, values[i]))
  }

  /** The classifier run against `cache` for the popup's hostname `domain`.
      `effects` records the calls made after the cache read, as they are made. */
  method CheckWordPress(cache: Cache, domain: string, env: Environment) returns (isWordPress: bool, ghost effects: seq<Effect>)
    modifies cache
    ensures var c := Classify(CachedStatus(old(cache.store), domain, env.readNow, env.cacheRead), env.probe, env.fetch);
            && isWordPress == c.isWordPress
            && effects == c.effects
            && cache.store == StoreAfter(old(cache.store), domain, c, env)
            && cache.writes == old(cache.writes) + Logged(domain, Writes(c.effects))
  {
    var cached := cache.GetCachedStatus(domain, env.readNow, env.cacheRead);
    if cached.Some? {
      return cached.value, [];
    }
    effects := [RunProbe];
    match env.probe {
      case Ran(page) =>
        isWordPress := LooksLikeWordPress(page);
      case MechanismFailed =>
        effects := effects + [FetchLogin];
        match env.fetch {
          case FetchOk => isWordPress := true;
          case FetchFailed => isWordPress := false;
        }
    }
    cache.SetCachedStatus(domain, isWordPress, env.writeNow, env.writeRead, env.write);
    effects := effects + [WriteCache(isWordPress)];
  }

  /** Classification is idempotent against the cache: after a miss whose
      write succeeded, a second check of the same domain within the cache
      duration is a hit that returns the same value and calls nothing. */
  lemma SecondCheckHits(store: map<string, Entry>, domain: string, env1: Environment, env2: Environment)
    requires CachedStatus(store, domain, env1.readNow, env1.cacheRead).None?
    requires env1.writeRead == StorageOk && env1.write == StorageOk
    requires env2.cacheRead == StorageOk && env2.readNow - env1.writeNow < CacheDuration
    ensures var first := Classify(None, env1.probe, env1.fetch);
            var second := Classify(CachedStatus(StoreAfter(store, domain, first, env1), domain, env2.readNow, env2.cacheRead),
                                   env2.probe, env2.fetch);
            second.isWordPress == first.isWordPress && second.effects == []
  {
    var first := Classify(None, env1.probe, env1.fetch);
    assert Writes(first.effects) == [first.isWordPress];
    ReadYourWrite(store, domain, first.isWordPress, env1.writeNow, env2.readNow);
  }

  /** A page with a `/wp-includes/` script is classified positive, and the
      positive result is what is cached. */
  lemma IncludesScriptScenario(store: map<string, Entry>, domain: string, env: Environment)
    requires CachedStatus(store, domain, env.readNow, env.cacheRead).None?
    requires env.probe == Ran(Document([], ["/wp-includes/x.js"], None, ""))
    requires env.writeRead == StorageOk && env.write == StorageOk
    ensures var c := Classify(None, env.probe, env.fetch);
            c.isWordPress && StoreAfter(store, domain, c, env)[domain] == Entry(true, env.writeNow)
  {
    IncludesScriptPage();
  }

  /** When the probe cannot run and the network probe fails too, the result
      is negative and the negative result is cached. */
  lemma BothProbesFailScenario(store: map<string, Entry>, domain: string, env: Environment)
    requires env.probe == MechanismFailed && env.fetch == FetchFailed
    requires env.writeRead == StorageOk && env.write == StorageOk
    ensures var c := Classify(None, env.probe, env.fetch);
            !c.isWordPress && StoreAfter(store, domain, c, env)[domain] == Entry(false, env.writeNow)
  {
  }
}
