/**
 * The conflict-settings cache of the loader: settings are looked up per
 * node group link, cached, and the whole cache is emptied when it is older
 * than the configured timeout, when a refresh is asked for, or when newer
 * settings are found in the database.  Saving a setting does not empty the
 * cache; it moves the reset epoch to 0 so the next lookup does.
 *
 * The clock is a parameter (`now`, in milliseconds).  The conflict_setting
 * table is a sequence of rows in the order the database returns them.
 */
module ConflictCache {
  import opened Common
  import opened Entities

  /** conflictSettingsCache plus lastConflictCacheResetTimeInMs. */
  datatype Cache = Cache(entries: map<NodeGroupLink, seq<ConflictSetting>>, lastResetMs: int)

  /** The state of a freshly constructed service. */
  const Initial: Cache := Cache(map[], 0)

  /** selectConflictSettingsSql restricted to one link: the rows whose link
      is `link`, in table order. */
  function Query(db: seq<ConflictSetting>, link: NodeGroupLink): (r: seq<ConflictSetting>)
    ensures |r| <= |db|
    ensures forall x :: x in r ==> x in db && x.link == link
    ensures forall x :: x in db && x.link == link ==> x in r
    decreases |db|
  {
    if |db| == 0 then []
    else
      var rest := Query(db[..|db| - 1], link);
      var last := db[|db| - 1];
      assert forall x :: x in db ==> x in db[..|db| - 1] || x == last;
      if last.link == link then rest + [last] else rest
  }

  /** clearCache. */
  function ClearCache(c: Cache, now: int): (r: Cache)
    ensures r.entries == map[] && r.lastResetMs == now
  {
    Cache(map[], now)
  }

  /** The cache is emptied before the lookup. */
  predicate Expires(c: Cache, refresh: bool, now: int, timeoutMs: int) {
    now - c.lastResetMs > timeoutMs || refresh
  }

  /** A lookup's answer and the cache after it. */
  datatype Lookup = Lookup(settings: seq<ConflictSetting>, cache: Cache)

  /** getConflictSettingsNodeGroupLinks(link, refreshCache). */
  function GetConflictSettings(c: Cache, link: Option<NodeGroupLink>, refresh: bool, now: int,
                               timeoutMs: int, db: seq<ConflictSetting>): (r: Lookup)
    ensures link.None? ==> r == Lookup([], c)
    ensures link.Some? && Expires(c, refresh, now, timeoutMs) ==>
      r.cache.lastResetMs == now && r.settings == Query(db, link.value)
      && r.cache.entries == map[link.value := r.settings]
    ensures link.Some? && !Expires(c, refresh, now, timeoutMs) ==>
      && r.cache.lastResetMs == c.lastResetMs
      && (link.value in c.entries ==> r == Lookup(c.entries[link.value], c))
      && (link.value !in c.entries ==>
            r.settings == Query(db, link.value)
            && r.cache.entries == c.entries[link.value := r.settings])
  {
    if link.None? then Lookup([], c)
    else
      var c1 := if Expires(c, refresh, now, timeoutMs) then ClearCache(c, now) else c;
      if link.value in c1.entries then Lookup(c1.entries[link.value], c1)
      else
        var l := Query(db, link.value);
        Lookup(l, c1.(entries := c1.entries[link.value := l]))
  }

  /** Every cached entry is what the table holds for its link now. */
  ghost predicate Coherent(c: Cache, db: seq<ConflictSetting>) {
    forall l :: l in c.entries ==> c.entries[l] == Query(db, l)
  }

  /** Against an unchanged table, a coherent cache answers exactly what the
      table holds, and stays coherent. */
  lemma LookupCoherent(c: Cache, link: Option<NodeGroupLink>, refresh: bool, now: int,
                       timeoutMs: int, db: seq<ConflictSetting>)
    requires Coherent(c, db)
    ensures var r := GetConflictSettings(c, link, refresh, now, timeoutMs, db);
      Coherent(r.cache, db) && (link.Some? ==> r.settings == Query(db, link.value))
  {
  }

  /** A hit that does not expire serves the cached list, whatever the table
      holds now: between resets the cache may be stale. */
  lemma HitIgnoresTable(c: Cache, link: NodeGroupLink, now: int, timeoutMs: int,
                        db: seq<ConflictSetting>, db': seq<ConflictSetting>)
    requires link in c.entries && !Expires(c, false, now, timeoutMs)
    ensures GetConflictSettings(c, Some(link), false, now, timeoutMs, db).settings
         == GetConflictSettings(c, Some(link), false, now, timeoutMs, db').settings
  {
  }

  /** save: an UPDATE by conflict id, and an INSERT when no row was updated. */
  function Upsert(db: seq<ConflictSetting>, s: ConflictSetting): (r: seq<ConflictSetting>)
    ensures s in r
    ensures forall x :: x in r ==> x == s || (x in db && x.conflictId != s.conflictId)
    ensures forall x :: x in db && x.conflictId != s.conflictId ==> x in r
    decreases |db|
  {
    if exists x :: x in db && x.conflictId == s.conflictId then Replace(db, s)
    else db + [s]
  }

  /** The rows with the setting's conflict id replaced by the setting. */
  function Replace(db: seq<ConflictSetting>, s: ConflictSetting): (r: seq<ConflictSetting>)
    ensures |r| == |db|
    ensures forall i :: 0 <= i < |db| ==>
      r[i] == if db[i].conflictId == s.conflictId then s else db[i]
  {
    seq(|db|, i requires 0 <= i < |db| => if db[i].conflictId == s.conflictId then s else db[i])
  }

  /** Conflict ids identify rows. */
  ghost predicate UniqueIds(db: seq<ConflictSetting>) {
    forall i, j :: 0 <= i < j < |db| ==> db[i].conflictId != db[j].conflictId
  }

  /** Saving keeps conflict ids unique, and the saved row is the one row
      with its id. */
  lemma UpsertKeepsIdsUnique(db: seq<ConflictSetting>, s: ConflictSetting)
    requires UniqueIds(db)
    ensures UniqueIds(Upsert(db, s))
    ensures forall x :: x in Upsert(db, s) && x.conflictId == s.conflictId ==> x == s
  {
  }

  /** The service state that save and refreshFromDatabase touch: the cache,
      the table, and the newest last-update time seen (null until the first
      refresh). */
  datatype Settings = Settings(cache: Cache, db: seq<ConflictSetting>, lastUpdateTime: Option<int>)

  /** save(setting): the one row with the setting's conflict id is updated or
      inserted; every other row stays. */
  function Save(st: Settings, s: ConflictSetting): (r: Settings)
    ensures r.cache.lastResetMs == 0 && r.cache.entries == st.cache.entries
    ensures r.lastUpdateTime == st.lastUpdateTime
    ensures r.db == Upsert(st.db, s)
    ensures s in r.db
    ensures forall x :: x in st.db && x.conflictId != s.conflictId ==> x in r.db
    ensures forall x :: x in r.db ==> x == s || (x in st.db && x.conflictId != s.conflictId)
  {
    Settings(st.cache.(lastResetMs := 0), Upsert(st.db, s), st.lastUpdateTime)
  }

  /** After a save, the first lookup past the timeout (counted from the
      epoch) reloads from the table and sees the saved setting. */
  lemma SaveThenLookupSeesSetting(st: Settings, s: ConflictSetting, now: int, timeoutMs: int)
    requires now > timeoutMs
    ensures var st' := Save(st, s);
      var r := GetConflictSettings(st'.cache, Some(s.link), false, now, timeoutMs, st'.db);
      s in r.settings && Coherent(r.cache, st'.db)
  {
  }

  /** The newest setting time is newer than the one remembered (or none was
      remembered). */
  predicate NewerSettings(last: Option<int>, maxDate: Option<int>) {
    maxDate.Some? && (last.None? || last.value < maxDate.value)
  }

  /** refreshFromDatabase: `maxDate` is selectMaxLastUpdateTime's answer. */
  function RefreshFromDatabase(st: Settings, maxDate: Option<int>, now: int): (r: (bool, Settings))
    ensures r.0 <==> NewerSettings(st.lastUpdateTime, maxDate)
    ensures r.0 ==> r.1 == Settings(ClearCache(st.cache, now), st.db, maxDate)
    ensures !r.0 ==> r.1 == st
  {
    if maxDate.Some? && (st.lastUpdateTime.None? || st.lastUpdateTime.value < maxDate.value) then
      (true, Settings(ClearCache(st.cache, now), st.db, maxDate))
    else
      (false, st)
  }

  /** A refresh that found newer settings makes the cache trivially
      coherent with whatever the table holds. */
  lemma RefreshRestoresCoherence(st: Settings, maxDate: Option<int>, now: int)
    requires NewerSettings(st.lastUpdateTime, maxDate)
    ensures Coherent(RefreshFromDatabase(st, maxDate, now).1.cache, st.db)
  {
  }

  /** Refreshing twice with the same answer changes nothing the second time. */
  lemma RefreshSettles(st: Settings, maxDate: Option<int>, now: int, later: int)
    ensures var once := RefreshFromDatabase(st, maxDate, now).1;
      RefreshFromDatabase(once, maxDate, later) == (false, once)
  {
  }
}
