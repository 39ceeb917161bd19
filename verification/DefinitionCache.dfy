/** The definition table of the SQL store and the expiring cache in front of it. */
module DefinitionCache {
  import opened Definitions

  datatype Row = Row(name: string, version: int, body: Definition, createdAt: real)

  type Table = map<string, Row>

  datatype Entry = Entry(row: Row, expiresAt: real)

  const ONE_HOUR := 3600.0

  /** The constraint on (name, version). */
  predicate UniqueKeys(t: Table) {
    forall i, j | i in t && j in t && t[i].name == t[j].name && t[i].version == t[j].version :: i == j
  }

  predicate Conflicts(t: Table, id: string, name: string, version: int) {
    id in t && t[id].name == name && t[id].version == version
  }

  /** The insert: a row of the same name and version takes the new body and keeps its id and
      date; an id that belongs to another row is an error. */
  function Upsert(t: Table, id: string, name: string, version: int, body: Definition,
                  now: real): (r: (Table, Option<string>))
    requires UniqueKeys(t)
    ensures UniqueKeys(r.0)
    ensures r.1.None? <==> id in t && !exists k :: Conflicts(t, k, name, version)
    ensures r.1.None? ==> r.0 == t
    ensures r.1.Some? ==> Conflicts(r.0, r.1.value, name, version) && r.0[r.1.value].body == body
    ensures forall k | k in t && r.1 != Some(k) :: k in r.0 && r.0[k] == t[k]
    ensures forall k | k in r.0 && k !in t :: r.1 == Some(k) && k == id
  {
    if k :| k in t && Conflicts(t, k, name, version) then (t[k := t[k].(body := body)], Some(k))
    else if id in t then (t, None)
    else (t[id := Row(name, version, body, now)], Some(id))
  }

  function Lookup(t: Table, id: string): Option<Row> {
    if id in t then Some(t[id]) else None
  }

  // ------------------------------------------------------------------ the cached store

  datatype CState = CState(table: Table, cache: map<string, Entry>, ttl: real, clock: real)

  datatype COp =
    | Save(id: string, name: string, version: int, body: Definition)
    | Get(id: string)
    | Invalidate(id: string)
    | Clear
    | SetTTL(ttl: real)
    | Advance(elapsed: real)

  /** What a caller sees of an operation. */
  datatype Output = Saved(id: Option<string>) | Got(row: Option<Row>) | Done

  /** A fresh entry answers; otherwise the table does, and its answer is kept. */
  function GetCached(s: CState, id: string): (CState, Option<Row>) {
    if s.ttl > 0.0 && id in s.cache && s.clock < s.cache[id].expiresAt then (s, Some(s.cache[id].row))
    else
      var cleaned := if s.ttl > 0.0 then s.cache - {id} else s.cache;
      var row := Lookup(s.table, id);
      if row.Some? && s.ttl > 0.0 then (s.(cache := cleaned[id := Entry(row.value, s.clock + s.ttl)]), row)
      else (s.(cache := cleaned), row)
  }

  function SaveCached(s: CState, id: string, name: string, version: int, body: Definition): (CState, Option<string>)
    requires UniqueKeys(s.table)
  {
    var (t, saved) := Upsert(s.table, id, name, version, body, s.clock);
    (if saved.Some? then s.(table := t, cache := s.cache - {saved.value}) else s, saved)
  }

  function Apply(s: CState, op: COp): (r: (CState, Output))
    requires UniqueKeys(s.table)
    ensures UniqueKeys(r.0.table)
  {
    match op
    case Save(id, name, version, body) =>
      var (s', saved) := SaveCached(s, id, name, version, body);
      (s', Saved(saved))
    case Get(id) =>
      var (s', row) := GetCached(s, id);
      (s', Got(row))
    case Invalidate(id) => (s.(cache := s.cache - {id}), Done)
    case Clear => (s.(cache := map[]), Done)
    case SetTTL(ttl) => (s.(ttl := ttl, cache := if ttl == 0.0 then map[] else s.cache), Done)
    case Advance(elapsed) => (s.(clock := s.clock + elapsed), Done)
  }

  function Outputs(s: CState, ops: seq<COp>): seq<Output>
    requires UniqueKeys(s.table)
    decreases |ops|
  {
    if ops == [] then [] else
      var (s', out) := Apply(s, ops[0]);
      [out] + Outputs(s', ops[1..])
  }

  // ------------------------------------------------------------------ the reference: no cache

  datatype Plain = Plain(table: Table, clock: real)

  function ApplyPlain(s: Plain, op: COp): (r: (Plain, Output))
    requires UniqueKeys(s.table)
    ensures UniqueKeys(r.0.table)
  {
    match op
    case Save(id, name, version, body) =>
      var (t, saved) := Upsert(s.table, id, name, version, body, s.clock);
      (s.(table := t), Saved(saved))
    case Get(id) => (s, Got(Lookup(s.table, id)))
    case Advance(elapsed) => (s.(clock := s.clock + elapsed), Done)
    case _ => (s, Done)
  }

  function PlainOutputs(s: Plain, ops: seq<COp>): seq<Output>
    requires UniqueKeys(s.table)
    decreases |ops|
  {
    if ops == [] then [] else
      var (s', out) := ApplyPlain(s, ops[0]);
      [out] + PlainOutputs(s', ops[1..])
  }

  /** Every entry, expired or not, is the row of the table. */
  predicate Coherent(s: CState) {
    && UniqueKeys(s.table)
    && forall id | id in s.cache :: id in s.table && s.cache[id].row == s.table[id]
  }

  lemma OneOperation(s: CState, op: COp)
    requires Coherent(s)
    ensures var (s', out) := Apply(s, op);
            Coherent(s') && ApplyPlain(Plain(s.table, s.clock), op) == (Plain(s'.table, s'.clock), out)
  {
  }

  /** For every sequence of operations the cached store answers as a store without a cache. */
  lemma {:induction false} CacheIsTransparent(s: CState, ops: seq<COp>)
    requires Coherent(s)
    ensures Outputs(s, ops) == PlainOutputs(Plain(s.table, s.clock), ops)
    decreases |ops|
  {
    if ops != [] {
      OneOperation(s, ops[0]);
      CacheIsTransparent(Apply(s, ops[0]).0, ops[1..]);
    }
  }

  // ------------------------------------------------------------------ several stores on one table

  /** A step of this store, or a save through another store, which does not reach this cache. */
  datatype Event = Own(op: COp) | Foreign(id: string, name: string, version: int, body: Definition)

  function React(s: CState, e: Event): (r: CState)
    requires UniqueKeys(s.table)
    ensures UniqueKeys(r.table)
  {
    match e
    case Own(op) => Apply(s, op).0
    case Foreign(id, name, version, body) => s.(table := Upsert(s.table, id, name, version, body, s.clock).0)
  }

  predicate Bounded(e: Event, bound: real) {
    match e
    case Own(SetTTL(ttl)) => ttl <= bound
    case Own(Advance(elapsed)) => elapsed >= 0.0
    case _ => true
  }

  ghost predicate History(states: seq<CState>, events: seq<Event>, bound: real) {
    && |states| == |events| + 1
    && (forall i | 0 <= i < |states| :: UniqueKeys(states[i].table))
    && (forall i | 0 <= i < |events| :: Bounded(events[i], bound) && states[i + 1] == React(states[i], events[i]))
    && states[0].cache == map[] && states[0].ttl <= bound
  }

  /** The row was in the table at moment j, not longer ago than the entry's lifetime. */
  predicate ReadAt(states: seq<CState>, j: int, id: string, e: Entry, bound: real) {
    && 0 <= j < |states|
    && Lookup(states[j].table, id) == Some(e.row) && e.expiresAt <= states[j].clock + bound
  }

  ghost predicate Dated(states: seq<CState>, s: CState, bound: real) {
    forall id | id in s.cache :: exists j :: ReadAt(states, j, id, s.cache[id], bound)
  }

  /** An entry was there before the event, or was read from the table by it. */
  lemma KeptOrRead(s: CState, e: Event, bound: real, id: string)
    requires UniqueKeys(s.table) && Bounded(e, bound) && s.ttl <= bound
    ensures React(s, e).ttl <= bound
    ensures var r := React(s, e);
            id in r.cache ==>
              || (id in s.cache && r.cache[id] == s.cache[id])
              || (Lookup(s.table, id) == Some(r.cache[id].row) && r.cache[id].expiresAt <= s.clock + bound)
  {
  }

  lemma {:induction false} EntriesAreDated(states: seq<CState>, events: seq<Event>, bound: real)
    requires History(states, events, bound)
    ensures Dated(states, states[|events|], bound) && states[|events|].ttl <= bound
    decreases |events|
  {
    if events != [] {
      var n := |events| - 1;
      var before, init := states[..n + 1], events[..n];
      forall i | 0 <= i < n
        ensures Bounded(init[i], bound) && before[i + 1] == React(before[i], init[i])
      {
        assert Bounded(events[i], bound) && states[i + 1] == React(states[i], events[i]);
      }
      EntriesAreDated(before, init, bound);
      assert states[n + 1] == React(states[n], events[n]) && Bounded(events[n], bound);
      hide History, React;
      DatedOneMore(before, states, n, events[n], bound);
    } else {
      assert states[0].cache == map[];
    }
  }

  lemma DatedOneMore(before: seq<CState>, states: seq<CState>, n: nat, e: Event, bound: real)
    requires |before| == n + 1 && |states| == n + 2 && before == states[..n + 1]
    requires UniqueKeys(states[n].table) && Bounded(e, bound) && states[n].ttl <= bound
    requires states[n + 1] == React(states[n], e) && Dated(before, states[n], bound)
    ensures Dated(states, states[n + 1], bound) && states[n + 1].ttl <= bound
  {
    hide React, UniqueKeys, Bounded;
    var s, r := states[n], states[n + 1];
    KeptOrRead(s, e, bound, "");
    forall id | id in r.cache
      ensures exists j :: ReadAt(states, j, id, r.cache[id], bound)
    {
      KeptOrRead(s, e, bound, id);
      if id in s.cache && r.cache[id] == s.cache[id] {
        var j :| ReadAt(before, j, id, s.cache[id], bound);
        assert ReadAt(states, j, id, r.cache[id], bound);
      } else {
        assert ReadAt(states, n, id, r.cache[id], bound);
      }
    }
  }

  /** Bounded staleness: even when other stores write the table, a read returns the present
      row, or one the table held less than the longest lifetime ago. */
  lemma StaleForLessThanBound(states: seq<CState>, events: seq<Event>, bound: real, id: string) returns (j: nat)
    requires History(states, events, bound)
    ensures var s := states[|events|];
            && j <= |events|
            && GetCached(s, id).1 == Lookup(states[j].table, id)
            && (j == |events| || s.clock < states[j].clock + bound)
  {
    var s := states[|events|];
    j := |events|;
    if s.ttl > 0.0 && id in s.cache && s.clock < s.cache[id].expiresAt {
      EntriesAreDated(states, events, bound);
      j :| ReadAt(states, j, id, s.cache[id], bound);
    }
  }

  // ------------------------------------------------------------------ the object

  class DefinitionStore {
    var table: Table
    var defCache: map<string, Entry>
    var defCacheTTL: real
    var clock: real

    ghost function View(): CState
      reads this
    {
      CState(table, defCache, defCacheTTL, clock)
    }

    ghost predicate Valid()
      reads this
    {
      Coherent(View())
    }

    constructor ()
      ensures Valid() && View() == CState(map[], map[], ONE_HOUR, 0.0)
    {
      table, defCache, defCacheTTL, clock := map[], map[], ONE_HOUR, 0.0;
    }

    method SetDefinitionCacheTTL(ttl: real)
      requires Valid()
      modifies this
      ensures Valid() && View() == Apply(old(View()), SetTTL(ttl)).0
    {
      defCacheTTL := ttl;
      if ttl == 0.0 {
        ClearDefinitionCache();
      }
    }

    /** Deletes the entries one by one, in any order. */
    method ClearDefinitionCache()
      modifies this`defCache
      ensures defCache == map[]
    {
      var keys := defCache.Keys;
      while keys != {}
        invariant keys == defCache.Keys
        decreases keys
      {
        var id :| id in keys;
        defCache := defCache - {id};
        keys := keys - {id};
      }
    }

    method InvalidateDefinitionCache(id: string)
      modifies this`defCache
      ensures defCache == old(defCache) - {id}
    {
      defCache := defCache - {id};
    }

    /** None stands for the error of the insert. */
    method SaveWorkflowDefinition(id: string, name: string, version: int, body: Definition)
      returns (saved: Option<string>)
      requires Valid()
      modifies this`table, this`defCache
      ensures Valid()
      ensures (View(), Saved(saved)) == Apply(old(View()), Save(id, name, version, body))
    {
      var (t, s) := Upsert(table, id, name, version, body, clock);
      table, saved := t, s;
      if saved.Some? {
        InvalidateDefinitionCache(saved.value);
      }
    }

    /** Returns what the table holds. */
    method GetWorkflowDefinition(id: string) returns (row: Option<Row>)
      requires Valid()
      modifies this`defCache
      ensures Valid() && (View(), Got(row)) == Apply(old(View()), Get(id))
      ensures row == Lookup(table, id)
    {
      if defCacheTTL > 0.0 {
        if id in defCache {
          var entry := defCache[id];
          if clock < entry.expiresAt {
            return Some(entry.row);
          }
          defCache := defCache - {id};
        }
      }
      row := Lookup(table, id);
      assert defCache == old(defCache) - {id} || defCacheTTL <= 0.0;
      if row.None? {
        return;
      }
      if defCacheTTL > 0.0 {
        defCache := defCache[id := Entry(row.value, clock + defCacheTTL)];
      }
    }
  }
}
