/** The persistent maps behind a context (crates/workflow_engine/src/store.rs). A store may
    be remote: whether its n-th operation fails is an oracle, and a failing operation
    changes nothing. The in-memory stores are those whose oracle is never true. */
module Stores {
  import opened Common
  import opened Cases

  datatype Failure = StoreFailed | StepFailed(message: string) | NoStage(stage: string) | Unreadable(value: Json)

  /** State entries by (case key or session id, step key). */
  type Entries = map<(string, string), Json>

  function Without(entries: Entries, owner: string): Entries {
    map p | p in entries && p.0 != owner :: entries[p]
  }

  /** Leaving out an owner takes all of its entries and nothing else. */
  lemma WithoutTakesExactly(entries: Entries, owner: string, p: (string, string))
    ensures Find(Without(entries, owner), p) == if p.0 == owner || p !in entries then None else Some(entries[p])
  {
  }

  function Find<K, V>(m: map<K, V>, k: K): Option<V> { if k in m then Some(m[k]) else None }

  class StateStore {
    var entries: Entries
    var sessionEntries: Entries
    var calls: nat
    const faults: nat -> bool

    constructor (faults: nat -> bool)
      ensures entries == map[] && sessionEntries == map[] && calls == 0 && this.faults == faults
    {
      entries, sessionEntries, calls, this.faults := map[], map[], 0, faults;
    }

    method Attempt() returns (ok: bool)
      modifies `calls
      ensures calls == old(calls) + 1 && ok == !faults(old(calls))
    {
      ok := !faults(calls);
      calls := calls + 1;
    }

    method Save(caseKey: string, step: string, data: Json) returns (ok: bool)
      modifies `entries, `calls
      ensures calls == old(calls) + 1 && ok == !faults(old(calls))
      ensures entries == if ok then old(entries)[(caseKey, step) := data] else old(entries)
    {
      ok := Attempt();
      if ok {
        entries := entries[(caseKey, step) := data];
      }
    }

    method Get(caseKey: string, step: string) returns (r: Result<Option<Json>, Failure>)
      modifies `calls
      ensures calls == old(calls) + 1
      ensures r == if faults(old(calls)) then Err(StoreFailed) else Ok(Find(entries, (caseKey, step)))
    {
      var ok := Attempt();
      r := if ok then Ok(Find(entries, (caseKey, step))) else Err(StoreFailed);
    }

    method DeleteByCase(caseKey: string) returns (ok: bool)
      modifies `entries, `calls
      ensures calls == old(calls) + 1 && ok == !faults(old(calls))
      ensures entries == if ok then Without(old(entries), caseKey) else old(entries)
    {
      ok := Attempt();
      if ok {
        entries := Without(entries, caseKey);
      }
    }

    method SaveSession(sessionId: string, step: string, data: Json) returns (ok: bool)
      modifies `sessionEntries, `calls
      ensures calls == old(calls) + 1 && ok == !faults(old(calls))
      ensures sessionEntries == if ok then old(sessionEntries)[(sessionId, step) := data] else old(sessionEntries)
    {
      ok := Attempt();
      if ok {
        sessionEntries := sessionEntries[(sessionId, step) := data];
      }
    }

    method GetSession(sessionId: string, step: string) returns (r: Result<Option<Json>, Failure>)
      modifies `calls
      ensures calls == old(calls) + 1
      ensures r == if faults(old(calls)) then Err(StoreFailed) else Ok(Find(sessionEntries, (sessionId, step)))
    {
      var ok := Attempt();
      r := if ok then Ok(Find(sessionEntries, (sessionId, step))) else Err(StoreFailed);
    }
  }

  class CaseStore {
    var cases: map<string, Case>
    var calls: nat
    const faults: nat -> bool

    constructor (faults: nat -> bool)
      ensures cases == map[] && calls == 0 && this.faults == faults
    {
      cases, calls, this.faults := map[], 0, faults;
    }

    method Attempt() returns (ok: bool)
      modifies `calls
      ensures calls == old(calls) + 1 && ok == !faults(old(calls))
    {
      ok := !faults(calls);
      calls := calls + 1;
    }

    method Upsert(stored: Case) returns (ok: bool)
      modifies `cases, `calls
      ensures calls == old(calls) + 1 && ok == !faults(old(calls))
      ensures cases == if ok then old(cases)[stored.caseKey := stored] else old(cases)
    {
      ok := Attempt();
      if ok {
        cases := cases[stored.caseKey := stored];
      }
    }

    method GetByKey(caseKey: string) returns (r: Result<Option<Case>, Failure>)
      modifies `calls
      ensures calls == old(calls) + 1
      ensures r == if faults(old(calls)) then Err(StoreFailed) else Ok(Find(cases, caseKey))
    {
      var ok := Attempt();
      r := if ok then Ok(Find(cases, caseKey)) else Err(StoreFailed);
    }
  }
}
