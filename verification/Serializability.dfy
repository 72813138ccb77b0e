/** Parallel cases over the shared in-memory stores: every interleaving of atomic store
    operations by contexts of distinct cases is as good as running the cases one after
    another (crates/workflow_engine/src/engine.rs:429-505, crates/workflow_engine/src/store.rs). */
module Serializability {
  import opened Common
  import opened Cases
  import opened Stores

  /** The case-scoped store operations of a context. None names a case: a context always
      passes its own case key. */
  datatype Op =
    | Save(step: string, data: Json)
    | Get(step: string)
    | DeleteByCase
    | Upsert(stored: Case)
    | GetByKey
    | Compute

  datatype Reply = Done | Entry(data: Option<Json>) | StoredCase(found: Option<Case>)

  /** The deterministic code of a context: the next operation of a local state, and the
      local state after its reply. The cache, the step results and the returned outcome
      are parts of the local state. */
  datatype Code<!L> = Code(next: L -> Op, resume: (L, Reply) -> L)

  /** Both stores and the local states of the running contexts, by case key. */
  datatype World<L> = World(entries: map<(string, string), Json>, cases: map<string, Case>, locals: map<string, L>)

  /** One atomic operation of the context of case `k`. */
  function Apply<L>(w: World<L>, k: string, op: Op): (World<L>, Reply) {
    match op
    case Save(step, data) => (w.(entries := w.entries[(k, step) := data]), Done)
    case Get(step) => (w, Entry(Find(w.entries, (k, step))))
    case DeleteByCase => (w.(entries := Without(w.entries, k)), Done)
    case Upsert(c) => (w.(cases := w.cases[k := c]), Done)
    case GetByKey => (w, StoredCase(Find(w.cases, k)))
    case Compute => (w, Done)
  }

  /** The operations on the stores: what is written is read back, a deletion takes all entries
      of its case, and each leaves every other entry and case as it is. */
  lemma OperationsReadBack<L>(w: World<L>, k: string, step: string, data: Json, c: Case, p: (string, string), j: string)
    ensures Apply(Apply(w, k, Save(step, data)).0, k, Get(step)).1 == Entry(Some(data))
    ensures p != (k, step) ==> Find(Apply(w, k, Save(step, data)).0.entries, p) == Find(w.entries, p)
    ensures Apply(Apply(w, k, DeleteByCase).0, k, Get(step)).1 == Entry(None)
    ensures p.0 != k ==> Find(Apply(w, k, DeleteByCase).0.entries, p) == Find(w.entries, p)
    ensures Apply(Apply(w, k, Upsert(c)).0, k, GetByKey).1 == StoredCase(Some(c))
    ensures j != k ==> Find(Apply(w, k, Upsert(c)).0.cases, j) == Find(w.cases, j)
    ensures forall op :: op in {Get(step), GetByKey, Compute} ==> Apply(w, k, op).0 == w
  {
  }

  /** The context of case `k` takes its next step; a key without a context does nothing. */
  function Step<L>(code: map<string, Code<L>>, w: World<L>, k: string): World<L> {
    if k !in code || k !in w.locals then w
    else
      var (w', reply) := Apply(w, k, code[k].next(w.locals[k]));
      w'.(locals := w'.locals[k := code[k].resume(w.locals[k], reply)])
  }

  /** An interleaving: which context steps, in order. */
  function Run<L>(code: map<string, Code<L>>, w: World<L>, schedule: seq<string>): World<L> {
    if schedule == [] then w
    else Step(code, Run(code, w, schedule[..|schedule| - 1]), schedule[|schedule| - 1])
  }

  /** The steps of one context in a schedule. */
  function Only(schedule: seq<string>, k: string): seq<string> {
    if schedule == [] then []
    else Only(schedule[..|schedule| - 1], k) + (if schedule[|schedule| - 1] == k then [k] else [])
  }

  /** What belongs to case `k` is the same in both worlds. */
  ghost predicate SameFor<L>(k: string, a: World<L>, b: World<L>) {
    && Find(a.locals, k) == Find(b.locals, k)
    && Find(a.cases, k) == Find(b.cases, k)
    && forall step :: Find(a.entries, (k, step)) == Find(b.entries, (k, step))
  }

  lemma StepOwn<L>(code: map<string, Code<L>>, a: World<L>, b: World<L>, k: string)
    requires SameFor(k, a, b)
    ensures SameFor(k, Step(code, a, k), Step(code, b, k))
  {
    if k in code && k in a.locals {
      var op := code[k].next(a.locals[k]);
      var (a', ra) := Apply(a, k, op);
      var (b', rb) := Apply(b, k, op);
      assert ra == rb;
      forall step ensures Find(a'.entries, (k, step)) == Find(b'.entries, (k, step)) {
        assert Find(a.entries, (k, step)) == Find(b.entries, (k, step));
      }
    }
  }

  lemma StepOther<L>(code: map<string, Code<L>>, w: World<L>, j: string, k: string)
    requires j != k
    ensures SameFor(k, w, Step(code, w, j))
  {
  }

  /** What a schedule does to a case is what the case's own steps do. */
  lemma {:induction false} Projection<L>(code: map<string, Code<L>>, w: World<L>, schedule: seq<string>, k: string)
    ensures SameFor(k, Run(code, w, schedule), Run(code, w, Only(schedule, k)))
    decreases |schedule|
  {
    if schedule != [] {
      var front, last := schedule[..|schedule| - 1], schedule[|schedule| - 1];
      Projection(code, w, front, k);
      if last == k {
        StepOwn(code, Run(code, w, front), Run(code, w, Only(front, k)), k);
        assert Only(schedule, k)[..|Only(front, k)|] == Only(front, k);
      } else {
        StepOther(code, Run(code, w, front), last, k);
        assert Only(schedule, k) == Only(front, k);
      }
    }
  }

  lemma SameEverywhere<L>(a: World<L>, b: World<L>)
    requires forall k :: SameFor(k, a, b)
    ensures a == b
  {
    forall k ensures (k in a.locals <==> k in b.locals) && (k in a.cases <==> k in b.cases) {
      assert SameFor(k, a, b);
    }
    forall p ensures p in a.entries <==> p in b.entries {
      assert SameFor(p.0, a, b);
      assert Find(a.entries, (p.0, p.1)) == Find(b.entries, (p.0, p.1));
    }
    forall k | k in a.locals ensures a.locals[k] == b.locals[k] {
      assert SameFor(k, a, b);
    }
    forall k | k in a.cases ensures a.cases[k] == b.cases[k] {
      assert SameFor(k, a, b);
    }
    forall p | p in a.entries ensures a.entries[p] == b.entries[p] {
      assert SameFor(p.0, a, b);
      assert Find(a.entries, (p.0, p.1)) == Find(b.entries, (p.0, p.1));
    }
  }

  /** Two interleavings of the same steps end in the same world: same step results in
      every context, same state entries, same stored cases. */
  lemma {:induction false} InterleavingsAgree<L>(code: map<string, Code<L>>, w: World<L>, a: seq<string>, b: seq<string>)
    requires forall k :: Only(a, k) == Only(b, k)
    ensures Run(code, w, a) == Run(code, w, b)
  {
    forall k ensures SameFor(k, Run(code, w, a), Run(code, w, b)) {
      Projection(code, w, a, k);
      Projection(code, w, b, k);
      assert Only(a, k) == Only(b, k);
    }
    SameEverywhere(Run(code, w, a), Run(code, w, b));
  }

  /** The same steps, one case after the other in the given order. */
  function Serial(schedule: seq<string>, order: seq<string>): seq<string> {
    if order == [] then [] else Only(schedule, order[0]) + Serial(schedule, order[1..])
  }

  /** Serializability: running the cases one after another, in any order, ends in the
      world of the interleaving. */
  lemma SerializableInAnyOrder<L>(code: map<string, Code<L>>, w: World<L>, schedule: seq<string>, order: seq<string>)
    requires Distinct(order) && forall k :: k in schedule ==> k in order
    ensures Run(code, w, schedule) == Run(code, w, Serial(schedule, order))
  {
    forall k ensures Only(schedule, k) == Only(Serial(schedule, order), k) {
      SerialKeepsSteps(schedule, order, k);
      if k !in order {
        OnlyAbsent(schedule, k);
      }
    }
    InterleavingsAgree(code, w, schedule, Serial(schedule, order));
  }

  lemma {:induction false} SerialKeepsSteps(schedule: seq<string>, order: seq<string>, k: string)
    requires Distinct(order)
    ensures Only(Serial(schedule, order), k) == if k in order then Only(schedule, k) else []
  {
    if order != [] {
      var tail := order[1..];
      assert Distinct(tail) && order[0] !in tail by {
        forall i, j | 0 <= i < j < |tail| ensures tail[i] != tail[j] {
          assert order[i + 1] != order[j + 1];
        }
      }
      SerialKeepsSteps(schedule, tail, k);
      OnlyConcatenation(Only(schedule, order[0]), Serial(schedule, tail), k);
      OnlyOfOnly(schedule, order[0], k);
      assert k in order <==> k == order[0] || k in tail;
    }
  }

  lemma {:induction false} OnlyConcatenation(a: seq<string>, b: seq<string>, k: string)
    ensures Only(a + b, k) == Only(a, k) + Only(b, k)
    decreases |b|
  {
    if b == [] {
      assert a + b == a;
    } else {
      assert (a + b)[..|a + b| - 1] == a + b[..|b| - 1];
      OnlyConcatenation(a, b[..|b| - 1], k);
    }
  }

  lemma {:induction false} OnlyOfOnly(schedule: seq<string>, j: string, k: string)
    ensures Only(Only(schedule, j), k) == if j == k then Only(schedule, k) else []
    decreases |schedule|
  {
    if schedule != [] {
      var front, last := schedule[..|schedule| - 1], schedule[|schedule| - 1];
      OnlyOfOnly(front, j, k);
      if last == j {
        OnlyConcatenation(Only(front, j), [j], k);
        assert Only([j], k) == if j == k then [k] else [] by {
          assert [j][..0] == [];
        }
      } else {
        assert Only(schedule, j) == Only(front, j);
      }
    }
  }

  lemma {:induction false} OnlyAbsent(schedule: seq<string>, k: string)
    requires k !in schedule
    ensures Only(schedule, k) == []
    decreases |schedule|
  {
    if schedule != [] {
      OnlyAbsent(schedule[..|schedule| - 1], k);
    }
  }
}
