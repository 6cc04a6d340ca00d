/**
 * The registry of pynm/manager.py as a value: the nested tables
 * key -> priority -> registration id -> callback, the entries they hold,
 * the invariants every operation keeps, and the order in which `notify`
 * visits the entries of one key.
 */
module Registry {
  import opened Wrappers
  import opened Callbacks

  /** Registration id -> callback, for one priority of one key. */
  type IdMap = map<nat, Callback>
  /** Priority -> id map, for one key (its "queue"). */
  type Table = map<real, IdMap>
  /** Notification key -> table (the manager's `_queues`). */
  type Queues = map<string, Table>

  /** Registration `i` is stored under key `k` at priority `p`. */
  predicate HasEntry(q: Queues, k: string, p: real, i: nat)
  {
    k in q && p in q[k] && i in q[k][p]
  }

  /** No key maps to an empty table and no priority maps to an empty id map. */
  predicate NonEmpty(q: Queues)
  {
    (forall k :: k in q ==> q[k] != map[]) &&
    (forall k, p :: k in q && p in q[k] ==> q[k][p] != map[])
  }

  /** Every registration id is stored in at most one place. */
  ghost predicate IdsUnique(q: Queues)
  {
    forall k1, p1, k2, p2, i :: HasEntry(q, k1, p1, i) && HasEntry(q, k2, p2, i) ==> k1 == k2 && p1 == p2
  }

  /** The key and priority under which a registration is stored. */
  datatype Place = Place(key: string, priority: real)

  /** Every stored id is filed in `places` under the key and priority that hold it. */
  ghost predicate Located(q: Queues, places: map<nat, Place>)
  {
    forall k, p, i :: HasEntry(q, k, p, i) ==> i in places && places[i] == Place(k, p)
  }

  /** Ids filed in one place each are stored in at most one place. */
  lemma LocatedUnique(q: Queues, places: map<nat, Place>)
    requires Located(q, places)
    ensures IdsUnique(q)
  {
  }

  /** Every stored id is one the counter has already issued. */
  ghost predicate IdsBelow(q: Queues, last: nat)
  {
    forall k, p, i: nat :: HasEntry(q, k, p, i) ==> 1 <= i <= last
  }

  /** The registry after storing `cb` under `k`, `p`, `i`, creating the inner maps on demand. */
  function Insert(q: Queues, k: string, p: real, i: nat, cb: Callback): Queues
  {
    var t: Table := if k in q then q[k] else map[];
    var m: IdMap := if p in t then t[p] else map[];
    q[k := t[p := m[i := cb]]]
  }

  /**
   * Storing one registration adds exactly that entry and key, and leaves
   * every other entry as it was.
   */
  lemma InsertEntries(q: Queues, k: string, p: real, i: nat, cb: Callback)
    ensures HasEntry(Insert(q, k, p, i, cb), k, p, i) && Insert(q, k, p, i, cb)[k][p][i] == cb
    ensures Insert(q, k, p, i, cb).Keys == q.Keys + {k}
    ensures forall k', p', i' :: HasEntry(Insert(q, k, p, i, cb), k', p', i') <==>
      HasEntry(q, k', p', i') || (k' == k && p' == p && i' == i)
    ensures forall k', p', i' :: HasEntry(q, k', p', i') && (k', p', i') != (k, p, i) ==>
      Insert(q, k, p, i, cb)[k'][p'][i'] == q[k'][p'][i']
  {
  }

  /**
   * Storing a registration under an id larger than every id already stored
   * keeps the tables non-empty and the ids filed and issued.
   */
  lemma InsertKeepsInvariants(q: Queues, places: map<nat, Place>, k: string, p: real, i: nat, cb: Callback)
    requires NonEmpty(q) && Located(q, places) && i >= 1 && IdsBelow(q, i - 1)
    ensures NonEmpty(Insert(q, k, p, i, cb))
    ensures Located(Insert(q, k, p, i, cb), places[i := Place(k, p)])
    ensures IdsBelow(Insert(q, k, p, i, cb), i)
  {
    InsertEntries(q, k, p, i, cb);
  }

  /**
   * Two registries without empty maps that hold the same entries with the
   * same callbacks are the same registry: the entries determine the tables.
   */
  lemma {:induction false} EntriesDetermine(q1: Queues, q2: Queues)
    requires NonEmpty(q1) && NonEmpty(q2)
    requires forall k, p, i :: HasEntry(q1, k, p, i) <==> HasEntry(q2, k, p, i)
    requires forall k, p, i :: HasEntry(q1, k, p, i) ==> HasEntry(q2, k, p, i) && q1[k][p][i] == q2[k][p][i]
    ensures q1 == q2
  {
    forall k | k in q1 ensures k in q2 && q1[k] == q2[k] {
      var p := PickKey(q1[k]);
      var i := PickKey(q1[k][p]);
      assert HasEntry(q1, k, p, i);
      forall p | p in q1[k] ensures p in q2[k] && q1[k][p] == q2[k][p] {
        var i := PickKey(q1[k][p]);
        assert HasEntry(q1, k, p, i);
        assert q1[k][p].Keys == q2[k][p].Keys by {
          forall j ensures j in q1[k][p] <==> j in q2[k][p] {
            assert HasEntry(q1, k, p, j) <==> HasEntry(q2, k, p, j);
          }
        }
      }
      forall p | p in q2[k] ensures p in q1[k] {
        var i := PickKey(q2[k][p]);
        assert HasEntry(q2, k, p, i);
      }
    }
    forall k | k in q2 ensures k in q1 {
      var p := PickKey(q2[k]);
      var i := PickKey(q2[k][p]);
      assert HasEntry(q2, k, p, i);
    }
  }

  /** Some element of a non-empty set. */
  lemma Pick<T>(s: set<T>) returns (x: T)
    requires s != {}
    ensures x in s
  {
    x :| x in s;
  }

  /** Some key of a non-empty map. */
  lemma PickKey<K, V>(m: map<K, V>) returns (x: K)
    requires m != map[]
    ensures x in m
  {
    x :| x in m;
  }

  // ---------------------------------------------------------------- forget

  /**
   * Whether `_forget_priority` removes registration `i` holding `cb`: a
   * truthy `cbId` selects that id alone, otherwise a truthy `callback`
   * selects the registrations whose target is that very object, otherwise
   * everything is selected. A `cbId` of 0 is falsy and so selects nothing
   * by id.
   */
  predicate Selected(cbId: Option<int>, callback: Option<Obj>, i: nat, cb: Callback)
  {
    if cbId.Some? && cbId.value != 0 then i == cbId.value
    else if callback.Some? && callback.value.truthy then cb.func.id == callback.value.id
    else true
  }

  /**
   * `after` is `before` with every selected entry removed from the keys in
   * `done` at the priorities `priority` admits; nothing else is removed,
   * nothing is added and no callback changes.
   */
  ghost predicate ForgottenIn(before: Queues, after: Queues, done: set<string>, priority: Option<real>,
                              cbId: Option<int>, callback: Option<Obj>)
  {
    (forall k, p, i :: HasEntry(after, k, p, i) <==>
       HasEntry(before, k, p, i) &&
       !(k in done && (priority.None? || priority.value == p) && Selected(cbId, callback, i, before[k][p][i]))) &&
    (forall k, p, i :: HasEntry(after, k, p, i) ==> after[k][p][i] == before[k][p][i])
  }

  /** Removing entries never breaks the filing or the issue bound of the ids that remain. */
  lemma RemovalKeepsIds(before: Queues, after: Queues, places: map<nat, Place>, last: nat)
    requires Located(before, places) && IdsBelow(before, last)
    requires forall k, p, i :: HasEntry(after, k, p, i) ==> HasEntry(before, k, p, i)
    ensures Located(after, places) && IdsBelow(after, last)
  {
  }

  /** The keys of `order` that are still in `present`, in their original order. */
  function Surviving(order: seq<string>, present: set<string>): (r: seq<string>)
    ensures forall k :: k in r <==> k in order && k in present
    ensures |r| <= |order|
  {
    if order == [] then []
    else (if order[0] in present then [order[0]] else []) + Surviving(order[1..], present)
  }

  /** No key occurs twice in `order`. */
  predicate Distinct(order: seq<string>)
  {
    forall i, j :: 0 <= i < j < |order| ==> order[i] != order[j]
  }

  /** Filtering keeps a sequence without repetitions. */
  lemma {:induction false} SurvivingDistinct(order: seq<string>, present: set<string>)
    requires Distinct(order)
    ensures Distinct(Surviving(order, present))
  {
    if order != [] {
      SurvivingDistinct(order[1..], present);
      var rest := Surviving(order[1..], present);
      assert order[0] !in order[1..];
      assert order[0] !in rest;
    }
  }

  /** Filtering twice, by a smaller set the second time, is filtering once by it. */
  lemma {:induction false} SurvivingTwice(order: seq<string>, a: set<string>, b: set<string>)
    requires b <= a
    ensures Surviving(Surviving(order, a), b) == Surviving(order, b)
  {
    if order != [] {
      SurvivingTwice(order[1..], a, b);
      var head := if order[0] in a then [order[0]] else [];
      assert Surviving(order, a) == head + Surviving(order[1..], a);
      SurvivingAppend(head, Surviving(order[1..], a), b);
    }
  }

  /** Filtering distributes over concatenation. */
  lemma {:induction false} SurvivingAppend(s: seq<string>, t: seq<string>, b: set<string>)
    ensures Surviving(s + t, b) == Surviving(s, b) + Surviving(t, b)
  {
    if s != [] {
      assert (s + t)[1..] == s[1..] + t;
      SurvivingAppend(s[1..], t, b);
    } else {
      assert s + t == t;
    }
  }

  /** Filtering by a set that holds every key changes nothing. */
  lemma {:induction false} SurvivingAll(order: seq<string>, present: set<string>)
    requires forall k :: k in order ==> k in present
    ensures Surviving(order, present) == order
  {
    if order != [] {
      SurvivingAll(order[1..], present);
    }
  }

  /** The id map of `_forget_callback`: the registrations whose target is not the very object `target`. */
  function WithoutTarget(m: IdMap, target: Obj): IdMap
  {
    map i | i in m && m[i].func.id != target.id :: m[i]
  }

  /**
   * After `_forget_callback` no registration of `target` is left, every
   * other registration keeps its id and callback, forgetting the same
   * target again changes nothing, and a target that was never registered
   * leaves the id map as it was.
   */
  lemma WithoutTargetPurges(m: IdMap, target: Obj)
    ensures var r := WithoutTarget(m, target);
      (forall i :: i in r ==> r[i].func.id != target.id) &&
      (forall i :: i in m && m[i].func.id != target.id ==> i in r && r[i] == m[i]) &&
      (forall i :: i in r ==> i in m) &&
      WithoutTarget(r, target) == r &&
      ((forall i :: i in m ==> m[i].func.id != target.id) ==> r == m)
  {
  }

  /** The id map of `_forget_cb_id`: registration `id` deleted, if it is there. */
  function WithoutId(m: IdMap, id: int): IdMap
  {
    map i | i in m && i != id :: m[i]
  }

  /**
   * `_forget_cb_id` deletes one registration at most: afterwards `id` is
   * gone, the map is one smaller exactly when `id` was there, every other
   * registration keeps its callback, and an absent `id` changes nothing.
   */
  lemma WithoutIdDeletesOne(m: IdMap, id: int)
    ensures var r := WithoutId(m, id);
      id !in r && (forall i :: i in r ==> i in m && r[i] == m[i]) &&
      |r| == (if id in m then |m| - 1 else |m|) &&
      (id !in m ==> r == m)
  {
    var r := WithoutId(m, id);
    if id in m {
      assert r.Keys == m.Keys - {id};
    } else {
      assert r.Keys == m.Keys;
    }
  }

  /**
   * The id map `_forget_priority` leaves behind: without registration
   * `cbId` when that is truthy, else without the registrations of
   * `callback` when that is truthy, else empty.
   */
  function Kept(m: IdMap, cbId: Option<int>, callback: Option<Obj>): (r: IdMap)
    ensures forall i :: i in r <==> i in m && !Selected(cbId, callback, i, m[i])
    ensures forall i :: i in r ==> r[i] == m[i]
  {
    if cbId.Some? && cbId.value != 0 then WithoutId(m, cbId.value)
    else if callback.Some? && callback.value.truthy then WithoutTarget(m, callback.value)
    else map[]
  }

  /**
   * The registry after `_forget_priority` has left `m` as the id map of `k`
   * at `p`: the priority is dropped when `m` is empty.
   */
  function PrunedAt(q: Queues, k: string, p: real, m: IdMap): Queues
    requires k in q
  {
    var t := q[k][p := m];
    q[k := if m == map[] then t - {p} else t]
  }

  /** `_forget_priority` raises KeyError at key `k`: it is registered but lacks the given priority. */
  predicate Missing(q: Queues, k: string, priority: Option<real>)
  {
    k in q && priority.Some? && priority.value !in q[k]
  }

  /** The priorities `_forget_key` visits in table `t`: the given one, or all of them. */
  function Scope(t: Table, priority: Option<real>): set<real>
  {
    if priority.Some? then {priority.value} else t.Keys
  }

  /**
   * Table `t` after `_forget_priority` at each priority in `ps`: the
   * selected registrations there are gone, and so are the priorities that
   * were left with none.
   */
  function Thinned(t: Table, ps: set<real>, cbId: Option<int>, callback: Option<Obj>): Table
  {
    map p | p in t && (p !in ps || Kept(t[p], cbId, callback) != map[]) ::
      if p in ps then Kept(t[p], cbId, callback) else t[p]
  }

  /** Thinning at no priority changes nothing. */
  lemma ThinnedNowhere(t: Table, cbId: Option<int>, callback: Option<Obj>)
    ensures Thinned(t, {}, cbId, callback) == t
  {
    assert Thinned(t, {}, cbId, callback).Keys == t.Keys;
  }

  /**
   * One more `_forget_priority`, at a priority of `t` not yet visited,
   * thins the table at that priority too.
   */
  lemma ThinnedStep(q: Queues, k: string, t: Table, ps: set<real>, p: real,
                    cbId: Option<int>, callback: Option<Obj>)
    requires k in q && q[k] == Thinned(t, ps, cbId, callback)
    requires p in t && p !in ps
    ensures p in q[k] && q[k][p] == t[p]
    ensures PrunedAt(q, k, p, Kept(q[k][p], cbId, callback)) == q[k := Thinned(t, ps + {p}, cbId, callback)]
  {
    var m := Kept(t[p], cbId, callback);
    var before := Thinned(t, ps, cbId, callback);
    var after := Thinned(t, ps + {p}, cbId, callback);
    var pruned := if m == map[] then before[p := m] - {p} else before[p := m];
    assert pruned.Keys == after.Keys;
    assert pruned == after;
  }

  /**
   * The registry after `_forget_key(k, priority, ...)`: the table of `k`
   * thinned at the priorities in scope, and dropped when left empty. An
   * unregistered `k` is ignored, and a `k` that lacks the given priority
   * raises KeyError before anything changes.
   */
  function KeyForgotten(q: Queues, k: string, priority: Option<real>, cbId: Option<int>, callback: Option<Obj>): (r: Queues)
    ensures r.Keys <= q.Keys
    ensures forall k' :: k' != k ==> (k' in r <==> k' in q) && (k' in r ==> r[k'] == q[k'])
  {
    if k !in q || Missing(q, k, priority) then q
    else
      var t := Thinned(q[k], Scope(q[k], priority), cbId, callback);
      if t == map[] then q - {k} else q[k := t]
  }

  /** The registry after `_forget_key` on each of the first `n` of `keys`, in order. */
  function Walked(q: Queues, keys: seq<string>, n: nat, priority: Option<real>, cbId: Option<int>, callback: Option<Obj>): Queues
    requires n <= |keys|
  {
    if n == 0 then q else KeyForgotten(Walked(q, keys, n - 1, priority, cbId, callback), keys[n - 1], priority, cbId, callback)
  }

  /** The keys among the first `n` of `keys`. */
  function Visited(keys: seq<string>, n: nat): (r: set<string>)
    requires n <= |keys|
    ensures forall x :: x in r <==> x in keys[..n]
  {
    if n == 0 then {} else Visited(keys, n - 1) + {keys[n - 1]}
  }

  /** A sequence without repetitions does not repeat an element before its position. */
  lemma DistinctPrefix(keys: seq<string>, n: nat)
    requires Distinct(keys) && n < |keys|
    ensures keys[n] !in keys[..n]
  {
  }

  /**
   * Thinning removes exactly the selected registrations at the priorities
   * in `ps` and leaves no empty id map.
   */
  lemma ThinnedEntries(t: Table, ps: set<real>, cbId: Option<int>, callback: Option<Obj>)
    requires forall p :: p in t ==> t[p] != map[]
    ensures var r := Thinned(t, ps, cbId, callback);
      (forall p, i :: p in r && i in r[p] <==> p in t && i in t[p] && !(p in ps && Selected(cbId, callback, i, t[p][i]))) &&
      (forall p, i :: p in r && i in r[p] ==> r[p][i] == t[p][i]) &&
      (forall p :: p in r ==> r[p] != map[])
  {
    var r := Thinned(t, ps, cbId, callback);
    forall p, i ensures p in r && i in r[p] <==> p in t && i in t[p] && !(p in ps && Selected(cbId, callback, i, t[p][i])) {
      if p in t && p in ps {
        var m := Kept(t[p], cbId, callback);
        if m == map[] {
          assert i !in m;
        }
      }
    }
  }

  /** `_forget_key` keeps every table and id map non-empty. */
  lemma KeyForgottenKeeps(q: Queues, k: string, priority: Option<real>, cbId: Option<int>, callback: Option<Obj>)
    requires NonEmpty(q)
    ensures NonEmpty(KeyForgotten(q, k, priority, cbId, callback))
  {
    if k in q && !Missing(q, k, priority) {
      ThinnedEntries(q[k], Scope(q[k], priority), cbId, callback);
    }
  }

  /**
   * `_forget_key` removes exactly the selected registrations of `k` at the
   * priorities in scope.
   */
  lemma KeyForgottenForgets(q: Queues, k: string, priority: Option<real>, cbId: Option<int>, callback: Option<Obj>)
    requires NonEmpty(q) && !Missing(q, k, priority)
    ensures ForgottenIn(q, KeyForgotten(q, k, priority, cbId, callback), {k}, priority, cbId, callback)
  {
    if k in q {
      var ps := Scope(q[k], priority);
      ThinnedEntries(q[k], ps, cbId, callback);
      var t := Thinned(q[k], ps, cbId, callback);
      var r := KeyForgotten(q, k, priority, cbId, callback);
      assert forall p :: p in q[k] ==> (p in ps <==> priority.None? || priority.value == p);
      assert forall p, i :: HasEntry(r, k, p, i) <==> p in t && i in t[p] by {
        if t == map[] {
          assert k !in r;
        } else {
          assert r[k] == t;
        }
      }
      forall k', p, i ensures HasEntry(r, k', p, i) <==>
        HasEntry(q, k', p, i) &&
        !(k' in {k} && (priority.None? || priority.value == p) && Selected(cbId, callback, i, q[k'][p][i]))
      {
      }
      forall k', p, i | HasEntry(r, k', p, i) ensures r[k'][p][i] == q[k'][p][i] {
        if k' == k {
          assert r[k] == t;
        }
      }
    }
  }

  /** `forget` on the first `n` of `keys` removes no key it was not given, adds none, and leaves the others alone. */
  lemma {:induction false} WalkedFrame(q: Queues, keys: seq<string>, n: nat,
                                       priority: Option<real>, cbId: Option<int>, callback: Option<Obj>)
    requires n <= |keys|
    ensures Walked(q, keys, n, priority, cbId, callback).Keys <= q.Keys
    ensures var r := Walked(q, keys, n, priority, cbId, callback);
      forall k :: k !in Visited(keys, n) ==> (k in r <==> k in q) && (k in r ==> r[k] == q[k])
  {
    if n > 0 {
      WalkedFrame(q, keys, n - 1, priority, cbId, callback);
    }
  }

  /** `forget` on the first `n` of `keys` keeps every table and id map non-empty. */
  lemma {:induction false} WalkedKeeps(q: Queues, keys: seq<string>, n: nat,
                                       priority: Option<real>, cbId: Option<int>, callback: Option<Obj>)
    requires NonEmpty(q) && n <= |keys|
    ensures NonEmpty(Walked(q, keys, n, priority, cbId, callback))
  {
    if n > 0 {
      WalkedKeeps(q, keys, n - 1, priority, cbId, callback);
      KeyForgottenKeeps(Walked(q, keys, n - 1, priority, cbId, callback), keys[n - 1], priority, cbId, callback);
    }
  }

  /**
   * Walking distinct keys, `keys[n]` is still as it was before the walk, so
   * it raises KeyError exactly when it did at the start.
   */
  lemma WalkedMissing(q: Queues, keys: seq<string>, n: nat, priority: Option<real>, cbId: Option<int>, callback: Option<Obj>)
    requires Distinct(keys) && n < |keys|
    ensures Missing(Walked(q, keys, n, priority, cbId, callback), keys[n], priority) <==> Missing(q, keys[n], priority)
  {
    WalkedFrame(q, keys, n, priority, cbId, callback);
    DistinctPrefix(keys, n);
  }

  /**
   * `forget` on the first `n` of the distinct `keys`, none of which raised
   * KeyError, removes exactly the selected registrations of those keys.
   */
  lemma {:induction false} WalkedForgets(q: Queues, keys: seq<string>, n: nat,
                                         priority: Option<real>, cbId: Option<int>, callback: Option<Obj>)
    requires NonEmpty(q) && Distinct(keys) && n <= |keys|
    requires forall m :: 0 <= m < n ==> !Missing(q, keys[m], priority)
    ensures ForgottenIn(q, Walked(q, keys, n, priority, cbId, callback), Visited(keys, n), priority, cbId, callback)
  {
    if n > 0 {
      WalkedForgets(q, keys, n - 1, priority, cbId, callback);
      WalkedKeeps(q, keys, n - 1, priority, cbId, callback);
      WalkedFrame(q, keys, n - 1, priority, cbId, callback);
      var before := Walked(q, keys, n - 1, priority, cbId, callback);
      var k := keys[n - 1];
      DistinctPrefix(keys, n - 1);
      KeyForgottenForgets(before, k, priority, cbId, callback);
      ForgottenInCompose(q, before, KeyForgotten(before, k, priority, cbId, callback), Visited(keys, n - 1), k,
                         priority, cbId, callback);
    }
  }

  /**
   * Forgetting in every key at every priority with no truthy `cbId` and no
   * truthy `callback` leaves a registry without empty maps with nothing at
   * all: the same effect as `reset`.
   */
  lemma ForgottenEverywhere(before: Queues, after: Queues, done: set<string>, cbId: Option<int>, callback: Option<Obj>)
    requires NonEmpty(after) && before.Keys <= done
    requires ForgottenIn(before, after, done, None, cbId, callback)
    requires !(cbId.Some? && cbId.value != 0) && !(callback.Some? && callback.value.truthy)
    ensures after == map[]
  {
    if after != map[] {
      var k := PickKey(after);
      var p := PickKey(after[k]);
      var i := PickKey(after[k][p]);
      assert HasEntry(after, k, p, i);
    }
  }

  /**
   * The outcome `ForgottenIn` describes is a single registry: two pruned
   * registries that both forget the same selection from `before` are equal.
   */
  lemma ForgottenDetermines(before: Queues, a1: Queues, a2: Queues, done: set<string>, priority: Option<real>,
                            cbId: Option<int>, callback: Option<Obj>)
    requires NonEmpty(a1) && NonEmpty(a2)
    requires ForgottenIn(before, a1, done, priority, cbId, callback)
    requires ForgottenIn(before, a2, done, priority, cbId, callback)
    ensures a1 == a2
  {
    EntriesDetermine(a1, a2);
  }

  /** Forgetting in more keys, one after another, is forgetting in all of them. */
  lemma ForgottenInCompose(q0: Queues, q1: Queues, q2: Queues, done: set<string>, k: string,
                           priority: Option<real>, cbId: Option<int>, callback: Option<Obj>)
    requires ForgottenIn(q0, q1, done, priority, cbId, callback)
    requires ForgottenIn(q1, q2, {k}, priority, cbId, callback)
    requires k !in done
    requires forall p, i :: HasEntry(q0, k, p, i) ==> HasEntry(q1, k, p, i)
    ensures ForgottenIn(q0, q2, done + {k}, priority, cbId, callback)
  {
  }

  // ---------------------------------------------------------------- dispatch

  /** A place in one key's table: a priority and a registration id. */
  datatype Slot = Slot(priority: real, id: nat)

  /** `notify` visits `a` before `b`: higher priority first, then ascending id. */
  predicate Before(a: Slot, b: Slot)
  {
    a.priority > b.priority || (a.priority == b.priority && a.id < b.id)
  }

  /** The slot is occupied in table `t`. */
  predicate InTable(t: Table, s: Slot)
  {
    s.priority in t && s.id in t[s.priority]
  }

  /** Every element of `s` comes before every later one. */
  predicate Ascending(s: seq<Slot>)
  {
    forall i, j :: 0 <= i < j < |s| ==> Before(s[i], s[j])
  }

  /** `s` lists every occupied slot of `t` once, in visiting order. */
  ghost predicate IsSchedule(t: Table, s: seq<Slot>)
  {
    Ascending(s) && (forall x :: x in s <==> InTable(t, x))
  }

  /** Two ordered sequences with the same elements are equal. */
  lemma {:induction false} AscendingUnique(s1: seq<Slot>, s2: seq<Slot>)
    requires Ascending(s1) && Ascending(s2)
    requires forall x :: x in s1 <==> x in s2
    ensures s1 == s2
  {
    assert s1 != [] ==> s1[0] in s1 && s1[0] in s2;
    assert s2 != [] ==> s2[0] in s2 && s2[0] in s1;
    if s1 != [] && s2 != [] {
      assert s1[0] in s1 && s2[0] in s2;
      var a, b := s1[0], s2[0];
      var j :| 0 <= j < |s2| && s2[j] == a;
      var j' :| 0 <= j' < |s1| && s1[j'] == b;
      assert j == 0 || Before(b, a);
      assert j' == 0 || Before(a, b);
      assert a == b;
      forall x ensures x in s1[1..] <==> x in s2[1..] {
        if x in s1[1..] {
          var a :| 1 <= a < |s1| && s1[a] == x;
          assert Before(s1[0], x);
          assert x in s2;
          var b :| 0 <= b < |s2| && s2[b] == x;
          assert b != 0;
          assert s2[b] == s2[1..][b - 1];
        }
        if x in s2[1..] {
          var b :| 1 <= b < |s2| && s2[b] == x;
          assert Before(s2[0], x);
          assert x in s1;
          var a :| 0 <= a < |s1| && s1[a] == x;
          assert a != 0;
          assert s1[a] == s1[1..][a - 1];
        }
      }
      AscendingUnique(s1[1..], s2[1..]);
      assert s1 == [s1[0]] + s1[1..];
      assert s2 == [s2[0]] + s2[1..];
    }
  }

  /** A table has only one schedule: the visiting order is fully determined. */
  lemma ScheduleUnique(t: Table, s1: seq<Slot>, s2: seq<Slot>)
    requires IsSchedule(t, s1) && IsSchedule(t, s2)
    ensures s1 == s2
  {
    AscendingUnique(s1, s2);
  }

  /**
   * A schedule visits every occupied slot exactly once, and no slot with a
   * lower priority comes before one with a higher priority.
   */
  lemma ScheduleOrder(t: Table, s: seq<Slot>)
    requires IsSchedule(t, s)
    ensures forall i, j :: 0 <= i < j < |s| ==> s[i].priority >= s[j].priority && s[i] != s[j]
    ensures forall p, id :: p in t && id in t[p] ==> exists i :: 0 <= i < |s| && s[i] == Slot(p, id)
  {
    forall p, id | p in t && id in t[p] ensures exists i :: 0 <= i < |s| && s[i] == Slot(p, id) {
      assert InTable(t, Slot(p, id));
    }
  }

  /**
   * The ordering example: callbacks at priorities 100, -100 and 50 are
   * visited as 100, 50, -100.
   */
  lemma ScheduleExample(a: Callback, b: Callback, c: Callback)
    ensures IsSchedule(map[100.0 := map[1 := a], -100.0 := map[2 := b], 50.0 := map[3 := c]],
                       [Slot(100.0, 1), Slot(50.0, 3), Slot(-100.0, 2)])
  {
    var t := map[100.0 := map[1 := a], -100.0 := map[2 := b], 50.0 := map[3 := c]];
    var s := [Slot(100.0, 1), Slot(50.0, 3), Slot(-100.0, 2)];
    forall x ensures x in s <==> InTable(t, x) {
      if InTable(t, x) {
        assert x.priority == 100.0 || x.priority == -100.0 || x.priority == 50.0;
      }
    }
  }

  // ---------------------------------------------------------------- ordering helpers

  /** The largest of a finite non-empty set of priorities. */
  lemma {:induction false} Largest(s: set<real>) returns (top: real)
    requires s != {}
    ensures top in s && forall y :: y in s ==> y <= top
  {
    var x := Pick(s);
    if s == {x} {
      top := x;
    } else {
      var m := Largest(s - {x});
      top := if m < x then x else m;
      forall y | y in s ensures y <= top {
        if y != x {
          assert y in s - {x};
        }
      }
    }
  }

  /** The smallest of a finite non-empty set of ids. */
  lemma {:induction false} Smallest(s: set<nat>) returns (bottom: nat)
    requires s != {}
    ensures bottom in s && forall y :: y in s ==> bottom <= y
  {
    var x := Pick(s);
    if s == {x} {
      bottom := x;
    } else {
      var m := Smallest(s - {x});
      bottom := if x < m then x else m;
      forall y | y in s ensures bottom <= y {
        if y != x {
          assert y in s - {x};
        }
      }
    }
  }

  // ---------------------------------------------------------------- warnings

  /** One visit of `notify`: the slot, its callback, the invocation made, and what the target raised. */
  datatype Visit = Visit(slot: Slot, callback: Callback, made: Invocation, raised: Option<Exc>)

  /** A logged warning: key, priority, id, failing callback and the exception it raised. */
  datatype Warning = Warning(key: string, priority: real, id: nat, callback: Callback, reason: Exc)

  /** `v` is the call of callback `cb` for notification `key` with the call-time arguments, and what it raised. */
  predicate Dispatched(cb: Callback, key: string, args: seq<Value>, kwargs: map<string, Value>,
                       raises: Invocation -> Option<Exc>, v: Visit)
  {
    v.callback == cb && v.made == Request(cb, Some(Text(key)), args, kwargs) && v.raised == raises(v.made)
  }

  /** `v` visits an occupied slot of `t` and calls the callback stored there. */
  predicate VisitIn(t: Table, key: string, args: seq<Value>, kwargs: map<string, Value>,
                    raises: Invocation -> Option<Exc>, v: Visit)
  {
    InTable(t, v.slot) && Dispatched(t[v.slot.priority][v.slot.id], key, args, kwargs, raises, v)
  }

  /** The slots of a run of visits, in order. */
  function SlotsOf(calls: seq<Visit>): seq<Slot>
  {
    seq(|calls|, j requires 0 <= j < |calls| => calls[j].slot)
  }

  /** The warning each failing visit logs, in the order of the visits. */
  function WarningsOf(key: string, calls: seq<Visit>): seq<Warning>
  {
    if calls == [] then []
    else
      var last := calls[|calls| - 1];
      WarningsOf(key, calls[..|calls| - 1]) +
      (if last.raised.Some? then [Warning(key, last.slot.priority, last.slot.id, last.callback, last.raised.value)] else [])
  }

  /** The number of visits whose target raised. */
  function Failures(calls: seq<Visit>): nat
  {
    if calls == [] then 0
    else Failures(calls[..|calls| - 1]) + (if calls[|calls| - 1].raised.Some? then 1 else 0)
  }

  /** Some visit of `calls` raised the exception of `w`, at the slot and with the callback `w` names. */
  ghost predicate RaisedAt(calls: seq<Visit>, w: Warning)
  {
    exists j :: 0 <= j < |calls| && calls[j].raised == Some(w.reason) &&
      calls[j].slot == Slot(w.priority, w.id) && calls[j].callback == w.callback
  }

  /**
   * Failure isolation in the log: exactly one warning per failing visit,
   * each naming the key, the slot and the exception of a visit that raised,
   * and none when nothing raised.
   */
  lemma {:induction false} WarningsMatchFailures(key: string, calls: seq<Visit>)
    ensures |WarningsOf(key, calls)| == Failures(calls)
    ensures forall w :: w in WarningsOf(key, calls) ==>
      w.key == key && RaisedAt(calls, w)
    ensures forall j :: 0 <= j < |calls| && calls[j].raised.Some? ==>
      Warning(key, calls[j].slot.priority, calls[j].slot.id, calls[j].callback, calls[j].raised.value) in WarningsOf(key, calls)
  {
    if calls != [] {
      var init := calls[..|calls| - 1];
      WarningsMatchFailures(key, init);
      forall w | w in WarningsOf(key, calls)
        ensures w.key == key && RaisedAt(calls, w)
      {
        if w in WarningsOf(key, init) {
          var j :| 0 <= j < |init| && init[j].raised == Some(w.reason) &&
            init[j].slot == Slot(w.priority, w.id) && init[j].callback == w.callback;
          assert calls[j] == init[j];
        } else {
          assert calls[|calls| - 1].raised == Some(w.reason);
        }
      }
      forall j | 0 <= j < |calls| && calls[j].raised.Some?
        ensures Warning(key, calls[j].slot.priority, calls[j].slot.id, calls[j].callback, calls[j].raised.value) in WarningsOf(key, calls)
      {
        if j < |init| {
          assert calls[j] == init[j];
        }
      }
    }
  }
}
