/** concurrent_lru_cache (concurrent_lru_cache.h): the serial code that the aggregator runs. It refines
    LruOrder. Iterators are values: an element of the map is named by its key and its address, a node of
    the list by a number. */
module LruCache {
  import opened LruOrder

  /** A record's my_lru_list_iterator: the list's end() or one of its nodes. */
  datatype Place = End | At(node: nat)

  datatype Record<V> = Record(address: nat, value: V, references: nat, place: Place, ready: bool)

  /** A pointer to an element of the map. */
  datatype Handle<K> = Handle(key: K, address: nat)

  datatype Node<K> = Node(id: nat, element: Handle<K>)

  function Keys<K>(list: seq<Node<K>>): seq<K> {
    seq(|list|, i requires 0 <= i < |list| => list[i].element.key)
  }

  function Abstract<K, V>(storage: map<K, Record<V>>, list: seq<Node<K>>): State<K> {
    State(map k | k in storage :: storage[k].references, Keys(list))
  }

  /** The pointer leads to the element of that key which is in the map now. */
  predicate PointsInto<K(==), V>(h: Handle<K>, storage: map<K, Record<V>>) {
    h.key in storage && storage[h.key].address == h.address
  }

  /** Counters are the handles, records without handles have a place, and no value is missing without a handle. */
  ghost predicate Counters<K, V>(storage: map<K, Record<V>>, handles: multiset<Handle<K>>, valueOf: K -> V) {
    && (forall k :: k in storage ==>
          var r := storage[k];
          && r.references == handles[Handle(k, r.address)]
          && (r.references == 0 <==> r.place.At?)
          && (!r.ready ==> r.references > 0)
          && (r.ready ==> r.value == valueOf(k)))
    && (forall h :: h in handles ==> PointsInto(h, storage))
  }

  /** The node belongs to a stored record that points back to it. */
  predicate PointsBack<K(==), V>(n: Node<K>, storage: map<K, Record<V>>) {
    PointsInto(n.element, storage) && storage[n.element.key].place == At(n.id)
  }

  ghost predicate Fresh<K, V>(storage: map<K, Record<V>>, list: seq<Node<K>>, next: nat) {
    && (forall k :: k in storage ==> storage[k].address < next)
    && (forall n :: n in list ==> n.id < next)
  }

  ghost predicate Listed<K, V>(storage: map<K, Record<V>>, list: seq<Node<K>>) {
    && (forall n :: n in list ==> PointsBack(n, storage))
    && (forall i, j :: 0 <= i < j < |list| ==> list[i].id != list[j].id)
    && (forall k :: k in storage && storage[k].place.At? ==>
          Node(storage[k].place.node, Handle(k, storage[k].address)) in list)
  }

  ghost predicate Good<K, V>(storage: map<K, Record<V>>, list: seq<Node<K>>, next: nat,
                             handles: multiset<Handle<K>>, valueOf: K -> V, capacity: nat) {
    Counters(storage, handles, valueOf) && Listed(storage, list) && Fresh(storage, list, next) && |list| <= capacity
  }

  lemma DistinctKeys<K, V>(storage: map<K, Record<V>>, list: seq<Node<K>>)
    requires Listed(storage, list)
    ensures Distinct(Keys(list))
  {
    forall i, j | 0 <= i < j < |list| ensures Keys(list)[i] != Keys(list)[j] {
      assert PointsBack(list[i], storage) && PointsBack(list[j], storage);
    }
  }

  /** Erasing one node and setting its record's iterator to end(). */
  lemma Erased<K, V>(storage: map<K, Record<V>>, list: seq<Node<K>>, i: nat, storage': map<K, Record<V>>, list': seq<Node<K>>)
    requires Listed(storage, list) && i < |list|
    requires list[i].element.key in storage
    requires var k := list[i].element.key; storage' == storage[k := storage[k].(place := End)]
    requires list' == list[..i] + list[i + 1..]
    ensures Listed(storage', list')
    ensures Keys(list') == Without(Keys(list), list[i].element.key)
    ensures forall n :: n in list' ==> n in list
  {
    DistinctKeys(storage, list);
    WithoutAt(Keys(list), i);
    assert Keys(list') == Keys(list)[..i] + Keys(list)[i + 1..];
    forall n | n in list' ensures n in list && PointsBack(n, storage') {
      var j :| 0 <= j < |list'| && list'[j] == n;
      var b := if j < i then j else j + 1;
      assert n == list[b];
      assert Keys(list)[b] != Keys(list)[i];
    }
    forall k | k in storage' && storage'[k].place.At?
      ensures Node(storage[k].place.node, Handle(k, storage[k].address)) in list'
    {
      var j :| 0 <= j < |list| && list[j] == Node(storage[k].place.node, Handle(k, storage[k].address));
      assert list'[if j < i then j else j - 1] == list[j];
    }
  }

  /** Records keep their places: the list stays right. */
  lemma SamePlaces<K, V>(storage: map<K, Record<V>>, list: seq<Node<K>>, storage': map<K, Record<V>>)
    requires Listed(storage, list)
    requires forall k :: k in storage ==>
               k in storage' && storage'[k].address == storage[k].address && storage'[k].place == storage[k].place
    requires forall k :: k in storage' && k !in storage ==> storage'[k].place == End
    ensures Listed(storage', list)
  {
    forall n | n in list ensures PointsBack(n, storage') {
      assert PointsBack(n, storage);
    }
  }

  lemma NotListed<K, V>(storage: map<K, Record<V>>, list: seq<Node<K>>, k: K)
    requires Listed(storage, list)
    requires k in storage ==> storage[k].place == End
    ensures k !in Keys(list) && Without(Keys(list), k) == Keys(list)
  {
    forall i | 0 <= i < |list| ensures Keys(list)[i] != k {
      assert PointsBack(list[i], storage);
    }
    WithoutMissing(Keys(list), k);
  }

  /** Records that still have a handle after a release are the ones they were, values included. */
  ghost predicate Survivors<K, V>(before: map<K, Record<V>>, after: map<K, Record<V>>, handles: multiset<Handle<K>>) {
    forall g :: g in handles ==>
      && PointsInto(g, before) && PointsInto(g, after)
      && after[g.key].ready == before[g.key].ready && after[g.key].value == before[g.key].value
  }

  lemma SurvivorsOf<K, V>(storage: map<K, Record<V>>, handles: multiset<Handle<K>>, valueOf: K -> V,
                          storage': map<K, Record<V>>, kept: multiset<Handle<K>>)
    requires Counters(storage, handles, valueOf) && kept <= handles
    requires forall k :: k in storage && storage[k].references > 0 ==>
               && k in storage' && storage'[k].address == storage[k].address
               && storage'[k].ready == storage[k].ready && storage'[k].value == storage[k].value
    ensures Survivors(storage, storage', kept)
  {
    forall g | g in kept
      ensures PointsInto(g, storage) && storage[g.key].references > 0
    {
      assert g in handles;
    }
  }

  function OneMore<V>(r: Record<V>): Record<V> {
    r.(place := End, references := r.references + 1)
  }

  /** A handle more on the record of `k`, whose iterator is end() from now on. */
  lemma CountersAfterRetrieve<K, V>(storage: map<K, Record<V>>, handles: multiset<Handle<K>>, valueOf: K -> V, k: K)
    requires Counters(storage, handles, valueOf) && k in storage
    ensures Counters(storage[k := OneMore(storage[k])], handles + multiset{Handle(k, storage[k].address)}, valueOf)
  {
    var h := Handle(k, storage[k].address);
    forall g | g in handles + multiset{h} ensures PointsInto(g, storage[k := OneMore(storage[k])]) {
      assert g == h || g in handles;
    }
  }

  lemma FirstHandle<K, V>(storage: map<K, Record<V>>, handles: multiset<Handle<K>>, valueOf: K -> V, next: nat, k: K, blank: V)
    requires Counters(storage, handles, valueOf) && k !in storage
    ensures Counters(storage[k := Record(next, blank, 1, End, false)], handles + multiset{Handle(k, next)}, valueOf)
  {
    var h, storage' := Handle(k, next), storage[k := Record(next, blank, 1, End, false)];
    assert h !in handles;
    forall g | g in handles + multiset{h} ensures PointsInto(g, storage') {
      assert g == h || g in handles;
    }
  }

  lemma RetrieveMissing<K, V>(storage: map<K, Record<V>>, list: seq<Node<K>>, next: nat,
                              handles: multiset<Handle<K>>, valueOf: K -> V, capacity: nat, k: K, blank: V)
    requires Good(storage, list, next, handles, valueOf, capacity) && k !in storage
    ensures var storage' := storage[k := Record(next, blank, 1, End, false)];
      && Good(storage', list, next + 1, handles + multiset{Handle(k, next)}, valueOf, capacity)
      && Abstract(storage', list) == Retrieved(Abstract(storage, list), k)
  {
    FirstHandle(storage, handles, valueOf, next, k, blank);
    hide Counters;
    SamePlaces(storage, list, storage[k := Record(next, blank, 1, End, false)]);
    NotListed(storage, list, k);
  }

  lemma RetrieveSurvivors<K, V>(storage: map<K, Record<V>>, list: seq<Node<K>>, next: nat,
                                handles: multiset<Handle<K>>, valueOf: K -> V, capacity: nat, k: K, r: Record<V>)
    requires Good(storage, list, next, handles, valueOf, capacity)
    requires k in storage ==> r == OneMore(storage[k])
    ensures Survivors(storage, storage[k := r], handles)
  {
    SurvivorsOf(storage, handles, valueOf, storage[k := r], handles);
  }

  lemma RetrieveHeld<K, V>(storage: map<K, Record<V>>, list: seq<Node<K>>, next: nat,
                           handles: multiset<Handle<K>>, valueOf: K -> V, capacity: nat, k: K)
    requires Good(storage, list, next, handles, valueOf, capacity) && k in storage && storage[k].place == End
    ensures var storage' := storage[k := OneMore(storage[k])];
      && Good(storage', list, next, handles + multiset{Handle(k, storage[k].address)}, valueOf, capacity)
      && Abstract(storage', list) == Retrieved(Abstract(storage, list), k)
  {
    hide Counters, Without, Listed;
    CountersAfterRetrieve(storage, handles, valueOf, k);
    SamePlaces(storage, list, storage[k := OneMore(storage[k])]);
    NotListed(storage, list, k);
  }

  lemma RetrieveIdle<K, V>(storage: map<K, Record<V>>, list: seq<Node<K>>, next: nat,
                           handles: multiset<Handle<K>>, valueOf: K -> V, capacity: nat, k: K, i: nat)
    requires Good(storage, list, next, handles, valueOf, capacity) && k in storage
    requires i < |list| && storage[k].place == At(list[i].id)
    ensures var storage', list' := storage[k := OneMore(storage[k])], list[..i] + list[i + 1..];
      && Good(storage', list', next, handles + multiset{Handle(k, storage[k].address)}, valueOf, capacity)
      && Abstract(storage', list') == Retrieved(Abstract(storage, list), k)
  {
    hide Counters, Without;
    var list' := list[..i] + list[i + 1..];
    assert list[i].element.key == k by { IsTheNode(storage, list, k, i); }
    hide Listed;
    CountersAfterRetrieve(storage, handles, valueOf, k);
    Erased(storage, list, i, storage[k := storage[k].(place := End)], list');
    SamePlaces(storage[k := storage[k].(place := End)], list', storage[k := OneMore(storage[k])]);
  }

  lemma IsTheNode<K, V>(storage: map<K, Record<V>>, list: seq<Node<K>>, k: K, i: nat)
    requires Listed(storage, list) && k in storage
    requires i < |list| && storage[k].place == At(list[i].id)
    ensures list[i] == Node(list[i].id, Handle(k, storage[k].address))
  {
    var n := Node(list[i].id, Handle(k, storage[k].address));
    var j :| 0 <= j < |list| && list[j] == n;
    assert i == j;
  }

  lemma HasNode<K, V>(storage: map<K, Record<V>>, list: seq<Node<K>>, next: nat,
                      handles: multiset<Handle<K>>, valueOf: K -> V, capacity: nat, k: K)
    requires Good(storage, list, next, handles, valueOf, capacity) && k in storage && storage[k].place.At?
    ensures exists n :: n in list && n.id == storage[k].place.node
  {
    assert Node(storage[k].place.node, Handle(k, storage[k].address)) in list;
  }

  function OneLess<V>(r: Record<V>): Record<V>
    requires r.references > 0
  {
    r.(references := r.references - 1)
  }

  /** A handle less; a record that loses its last one gets a node. */
  lemma CountersAfterRelease<K, V>(storage: map<K, Record<V>>, handles: multiset<Handle<K>>, valueOf: K -> V,
                                   h: Handle<K>, r: Record<V>)
    requires Counters(storage, handles, valueOf) && h in handles && PointsInto(h, storage)
    requires storage[h.key].references > 0 && storage[h.key].ready
    requires r == OneLess(storage[h.key]).(place := r.place) && (r.references == 0 <==> r.place.At?)
    ensures Counters(storage[h.key := r], handles - multiset{h}, valueOf)
  {
    forall g | g in handles - multiset{h} ensures PointsInto(g, storage[h.key := r]) {
      assert g in handles;
    }
  }

  lemma ReleaseShared<K, V>(storage: map<K, Record<V>>, list: seq<Node<K>>, next: nat,
                            handles: multiset<Handle<K>>, valueOf: K -> V, capacity: nat, h: Handle<K>)
    requires Good(storage, list, next, handles, valueOf, capacity) && h in handles && PointsInto(h, storage)
    requires storage[h.key].references > 1 && storage[h.key].ready
    ensures var storage' := storage[h.key := OneLess(storage[h.key])];
      && Good(storage', list, next, handles - multiset{h}, valueOf, capacity)
      && Abstract(storage', list) == Released(Abstract(storage, list), h.key, capacity)
      && Survivors(storage, storage', handles - multiset{h})
  {
    SurvivorsOf(storage, handles, valueOf, storage[h.key := OneLess(storage[h.key])], handles - multiset{h});
    assert storage[h.key].place == End;
    hide Counters, Listed, Survivors;
    CountersAfterRelease(storage, handles, valueOf, h, OneLess(storage[h.key]));
    SamePlaces(storage, list, storage[h.key := OneLess(storage[h.key])]);
  }

  /** push_front of the record that has become idle. */
  lemma Pushed<K, V>(storage: map<K, Record<V>>, list: seq<Node<K>>, next: nat, h: Handle<K>, r: Record<V>)
    requires Listed(storage, list) && Fresh(storage, list, next) && PointsInto(h, storage)
    requires storage[h.key].place == End && r.place == At(next) && r.address == h.address
    ensures Listed(storage[h.key := r], [Node(next, h)] + list)
  {
    var storage', list' := storage[h.key := r], [Node(next, h)] + list;
    forall n | n in list' ensures PointsBack(n, storage') {
      if n in list { assert PointsBack(n, storage); }
    }
    assert forall i :: 0 < i < |list'| ==> list'[i] == list[i - 1] && list[i - 1] in list;
    hide PointsBack, Fresh;
    forall k | k in storage' && storage'[k].place.At?
      ensures Node(storage'[k].place.node, Handle(k, storage'[k].address)) in list'
    {
      if k == h.key { assert list'[0] == Node(next, h); }
    }
  }

  lemma PushedFresh<K, V>(storage: map<K, Record<V>>, list: seq<Node<K>>, next: nat, h: Handle<K>, r: Record<V>)
    requires Fresh(storage, list, next) && PointsInto(h, storage) && r.address == h.address
    ensures Fresh(storage[h.key := r], [Node(next, h)] + list, next + 1)
    ensures Keys([Node(next, h)] + list) == [h.key] + Keys(list)
  {
  }

  lemma ReleaseLast<K, V>(storage: map<K, Record<V>>, list: seq<Node<K>>, next: nat,
                          handles: multiset<Handle<K>>, valueOf: K -> V, capacity: nat, h: Handle<K>)
    requires Good(storage, list, next, handles, valueOf, capacity) && h in handles && PointsInto(h, storage)
    requires storage[h.key].references == 1 && storage[h.key].ready && |list| < capacity
    ensures var r := storage[h.key].(references := 0, place := At(next));
      var storage', list' := storage[h.key := r], [Node(next, h)] + list;
      && Good(storage', list', next + 1, handles - multiset{h}, valueOf, capacity)
      && Abstract(storage', list') == State(Abstract(storage, list).references[h.key := 0], [h.key] + Keys(list))
  {
    assert storage[h.key].place == End;
    hide Counters, Listed, Fresh;
    var r := storage[h.key].(references := 0, place := At(next));
    CountersAfterRelease(storage, handles, valueOf, h, r);
    Pushed(storage, list, next, h, r);
    PushedFresh(storage, list, next, h, r);
    hide Keys;
    assert Abstract(storage[h.key := r], [Node(next, h)] + list).references == Abstract(storage, list).references[h.key := 0];
  }

  /** The key whose node is the list's back(). */
  function Oldest<K>(list: seq<Node<K>>): K
    requires list != []
  {
    list[|list| - 1].element.key
  }

  /** Evicting the record at the back. */
  lemma Evicted<K, V>(storage: map<K, Record<V>>, list: seq<Node<K>>, next: nat,
                      handles: multiset<Handle<K>>, valueOf: K -> V, capacity: nat)
    requires Good(storage, list, next, handles, valueOf, capacity) && list != []
    ensures var storage', list' := storage - {Oldest(list)}, list[..|list| - 1];
      && Good(storage', list', next, handles, valueOf, capacity)
      && Oldest(list) in storage && storage[Oldest(list)].references == 0
      && Abstract(storage', list') == State(Abstract(storage, list).references - {Oldest(list)}, Keys(list)[..|list| - 1])
  {
    var oldest, last := Oldest(list), list[|list| - 1];
    var storage', list' := storage - {oldest}, list[..|list| - 1];
    assert last in list && PointsBack(last, storage);
    DistinctKeys(storage, list);
    forall n | n in list' ensures n in list && PointsBack(n, storage') {
      var i :| 0 <= i < |list'| && list'[i] == n;
      assert Keys(list)[i] != Keys(list)[|list| - 1];
      assert PointsBack(list[i], storage);
    }
    forall k | k in storage' && storage'[k].place.At?
      ensures Node(storage'[k].place.node, Handle(k, storage'[k].address)) in list'
    {
      var i :| 0 <= i < |list| && list[i] == Node(storage[k].place.node, Handle(k, storage[k].address));
      assert list'[i] == list[i];
    }
    forall g | g in handles ensures PointsInto(g, storage') {
      assert handles[g] > 0;
    }
  }

  /** Room in the list: the record that has become idle goes in front. */
  lemma ReleaseWithRoom<K, V>(storage: map<K, Record<V>>, list: seq<Node<K>>, next: nat,
                              handles: multiset<Handle<K>>, valueOf: K -> V, capacity: nat, h: Handle<K>)
    requires Good(storage, list, next, handles, valueOf, capacity) && h in handles && PointsInto(h, storage)
    requires storage[h.key].references == 1 && storage[h.key].ready && |list| < capacity
    ensures var storage', list' := storage[h.key := storage[h.key].(references := 0, place := At(next))], [Node(next, h)] + list;
      && Good(storage', list', next + 1, handles - multiset{h}, valueOf, capacity)
      && Abstract(storage', list') == Released(Abstract(storage, list), h.key, capacity)
      && Survivors(storage, storage', handles - multiset{h})
  {
    ReleaseLast(storage, list, next, handles, valueOf, capacity, h);
    assert Kept(Keys(list), capacity) == Keys(list);
    var refs := Abstract(storage, list).references;
    assert (set x | x in Keys(list) && x !in Keys(list)) == {};
    assert refs - {} == refs;
    SurvivorsOf(storage, handles, valueOf,
                storage[h.key := storage[h.key].(references := 0, place := At(next))], handles - multiset{h});
  }

  /** A full list: the record at the back goes, and the one that has become idle comes in front. */
  lemma ReleaseEvicting<K, V>(storage: map<K, Record<V>>, list: seq<Node<K>>, next: nat,
                              handles: multiset<Handle<K>>, valueOf: K -> V, capacity: nat, h: Handle<K>)
    requires Good(storage, list, next, handles, valueOf, capacity) && h in handles && PointsInto(h, storage)
    requires storage[h.key].references == 1 && storage[h.key].ready && 0 < capacity == |list|
    ensures Oldest(list) != h.key
    ensures var storage' := (storage - {Oldest(list)})[h.key := storage[h.key].(references := 0, place := At(next))];
      var list' := [Node(next, h)] + list[..|list| - 1];
      && Good(storage', list', next + 1, handles - multiset{h}, valueOf, capacity)
      && Abstract(storage', list') == Released(Abstract(storage, list), h.key, capacity)
      && Survivors(storage, storage', handles - multiset{h})
  {
    Evicted(storage, list, next, handles, valueOf, capacity);
    var rest := storage - {Oldest(list)};
    assert rest[h.key] == storage[h.key];
    ReleaseLast(rest, list[..|list| - 1], next, handles, valueOf, capacity, h);
    OnlyOldestGoes(storage, list, capacity);
    SurvivorsOf(storage, handles, valueOf,
                rest[h.key := storage[h.key].(references := 0, place := At(next))], handles - multiset{h});
  }

  lemma OnlyOldestGoes<K, V>(storage: map<K, Record<V>>, list: seq<Node<K>>, capacity: nat)
    requires Listed(storage, list) && 0 < capacity == |list|
    ensures Kept(Keys(list), capacity) == Keys(list[..|list| - 1])
    ensures (set x | x in Keys(list) && x !in Kept(Keys(list), capacity)) == {Oldest(list)}
  {
    DistinctKeys(storage, list);
    var keys := Keys(list);
    var kept := keys[..capacity - 1];
    assert keys == kept + [Oldest(list)];
    assert Oldest(list) == keys[capacity - 1];
    assert forall i :: 0 <= i < |kept| ==> kept[i] == keys[i] && keys[i] != keys[capacity - 1];
  }

  lemma Published<K, V>(storage: map<K, Record<V>>, list: seq<Node<K>>, next: nat,
                        handles: multiset<Handle<K>>, valueOf: K -> V, capacity: nat, k: K)
    requires Good(storage, list, next, handles, valueOf, capacity) && k in storage
    ensures var storage' := storage[k := storage[k].(value := valueOf(k), ready := true)];
      && Good(storage', list, next, handles, valueOf, capacity)
      && Abstract(storage', list) == Abstract(storage, list)
  {
    var storage' := storage[k := storage[k].(value := valueOf(k), ready := true)];
    SamePlaces(storage, list, storage');
    hide Listed;
    forall g | g in handles ensures PointsInto(g, storage') {
      assert PointsInto(g, storage);
    }
  }

  datatype Request<K> = Use(key: K) | EndOfUse(handle: Handle<K>)

  function Ops<K>(requests: seq<Request<K>>): seq<Op<K>> {
    seq(|requests|, i requires 0 <= i < |requests| => OpOf(requests[i]))
  }

  function OpOf<K>(r: Request<K>): Op<K> {
    match r case Use(k) => Op.Retrieve(k) case EndOfUse(h) => Op.Release(h.key)
  }

  /** The handles given back, and the keys asked for, in the order of the batch. */
  function Ended<K>(requests: seq<Request<K>>): seq<Handle<K>> {
    if requests == [] then []
    else if requests[0].EndOfUse? then [requests[0].handle] + Ended(requests[1..])
    else Ended(requests[1..])
  }

  function Used<K>(requests: seq<Request<K>>): seq<K> {
    if requests == [] then []
    else if requests[0].Use? then [requests[0].key] + Used(requests[1..])
    else Used(requests[1..])
  }

  function Targets<K>(handles: seq<Handle<K>>): seq<K> {
    seq(|handles|, i requires 0 <= i < |handles| => handles[i].key)
  }

  lemma {:induction false} EndedOneMore<K>(requests: seq<Request<K>>, r: Request<K>)
    ensures Ended(requests + [r]) == Ended(requests) + (if r.EndOfUse? then [r.handle] else [])
    ensures Used(requests + [r]) == Used(requests) + (if r.Use? then [r.key] else [])
  {
    if requests == [] {
      assert requests + [r] == [r];
    } else {
      assert (requests + [r])[1..] == requests[1..] + [r];
      EndedOneMore(requests[1..], r);
    }
  }

  /** What waiting callers may submit: releases of handles that exist now, each one once, with a value. */
  ghost predicate Submitted<K, V>(requests: seq<Request<K>>, storage: map<K, Record<V>>, handles: multiset<Handle<K>>) {
    && multiset(Ended(requests)) <= handles
    && forall h :: h in Ended(requests) ==> PointsInto(h, storage) && storage[h.key].ready
  }

  lemma SubmittedParts<K, V>(r: Request<K>, rest: seq<Request<K>>, storage: map<K, Record<V>>, handles: multiset<Handle<K>>)
    requires Submitted([r] + rest, storage, handles)
    ensures Submitted(rest, storage, handles)
    ensures r.EndOfUse? ==> r.handle in handles && PointsInto(r.handle, storage) && storage[r.handle.key].ready
    ensures r.EndOfUse? ==> Submitted(rest, storage, handles - multiset{r.handle})
  {
    assert ([r] + rest)[1..] == rest;
    if r.EndOfUse? {
      assert multiset(Ended([r] + rest)) == multiset{r.handle} + multiset(Ended(rest));
      assert r.handle in Ended([r] + rest);
    }
    assert multiset(Ended(rest)) <= multiset(Ended([r] + rest));
  }

  lemma StillSubmitted<K, V>(requests: seq<Request<K>>, storage: map<K, Record<V>>, storage': map<K, Record<V>>,
                             kept: multiset<Handle<K>>, handles: multiset<Handle<K>>)
    requires Submitted(requests, storage, kept) && Survivors(storage, storage', kept) && kept <= handles
    ensures Submitted(requests, storage', handles)
  {
    forall h | h in Ended(requests) ensures h in kept {
      assert h in multiset(Ended(requests));
    }
  }

  lemma NothingYet<K>(s: State<K>, capacity: nat)
    ensures Defined(s, Ops([]), capacity)
    ensures Ended<K>([]) == [] && Used<K>([]) == [] && Targets<K>([]) == [] && After(s, Ops([]), capacity) == s
  {
  }

  lemma Balance<T>(o: multiset<T>, given: multiset<T>, ended: multiset<T>, now: multiset<T>,
                   more: multiset<T>, end: multiset<T>, after: multiset<T>)
    requires now + ended == o + given && after + end == now + more
    ensures after + (ended + end) == o + (given + more)
  {
    assert after + (ended + end) == (after + end) + ended == (now + ended) + more;
  }

  lemma OneMoreRequest<K>(requests: seq<Request<K>>, r: Request<K>, given: seq<Handle<K>>, more: seq<Handle<K>>)
    requires Targets(given) == Used(requests) && Targets(more) == Used([r])
    ensures Targets(given + more) == Used(requests + [r])
    ensures multiset(Ended(requests + [r])) == multiset(Ended(requests)) + multiset(Ended([r]))
    ensures multiset(given + more) == multiset(given) + multiset(more)
  {
    EndedOneMore(requests, r);
    EndedOneMore([], r);
    assert [] + [r] == [r];
    assert Targets(given + more) == Targets(given) + Targets(more);
  }

  lemma AfterOneMore<K>(s: State<K>, requests: seq<Request<K>>, r: Request<K>, capacity: nat)
    ensures After(s, Ops(requests + [r]), capacity) == Step(After(s, Ops(requests), capacity), OpOf(r), capacity)
    ensures Defined(s, Ops(requests + [r]), capacity) <==>
              Defined(s, Ops(requests), capacity) && (capacity > 0 || !LosesLast(After(s, Ops(requests), capacity), OpOf(r)))
  {
    assert Ops(requests + [r]) == Ops(requests) + [OpOf(r)];
    assert (Ops(requests) + [OpOf(r)])[..|requests|] == Ops(requests);
    DefinedBefore(s, Ops(requests), OpOf(r), capacity);
  }

  lemma StaysUndefined<K>(s: State<K>, requests: seq<Request<K>>, i: nat, capacity: nat)
    requires i <= |requests| && !Defined(s, Ops(requests[..i]), capacity)
    ensures !Defined(s, Ops(requests), capacity)
  {
    hide LosesLast, After;
    var part, all := Ops(requests[..i]), Ops(requests);
    var j :| 0 <= j < |part| && LosesLast(After(s, part[..j], capacity), part[j]);
    assert part[..j] == all[..j] && part[j] == all[j];
  }

  class Cache<K(==,!new), V> {
    const valueOf: K -> V
    const blank: V
    const capacity: nat                  // my_number_of_lru_history_items
    var storage: map<K, Record<V>>       // my_map_storage
    var history: seq<Node<K>>            // my_lru_list
    var next: nat                        // an address and a node number not in use
    /** The handles in the outer world. */
    ghost var handles: multiset<Handle<K>>

    ghost predicate Valid()
      reads this
    {
      Good(storage, history, next, handles, valueOf, capacity)
    }

    ghost function Contents(): State<K>
      reads this
    {
      Abstract(storage, history)
    }

    constructor (f: K -> V, historyItems: nat, v: V)
      ensures Valid() && Contents() == State(map[], []) && handles == multiset{}
      ensures valueOf == f && capacity == historyItems
    {
      valueOf, blank, capacity, storage, history, next, handles := f, v, historyItems, map[], [], 0, multiset{};
    }

    /** The node an iterator names. */
    method Find(node: nat) returns (i: nat)
      requires exists n :: n in history && n.id == node
      ensures i < |history| && history[i].id == node
    {
      i := 0;
      while history[i].id != node
        invariant i < |history|
        invariant exists j :: i <= j < |history| && history[j].id == node
        decreases |history| - i
      {
        i := i + 1;
      }
    }

    /** retrieve_serial. */
    method Retrieve(k: K) returns (h: Handle<K>, isNew: bool)
      requires Valid()
      modifies this
      ensures Valid() && Contents() == Retrieved(old(Contents()), k)
      ensures h.key == k && handles == old(handles) + multiset{h}
      ensures PointsInto(h, storage)
      ensures isNew <==> k !in old(storage)
      ensures if isNew then !storage[k].ready
              else storage[k].ready == old(storage)[k].ready && storage[k].value == old(storage)[k].value
      ensures Survivors(old(storage), storage, old(handles))
    {
      hide Good, Listed, Retrieved, Abstract, Survivors;
      ghost var goal: map<K, Record<V>>;
      if k !in storage {
        RetrieveMissing(storage, history, next, handles, valueOf, capacity, k, blank);
        RetrieveSurvivors(storage, history, next, handles, valueOf, capacity, k, Record(next, blank, 1, End, false));
        goal := storage[k := Record(next, blank, 1, End, false)];
        storage := storage[k := Record(next, blank, 0, End, false)];
        next := next + 1;
        isNew := true;
      } else {
        isNew := false;
        RetrieveSurvivors(storage, history, next, handles, valueOf, capacity, k, OneMore(storage[k]));
        goal := storage[k := OneMore(storage[k])];
        if storage[k].place != End {
          HasNode(storage, history, next, handles, valueOf, capacity, k);
          var i := Find(storage[k].place.node);
          RetrieveIdle(storage, history, next, handles, valueOf, capacity, k, i);
          history := history[..i] + history[i + 1..];
          storage := storage[k := storage[k].(place := End)];
        } else {
          RetrieveHeld(storage, history, next, handles, valueOf, capacity, k);
        }
      }
      h := Handle(k, storage[k].address);
      storage := storage[k := storage[k].(references := storage[k].references + 1)];
      handles := handles + multiset{h};
      assert storage == goal;
    }

    /** The thread whose retrieve made the record stores its value, outside the aggregator. */
    method Publish(h: Handle<K>)
      requires Valid() && h in handles && PointsInto(h, storage)
      modifies this`storage
      ensures Valid() && Contents() == old(Contents())
      ensures storage == old(storage)[h.key := old(storage)[h.key].(value := valueOf(h.key), ready := true)]
    {
      hide Good, Abstract;
      Published(storage, history, next, handles, valueOf, capacity, h.key);
      storage := storage[h.key := storage[h.key].(value := valueOf(h.key), ready := true)];
    }

    /** A handle's record is the one stored under its key: neither assertion about dangling references fires. */
    lemma HandlesAreNotDangling(h: Handle<K>)
      requires Valid() && h in handles
      ensures PointsInto(h, storage) && storage[h.key].references > 0 && h.key !in Keys(history)
    {
      assert storage[h.key].place == End;
      NotListed(storage, history, h.key);
    }

    /** Evicting from the back until one more node fits; back() of an empty list is undefined. */
    method MakeRoom() returns (defined: bool)
      requires |history| <= capacity
      modifies this`storage, this`history
      ensures defined <==> capacity > 0
      ensures old(|history|) < capacity ==> history == old(history) && storage == old(storage)
      ensures old(|history|) == capacity > 0 ==>
        history == old(history)[..capacity - 1] && storage == old(storage) - {Oldest(old(history))}
    {
      if |history| >= capacity {
        var evicting := 1 + |history| - capacity;
        while evicting > 0
          invariant 0 <= evicting <= 1
          invariant evicting == 1 ==> history == old(history) && storage == old(storage)
          invariant evicting == 0 ==>
            capacity > 0 && history == old(history)[..capacity - 1] && storage == old(storage) - {Oldest(old(history))}
        {
          if history == [] { return false; }
          var last := history[|history| - 1].element.key;
          history := history[..|history| - 1];
          storage := storage - {last};
          evicting := evicting - 1;
        }
      }
      defined := true;
    }

    /** signal_end_of_usage_serial. Without history items the back() of an empty list is asked for when the
        last handle goes, and only then. */
    method EndUsage(h: Handle<K>) returns (defined: bool)
      requires Valid() && h in handles && PointsInto(h, storage) && storage[h.key].ready
      modifies this
      ensures defined <==> capacity > 0 || old(storage)[h.key].references > 1
      ensures defined ==> Valid() && handles == old(handles) - multiset{h}
      ensures defined ==> Contents() == Released(old(Contents()), h.key, capacity)
      ensures defined ==> Survivors(old(storage), storage, handles)
    {
      hide Good, Abstract, Released, Survivors, Keys;
      HasReferences(h);
      ghost var before, list := storage, history;
      storage := storage[h.key := OneLess(storage[h.key])];
      if storage[h.key].references == 0 {
        var possible := MakeRoom();
        if !possible { return false; }
        if |list| < capacity {
          ReleaseWithRoom(before, list, next, handles, valueOf, capacity, h);
        } else {
          ReleaseEvicting(before, list, next, handles, valueOf, capacity, h);
        }
        history := [Node(next, h)] + history;
        storage := storage[h.key := storage[h.key].(place := At(next))];
        assert storage == (if |list| < capacity then before else before - {Oldest(list)})
                            [h.key := before[h.key].(references := 0, place := At(next))];
        next := next + 1;
      } else {
        ReleaseShared(before, history, next, handles, valueOf, capacity, h);
      }
      handles := handles - multiset{h};
      defined := true;
    }

    lemma HasReferences(h: Handle<K>)
      requires Valid() && h in handles
      ensures PointsInto(h, storage) && storage[h.key].references > 0 && |history| <= capacity
    {
    }

    lemma ReferencesInContents(k: K)
      ensures k in storage <==> k in Contents().references
      ensures k in storage ==> Contents().references[k] == storage[k].references
    {
    }

    /** cast_and_handle of one operation, with `rest` still to come. */
    method CastAndHandle(r: Request<K>, ghost rest: seq<Request<K>>) returns (given: seq<Handle<K>>, defined: bool)
      requires Valid() && Submitted([r] + rest, storage, handles)
      modifies this
      ensures defined <==> capacity > 0 || !LosesLast(old(Contents()), OpOf(r))
      ensures defined ==> Valid() && Submitted(rest, storage, handles)
      ensures defined ==> Contents() == Step(old(Contents()), OpOf(r), capacity)
      ensures defined ==> handles + multiset(Ended([r])) == old(handles) + multiset(given)
      ensures defined ==> Targets(given) == Used([r])
    {
      hide Good, Abstract, Released, Retrieved, Submitted, Survivors;
      SubmittedParts(r, rest, storage, handles);
      match r
      case Use(k) =>
        var h, isNew := Retrieve(k);
        given, defined := [h], true;
        StillSubmitted(rest, old(storage), storage, old(handles), handles);
      case EndOfUse(h) =>
        HasReferences(h);
        ReferencesInContents(h.key);
        defined := EndUsage(h);
        given := [];
        if defined {
          StillSubmitted(rest, old(storage), storage, handles, handles);
        }
    }

    /** handle_operations: the batch runs one operation at a time, and each retrieve gets its own handle. */
    method HandleOperations(requests: seq<Request<K>>) returns (given: seq<Handle<K>>, defined: bool)
      requires Valid() && Submitted(requests, storage, handles)
      modifies this
      ensures defined <==> Defined(old(Contents()), Ops(requests), capacity)
      ensures defined ==> Valid() && Contents() == After(old(Contents()), Ops(requests), capacity)
      ensures defined ==> handles + multiset(Ended(requests)) == old(handles) + multiset(given)
      ensures defined ==> Targets(given) == Used(requests)
    {
      hide Good, Abstract, Step, Ended, Used, Submitted, After, Targets, Ops, Defined, LosesLast;
      given, defined := [], true;
      var i := 0;
      NothingYet(Contents(), capacity);
      assert requests[..0] == [] && requests[0..] == requests;
      while i < |requests|
        invariant 0 <= i <= |requests|
        invariant Valid() && Submitted(requests[i..], storage, handles)
        invariant Defined(old(Contents()), Ops(requests[..i]), capacity)
        invariant Contents() == After(old(Contents()), Ops(requests[..i]), capacity)
        invariant handles + multiset(Ended(requests[..i])) == old(handles) + multiset(given)
        invariant Targets(given) == Used(requests[..i])
      {
        assert requests[i..] == [requests[i]] + requests[i + 1..];
        ghost var now := handles;
        AfterOneMore(old(Contents()), requests[..i], requests[i], capacity);
        assert requests[..i + 1] == requests[..i] + [requests[i]];
        var more, possible := CastAndHandle(requests[i], requests[i + 1..]);
        if !possible {
          StaysUndefined(old(Contents()), requests, i + 1, capacity);
          return given, false;
        }
        OneMoreRequest(requests[..i], requests[i], given, more);
        Balance(old(handles), multiset(given), multiset(Ended(requests[..i])), now,
                multiset(more), multiset(Ended([requests[i]])), handles);
        given := given + more;
        i := i + 1;
      }
      assert requests[..i] == requests;
    }
  }

  /** The undefined case: without history items the first handle given back is the last one. */
  method WithoutHistory<K(==,!new), V>(f: K -> V, blank: V, k: K) returns (defined: bool)
    ensures !defined
  {
    var cache := new Cache<K, V>(f, 0, blank);
    var h, isNew := cache.Retrieve(k);
    cache.ReferencesInContents(k);
    cache.Publish(h);
    defined := cache.EndUsage(h);
  }
}
