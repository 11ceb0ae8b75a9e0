/** The origin's cache storage as values: the store names in the order the
    stores were created (the order `caches.keys()` reports and `caches.match`
    searches), and a map from each name to its store. A store maps a request
    URL to a cached response; writing a URL again overwrites its entry. */
module Storage {
  import opened Http

  type Store = map<string, Response>

  /** No name is listed twice. */
  ghost predicate Distinct(names: seq<string>)
    decreases |names|
  {
    names == [] || (names[0] !in names[1..] && Distinct(names[1..]))
  }

  lemma {:induction false} DistinctAppend(names: seq<string>, name: string)
    requires Distinct(names) && name !in names
    ensures Distinct(names + [name])
    decreases |names|
  {
    if names != [] {
      DistinctAppend(names[1..], name);
      assert (names + [name])[1..] == names[1..] + [name];
    }
  }

  /** In a list without repeats, the name at position `i` occurs neither
      before nor after it. */
  lemma {:induction false} DistinctAt(names: seq<string>, i: nat)
    requires Distinct(names) && i < |names|
    ensures names[i] !in names[..i] && names[i] !in names[i + 1..]
    decreases i
  {
    if i > 0 {
      var tail := names[1..];
      DistinctAt(tail, i - 1);
      assert tail[i - 1] == names[i];
      assert names[..i] == [names[0]] + tail[..i - 1];
      assert tail[i..] == names[i + 1..];
      assert names[i] in tail;
    }
  }

  /** Every store is listed exactly once, and only existing stores are listed. */
  ghost predicate Consistent(names: seq<string>, stores: map<string, Store>) {
    (forall n :: n in names <==> n in stores) && Distinct(names)
  }

  /** The contents of store `name`; a store that does not exist yet reads as empty. */
  function StoreOf(stores: map<string, Store>, name: string): Store {
    if name in stores then stores[name] else map[]
  }

  /** The name list after `caches.open(name)`: a new store is listed last. */
  function Opened(names: seq<string>, name: string): seq<string> {
    if name in names then names else names + [name]
  }

  /** The stores after `caches.open(name)`: an absent store is created empty. */
  function Opening(stores: map<string, Store>, name: string): map<string, Store> {
    if name in stores then stores else stores[name := map[]]
  }

  /** The stores after opening `name` and putting `response` under `url`. */
  function WithEntry(stores: map<string, Store>, name: string, url: string, response: Response): map<string, Store> {
    stores[name := StoreOf(stores, name)[url := response]]
  }

  /** Opening a store keeps the name list and the stores in step. */
  lemma OpenKeepsConsistent(names: seq<string>, stores: map<string, Store>, name: string)
    requires Consistent(names, stores)
    ensures Consistent(Opened(names, name), Opening(stores, name))
  {
    if name !in names {
      DistinctAppend(names, name);
    }
  }

  /** Opening a store and writing into it keeps the name list and the stores
      in step. */
  lemma WriteKeepsConsistent(names: seq<string>, stores: map<string, Store>, name: string, url: string, response: Response)
    requires Consistent(names, stores)
    ensures Consistent(Opened(names, name), WithEntry(stores, name, url, response))
  {
    if name !in names {
      DistinctAppend(names, name);
    }
  }

  /** The name list after `caches.delete(name)` succeeds. */
  function Without(names: seq<string>, name: string): seq<string>
    decreases |names|
  {
    if names == [] then []
    else if names[0] == name then Without(names[1..], name)
    else [names[0]] + Without(names[1..], name)
  }

  /** Deleting `name` removes it and keeps every other name. */
  lemma {:induction false} WithoutMembers(names: seq<string>, name: string)
    ensures forall n :: n in Without(names, name) <==> n in names && n != name
    decreases |names|
  {
    if names != [] {
      WithoutMembers(names[1..], name);
      assert names == [names[0]] + names[1..];
    }
  }

  lemma {:induction false} WithoutDistinct(names: seq<string>, name: string)
    requires Distinct(names)
    ensures Distinct(Without(names, name))
    decreases |names|
  {
    if names != [] {
      var tail := names[1..];
      WithoutDistinct(tail, name);
      WithoutMembers(tail, name);
      if names[0] != name {
        var r := Without(tail, name);
        assert ([names[0]] + r)[1..] == r;
      }
    }
  }

  /** Deleting a name that occurs once, between `front` and `back`, leaves
      the others in their order. */
  lemma {:induction false} WithoutSplit(front: seq<string>, name: string, back: seq<string>)
    requires name !in front && name !in back
    ensures Without(front + [name] + back, name) == front + back
    decreases |front|
  {
    var s := front + [name] + back;
    if front == [] {
      assert s[0] == name && s[1..] == back;
      WithoutAbsent(back, name);
    } else {
      assert s[0] == front[0] && s[1..] == front[1..] + [name] + back;
      WithoutSplit(front[1..], name, back);
      assert [front[0]] + (front[1..] + back) == front + back;
    }
  }

  lemma {:induction false} WithoutAbsent(names: seq<string>, name: string)
    requires name !in names
    ensures Without(names, name) == names
    decreases |names|
  {
    if names != [] {
      WithoutAbsent(names[1..], name);
      assert [names[0]] + names[1..] == names;
    }
  }

  /** The stores of `stores` whose names are listed in `names`, untouched. */
  function Restrict(stores: map<string, Store>, names: seq<string>): map<string, Store> {
    map n | n in names && n in stores :: stores[n]
  }

  /** In a consistent storage, restricting to the listed names keeps every store. */
  lemma RestrictListed(names: seq<string>, stores: map<string, Store>)
    requires Consistent(names, stores)
    ensures Restrict(stores, names) == stores
  {
  }

  /** Deleting `name` from the list drops exactly its store from the restriction. */
  lemma RestrictWithout(stores: map<string, Store>, names: seq<string>, name: string)
    ensures Restrict(stores, Without(names, name)) == Restrict(stores, names) - {name}
  {
    WithoutMembers(names, name);
  }

  /** `caches.match(url)`: the entry for `url` in the first store, in
      creation order, that has one. */
  function MatchIn(names: seq<string>, stores: map<string, Store>, url: string): (r: Option<Response>)
    ensures r.None? <==> forall n :: n in names && n in stores ==> url !in stores[n]
    ensures r.Some? ==> exists n :: n in names && n in stores && url in stores[n] && stores[n][url] == r.value
    decreases |names|
  {
    if names == [] then None
    else if names[0] in stores && url in stores[names[0]] then Some(stores[names[0]][url])
    else
      assert forall n :: n in names[1..] ==> n in names;
      assert forall n :: n in names ==> n == names[0] || n in names[1..];
      MatchIn(names[1..], stores, url)
  }

  /** The store searched first wins: if the store at position `i` has `url`
      and no earlier one does, its entry is the match. */
  lemma {:induction false} MatchFirst(names: seq<string>, stores: map<string, Store>, url: string, i: nat)
    requires i < |names| && names[i] in stores && url in stores[names[i]]
    requires forall j :: 0 <= j < i ==> names[j] !in stores || url !in stores[names[j]]
    ensures MatchIn(names, stores, url) == Some(stores[names[i]][url])
    decreases i
  {
    if i > 0 {
      MatchFirst(names[1..], stores, url, i - 1);
    }
  }

  /** A URL no store held, once written into store `name`, is matched to
      exactly the written response. */
  lemma MatchAfterFill(names: seq<string>, stores: map<string, Store>, name: string, url: string, response: Response)
    requires MatchIn(names, stores, url).None?
    ensures MatchIn(Opened(names, name), WithEntry(stores, name, url, response), url) == Some(response)
  {
    var names', stores' := Opened(names, name), WithEntry(stores, name, url, response);
    assert name in names' && name in stores' && url in stores'[name];
    var r := MatchIn(names', stores', url);
    var n :| n in names' && n in stores' && url in stores'[n] && stores'[n][url] == r.value;
  }

  /** Opening a store without writing into it cannot turn a miss into a hit:
      a newly created store is empty. */
  lemma MatchAfterOpen(names: seq<string>, stores: map<string, Store>, name: string, url: string)
    requires Consistent(names, stores)
    requires MatchIn(names, stores, url).None?
    ensures MatchIn(Opened(names, name), Opening(stores, name), url).None?
  {
    var names', stores' := Opened(names, name), Opening(stores, name);
    forall n | n in names' && n in stores' ensures url !in stores'[n] {
      if n !in stores {
        assert stores'[n] == map[];
      } else {
        assert n in names;
      }
    }
  }

  /** Once only store `name` can be listed, a match looks in that store alone. */
  lemma MatchSingleStore(names: seq<string>, stores: map<string, Store>, name: string, url: string)
    requires Consistent(names, stores)
    requires forall n :: n in names ==> n == name
    ensures MatchIn(names, stores, url) ==
      if name in stores && url in stores[name] then Some(stores[name][url]) else None
  {
    if name in stores && url in stores[name] {
      var r := MatchIn(names, stores, url);
      var n :| n in names && n in stores && url in stores[n] && stores[n][url] == r.value;
    }
  }
}
