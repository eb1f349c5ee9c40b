/** Finding an address by prefix: the router's table and the promises of the network
    (networks/beaconnet/router.go, src/mesh256/routers/routers.go). */
module FindAddr {
  import opened Bits
  import B = Bitstr
  import opened Prefix
  import opened Wrappers

  predicate IsZero(a: Address) {
    forall i :: 0 <= i < |a| ==> a[i] == 0
  }

  /** No address of the table has the prefix, or the zero address does, which cannot be told from none. */
  ghost predicate NoneFound(table: seq<Address>, prefix: seq<uint8>, nbits: int) {
    forall a :: a in table && Prefixed(a, prefix, nbits) ==>
      exists z :: z in table && Prefixed(z, prefix, nbits) && IsZero(z)
  }

  /** The first address of the table, in the order of iteration, that has the prefix. */
  method RouterFindAddr(table: seq<Address>, prefix: seq<uint8>, nbits: int) returns (r: Option<Address>)
    ensures r.Some? ==> r.value in table && Prefixed(r.value, prefix, nbits) && !IsZero(r.value)
    ensures r.None? ==> NoneFound(table, prefix, nbits)
    ensures r.Some? ==> exists i :: 0 <= i < |r.value| && r.value[i] != 0
    ensures forall k :: (
      0 <= k < |table| && Prefixed(table[k], prefix, nbits) && (forall j :: 0 <= j < k ==> !Prefixed(table[j], prefix, nbits))
      ==> r == if forall i :: 0 <= i < |table[k]| ==> table[k][i] == 0 then None else Some(table[k]))
  {
    for i := 0 to |table|
      invariant forall j :: 0 <= j < i ==> !Prefixed(table[j], prefix, nbits)
    {
      var ok := HasPrefix(table[i], prefix, nbits);
      if ok {
        return if IsZero(table[i]) then None else Some(table[i]);
      }
    }
    r := None;
  }

  /** Address a starts with the bits of a key. */
  ghost predicate HasKey(a: Address, key: B.BitString) {
    B.Canonical(key) && B.BitsOf(B.OfString(key)) <= MsbBits(a)
  }

  /** Fulfilled promises hold addresses that have the bits they were made for. */
  ghost predicate Sound(keys: seq<B.BitString>, promises: seq<Option<Address>>) {
    && |keys| == |promises|
    && (forall i :: 0 <= i < |keys| && promises[i].Some? ==> HasKey(promises[i].value, keys[i]))
  }

  /** Between two states of the promises, only promises that were open and whose bits the address
      has were fulfilled, and with that address. */
  ghost predicate OnlyOffered(keys: seq<B.BitString>, was: seq<Option<Address>>, now: seq<Option<Address>>, a: Address) {
    && |now| == |was| == |keys|
    && forall i :: 0 <= i < |was| && now[i] != was[i] ==> now[i] == Some(a) && was[i].None? && HasKey(a, keys[i])
  }

  lemma OfferedSound(keys: seq<B.BitString>, was: seq<Option<Address>>, now: seq<Option<Address>>, a: Address)
    requires Sound(keys, was) && OnlyOffered(keys, was, now, a)
    ensures Sound(keys, now)
  {}

  /** A reported address has been offered to all keys of the store but those still to do. */
  ghost predicate OfferedTo(store: map<B.BitString, nat>, todo: set<B.BitString>, keys: seq<B.BitString>,
                            was: seq<Option<Address>>, now: seq<Option<Address>>, a: Address)
  {
    && OnlyOffered(keys, was, now, a)
    && (forall k :: k in store ==> store[k] < |keys| && keys[store[k]] == k)
    && (forall k :: k in store && k !in todo && HasKey(a, k) ==> now[store[k]].Some?)
  }

  lemma OfferedNext(store: map<B.BitString, nat>, todo: set<B.BitString>, keys: seq<B.BitString>,
                    was: seq<Option<Address>>, now: seq<Option<Address>>, a: Address, k: B.BitString)
    requires OfferedTo(store, todo, keys, was, now, a) && k in todo && k in store
    ensures var fulfils := HasKey(a, k) && now[store[k]].None?;
      var next := if fulfils then now[store[k] := Some(a)] else now;
      OfferedTo(store, todo - {k}, keys, was, next, a) && (next != was <==> (fulfils || now != was))
  {
    if HasKey(a, k) && now[store[k]].None? {
      assert now[store[k] := Some(a)][store[k]] != was[store[k]];
    }
  }

  /** The key of a request. */
  ghost predicate KeyFor(key: B.BitString, prefix: seq<uint8>, nbits: nat) {
    && B.Canonical(key)
    && B.Readable(B.BytesMSB(prefix, 0, nbits))
    && B.BitsOf(B.OfString(key)) == B.BitsOf(B.BytesMSB(prefix, 0, nbits))
  }

  /** A request for at least one bit gets an address that has the prefix, by either test. */
  lemma FulfilledHasPrefix(keys: seq<B.BitString>, promises: seq<Option<Address>>, id: nat, prefix: seq<uint8>, nbits: nat)
    requires Sound(keys, promises) && id < |keys| && KeyFor(keys[id], prefix, nbits)
    requires 0 < nbits && promises[id].Some?
    ensures Prefixed(promises[id].value, prefix, nbits)
  {
    SourceBits(prefix, 0, nbits);
    PrefixTestsAgree(promises[id].value, prefix, nbits);
  }

  lemma PrefixedHasKey(key: B.BitString, prefix: seq<uint8>, nbits: nat, a: Address)
    requires KeyFor(key, prefix, nbits) && 0 < nbits && Prefixed(a, prefix, nbits)
    ensures HasKey(a, key)
  {
    SourceBits(prefix, 0, nbits);
    PrefixTestsAgree(a, prefix, nbits);
  }

  /** Zero bits are different: such a request has the key of a request for the whole prefix, and
      the router answers it with any address.  So a request for the whole prefix that shares the
      promise can be given an address without that prefix. */
  lemma ZeroBitsMislead(key: B.BitString, prefix: seq<uint8>, a: Address)
    requires prefix != [] && KeyFor(key, prefix, 0) && !(MsbBits(prefix) <= MsbBits(a))
    ensures Prefixed(a, prefix, 0)
    ensures KeyFor(key, prefix, |prefix| * 8)
    ensures !Prefixed(a, prefix, |prefix| * 8)
  {
    SourceBits(prefix, 0, |prefix| * 8);
    assert MsbBits(prefix)[..|prefix| * 8] == MsbBits(prefix);
    assert B.BitsOf(B.BytesMSB(prefix, 0, 0)) == B.BitsOf(B.BytesMSB(prefix, 0, |prefix| * 8));
  }

  method AddressString(a: Address) returns (bs: B.BitString)
    ensures B.Canonical(bs) && B.BitsOf(B.OfString(bs)) == MsbBits(a)
  {
    SourceBits(a, 0, 256);
    assert MsbBits(a)[0..256] == MsbBits(a);
    bs := B.FromSource(B.BytesMSB(a, 0, 256));
  }

  /** The bit-by-bit test of a reported address against a key. */
  method HasKeyBits(bs: B.BitString, target: Address, key: B.BitString) returns (has: bool)
    requires B.Canonical(bs) && B.BitsOf(B.OfString(bs)) == MsbBits(target) && B.Canonical(key)
    ensures has <==> HasKey(target, key)
  {
    has := B.HasPrefix(B.OfString(bs), B.OfString(key));
  }

  /** The promises of FindAddr calls.  A promise is kept by number, so that a call can go on
      waiting for it after another call has deleted its key. */
  class Network {
    var store: map<B.BitString, nat>
    var promises: seq<Option<Address>>
    ghost var keys: seq<B.BitString>

    ghost predicate Valid()
      reads this
    {
      && |keys| == |promises|
      && (forall k :: k in store ==> B.Canonical(k) && store[k] < |keys| && keys[store[k]] == k)
    }

    constructor ()
      ensures Valid() && Sound(keys, promises)
    {
      store, promises, keys := map[], [], [];
    }

    /** Start of a call: the promise for its bits, made now or by an earlier call. */
    method GetOrCreate(prefix: seq<uint8>, nbits: nat) returns (id: nat, key: B.BitString, created: bool)
      requires Valid() && B.Readable(B.BytesMSB(prefix, 0, nbits))
      modifies this
      ensures Valid() && old(promises) <= promises && old(keys) <= keys
      ensures KeyFor(key, prefix, nbits)
      ensures id < |keys| && keys[id] == key && key in store && store[key] == id
      ensures created <==> key !in old(store)
      ensures old(Sound(keys, promises)) ==> Sound(keys, promises)
    {
      key := B.FromSource(B.BytesMSB(prefix, 0, nbits));
      created := key !in store;
      if created {
        store, promises, keys := store[key := |promises|], promises + [None], keys + [key];
      }
      id := store[key];
    }

    /** A promise is fulfilled at most once. */
    method Succeed(id: nat, a: Address) returns (ok: bool)
      requires Valid() && id < |promises|
      modifies this`promises
      ensures Valid() && ok == old(promises)[id].None?
      ensures promises == if ok then old(promises)[id := Some(a)] else old(promises)
    {
      ok := promises[id].None?;
      if ok {
        promises := promises[id := Some(a)];
      }
    }

    /** One try of the retry loop of FindAddr. */
    method AskRouter(id: nat, table: seq<Address>, prefix: seq<uint8>, nbits: nat)
      requires Valid() && id < |promises| && KeyFor(keys[id], prefix, nbits)
      modifies this`promises
      ensures Valid()
      ensures old(Sound(keys, promises)) && nbits > 0 ==> Sound(keys, promises)
      ensures forall i :: 0 <= i < |promises| && i != id ==> promises[i] == old(promises)[i]
      ensures promises[id].None? ==> NoneFound(table, prefix, nbits)
      ensures promises[id] != old(promises)[id] ==>
        old(promises)[id].None? && promises[id].value in table && Prefixed(promises[id].value, prefix, nbits)
    {
      var r := RouterFindAddr(table, prefix, nbits);
      if r.Some? {
        if nbits > 0 { PrefixedHasKey(keys[id], prefix, nbits, r.value); }
        var _ := Succeed(id, r.value);
      }
    }

    /** Offers a reported address to the promise of key k. */
    method Offer(k: B.BitString, bs: B.BitString, target: Address) returns (ok: bool)
      requires Valid() && k in store
      requires B.Canonical(bs) && B.BitsOf(B.OfString(bs)) == MsbBits(target)
      modifies this`promises
      ensures Valid() && ok == (HasKey(target, k) && old(promises)[store[k]].None?)
      ensures promises == if ok then old(promises)[store[k] := Some(target)] else old(promises)
    {
      ok := false;
      var has := HasKeyBits(bs, target, k);
      if has {
        ok := Succeed(store[k], target);
      }
    }

    /** The router reports an address: every open promise whose bits it has is fulfilled, and no
        other promise changes.  The result tells whether there was one. */
    method HandleAddr(target: Address) returns (ret: bool)
      requires Valid()
      modifies this`promises
      ensures Valid()
      ensures forall k :: k in store && HasKey(target, k) ==> promises[store[k]].Some?
      ensures OnlyOffered(keys, old(promises), promises, target)
      ensures old(Sound(keys, promises)) ==> Sound(keys, promises)
      ensures ret <==> promises != old(promises)
    {
      var bs := AddressString(target);
      ghost var was := promises;
      ret := false;
      var todo := store.Keys;
      while todo != {}
        invariant todo <= store.Keys && Valid()
        invariant OfferedTo(store, todo, keys, was, promises, target)
        invariant ret <==> promises != was
        decreases todo
      {
        var k :| k in todo;
        OfferedNext(store, todo, keys, was, promises, target, k);
        todo := todo - {k};
        var ok := Offer(k, bs, target);
        ret := ret || ok;
      }
      if Sound(keys, was) { OfferedSound(keys, was, promises, target); }
    }

    /** End of the call that made the promise. */
    method Delete(key: B.BitString, id: nat)
      requires Valid()
      modifies this`store
      ensures Valid()
      ensures store == if key in old(store) && old(store)[key] == id then old(store) - {key} else old(store)
    {
      if key in store && store[key] == id {
        store := store - {key};
      }
    }
  }
}
