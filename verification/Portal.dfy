/** The address cache of the IPv6 portal (src/inet256ipv6/portal.go). */
module Portal {
  import opened Bits
  import opened Prefix
  import opened AddrMap
  import opened Wrappers

  const CACHE_ENTRY_TTL: nat := 600_000_000_000

  datatype CacheEntry = CacheEntry(addr: Address, createdAt: nat)

  type Cache = map<IPv6, CacheEntry>

  /** FindAddr: an address for a prefix and a number of bits, or an error. */
  type Finder = (seq<uint8>, nat) -> Option<Address>

  /** Whatever FindAddr finds has the prefix asked for. */
  ghost predicate Sound(find: Finder) {
    forall prefix: seq<uint8>, nbits: nat :: find(prefix, nbits).Some? ==> Prefixed(find(prefix, nbits).value, prefix, nbits)
  }

  /** Every cached address maps back to the IPv6 address it is cached for. */
  ghost predicate Agrees(cache: Cache) {
    forall ip :: ip in cache ==> IPv6Of(cache[ip].addr) == Some(ip)
  }

  // ----- Runs of the cache

  /** The atomic operations of the concurrent map: LoadOrStore and Delete. */
  datatype Op = LoadOrStore(ip: IPv6, entry: CacheEntry) | Delete(ip: IPv6)

  function Step(cache: Cache, op: Op): Cache {
    match op
    case LoadOrStore(ip, e) => if ip in cache then cache else cache[ip := e]
    case Delete(ip) => cache - {ip}
  }

  function After(cache: Cache, run: seq<Op>): Cache {
    if run == [] then cache else Step(After(cache, run[..|run| - 1]), run[|run| - 1])
  }

  /** The entry stored was found for its own IPv6 address by a sound FindAddr. */
  ghost predicate FoundFor(op: Op) {
    op.LoadOrStore? ==>
      && PrefixFor(V6(op.ip, false)).Found?
      && Prefixed(op.entry.addr, PrefixFor(V6(op.ip, false)).prefix, PrefixFor(V6(op.ip, false)).nbits)
  }

  lemma FoundMapsBack(addr: Address, ip: IPv6)
    requires PrefixFor(V6(ip, false)).Found?
    requires Prefixed(addr, PrefixFor(V6(ip, false)).prefix, PrefixFor(V6(ip, false)).nbits)
    ensures IPv6Of(addr) == Some(ip)
  {
    ExactInverse(addr, V6(ip, false));
  }

  /** Insertions and deletions may interleave in any way. */
  lemma {:induction false} RunAgrees(cache: Cache, run: seq<Op>)
    requires Agrees(cache)
    requires forall i :: 0 <= i < |run| ==> FoundFor(run[i])
    ensures Agrees(After(cache, run))
    decreases |run|
  {
    if run != [] {
      var op := run[|run| - 1];
      RunAgrees(cache, run[..|run| - 1]);
      if op.LoadOrStore? { FoundMapsBack(op.entry.addr, op.ip); }
    }
  }

  // ----- The portal

  datatype Outbound = Sent(dst: Address) | BadDestination | NotFound

  datatype Inbound = Accepted | WrongSource | Panic

  class Portal {
    var cache: Cache

    constructor ()
      ensures cache == map[] && Agrees(cache)
    {
      cache := map[];
    }

    method GetEntry(ip: IPv6) returns (e: Option<CacheEntry>)
      ensures e == if ip in cache then Some(cache[ip]) else None
    {
      e := if ip in cache then Some(cache[ip]) else None;
    }

    method PutEntry(ip: IPv6, e: CacheEntry)
      modifies this
      ensures cache == if ip in old(cache) then old(cache) else old(cache)[ip := e]
      ensures cache == Step(old(cache), LoadOrStore(ip, e))
    {
      if ip !in cache {
        cache := cache[ip := e];
      }
    }

    /** A packet for `ip` goes to an address that maps to `ip`, from the cache or freshly found. */
    method HandleOutbound(ip: IPv6, find: Finder, now: nat) returns (r: Outbound)
      modifies this
      ensures Sound(find) && old(Agrees(cache)) ==>
        Agrees(cache) && (r.Sent? ==> IPv6Of(r.dst) == Some(ip))
      ensures ip in old(cache) ==> r == Sent(old(cache)[ip].addr) && cache == old(cache)
      ensures ip !in old(cache) ==>
        var p := PrefixFor(V6(ip, false));
        if p.Found? && find(p.prefix, p.nbits).Some?
        then r == Sent(find(p.prefix, p.nbits).value) && cache == old(cache)[ip := CacheEntry(r.dst, now)]
        else r == (if p.Found? then NotFound else BadDestination) && cache == old(cache)
    {
      var e := GetEntry(ip);
      if e.Some? {
        r := Sent(e.value.addr);
      } else {
        var p := INET256PrefixFromIPv6(V6(ip, false));
        if !p.Found? {
          return BadDestination;
        }
        var dst := find(p.prefix, p.nbits);
        if dst.None? {
          return NotFound;
        }
        if Prefixed(dst.value, p.prefix, p.nbits) { FoundMapsBack(dst.value, ip); }
        PutEntry(ip, CacheEntry(dst.value, now));
        r := Sent(dst.value);
      }
    }

    /** A packet is accepted exactly when its IPv6 source is the one of its INET256 sender. */
    method HandleInbound(src: Address, headerSrc: IPv6) returns (r: Inbound)
      ensures r.Accepted? <==> IPv6Of(src) == Some(headerSrc)
      ensures r.Panic? <==> FirstOne(MsbBits(src)) >= 128
    {
      var srcIP := IPv6FromINET256(src);
      if srcIP.None? {
        return Panic;
      }
      r := if headerSrc == srcIP.value then Accepted else WrongSource;
    }

    /** One round of expiry drops exactly the entries older than the TTL. */
    method Expire(now: nat)
      modifies this
      ensures cache == map ip | ip in old(cache) && now - old(cache)[ip].createdAt <= CACHE_ENTRY_TTL :: old(cache)[ip]
      ensures old(Agrees(cache)) ==> Agrees(cache)
    {
      var todo := cache.Keys;
      while todo != {}
        invariant todo <= old(cache).Keys
        invariant cache == map ip | ip in old(cache)
                                  && (ip in todo || now - old(cache)[ip].createdAt <= CACHE_ENTRY_TTL) :: old(cache)[ip]
        decreases todo
      {
        var ip :| ip in todo;
        todo := todo - {ip};
        if now - cache[ip].createdAt > CACHE_ENTRY_TTL {
          cache := cache - {ip};
        }
      }
    }
  }

  /** A reply to an accepted packet, from a cache that agrees, goes to an address with the same
      IPv6 address as the sender, though not always to the sender: that IPv6 address shows
      only part of its bits. */
  lemma ReplyReaches(cache: Cache, src: Address, headerSrc: IPv6)
    requires Agrees(cache) && headerSrc in cache && IPv6Of(src) == Some(headerSrc)
    ensures IPv6Of(cache[headerSrc].addr) == IPv6Of(src)
    ensures var p := PrefixFor(V6(headerSrc, false));
      p.Found? && Prefixed(cache[headerSrc].addr, p.prefix, p.nbits) && Prefixed(src, p.prefix, p.nbits)
  {
    ImageInNetwork(src);
    ExactInverse(src, V6(headerSrc, false));
    ExactInverse(cache[headerSrc].addr, V6(headerSrc, false));
  }
}
