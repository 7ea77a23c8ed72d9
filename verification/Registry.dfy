/** The registry as a value: who is connected, with which compression, last heard from when, and the three views
    that the rest of the server derives from it. */
module Registry {
  import opened AudioTypes

  datatype Client = Client(compression: Compression, lastContact: int)
  type ClientMap = map<Address, Client>

  datatype ClientInfo = ClientInfo(address: Address, compression: Compression)

  // ---- The operations, as updates of one map -------------------------------------------------

  function Added(reg: ClientMap, a: Address, c: Compression, now: int): ClientMap {
    reg[a := Client(c, now)]
  }

  function Recompressed(reg: ClientMap, a: Address, c: Compression): ClientMap {
    if a in reg then reg[a := Client(c, reg[a].lastContact)] else reg
  }

  function Kept(reg: ClientMap, a: Address, now: int): ClientMap {
    if a in reg then reg[a := Client(reg[a].compression, now)] else reg
  }

  function Removed(reg: ClientMap, a: Address): ClientMap {
    reg - {a}
  }

  function Maintained(reg: ClientMap, now: int, timeout: int): ClientMap {
    map a | a in reg && now - reg[a].lastContact <= timeout :: reg[a]
  }

  /** What listeners are told about: address to compression, without the contact times. */
  function Formats(reg: ClientMap): map<Address, Compression> {
    map a | a in reg :: reg[a].compression
  }

  function InUse(reg: ClientMap): set<Compression> {
    Formats(reg).Values
  }

  // ---- View 1: the list of client infos ------------------------------------------------------

  ghost predicate DistinctAddresses(infos: seq<ClientInfo>) {
    forall i, j :: 0 <= i < j < |infos| ==> infos[i].address != infos[j].address
  }

  /** `infos` lists every entry of `formats` once, in some order, and nothing else. */
  ghost predicate Lists(infos: seq<ClientInfo>, formats: map<Address, Compression>) {
    && DistinctAddresses(infos)
    && (forall x :: x in infos ==> x.address in formats && formats[x.address] == x.compression)
    && (forall a :: a in formats ==> ClientInfo(a, formats[a]) in infos)
  }

  ghost function Wanted(infos: seq<ClientInfo>): set<Compression> {
    set x | x in infos :: x.compression
  }

  lemma WantedSnoc(infos: seq<ClientInfo>, x: ClientInfo)
    ensures Wanted(infos + [x]) == Wanted(infos) + {x.compression}
  {
  }

  lemma WantedIsInUse(infos: seq<ClientInfo>, formats: map<Address, Compression>)
    requires Lists(infos, formats)
    ensures Wanted(infos) == formats.Values
  {
  }

  // ---- View 2: addresses partitioned by compression ------------------------------------------

  ghost predicate NoDuplicates<T>(s: seq<T>) {
    forall i, j :: 0 <= i < j < |s| ==> s[i] != s[j]
  }

  ghost predicate Files(cache: map<Compression, seq<Address>>, a: Address, c: Compression) {
    c in cache && a in cache[c]
  }

  ghost predicate Uses(formats: map<Address, Compression>, a: Address, c: Compression) {
    a in formats && formats[a] == c
  }

  /** Exactly the compressions in use are keys, and each key holds its clients' addresses, each once. */
  ghost predicate Partitions(cache: map<Compression, seq<Address>>, formats: map<Address, Compression>) {
    && cache.Keys == formats.Values
    && (forall c :: c in cache ==> NoDuplicates(cache[c]))
    && (forall a, c :: Files(cache, a, c) <==> Uses(formats, a, c))
  }

  /** Building the partition one info at a time, pushing each address to the front of its list. */
  function Grouped(infos: seq<ClientInfo>): (cache: map<Compression, seq<Address>>)
    ensures cache.Keys == Wanted(infos)
  {
    if infos == [] then map[]
    else
      var last := infos[|infos| - 1];
      assert infos == infos[..|infos| - 1] + [last];
      var cache := Grouped(infos[..|infos| - 1]);
      cache[last.compression := [last.address] + (if last.compression in cache then cache[last.compression] else [])]
  }

  lemma {:induction false} GroupedMembers(infos: seq<ClientInfo>, c: Compression, a: Address)
    ensures Files(Grouped(infos), a, c) <==> ClientInfo(a, c) in infos
  {
    if infos != [] {
      var rest, last := infos[..|infos| - 1], infos[|infos| - 1];
      assert infos == rest + [last];
      GroupedMembers(rest, c, a);
    }
  }

  lemma {:induction false} GroupedDistinct(infos: seq<ClientInfo>, c: Compression)
    requires DistinctAddresses(infos) && c in Grouped(infos)
    ensures NoDuplicates(Grouped(infos)[c])
  {
    var rest, last := infos[..|infos| - 1], infos[|infos| - 1];
    if c in Grouped(rest) {
      GroupedDistinct(rest, c);
      GroupedMembers(rest, c, last.address);
    }
  }

  lemma GroupedExactly(infos: seq<ClientInfo>, formats: map<Address, Compression>, a: Address, c: Compression)
    requires Lists(infos, formats)
    ensures Files(Grouped(infos), a, c) <==> Uses(formats, a, c)
  {
    GroupedMembers(infos, c, a);
    if ClientInfo(a, c) in infos {
      assert ClientInfo(a, c).address in formats;
    }
  }

  /** The partition built from any list of a map is a partition of that map. */
  lemma GroupedPartitions(infos: seq<ClientInfo>, formats: map<Address, Compression>)
    requires Lists(infos, formats)
    ensures Partitions(Grouped(infos), formats)
  {
    var cache := Grouped(infos);
    assert cache.Keys == formats.Values by { WantedIsInUse(infos, formats); }
    forall c | c in cache ensures NoDuplicates(cache[c]) {
      GroupedDistinct(infos, c);
    }
    forall a, c ensures Files(cache, a, c) <==> Uses(formats, a, c) {
      GroupedExactly(infos, formats, a, c);
    }
  }

  /** A partition has no empty list, and files each client under its own compression only. */
  lemma PartitionIsExact(cache: map<Compression, seq<Address>>, formats: map<Address, Compression>)
    requires Partitions(cache, formats)
    ensures forall c :: c in cache ==> cache[c] != []
  {
    forall c | c in cache ensures cache[c] != [] {
      var a :| a in formats && formats[a] == c;
      assert Uses(formats, a, c) && Files(cache, a, c);
    }
  }

  /** The addresses of a list are the keys of the map it lists. */
  lemma ListedAddresses(infos: seq<ClientInfo>, formats: map<Address, Compression>, addresses: seq<Address>)
    requires Lists(infos, formats) && |addresses| == |infos|
    requires forall i :: 0 <= i < |infos| ==> addresses[i] == infos[i].address
    ensures NoDuplicates(addresses) && forall a :: a in addresses <==> a in formats
  {
  }

  // ---- View 3: the compressions that need an encoder -----------------------------------------

  /** The cardinality shortcut: no compression is new and as many exist as there are keys, exactly when the two
      sets are the same. */
  lemma ShortcutIsExact(keys: set<Compression>, wanted: set<Compression>)
    ensures (wanted - keys == {} && |wanted * keys| == |keys|) <==> wanted == keys
  {
    assert wanted == keys ==> wanted * keys == keys;
    if wanted - keys == {} && |wanted * keys| == |keys| {
      assert wanted * keys <= keys && keys - wanted * keys == keys - wanted;
      assert |keys - wanted| == |keys| - |wanted * keys|;
      assert keys - wanted == {};
      assert wanted == (wanted - keys) + (wanted * keys);
    }
  }

  lemma ShrinkingNeedsNothingNew(reg: ClientMap, now: int, timeout: int, a: Address)
    ensures InUse(Maintained(reg, now, timeout)) <= InUse(reg)
    ensures InUse(Removed(reg, a)) <= InUse(reg)
  {
    var m, r := Maintained(reg, now, timeout), Removed(reg, a);
    forall c | c in InUse(m) ensures c in InUse(reg) {
      var x :| x in Formats(m) && Formats(m)[x] == c;
      assert x in Formats(reg) && Formats(reg)[x] == c;
    }
    forall c | c in InUse(r) ensures c in InUse(reg) {
      var x :| x in Formats(r) && Formats(r)[x] == c;
      assert x in Formats(reg) && Formats(reg)[x] == c;
    }
  }
}
