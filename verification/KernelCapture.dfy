/**
 The two packet backends.  The per-packet path updates a host's accumulators packet by
 packet.  The kernel path bumps per-CPU map entries in the packet hook and drains them from
 user space, one key at a time, while packets keep arriving on other CPUs.

 A run is any interleaving of packet arrivals, drains of one key (read and delete in one
 step) and feeds of one drained total.  `BackendsAgreeIff`: once the maps and the drained
 sample are empty, both paths hold the same histograms and counters exactly when they agree
 on every packet, and then the same TTL moments for every host with at most 500 ingress
 packets.  The kernel stores IPv4 addresses in their IPv6-mapped form and reads every mapped
 address back as IPv4, while the per-packet path keeps the address of the packet's header;
 `RealPacketAgreesIff` says for which packets and configurations that matters.
 */
module KernelCapture {
  import opened Options
  import opened Welford
  import opened Entropy
  import opened Targets

  datatype Proto = Tcp | Udp | Icmp | Sctp | Gre | Esp | Other

  datatype Field = Ingress | Egress | ByProto(proto: Proto)

  /** One key of one of the kernel maps; a COUNTERS entry is one cell per field of its struct. */
  datatype Cell<A> =
    | Source(victim: A, source: A)
    | Port(victim: A, port: nat)
    | Ttl(victim: A, ttl: nat)
    | Fingerprint(victim: A, bucket: nat)
    | Counter(victim: A, field: Field)

  /** A parsed packet; an IPv6 header always gives an IPv6 address, also one that is IPv4-mapped. */
  datatype Packet = Packet(
    ingress: bool, dest: IpAddr, source: IpAddr, port: nat, ttl: nat, fingerprint: Option<nat>, proto: Proto)

  /** Which destinations each side keeps: the tries in the kernel, the configuration in user space. */
  datatype Filter = Filter(kernel: Addr -> bool, user: IpAddr -> bool)

  ghost predicate Sound(f: Filter) {
    forall a: Addr :: f.user(FromAddr(a)) ==> f.kernel(a)
  }

  function View(c: Cell<Addr>): Cell<IpAddr> {
    match c
    case Source(v, s) => Source(FromAddr(v), FromAddr(s))
    case Port(v, p) => Port(FromAddr(v), p)
    case Ttl(v, t) => Ttl(FromAddr(v), t)
    case Fingerprint(v, b) => Fingerprint(FromAddr(v), b)
    case Counter(v, fd) => Counter(FromAddr(v), fd)
  }

  /** Distinct kernel keys stay distinct in user space, so `insert` never overwrites a total. */
  lemma ViewInjective(c: Cell<Addr>, d: Cell<Addr>)
    requires View(c) == View(d)
    ensures c == d
  {
    hide FromAddr;
    FromAddrInjective(c.victim, d.victim);
    if c.Source? && d.Source? {
      FromAddrInjective(c.source, d.source);
    }
  }

  /** The key user space would read back as ic. */
  function Unview(ic: Cell<IpAddr>): Cell<Addr> {
    match ic
    case Source(v, s) => Source(ToAddr(v), ToAddr(s))
    case Port(v, p) => Port(ToAddr(v), p)
    case Ttl(v, t) => Ttl(ToAddr(v), t)
    case Fingerprint(v, b) => Fingerprint(ToAddr(v), b)
    case Counter(v, fd) => Counter(ToAddr(v), fd)
  }

  lemma UnviewView(c: Cell<Addr>)
    ensures Unview(View(c)) == c
  {
    hide FromAddr, ToAddr;
    StoredRoundTrip(c.victim);
    if c.Source? {
      StoredRoundTrip(c.source);
    }
  }

  // ----- the kernel hooks -----

  /** The entries a packet bumps in the kernel, where both families share one 16 byte form. */
  function KernelCells(p: Packet): seq<Cell<Addr>> {
    var dest, source := ToAddr(p.dest), ToAddr(p.source);
    if !p.ingress then [Counter(dest, Egress)]
    else
      [Counter(dest, Ingress), Counter(dest, ByProto(p.proto)), Source(dest, source), Port(dest, p.port), Ttl(dest, p.ttl)]
      + (if p.fingerprint.Some? then [Fingerprint(dest, p.fingerprint.value)] else [])
  }

  type PerCpu<!K> = map<K, seq<nat>>

  function CpuSum(s: seq<nat>): nat {
    if s == [] then 0 else CpuSum(s[..|s| - 1]) + s[|s| - 1]
  }

  lemma {:induction false} SumBump(s: seq<nat>, i: nat)
    requires i < |s|
    ensures CpuSum(s[i := s[i] + 1]) == CpuSum(s) + 1
  {
    var t := s[i := s[i] + 1];
    if i < |s| - 1 {
      SumBump(s[..|s| - 1], i);
      assert t[..|s| - 1] == s[..|s| - 1][i := s[i] + 1];
    } else {
      assert t[..|s| - 1] == s[..|s| - 1];
    }
  }

  lemma {:induction false} SumZeros(s: seq<nat>)
    requires forall i :: 0 <= i < |s| ==> s[i] == 0
    ensures CpuSum(s) == 0
  {
    if s != [] {
      SumZeros(s[..|s| - 1]);
    }
  }

  ghost predicate Sized<K>(m: PerCpu<K>, cpus: nat) {
    forall k :: k in m ==> |m[k]| == cpus
  }

  /** A key's total over all CPUs, 0 when it has no entry. */
  function OnCpus<K(==)>(m: PerCpu<K>, key: K): nat {
    if key in m then CpuSum(m[key]) else 0
  }

  /** One CPU adds one to its own slot; a first sight creates the key with zeros elsewhere. */
  function Bumped<K(==)>(m: PerCpu<K>, key: K, cpu: nat, cpus: nat): PerCpu<K>
    requires cpu < cpus && Sized(m, cpus)
  {
    var slots := if key in m then m[key] else seq(cpus, i => 0);
    m[key := slots[cpu := slots[cpu] + 1]]
  }

  lemma BumpedTotal<K>(m: PerCpu<K>, key: K, cpu: nat, cpus: nat, other: K)
    requires cpu < cpus && Sized(m, cpus)
    ensures Sized(Bumped(m, key, cpu, cpus), cpus)
    ensures OnCpus(Bumped(m, key, cpu, cpus), other) == OnCpus(m, other) + if other == key then 1 else 0
  {
    var zeros := seq(cpus, i => 0);
    SumZeros(zeros);
    SumBump(if key in m then m[key] else zeros, cpu);
  }

  /** A map shared by all CPUs, and the user space loop that empties it. */
  class PerCpuMap<K(==)> {
    var entries: PerCpu<K>
    const cpus: nat

    ghost predicate Valid()
      reads this
    {
      Sized(entries, cpus)
    }

    constructor (cpus: nat)
      ensures Valid() && entries == map[] && this.cpus == cpus
    {
      this.entries, this.cpus := map[], cpus;
    }

    method Bump(key: K, cpu: nat)
      requires Valid() && cpu < cpus
      modifies this
      ensures Valid() && entries == Bumped(old(entries), key, cpu, cpus)
    {
      var slots := if key in entries then entries[key] else seq(cpus, i => 0);
      var next := slots[cpu] + 1;
      entries := entries[key := slots[cpu := next]];
    }

    /** Every key's total over all CPUs moves to the sample under its user space name. */
    method Drain<V>(view: K -> V) returns (out: map<V, nat>)
      requires Valid() && forall j, k :: j in entries && k in entries && view(j) == view(k) ==> j == k
      modifies this
      ensures Valid() && entries == map[]
      ensures out.Keys == set k | k in old(entries) :: view(k)
      ensures forall k :: k in old(entries) ==> out[view(k)] == CpuSum(old(entries)[k])
    {
      out := map[];
      var keys := entries.Keys;
      while keys != {}
        invariant keys == entries.Keys && keys <= old(entries).Keys
        invariant forall k :: k in keys ==> entries[k] == old(entries)[k]
        invariant out.Keys == set k | k in old(entries) && k !in keys :: view(k)
        invariant forall k :: k in old(entries) && k !in keys ==> out[view(k)] == CpuSum(old(entries)[k])
        decreases |keys|
      {
        var key :| key in keys;
        out := out[view(key) := CpuSum(entries[key])];
        entries := entries - {key};
        keys := keys - {key};
      }
    }
  }

  // ----- user space -----

  /**
   What a host's accumulators hold: source, port and fingerprint histograms and packet
   counters by cell, and TTL moments by host.  TTL cells are in `counts` for the proof only.
   */
  datatype Accumulators = Accumulators(counts: map<Cell<IpAddr>, nat>, ttl: map<IpAddr, Moments>)

  const NOTHING := Accumulators(map[], map[])

  function At<K(==)>(counts: map<K, nat>, key: K): nat {
    if key in counts then counts[key] else 0
  }

  function MomentsOf(acc: Accumulators, v: IpAddr): Moments {
    if v in acc.ttl then acc.ttl[v] else EMPTY
  }

  /** User space keeps no counter for other protocols, and nothing for a host it does not protect. */
  predicate Kept(f: Filter, c: Cell<IpAddr>) {
    f.user(c.victim) && !(c.Counter? && c.field == ByProto(Other))
  }

  /** The accumulators a packet touches under these names, in the order the per-packet path touches them. */
  function CellsOf(p: Packet, victim: IpAddr, source: IpAddr): seq<Cell<IpAddr>> {
    if !p.ingress then [Counter(victim, Egress)]
    else
      [Source(victim, source), Counter(victim, Ingress), Port(victim, p.port), Ttl(victim, p.ttl)]
      + (if p.fingerprint.Some? then [Fingerprint(victim, p.fingerprint.value)] else [])
      + (if p.proto == Other then [] else [Counter(victim, ByProto(p.proto))])
  }

  /** The per-packet path counts under the packet's own addresses. */
  function PacketCells(f: Filter, p: Packet): seq<Cell<IpAddr>> {
    if f.user(p.dest) then CellsOf(p, p.dest, p.source) else []
  }

  function AddAll<K>(counts: map<K, nat>, cells: seq<K>): map<K, nat> {
    if cells == [] then counts
    else Added(AddAll(counts, cells[..|cells| - 1]), cells[|cells| - 1], 1)
  }

  function PacketStep(f: Filter, acc: Accumulators, p: Packet): Accumulators {
    var victim := p.dest;
    var ttl := if f.user(victim) && p.ingress
               then acc.ttl[victim := Updated(MomentsOf(acc, victim), p.ttl as real, MAX_N)]
               else acc.ttl;
    Accumulators(AddAll(acc.counts, PacketCells(f, p)), ttl)
  }

  /** A drained total reaches its accumulator: `add_packets`, `update_batch` or `+=`. */
  function FeedStep(f: Filter, acc: Accumulators, ic: Cell<IpAddr>, count: nat): Accumulators
    requires MomentsOf(acc, ic.victim).n <= MAX_N
  {
    if !Kept(f, ic) then acc
    else Accumulators(
      Added(acc.counts, ic, count),
      if ic.Ttl? then acc.ttl[ic.victim := Merged(MomentsOf(acc, ic.victim), ic.ttl as real, count, MAX_N)] else acc.ttl)
  }

  /** One host's accumulators, updated in place by either path. */
  class WindowState {
    const filter: Filter
    var counts: map<Cell<IpAddr>, nat>
    var ttl: map<IpAddr, Moments>

    constructor (filter: Filter)
      ensures this.filter == filter && Held() == NOTHING
    {
      this.filter, this.counts, this.ttl := filter, map[], map[];
    }

    function Held(): Accumulators
      reads this
    {
      Accumulators(counts, ttl)
    }

    /** The per-packet path. */
    method ObservePacket(p: Packet)
      modifies this
      ensures Held() == PacketStep(filter, old(Held()), p)
    {
      hide Updated, PacketCells;
      var victim, cells := p.dest, PacketCells(filter, p);
      for i := 0 to |cells|
        invariant counts == AddAll(old(counts), cells[..i]) && ttl == old(ttl)
      {
        assert cells[..i + 1][..i] == cells[..i];
        counts := Added(counts, cells[i], 1);
      }
      assert cells[..|cells|] == cells;
      if filter.user(victim) && p.ingress {
        ttl := ttl[victim := Updated(MomentsOf(Held(), victim), p.ttl as real, MAX_N)];
      }
    }

    /** One drained total of the kernel path. */
    method ObserveTotal(ic: Cell<IpAddr>, count: nat)
      requires MomentsOf(Held(), ic.victim).n <= MAX_N
      modifies this
      ensures Held() == FeedStep(filter, old(Held()), ic, count)
    {
      hide Merged;
      if Kept(filter, ic) {
        if ic.Ttl? {
          ttl := ttl[ic.victim := Merged(MomentsOf(Held(), ic.victim), ic.ttl as real, count, MAX_N)];
        }
        counts := Added(counts, ic, count);
      }
    }
  }

  // ----- runs -----

  datatype Event = Arrive(cpu: nat, packet: Packet) | Take(cell: Cell<Addr>) | Feed(ic: Cell<IpAddr>)

  datatype Capture = Capture(maps: PerCpu<Cell<Addr>>, sample: map<Cell<IpAddr>, nat>, acc: Accumulators)

  function BumpAll(m: PerCpu<Cell<Addr>>, cells: seq<Cell<Addr>>, cpu: nat, cpus: nat): (r: PerCpu<Cell<Addr>>)
    requires cpu < cpus && Sized(m, cpus)
    ensures Sized(r, cpus)
  {
    if cells == [] then m
    else Bumped(BumpAll(m, cells[..|cells| - 1], cpu, cpus), cells[|cells| - 1], cpu, cpus)
  }

  ghost predicate Wf(s: Capture, cpus: nat) {
    && Sized(s.maps, cpus)
    && forall v :: v in s.acc.ttl ==> s.acc.ttl[v].n <= MAX_N
  }

  /** A drain takes a key that is in its map and not yet in the sample. */
  predicate CanTake(s: Capture, c: Cell<Addr>) {
    c in s.maps && View(c) !in s.sample
  }

  function Step(f: Filter, cpus: nat, s: Capture, e: Event): (r: Capture)
    requires Wf(s, cpus) && (e.Arrive? ==> e.cpu < cpus)
    ensures Wf(r, cpus)
  {
    match e
    case Arrive(cpu, p) =>
      if f.kernel(ToAddr(p.dest)) then s.(maps := BumpAll(s.maps, KernelCells(p), cpu, cpus)) else s
    case Take(c) =>
      if CanTake(s, c) then s.(maps := s.maps - {c}, sample := s.sample[View(c) := CpuSum(s.maps[c])]) else s
    case Feed(ic) =>
      if ic in s.sample then s.(sample := s.sample - {ic}, acc := FeedStep(f, s.acc, ic, s.sample[ic])) else s
  }

  ghost predicate OnMachine(run: seq<Event>, cpus: nat) {
    forall i :: 0 <= i < |run| && run[i].Arrive? ==> run[i].cpu < cpus
  }

  ghost function After(f: Filter, cpus: nat, run: seq<Event>): (r: Capture)
    requires OnMachine(run, cpus)
    ensures Wf(r, cpus)
  {
    if run == [] then Capture(map[], map[], NOTHING)
    else Step(f, cpus, After(f, cpus, run[..|run| - 1]), run[|run| - 1])
  }

  /** The same packets, on the per-packet path. */
  ghost function PerPacket(f: Filter, run: seq<Event>): Accumulators {
    if run == [] then NOTHING
    else
      var acc := PerPacket(f, run[..|run| - 1]);
      var e := run[|run| - 1];
      if e.Arrive? then PacketStep(f, acc, e.packet) else acc
  }

  /** The name user space gives the stored form of an address. */
  function ReadBack(ip: IpAddr): IpAddr {
    FromAddr(ToAddr(ip))
  }

  /** What is left of a packet on the kernel path once drained: counted by the kernel, named and kept by user space. */
  function DrainedCells(f: Filter, p: Packet): seq<Cell<IpAddr>> {
    if f.kernel(ToAddr(p.dest)) && f.user(ReadBack(p.dest)) then CellsOf(p, ReadBack(p.dest), ReadBack(p.source)) else []
  }

  /** What the kernel path owes for the packets of a run. */
  ghost function Tally(f: Filter, run: seq<Event>): map<Cell<IpAddr>, nat> {
    if run == [] then map[]
    else
      var counts, e := Tally(f, run[..|run| - 1]), run[|run| - 1];
      if e.Arrive? then AddAll(counts, DrainedCells(f, e.packet)) else counts
  }

  // ----- conservation of every cell -----

  lemma {:induction false} AddAllAt<K>(counts: map<K, nat>, cells: seq<K>, key: K)
    ensures At(AddAll(counts, cells), key) == At(counts, key) + multiset(cells)[key]
  {
    if cells != [] {
      AddAllAt(counts, cells[..|cells| - 1], key);
      assert cells == cells[..|cells| - 1] + [cells[|cells| - 1]];
    }
  }

  lemma {:induction false} BumpAllAt(m: PerCpu<Cell<Addr>>, cells: seq<Cell<Addr>>, cpu: nat, cpus: nat, c: Cell<Addr>)
    requires cpu < cpus && Sized(m, cpus)
    ensures OnCpus(BumpAll(m, cells, cpu, cpus), c) == OnCpus(m, c) + multiset(cells)[c]
  {
    hide Bumped, OnCpus;
    if cells != [] {
      BumpAllAt(m, cells[..|cells| - 1], cpu, cpus, c);
      BumpedTotal(BumpAll(m, cells[..|cells| - 1], cpu, cpus), cells[|cells| - 1], cpu, cpus, c);
      assert cells == cells[..|cells| - 1] + [cells[|cells| - 1]];
    }
  }

  /** Whether a packet between these addresses counts in a cell. */
  predicate Touches<A(==)>(p: Packet, dest: A, source: A, c: Cell<A>) {
    c.victim == dest &&
    match c
    case Source(_, s) => p.ingress && s == source
    case Port(_, port) => p.ingress && port == p.port
    case Ttl(_, ttl) => p.ingress && ttl == p.ttl
    case Fingerprint(_, b) => p.ingress && p.fingerprint == Some(b)
    case Counter(_, fd) => if p.ingress then fd == Ingress || fd == ByProto(p.proto) else fd == Egress
  }

  lemma KernelTouches(p: Packet, c: Cell<Addr>)
    ensures multiset(KernelCells(p))[c] == if Touches(p, ToAddr(p.dest), ToAddr(p.source), c) then 1 else 0
  {
    hide ToAddr, KernelCells;
    KernelBag(p);
    var d, s := ToAddr(p.dest), ToAddr(p.source);
    CountFour(Source(d, s), Counter(d, Ingress), Port(d, p.port), Ttl(d, p.ttl), c);
  }

  ghost function One(b: bool): nat {
    if b then 1 else 0
  }

  lemma CountFour<T>(a: T, b: T, c: T, d: T, x: T)
    ensures multiset{a, b, c, d}[x] == One(a == x) + One(b == x) + One(c == x) + One(d == x)
  {
  }

  lemma KernelBag(p: Packet)
    ensures var d, s := ToAddr(p.dest), ToAddr(p.source);
            multiset(KernelCells(p)) ==
              if !p.ingress then multiset{Counter(d, Egress)}
              else multiset{Source(d, s), Counter(d, Ingress), Port(d, p.port), Ttl(d, p.ttl)} + multiset{Counter(d, ByProto(p.proto))}
                   + (if p.fingerprint.Some? then multiset{Fingerprint(d, p.fingerprint.value)} else multiset{})
  {
    hide ToAddr;
  }

  /** The cells of a packet under given names: each touched accumulator once, and none for other protocols. */
  lemma CellsTouch(p: Packet, victim: IpAddr, source: IpAddr, ic: Cell<IpAddr>)
    requires !(ic.Counter? && ic.field == ByProto(Other))
    ensures multiset(CellsOf(p, victim, source))[ic] == if Touches(p, victim, source, ic) then 1 else 0
  {
    hide CellsOf;
    CellsBag(p, victim, source);
    CountFour(Source(victim, source), Counter(victim, Ingress), Port(victim, p.port), Ttl(victim, p.ttl), ic);
  }

  lemma CellsBag(p: Packet, d: IpAddr, s: IpAddr)
    ensures multiset(CellsOf(p, d, s)) ==
              if !p.ingress then multiset{Counter(d, Egress)}
              else multiset{Source(d, s), Counter(d, Ingress), Port(d, p.port), Ttl(d, p.ttl)}
                   + (if p.fingerprint.Some? then multiset{Fingerprint(d, p.fingerprint.value)} else multiset{})
                   + (if p.proto == Other then multiset{} else multiset{Counter(d, ByProto(p.proto))})
  {
  }

  lemma CellNames(p: Packet, victim: IpAddr, source: IpAddr, ic: Cell<IpAddr>)
    requires ic in CellsOf(p, victim, source)
    ensures ic.victim == victim && (ic.Source? ==> ic.source == source) && !(ic.Counter? && ic.field == ByProto(Other))
  {
  }

  lemma PacketTouches(f: Filter, p: Packet, ic: Cell<IpAddr>)
    requires Kept(f, ic)
    ensures multiset(PacketCells(f, p))[ic] == if Touches(p, p.dest, p.source, ic) then 1 else 0
  {
    hide CellsOf;
    CellsTouch(p, p.dest, p.source, ic);
  }

  /** What a packet leaves behind on the kernel path is what it bumped, if the kernel counted it at all. */
  lemma BumpsDrain(f: Filter, p: Packet, c: Cell<Addr>)
    requires Kept(f, View(c))
    ensures multiset(DrainedCells(f, p))[View(c)] == if f.kernel(ToAddr(p.dest)) then multiset(KernelCells(p))[c] else 0
  {
    hide FromAddr, ToAddr, KernelCells, CellsOf;
    KernelTouches(p, c);
    CellsTouch(p, ReadBack(p.dest), ReadBack(p.source), View(c));
    FromAddrInjective(c.victim, ToAddr(p.dest));
    if c.Source? {
      FromAddrInjective(c.source, ToAddr(p.source));
    }
  }

  /** What the kernel path accounts for of one cell: fed, drained but not fed, still in the maps. */
  ghost function Accounted(s: Capture, c: Cell<Addr>): nat {
    At(s.acc.counts, View(c)) + At(s.sample, View(c)) + OnCpus(s.maps, c)
  }

  /** Every name in the sample and the accumulators was read back from a kernel key. */
  ghost predicate Named(s: Capture) {
    && (forall ic :: ic in s.sample ==> ic == View(Unview(ic)) && s.sample[ic] >= 1)
    && (forall c :: c in s.maps ==> CpuSum(s.maps[c]) >= 1)
    && (forall ic :: ic in s.acc.counts ==> s.acc.counts[ic] >= 1)
  }

  ghost predicate Balanced(f: Filter, s: Capture, counts: map<Cell<IpAddr>, nat>) {
    && (forall c: Cell<Addr> :: Kept(f, View(c)) ==> Accounted(s, c) == At(counts, View(c)))
    && (forall ic :: ic in s.acc.counts || ic in counts ==> Kept(f, ic) && ic == View(Unview(ic)))
    && (forall ic :: ic in counts ==> counts[ic] >= 1)
  }

  lemma {:induction false} AddAllKeys<K>(counts: map<K, nat>, cells: seq<K>)
    requires forall k :: k in counts ==> counts[k] >= 1
    ensures forall k :: k in AddAll(counts, cells) ==> AddAll(counts, cells)[k] >= 1 && (k in counts || k in cells)
  {
    if cells != [] {
      AddAllKeys(counts, cells[..|cells| - 1]);
      assert cells == cells[..|cells| - 1] + [cells[|cells| - 1]];
    }
  }

  lemma {:induction false} BumpAllPositive(m: PerCpu<Cell<Addr>>, cells: seq<Cell<Addr>>, cpu: nat, cpus: nat)
    requires cpu < cpus && Sized(m, cpus)
    requires forall c :: c in m ==> CpuSum(m[c]) >= 1
    ensures forall c :: c in BumpAll(m, cells, cpu, cpus) ==> CpuSum(BumpAll(m, cells, cpu, cpus)[c]) >= 1
  {
    if cells != [] {
      var prev := BumpAll(m, cells[..|cells| - 1], cpu, cpus);
      BumpAllPositive(m, cells[..|cells| - 1], cpu, cpus);
      forall c | c in BumpAll(m, cells, cpu, cpus)
        ensures CpuSum(BumpAll(m, cells, cpu, cpus)[c]) >= 1
      {
        BumpedTotal(prev, cells[|cells| - 1], cpu, cpus, c);
      }
    }
  }

  lemma DrainedNames(f: Filter, p: Packet, ic: Cell<IpAddr>)
    requires ic in DrainedCells(f, p)
    ensures Kept(f, ic) && ic == View(Unview(ic))
  {
    hide FromAddr, ToAddr, CellsOf;
    CellNames(p, ReadBack(p.dest), ReadBack(p.source), ic);
    StoredRoundTrip(ToAddr(p.dest));
    StoredRoundTrip(ToAddr(p.source));
  }

  lemma ArriveBalanced(f: Filter, cpus: nat, s: Capture, counts: map<Cell<IpAddr>, nat>, e: Event)
    requires Wf(s, cpus) && Named(s) && Balanced(f, s, counts)
    requires e.Arrive? && e.cpu < cpus
    ensures Named(Step(f, cpus, s, e)) && Balanced(f, Step(f, cpus, s, e), AddAll(counts, DrainedCells(f, e.packet)))
  {
    hide FromAddr, ToAddr, View, Unview, DrainedCells, KernelCells, OnCpus, At, BumpAll, AddAll, Kept;
    var p := e.packet;
    var t, next := Step(f, cpus, s, e), AddAll(counts, DrainedCells(f, p));
    forall c: Cell<Addr> | Kept(f, View(c))
      ensures Accounted(t, c) == At(next, View(c))
    {
      BumpsDrain(f, p, c);
      AddAllAt(counts, DrainedCells(f, p), View(c));
      BumpAllAt(s.maps, KernelCells(p), e.cpu, cpus, c);
    }
    AddAllKeys(counts, DrainedCells(f, p));
    forall ic | ic in DrainedCells(f, p)
      ensures Kept(f, ic) && ic == View(Unview(ic))
    {
      DrainedNames(f, p, ic);
    }
    BumpAllPositive(s.maps, KernelCells(p), e.cpu, cpus);
  }

  lemma TakeBalanced(f: Filter, cpus: nat, s: Capture, counts: map<Cell<IpAddr>, nat>, e: Event)
    requires Wf(s, cpus) && Named(s) && Balanced(f, s, counts) && e.Take?
    ensures Named(Step(f, cpus, s, e)) && Balanced(f, Step(f, cpus, s, e), counts)
  {
    hide FromAddr, ToAddr, View, Unview, Kept;
    var t := Step(f, cpus, s, e);
    if CanTake(s, e.cell) {
      UnviewView(e.cell);
      forall c: Cell<Addr> | Kept(f, View(c))
        ensures Accounted(t, c) == At(counts, View(c))
      {
        if c != e.cell && View(c) == View(e.cell) {
          ViewInjective(c, e.cell);
        }
      }
    }
  }

  lemma FeedBalanced(f: Filter, cpus: nat, s: Capture, counts: map<Cell<IpAddr>, nat>, e: Event)
    requires Wf(s, cpus) && Named(s) && Balanced(f, s, counts) && e.Feed?
    ensures Named(Step(f, cpus, s, e)) && Balanced(f, Step(f, cpus, s, e), counts)
  {
    hide FromAddr, ToAddr, View, Unview, Kept, OnCpus, Merged;
    var t := Step(f, cpus, s, e);
    if e.ic in s.sample {
      forall c: Cell<Addr> | Kept(f, View(c))
        ensures Accounted(t, c) == At(counts, View(c))
      {
      }
    }
  }

  /** At every point of every run, every cell's packets are fed, drained or still in the maps. */
  lemma {:induction false} AlwaysBalanced(f: Filter, cpus: nat, run: seq<Event>)
    requires OnMachine(run, cpus)
    ensures Named(After(f, cpus, run)) && Balanced(f, After(f, cpus, run), Tally(f, run))
  {
    hide Named, Balanced, Step, DrainedCells, AddAll;
    if run == [] {
      StartBalanced(f, cpus);
    } else {
      var prev, e := run[..|run| - 1], run[|run| - 1];
      AlwaysBalanced(f, cpus, prev);
      var s, counts := After(f, cpus, prev), Tally(f, prev);
      match e {
        case Arrive(_, _) => ArriveBalanced(f, cpus, s, counts, e);
        case Take(_) => TakeBalanced(f, cpus, s, counts, e);
        case Feed(_) => FeedBalanced(f, cpus, s, counts, e);
      }
    }
  }

  lemma StartBalanced(f: Filter, cpus: nat)
    ensures Named(After(f, cpus, [])) && Balanced(f, After(f, cpus, []), Tally(f, []))
  {
  }

  // ----- TTL moments -----

  /** The TTL batch a step feeds for a host, if it feeds one. */
  ghost function TtlBatch(f: Filter, s: Capture, e: Event, v: IpAddr): Option<Batch> {
    if e.Feed? && e.ic in s.sample && Kept(f, e.ic) && e.ic.Ttl? && e.ic.victim == v
    then Some(Batch(e.ic.ttl as real, s.sample[e.ic])) else None
  }

  /** The TTL batches fed for a host, in order. */
  ghost function TtlFeed(f: Filter, cpus: nat, run: seq<Event>, v: IpAddr): seq<Batch>
    requires OnMachine(run, cpus)
  {
    if run == [] then []
    else
      var prev, e := run[..|run| - 1], run[|run| - 1];
      var b := TtlBatch(f, After(f, cpus, prev), e, v);
      if b.Some? then TtlFeed(f, cpus, prev, v) + [b.value] else TtlFeed(f, cpus, prev, v)
  }

  /** The TTLs the per-packet path saw for a host, in order. */
  ghost function TtlSamples(f: Filter, run: seq<Event>, v: IpAddr): seq<real> {
    if run == [] then []
    else
      var prev, e := TtlSamples(f, run[..|run| - 1], v), run[|run| - 1];
      if e.Arrive? && f.user(v) && e.packet.ingress && e.packet.dest == v
      then prev + [e.packet.ttl as real] else prev
  }

  lemma FeedMoments(f: Filter, cpus: nat, s: Capture, e: Event, v: IpAddr)
    requires Wf(s, cpus) && (e.Arrive? ==> e.cpu < cpus)
    ensures var b := TtlBatch(f, s, e, v);
            MomentsOf(Step(f, cpus, s, e).acc, v) ==
              if b.Some? then Merged(MomentsOf(s.acc, v), b.value.value, b.value.count, MAX_N) else MomentsOf(s.acc, v)
  {
  }

  lemma {:induction false} MomentsAreMerges(f: Filter, cpus: nat, run: seq<Event>, v: IpAddr)
    requires OnMachine(run, cpus)
    ensures MomentsOf(After(f, cpus, run).acc, v) == MergeAll(TtlFeed(f, cpus, run, v), MAX_N)
  {
    hide Merged, TtlBatch, Step;
    if run != [] {
      var prev, e := run[..|run| - 1], run[|run| - 1];
      MomentsAreMerges(f, cpus, prev, v);
      FeedMoments(f, cpus, After(f, cpus, prev), e, v);
      var bs, b := TtlFeed(f, cpus, prev, v), TtlBatch(f, After(f, cpus, prev), e, v);
      if b.Some? {
        assert (bs + [b.value])[..|bs|] == bs;
      }
    }
  }

  lemma {:induction false} MomentsAreUpdates(f: Filter, run: seq<Event>, v: IpAddr)
    ensures MomentsOf(PerPacket(f, run), v) == UpdateAll(EMPTY, TtlSamples(f, run, v), MAX_N)
  {
    hide Updated, PacketCells;
    if run != [] {
      MomentsAreUpdates(f, run[..|run| - 1], v);
      var e, xs := run[|run| - 1], TtlSamples(f, run[..|run| - 1], v);
      if e.Arrive? {
        assert (xs + [e.packet.ttl as real])[..|xs|] == xs;
      }
    }
  }

  lemma {:induction false} CopiesOf(x: real, k: nat, y: real)
    ensures multiset(Copies(x, k))[y] == if x == y then k else 0
  {
    if k > 0 {
      CopiesOf(x, k - 1, y);
      assert Copies(x, k) == Copies(x, k - 1) + [x];
    }
  }

  lemma FeedCount(f: Filter, cpus: nat, s: Capture, e: Event, v: IpAddr, y: real)
    requires Wf(s, cpus) && (e.Arrive? ==> e.cpu < cpus)
    ensures var b := TtlBatch(f, s, e, v);
            TtlCount(Step(f, cpus, s, e).acc, v, y) ==
              TtlCount(s.acc, v, y) + if b.Some? && b.value.value == y then b.value.count else 0
  {
  }

  lemma {:induction false} FeedCounts(f: Filter, cpus: nat, run: seq<Event>, v: IpAddr, y: real)
    requires OnMachine(run, cpus)
    ensures multiset(Expand(TtlFeed(f, cpus, run, v)))[y] == TtlCount(After(f, cpus, run).acc, v, y)
  {
    hide TtlBatch, Step, TtlCount;
    if run == [] {
      assert TtlCount(NOTHING, v, y) == 0 by { NothingCounted(v, y); }
    } else {
      var prev, e := run[..|run| - 1], run[|run| - 1];
      FeedCounts(f, cpus, prev, v, y);
      FeedCount(f, cpus, After(f, cpus, prev), e, v, y);
      var bs, b := TtlFeed(f, cpus, prev, v), TtlBatch(f, After(f, cpus, prev), e, v);
      if b.Some? {
        assert (bs + [b.value])[..|bs|] == bs;
        CopiesOf(b.value.value, b.value.count, y);
      }
    }
  }

  lemma NothingCounted(v: IpAddr, y: real)
    ensures TtlCount(NOTHING, v, y) == 0
  {
  }

  /** How many packets with TTL y the accumulators account for. */
  ghost function TtlCount(acc: Accumulators, v: IpAddr, y: real): nat {
    var t := y.Floor;
    if t >= 0 && t as real == y then At(acc.counts, Ttl(v, t)) else 0
  }

  lemma {:induction false} SampleCounts(f: Filter, run: seq<Event>, v: IpAddr, y: real)
    ensures multiset(TtlSamples(f, run, v))[y] == TtlCount(PerPacket(f, run), v, y)
  {
    hide Updated, PacketCells, Touches;
    if run != [] {
      var e := run[|run| - 1];
      SampleCounts(f, run[..|run| - 1], v, y);
      if e.Arrive? {
        CountOf(f, PerPacket(f, run[..|run| - 1]), e.packet, Ttl(v, if y.Floor >= 0 then y.Floor else 0));
      }
    }
  }

  lemma {:induction false} SampleLength(f: Filter, run: seq<Event>, v: IpAddr)
    ensures |TtlSamples(f, run, v)| == At(PerPacket(f, run).counts, Counter(v, Ingress))
  {
    hide Updated, PacketCells, Touches;
    if run != [] {
      var e := run[|run| - 1];
      SampleLength(f, run[..|run| - 1], v);
      if e.Arrive? {
        CountOf(f, PerPacket(f, run[..|run| - 1]), e.packet, Counter(v, Ingress));
      }
    }
  }

  lemma CountOf(f: Filter, acc: Accumulators, p: Packet, ic: Cell<IpAddr>)
    requires ic.Ttl? || (ic.Counter? && ic.field == Ingress)
    ensures At(PacketStep(f, acc, p).counts, ic) ==
              At(acc.counts, ic)
              + if f.user(ic.victim) && p.ingress && ic.victim == p.dest && (ic.Ttl? ==> ic.ttl == p.ttl) then 1 else 0
  {
    hide Updated, AddAll, At, CellsOf;
    AddAllAt(acc.counts, PacketCells(f, p), ic);
    if f.user(ic.victim) {
      PacketTouches(f, p, ic);
    } else if ic in PacketCells(f, p) {
      CellNames(p, p.dest, p.source, ic);
    }
  }

  // ----- agreement -----

  /**
   Both paths count the packet under the same names: either neither counts it, or both do and its addresses read back
   as themselves (the source address only matters on ingress).
   */
  predicate PacketAgrees(f: Filter, p: Packet) {
    && (f.user(p.dest) <==> f.kernel(ToAddr(p.dest)) && f.user(ReadBack(p.dest)))
    && (f.user(p.dest) ==> Canonical(p.dest) && (p.ingress ==> Canonical(p.source)))
  }

  ghost predicate AllAgree(f: Filter, run: seq<Event>) {
    forall i :: 0 <= i < |run| && run[i].Arrive? ==> PacketAgrees(f, run[i].packet)
  }

  /** Once everything drained has been fed, the kernel path holds what it owes, whatever the filters and packets. */
  lemma DrainedIsTally(f: Filter, cpus: nat, run: seq<Event>)
    requires OnMachine(run, cpus)
    requires After(f, cpus, run).maps == map[] && After(f, cpus, run).sample == map[]
    ensures After(f, cpus, run).acc.counts == Tally(f, run)
  {
    hide View, Unview, Kept, After, Tally;
    AlwaysBalanced(f, cpus, run);
    var s, counts := After(f, cpus, run), Tally(f, run);
    forall ic | ic in s.acc.counts || ic in counts
      ensures ic in s.acc.counts && ic in counts && s.acc.counts[ic] == counts[ic]
    {
      assert Accounted(s, Unview(ic)) == At(counts, View(Unview(ic)));
    }
    assert s.acc.counts.Keys == counts.Keys;
  }

  lemma DrainStep(f: Filter, cpus: nat, run: seq<Event>, e: Event)
    requires OnMachine(run, cpus) && !e.Arrive?
    ensures OnMachine(run + [e], cpus) && After(f, cpus, run + [e]) == Step(f, cpus, After(f, cpus, run), e)
  {
    hide Step;
    assert (run + [e])[..|run|] == run;
  }

  lemma SmallerMap<K, V>(m: map<K, V>, k: K)
    requires k in m
    ensures |m - {k}| == |m| - 1
  {
    assert (m - {k}).Keys == m.Keys - {k};
  }

  /** A take or a feed that leaves less to do. */
  lemma DrainOne(f: Filter, cpus: nat, s: Capture) returns (e: Event)
    requires Wf(s, cpus) && !(s.maps == map[] && s.sample == map[])
    ensures !e.Arrive?
    ensures var t := Step(f, cpus, s, e);
            |t.maps| < |s.maps| || (t.maps == s.maps && |t.sample| < |s.sample|)
  {
    hide View, FeedStep, CpuSum, Wf;
    if s.sample != map[] {
      var ic :| ic in s.sample;
      e := Feed(ic);
      SmallerMap(s.sample, ic);
    } else {
      var c :| c in s.maps;
      e := Take(c);
      SmallerMap(s.maps, c);
    }
  }

  /** Everything can always be drained and fed: from every reachable state some takes and feeds empty the maps and the sample. */
  lemma {:induction false} CanDrain(f: Filter, cpus: nat, run: seq<Event>) returns (more: seq<Event>)
    requires OnMachine(run, cpus)
    ensures (forall i :: 0 <= i < |more| ==> !more[i].Arrive?) && OnMachine(run + more, cpus)
    ensures After(f, cpus, run + more).maps == map[] && After(f, cpus, run + more).sample == map[]
    decreases |After(f, cpus, run).maps|, |After(f, cpus, run).sample|
  {
    hide After, Step, Wf;
    var s := After(f, cpus, run);
    more := [];
    assert run + [] == run;
    if !(s.maps == map[] && s.sample == map[]) {
      var e := DrainOne(f, cpus, s);
      DrainStep(f, cpus, run, e);
      var rest := CanDrain(f, cpus, run + [e]);
      more := [e] + rest;
      assert run + more == run + [e] + rest;
    }
  }

  lemma AgreeingCells(f: Filter, p: Packet)
    requires PacketAgrees(f, p)
    ensures DrainedCells(f, p) == PacketCells(f, p)
  {
    hide FromAddr, ToAddr, Canonical;
    AddressRoundTrip(p.dest);
    AddressRoundTrip(p.source);
  }

  lemma {:induction false} AgreeingTally(f: Filter, run: seq<Event>)
    requires AllAgree(f, run)
    ensures Tally(f, run) == PerPacket(f, run).counts
  {
    hide PacketCells, DrainedCells, PacketAgrees, AddAll;
    if run != [] {
      AgreeingTally(f, run[..|run| - 1]);
      if run[|run| - 1].Arrive? {
        AgreeingCells(f, run[|run| - 1].packet);
      }
    }
  }

  /** If no packet leaves more in a cell on one path than on the other, neither does the run. */
  lemma {:induction false} CellCompare(f: Filter, run: seq<Event>, ic: Cell<IpAddr>, kernel: bool)
    requires forall i :: 0 <= i < |run| && run[i].Arrive? ==> Short(f, run[i].packet, ic, kernel, 0)
    ensures var a, b := At(Tally(f, run), ic), At(PerPacket(f, run).counts, ic);
            && (if kernel then b <= a else a <= b)
            && ((exists i :: 0 <= i < |run| && run[i].Arrive? && Short(f, run[i].packet, ic, kernel, 1)) ==> a != b)
  {
    hide PacketCells, DrainedCells, AddAll, At, Updated;
    if run == [] {
      NothingAt(ic);
    } else {
      var prev, e := run[..|run| - 1], run[|run| - 1];
      assert forall i :: 0 <= i < |prev| ==> prev[i] == run[i];
      CellCompare(f, prev, ic, kernel);
      if e.Arrive? {
        AddAllAt(Tally(f, prev), DrainedCells(f, e.packet), ic);
        AddAllAt(PerPacket(f, prev).counts, PacketCells(f, e.packet), ic);
      }
    }
  }

  lemma NothingAt(ic: Cell<IpAddr>)
    ensures At(map[], ic) == 0
  {
  }

  /** The packet leaves at least d more in the cell on the kernel path than on the per-packet path, or the reverse. */
  ghost predicate Short(f: Filter, p: Packet, ic: Cell<IpAddr>, kernel: bool, d: nat) {
    var a, b := multiset(DrainedCells(f, p))[ic], multiset(PacketCells(f, p))[ic];
    if kernel then a >= b + d else b >= a + d
  }

  /** The cell a packet that does not agree gives away, and the path that counts it. */
  function Telltale(f: Filter, p: Packet): Cell<IpAddr> {
    var dir := if p.ingress then Ingress else Egress;
    if !f.user(p.dest) then Counter(ReadBack(p.dest), dir)
    else if !Canonical(p.dest) || !f.kernel(ToAddr(p.dest)) then Counter(p.dest, dir)
    else Source(p.dest, p.source)
  }

  /** No packet whatever makes up for it. */
  lemma TelltaleOneSided(f: Filter, p: Packet, q: Packet)
    requires !PacketAgrees(f, p)
    ensures Short(f, q, Telltale(f, p), !f.user(p.dest), 0)
  {
    hide FromAddr, ToAddr, Canonical, CellsOf;
    var ic := Telltale(f, p);
    AddressRoundTrip(p.dest);
    AddressRoundTrip(p.source);
    AddressRoundTrip(q.dest);
    AddressRoundTrip(q.source);
    StoredRoundTrip(ToAddr(p.dest));
    StoredRoundTrip(ToAddr(q.dest));
    AddressRoundTrip(ReadBack(p.dest));
    CellsTouch(q, q.dest, q.source, ic);
    CellsTouch(q, ReadBack(q.dest), ReadBack(q.source), ic);
  }

  lemma TelltaleCounts(f: Filter, p: Packet)
    requires !PacketAgrees(f, p)
    ensures Short(f, p, Telltale(f, p), !f.user(p.dest), 1)
  {
    hide FromAddr, ToAddr, Canonical, CellsOf;
    var ic := Telltale(f, p);
    AddressRoundTrip(p.dest);
    AddressRoundTrip(p.source);
    CellsTouch(p, p.dest, p.source, ic);
    CellsTouch(p, ReadBack(p.dest), ReadBack(p.source), ic);
  }

  /** A run that holds a packet the paths disagree on ends in different counts. */
  lemma DisagreementShows(f: Filter, run: seq<Event>, i: nat)
    requires i < |run| && run[i].Arrive? && !PacketAgrees(f, run[i].packet)
    ensures Tally(f, run) != PerPacket(f, run).counts
  {
    hide PacketAgrees, Short, Telltale, Tally, PerPacket;
    var p := run[i].packet;
    var ic, kernel := Telltale(f, p), !f.user(p.dest);
    forall j | 0 <= j < |run| && run[j].Arrive?
      ensures Short(f, run[j].packet, ic, kernel, 0)
    {
      TelltaleOneSided(f, p, run[j].packet);
    }
    TelltaleCounts(f, p);
    CellCompare(f, run, ic, kernel);
  }

  /**
   For every list of parsed packets, every assignment to CPUs, every placement of drains and every pair of filters:
   once everything drained has been fed, the kernel path holds the per-packet path's source, port and fingerprint
   histograms and packet, egress and protocol counts exactly when the paths agree on every packet; and then also its
   TTL moments, for every host with at most 500 ingress packets.
   */
  lemma BackendsAgreeIff(f: Filter, cpus: nat, run: seq<Event>)
    requires OnMachine(run, cpus)
    requires After(f, cpus, run).maps == map[] && After(f, cpus, run).sample == map[]
    ensures After(f, cpus, run).acc.counts == PerPacket(f, run).counts <==> AllAgree(f, run)
    ensures AllAgree(f, run) ==>
              forall v :: At(PerPacket(f, run).counts, Counter(v, Ingress)) <= MAX_N ==>
                            MomentsOf(After(f, cpus, run).acc, v) == MomentsOf(PerPacket(f, run), v)
  {
    hide After, PerPacket, Tally, PacketAgrees, At, MomentsOf;
    DrainedIsTally(f, cpus, run);
    if i: nat :| i < |run| && run[i].Arrive? && !PacketAgrees(f, run[i].packet) {
      DisagreementShows(f, run, i);
    } else {
      AgreeingTally(f, run);
      forall v | At(PerPacket(f, run).counts, Counter(v, Ingress)) <= MAX_N
        ensures MomentsOf(After(f, cpus, run).acc, v) == MomentsOf(PerPacket(f, run), v)
      {
        MomentsAgree(f, cpus, run, v);
      }
    }
  }

  lemma MomentsAgree(f: Filter, cpus: nat, run: seq<Event>, v: IpAddr)
    requires OnMachine(run, cpus)
    requires After(f, cpus, run).acc.counts == PerPacket(f, run).counts
    requires At(PerPacket(f, run).counts, Counter(v, Ingress)) <= MAX_N
    ensures MomentsOf(After(f, cpus, run).acc, v) == MomentsOf(PerPacket(f, run), v)
  {
    hide After, PerPacket, TtlFeed, TtlSamples, At, MomentsOf;
    MomentsAreMerges(f, cpus, run, v);
    MomentsAreUpdates(f, run, v);
    var bs, xs := TtlFeed(f, cpus, run, v), TtlSamples(f, run, v);
    SampleLength(f, run, v);
    forall y: real
      ensures multiset(Expand(bs))[y] == multiset(xs)[y]
    {
      FeedCounts(f, cpus, run, v, y);
      SampleCounts(f, run, v, y);
    }
    GroupingAgrees(bs, xs, MAX_N);
  }

  /** With sound filters the paths agree on every packet between addresses that are not IPv4-mapped IPv6. */
  lemma SoundPacketAgrees(f: Filter, p: Packet)
    requires Sound(f) && Canonical(p.dest) && Canonical(p.source)
    ensures PacketAgrees(f, p)
  {
    AddressRoundTrip(p.dest);
  }

  /** The filters a configuration sets up. */
  ghost predicate RealFilter(t: VictimTargets, exclude: seq<IpAddr>, f: Filter) {
    && (forall a: Addr :: f.kernel(a) == KernelProtected(t, exclude, a))
    && (forall ip: IpAddr :: f.user(ip) == Protected(t, exclude, ip))
  }

  /**
   The filters the backends really use are sound exactly when no exclusion is the mapped form of an IPv4 host
   that user space protects.  What the tries let through beyond that, the user space check drops.
   */
  lemma RealFilterSoundIff(t: VictimTargets, exclude: seq<IpAddr>, f: Filter)
    requires RealFilter(t, exclude, f)
    ensures Sound(f) <==>
              forall i :: 0 <= i < |exclude| && exclude[i].V6? && IsMapped(exclude[i].v6) ==>
                            !Protected(t, exclude, FromAddr(exclude[i].v6))
  {
    hide KernelProtected, TrieFinds, Covers;
    forall a: Addr
      ensures f.user(FromAddr(a)) && !f.kernel(a) <==> Protected(t, exclude, FromAddr(a)) && IsMapped(a) && V6(a) in exclude
    {
      StoredRoundTrip(a);
      KernelDecides(t, exclude, FromAddr(a));
      MappedTwin(a);
    }
    if !Sound(f) {
      var a: Addr :| f.user(FromAddr(a)) && !f.kernel(a);
      var i :| 0 <= i < |exclude| && exclude[i] == V6(a);
      assert !(exclude[i].V6? && IsMapped(exclude[i].v6) ==> !Protected(t, exclude, FromAddr(exclude[i].v6)));
    }
  }

  lemma MappedTwin(a: Addr)
    ensures Twin(FromAddr(a)) == if IsMapped(a) then Some(V6(a)) else None
  {
    assert a == a[..12] + a[12..];
  }

  /** Without soundness there is a packet to a canonical address that only the per-packet path counts. */
  lemma UnsoundDisagrees(f: Filter) returns (p: Packet)
    requires !Sound(f)
    ensures Canonical(p.dest) && Canonical(p.source) && !PacketAgrees(f, p)
    ensures PacketCells(f, p) != [] && DrainedCells(f, p) == []
  {
    hide FromAddr, ToAddr, Canonical;
    var a: Addr :| f.user(FromAddr(a)) && !f.kernel(a);
    StoredRoundTrip(a);
    AddressRoundTrip(FromAddr(a));
    p := Packet(false, FromAddr(a), FromAddr(a), 0, 0, None, Other);
  }

  /**
   When the paths agree on a packet, from the configuration and the packet's addresses.  To an IPv4 or an unmapped IPv6
   host: unless it is protected and either excluded in its other form or sent to from a mapped address.  To a mapped
   address: only if neither it nor, outside the exclusions, the IPv4 host it stands for is protected.
   */
  lemma RealPacketAgreesIff(t: VictimTargets, exclude: seq<IpAddr>, f: Filter, p: Packet)
    requires RealFilter(t, exclude, f)
    ensures PacketAgrees(f, p) <==>
              if Canonical(p.dest) then
                Protected(t, exclude, p.dest) ==> !TwinExcluded(exclude, p.dest) && (p.ingress ==> Canonical(p.source))
              else
                !Protected(t, exclude, p.dest) && (Protected(t, exclude, ReadBack(p.dest)) ==> p.dest in exclude)
  {
    hide KernelProtected, Covers, FromAddr, ToAddr;
    AddressRoundTrip(p.dest);
    KernelDecides(t, exclude, p.dest);
    if !Canonical(p.dest) {
      TwinReadsBack(p.dest);
    }
  }

  lemma TwinReadsBack(ip: IpAddr)
    requires !Canonical(ip)
    ensures Twin(ip) == Some(ReadBack(ip))
  {
  }

  /**
   An IPv6 packet to the mapped form of a host, with sound filters.  If the IPv4 host is the target, only the kernel path
   counts it; if the mapped address is, only the per-packet path does.
   */
  lemma MappedPacketsDisagree(o: Octets4, v4: Filter, v6: Filter, p: Packet)
    requires RealFilter(List([V4(o)]), [], v4) && RealFilter(List([V6(V4Mapped(o))]), [], v6)
    requires p.dest == V6(V4Mapped(o))
    ensures Sound(v4) && DrainedCells(v4, p) != [] && PacketCells(v4, p) == [] && !PacketAgrees(v4, p)
    ensures Sound(v6) && DrainedCells(v6, p) == [] && PacketCells(v6, p) != [] && !PacketAgrees(v6, p)
  {
    hide KernelProtected, TrieFinds, FromAddr;
    RealFilterSoundIff(List([V4(o)]), [], v4);
    RealFilterSoundIff(List([V6(V4Mapped(o))]), [], v6);
    KernelDecides(List([V4(o)]), [], V4(o));
    KernelDecides(List([V6(V4Mapped(o))]), [], p.dest);
    AddressRoundTrip(V4(o));
    assert ReadBack(p.dest) == V4(o) by {
      assert ToAddr(p.dest) == ToAddr(V4(o));
    }
  }
}
