/** Readers of the canonical bytes: words by their bytes, tags by their numbers, fields in their order. What
    was written is read back, so the layout of every encoding is fixed. */
module Layout {
  import opened Wrappers
  import opened Bytes
  import opened DeviceIdentity
  import D = Discovery
  import B = BoundPlan
  import S = Shapes

  type Got<T> = Option<(T, seq<Byte>)>

  /** The bytes as a number, the first one the least. */
  function LittleEndian(s: seq<Byte>): nat {
    if s == [] then 0 else s[0] + 256 * LittleEndian(s[1..])
  }

  lemma {:induction false} LittleEndianBound(s: seq<Byte>)
    ensures LittleEndian(s) < Pow256(|s|)
  {
    if s != [] {
      LittleEndianBound(s[1..]);
    }
  }

  lemma {:induction false} LeIsLittleEndian(n: nat, width: nat)
    requires n < Pow256(width)
    ensures LittleEndian(Le(n, width)) == n
    decreases width
  {
    if width > 0 {
      LeIsLittleEndian(n / 256, width - 1);
      assert Le(n, width)[1..] == Le(n / 256, width - 1);
    }
  }

  /** Byte i of a word is its i-th digit to the base 256. */
  lemma {:induction false} LeAt(n: nat, width: nat, i: nat)
    requires i < width
    ensures Le(n, width)[i] == n / Pow256(i) % 256
    decreases i
  {
    if i > 0 {
      LeAt(n / 256, width - 1, i - 1);
      DivTwice(n, Pow256(i - 1));
    }
  }

  lemma DivTwice(n: nat, p: nat)
    requires p > 0
    ensures n / 256 / p == n / (256 * p)
  {
    var q, r := n / 256, n % 256;
    var k, m := q / p, q % p;
    assert n == 256 * (p * k + m) + r;
    assert 256 * (p * k + m) == k * (256 * p) + 256 * m;
    S.DivModUnique(n, 256 * p, k, 256 * m + r);
  }

  // ----- readers

  function GetU64(s: seq<Byte>): Got<U64> {
    if |s| < 8 then None
    else
      LittleEndianBound(s[..8]);
      WordWidths();
      Some((LittleEndian(s[..8]), s[8..]))
  }

  function GetU32(s: seq<Byte>): Got<U32> {
    if |s| < 4 then None
    else
      LittleEndianBound(s[..4]);
      WordWidths();
      Some((LittleEndian(s[..4]), s[4..]))
  }

  function GetBool(s: seq<Byte>): Got<bool> {
    if s == [] || s[0] > 1 then None else Some((s[0] == 1, s[1..]))
  }

  function GetStr(s: seq<Byte>): Got<Str> {
    match GetU64(s)
    case None => None
    case Some((length, rest)) => if |rest| < length then None else Some((rest[..length], rest[length..]))
  }

  function GetOption<T>(get: seq<Byte> -> Got<T>, s: seq<Byte>): Got<Option<T>> {
    match GetBool(s)
    case None => None
    case Some((false, rest)) => Some((None, rest))
    case Some((true, rest)) =>
      match get(rest)
      case None => None
      case Some((x, after)) => Some((Some(x), after))
  }

  function GetAll<T>(get: seq<Byte> -> Got<T>, count: nat, s: seq<Byte>): (r: Got<seq<T>>)
    ensures r.Some? ==> |r.value.0| == count
  {
    if count == 0 then Some(([], s))
    else match get(s)
      case None => None
      case Some((x, rest)) =>
        match GetAll(get, count - 1, rest)
        case None => None
        case Some((xs, after)) => Some(([x] + xs, after))
  }

  function GetList<T>(get: seq<Byte> -> Got<T>, s: seq<Byte>): (r: Got<seq<T>>)
    ensures r.Some? ==> |r.value.0| < TWO64
  {
    match GetU64(s)
    case None => None
    case Some((count, rest)) => GetAll(get, count, rest)
  }

  // ----- identities

  function GetIdentity(s: seq<Byte>): Got<IdentityFacts> {
    if s == [] then None
    else if s[0] == 0 then
      match GetStr(s[1..])
      case None => None
      case Some((uuid, rest)) =>
        match GetOption(GetStr, rest)
        case None => None
        case Some((driver, after)) => Some((Cuda(uuid, driver), after))
    else if s[0] == 1 then
      match GetStr(s[1..])
      case None => None
      case Some((registry, rest)) => Some((Metal(registry), rest))
    else None
  }

  /** Reading undoes writing, whatever follows. */
  ghost predicate Reads<T(!new)>(put: (T, seq<Byte>) -> seq<Byte>, get: seq<Byte> -> Got<T>) {
    forall x: T, rest: seq<Byte> :: get(put(x, rest)) == Some((x, rest))
  }

  lemma FrontAndRest<T>(a: seq<T>, b: seq<T>)
    ensures (a + b)[..|a|] == a && (a + b)[|a|..] == b
  {
  }

  lemma GotU64(n: U64, rest: seq<Byte>)
    ensures GetU64(PutU64(n, rest)) == Some((n, rest))
  {
    hide Le, LittleEndian;
    WordWidths();
    LeIsLittleEndian(n, 8);
    FrontAndRest(Le(n, 8), rest);
  }

  lemma GotU32(n: U32, rest: seq<Byte>)
    ensures GetU32(PutU32(n, rest)) == Some((n, rest))
  {
    hide Le, LittleEndian;
    WordWidths();
    LeIsLittleEndian(n, 4);
    FrontAndRest(Le(n, 4), rest);
  }

  lemma GotBool(b: bool, rest: seq<Byte>)
    ensures GetBool(PutBool(b, rest)) == Some((b, rest))
  {
  }

  lemma GotStr(s: Str, rest: seq<Byte>)
    ensures GetStr(PutStr(s, rest)) == Some((s, rest))
  {
    hide PutU64, GetU64;
    GotU64(|s|, s + rest);
    FrontAndRest(s, rest);
  }

  lemma WordsRead()
    ensures Reads(PutU64, GetU64) && Reads(PutU32, GetU32) && Reads(PutBool, GetBool) && Reads(PutStr, GetStr)
  {
    forall x: U64, rest ensures GetU64(PutU64(x, rest)) == Some((x, rest)) { GotU64(x, rest); }
    forall x: U32, rest ensures GetU32(PutU32(x, rest)) == Some((x, rest)) { GotU32(x, rest); }
    forall x, rest ensures GetBool(PutBool(x, rest)) == Some((x, rest)) { GotBool(x, rest); }
    forall x, rest ensures GetStr(PutStr(x, rest)) == Some((x, rest)) { GotStr(x, rest); }
  }

  lemma GotOption<T(!new)>(put: (T, seq<Byte>) -> seq<Byte>, get: seq<Byte> -> Got<T>, o: Option<T>, rest: seq<Byte>)
    requires Reads(put, get)
    ensures GetOption(get, PutOption(o, put, rest)) == Some((o, rest))
  {
    var after := if o.Some? then put(o.value, rest) else rest;
    assert PutOption(o, put, rest) == PutBool(o.Some?, after);
    GotBool(o.Some?, after);
    hide PutOption, GetBool;
  }

  lemma {:induction false} GotAll<T(!new)>(put: (T, seq<Byte>) -> seq<Byte>, get: seq<Byte> -> Got<T>, xs: seq<T>,
      rest: seq<Byte>)
    requires Reads(put, get)
    ensures GetAll(get, |xs|, PutAll(xs, put, rest)) == Some((xs, rest))
  {
    if xs != [] {
      GotAll(put, get, xs[1..], rest);
      assert xs == [xs[0]] + xs[1..];
      assert get(put(xs[0], PutAll(xs[1..], put, rest))) == Some((xs[0], PutAll(xs[1..], put, rest)));
    }
  }

  lemma GotList<T(!new)>(put: (T, seq<Byte>) -> seq<Byte>, get: seq<Byte> -> Got<T>, xs: seq<T>, rest: seq<Byte>)
    requires Reads(put, get) && |xs| < TWO64
    ensures GetList(get, PutList(xs, put, rest)) == Some((xs, rest))
  {
    hide PutU64, GetU64, PutAll, GetAll;
    GotU64(|xs|, PutAll(xs, put, rest));
    GotAll(put, get, xs, rest);
  }

  /** Tag 0, the PCI identifier and perhaps a driver identifier; or tag 1 and the registry identifier. */
  lemma GotIdentity(id: IdentityFacts, rest: seq<Byte>)
    ensures GetIdentity(PutIdentity(id, rest)) == Some((id, rest))
  {
    hide PutStr, GetStr, PutOption, GetOption;
    WordsRead();
    match id {
      case Cuda(uuid, driver) =>
        GotStr(uuid, PutOption(driver, PutStr, rest));
        GotOption(PutStr, GetStr, driver, rest);
        assert PutIdentity(id, rest)[1..] == PutStr(uuid, PutOption(driver, PutStr, rest));
      case Metal(registry) =>
        GotStr(registry, rest);
        assert PutIdentity(id, rest)[1..] == PutStr(registry, rest);
    }
  }

  lemma IdentityReads()
    ensures Reads(PutIdentity, GetIdentity)
  {
    forall x, rest ensures GetIdentity(PutIdentity(x, rest)) == Some((x, rest)) { GotIdentity(x, rest); }
  }

  // ----- bound plans

  function GetBinding(s: seq<Byte>): Got<B.Binding> {
    match GetStr(s)
    case None => None
    case Some((partition, s1)) =>
      match GetIdentity(s1)
      case None => None
      case Some((device, s2)) =>
        match GetOption(GetU64, s2)
        case None => None
        case Some((virtual, s3)) => Some((B.Binding(partition, device, virtual), s3))
  }

  function GetKind(s: seq<Byte>): Got<B.Kind> {
    if s == [] then None
    else if s[0] == 0 then
      match GetIdentity(s[1..])
      case None => None
      case Some((device, s1)) =>
        match GetOption(GetU64, s1)
        case None => None
        case Some((virtual, s2)) => Some((B.ImplicitLocal(device, virtual), s2))
    else if s[0] == 1 then
      match GetList(GetBinding, s[1..])
      case None => None
      case Some((bindings, s1)) => Some((B.Distributed(bindings), s1))
    else None
  }

  /** The classes are written as 64-bit words: Physical 0, Virtual 1, Synthetic 2. */
  function FixtureOf(n: nat): Option<B.FixtureClass> {
    if n == 0 then Some(B.Physical) else if n == 1 then Some(B.Virtual) else if n == 2 then Some(B.Synthetic) else None
  }

  /** None 0, host staged 1, directed peer not attempted 2. */
  function TransportOf(n: nat): Option<B.TransportClass> {
    if n == 0 then Some(B.NoTransport) else if n == 1 then Some(B.HostStaged)
    else if n == 2 then Some(B.DirectedPeerNotAttempted) else None
  }

  function GetPlan(s: seq<Byte>): Option<B.Plan> {
    match GetStr(s)
    case None => None
    case Some((hash, s1)) =>
      match GetKind(s1)
      case None => None
      case Some((kind, s2)) =>
        match GetList(GetIdentity, s2)
        case None => None
        case Some((devices, s3)) => GetPlanEnd(hash, kind, devices, s3)
  }

  /** Exactly 48 bytes are left: the snapshot id and two words. */
  function GetPlanEnd(hash: Str, kind: B.Kind, devices: seq<IdentityFacts>, s: seq<Byte>): Option<B.Plan> {
    if |s| != 48 then None
    else match (FixtureOf(LittleEndian(s[32..40])), TransportOf(LittleEndian(s[40..48])))
      case (Some(fixture), Some(transport)) => Some(B.Plan(hash, kind, devices, s[..32], fixture, transport))
      case _ => None
  }

  lemma GotBinding(b: B.Binding, rest: seq<Byte>)
    ensures GetBinding(B.PutBinding(b, rest)) == Some((b, rest))
  {
    hide PutStr, GetStr, PutOption, GetOption, PutIdentity, GetIdentity;
    WordsRead();
    var tail := PutOption(b.virtualPartition, PutU64, rest);
    GotStr(b.partition, PutIdentity(b.device, tail));
    GotIdentity(b.device, tail);
    GotOption(PutU64, GetU64, b.virtualPartition, rest);
  }

  lemma GotKind(k: B.Kind, rest: seq<Byte>)
    requires k.Distributed? ==> |k.bindings| < TWO64
    ensures GetKind(B.PutKind(k, rest)) == Some((k, rest))
  {
    hide PutOption, GetOption, PutIdentity, GetIdentity, PutList, GetList, B.PutBinding, GetBinding;
    WordsRead();
    match k {
      case ImplicitLocal(device, virtual) =>
        GotIdentity(device, PutOption(virtual, PutU64, rest));
        GotOption(PutU64, GetU64, virtual, rest);
        assert B.PutKind(k, rest)[1..] == PutIdentity(device, PutOption(virtual, PutU64, rest));
      case Distributed(bindings) =>
        forall x, tail ensures GetBinding(B.PutBinding(x, tail)) == Some((x, tail)) { GotBinding(x, tail); }
        GotList(B.PutBinding, GetBinding, bindings, rest);
        assert B.PutKind(k, rest)[1..] == PutList(bindings, B.PutBinding, rest);
    }
  }

  lemma GotPlanEnd(p: B.Plan)
    ensures GetPlanEnd(p.logicalHash, p.kind, p.deviceSet, B.PutEnd(p, [])) == Some(p)
  {
    hide Le, LittleEndian;
    var f, t := Le(B.FixtureTag(p.fixture), 8), Le(B.TransportTag(p.transport), 8);
    WordWidths();
    LeIsLittleEndian(B.FixtureTag(p.fixture), 8);
    LeIsLittleEndian(B.TransportTag(p.transport), 8);
    var s := B.PutEnd(p, []);
    assert s == p.snapshotId + (f + (t + []));
    assert s[..32] == p.snapshotId && s[32..40] == f && s[40..48] == t;
  }

  /** The canonical bytes of a plan are read back as the plan. */
  lemma PlanReadBack(p: B.Plan)
    requires B.Counted(p)
    ensures GetPlan(B.Canonical(p)) == Some(p)
  {
    hide PutStr, GetStr, PutIdentity, GetIdentity, PutList, GetList, B.PutKind, GetKind, B.PutEnd, GetPlanEnd;
    var end := B.PutEnd(p, []);
    var devices := PutList(p.deviceSet, PutIdentity, end);
    GotStr(p.logicalHash, B.PutKind(p.kind, devices));
    GotKind(p.kind, devices);
    IdentityReads();
    GotList(PutIdentity, GetIdentity, p.deviceSet, end);
    GotPlanEnd(p);
  }

  // ----- snapshots

  function GetSurface(s: seq<Byte>): Got<D.DtypeSurface> {
    match GetAll(GetBool, 6, s)
    case None => None
    case Some((f, rest)) => Some((D.DtypeSurface(f[0], f[1], f[2], f[3], f[4], f[5]), rest))
  }

  function GetCapabilities(s: seq<Byte>): Got<D.Capabilities> {
    match GetU32(s)
    case None => None
    case Some((major, s1)) =>
      match GetU32(s1)
      case None => None
      case Some((minor, s2)) =>
        match GetU32(s2)
        case None => None
        case Some((count, s3)) =>
          match GetSurface(s3)
          case None => None
          case Some((surface, s4)) => Some((D.Capabilities(major, minor, count, surface), s4))
  }

  function GetMemory(s: seq<Byte>): Got<D.Memory> {
    match GetOption(GetU64, s)
    case None => None
    case Some((tool, s1)) =>
      match GetU64(s1)
      case None => None
      case Some((total, s2)) => Some((D.Memory(tool, total), s2))
  }

  function GetHealth(s: seq<Byte>): Got<D.Health> {
    if s == [] then None
    else if s[0] == 0 then Some((D.Healthy, s[1..]))
    else if s[0] == 1 then
      match GetStr(s[1..])
      case None => None
      case Some((reason, s1)) => Some((D.Degraded(reason), s1))
    else None
  }

  function GetProvenance(s: seq<Byte>): Got<D.Provenance> {
    match GetStr(s)
    case None => None
    case Some((probe, s1)) =>
      match GetStr(s1)
      case None => None
      case Some((tools, s2)) => Some((D.Provenance(probe, tools), s2))
  }

  /** A row: its key, which is also the ordinal of the entry, the identity and the facts. */
  function GetRow(s: seq<Byte>): Got<(U32, D.Entry)> {
    match GetU32(s)
    case None => None
    case Some((ordinal, s1)) =>
      match GetIdentity(s1)
      case None => None
      case Some((identity, s2)) =>
        match GetOption(GetStr, s2)
        case None => None
        case Some((model, s3)) => GetRowEnd(ordinal, identity, model, s3)
  }

  function GetRowEnd(ordinal: U32, identity: IdentityFacts, model: Option<Str>, s: seq<Byte>): Got<(U32, D.Entry)> {
    match GetCapabilities(s)
    case None => None
    case Some((capabilities, s1)) =>
      match GetMemory(s1)
      case None => None
      case Some((memory, s2)) =>
        match GetHealth(s2)
        case None => None
        case Some((health, s3)) =>
          match GetU64(s3)
          case None => None
          case Some((generation, s4)) =>
            match GetProvenance(s4)
            case None => None
            case Some((provenance, s5)) =>
              var e := D.Entry(ordinal, identity, model, capabilities, memory, health, generation, provenance);
              Some(((ordinal, e), s5))
  }

  function GetSnapshot(s: seq<Byte>): Option<D.Snapshot> {
    match GetU64(s)
    case None => None
    case Some((nanos, s1)) =>
      match GetList(GetRow, s1)
      case None => None
      case Some((rows, s2)) =>
        if s2 == [0] then Some(D.Snapshot(nanos, rows, D.NotAttempted))
        else if s2 == [1] then Some(D.Snapshot(nanos, rows, D.Attempted))
        else None
  }

  lemma FlagFirst(b: bool, more: seq<bool>, rest: seq<Byte>)
    ensures PutAll([b] + more, PutBool, rest) == PutBool(b, PutAll(more, PutBool, rest))
    ensures PutAll([], PutBool, rest) == rest
  {
    hide PutBool;
    assert ([b] + more)[1..] == more;
  }

  lemma GotSurface(d: D.DtypeSurface, rest: seq<Byte>)
    ensures GetSurface(D.PutSurface(d, rest)) == Some((d, rest))
  {
    hide PutBool, GetBool, PutAll, GetAll, PutU64, GetU64, PutU32, GetU32, PutStr, GetStr;
    WordsRead();
    var f5, f4 := [d.i32] + [], [d.i8] + ([d.i32] + []);
    var f3 := [d.bf16] + f4;
    var f2 := [d.f16] + f3;
    var f1 := [d.f64] + f2;
    var f0 := [d.f32] + f1;
    FlagFirst(d.i32, [], rest);
    FlagFirst(d.i8, f5, rest);
    FlagFirst(d.bf16, f4, rest);
    FlagFirst(d.f16, f3, rest);
    FlagFirst(d.f64, f2, rest);
    FlagFirst(d.f32, f1, rest);
    GotAll(PutBool, GetBool, f0, rest);
    assert |f0| == 6;
  }

  lemma GotCapabilities(c: D.Capabilities, rest: seq<Byte>)
    ensures GetCapabilities(D.PutCapabilities(c, rest)) == Some((c, rest))
  {
    hide PutU32, GetU32, D.PutSurface, GetSurface;
    var tail := D.PutSurface(c.surface, rest);
    GotU32(c.major, PutU32(c.minor, PutU32(c.smCount, tail)));
    GotU32(c.minor, PutU32(c.smCount, tail));
    GotU32(c.smCount, tail);
    GotSurface(c.surface, rest);
  }

  lemma GotMemory(m: D.Memory, rest: seq<Byte>)
    ensures GetMemory(D.PutMemory(m, rest)) == Some((m, rest))
  {
    hide PutOption, GetOption, PutU64, GetU64;
    WordsRead();
    GotOption(PutU64, GetU64, m.toolReportTotalMib, PutU64(m.apiTotalBytes, rest));
    GotU64(m.apiTotalBytes, rest);
  }

  lemma GotHealth(h: D.Health, rest: seq<Byte>)
    ensures GetHealth(D.PutHealth(h, rest)) == Some((h, rest))
  {
    hide PutStr, GetStr;
    if h.Degraded? {
      GotStr(h.reason, rest);
      assert D.PutHealth(h, rest)[1..] == PutStr(h.reason, rest);
    }
  }

  lemma GotProvenance(p: D.Provenance, rest: seq<Byte>)
    ensures GetProvenance(D.PutProvenance(p, rest)) == Some((p, rest))
  {
    hide PutStr, GetStr;
    GotStr(p.probe, PutStr(p.toolVersions, rest));
    GotStr(p.toolVersions, rest);
  }

  lemma GotRow(row: (U32, D.Entry), rest: seq<Byte>)
    requires row.1.ordinal == row.0
    ensures GetRow(D.PutRow(row, rest)) == Some((row, rest))
  {
    hide PutOption, GetOption, PutU32, GetU32, PutU64, GetU64, PutStr, GetStr, PutIdentity, GetIdentity;
    hide D.PutCapabilities, GetCapabilities, D.PutMemory, GetMemory, D.PutHealth, GetHealth;
    hide D.PutProvenance, GetProvenance;
    var e := row.1;
    var gp := D.PutProvenance(e.provenance, rest);
    var gg := PutU64(e.generation, gp);
    var gh := D.PutHealth(e.health, gg);
    var gm := D.PutMemory(e.memory, gh);
    var gc := D.PutCapabilities(e.capabilities, gm);
    WordsRead();
    GotU32(row.0, PutIdentity(e.identity, PutOption(e.model, PutStr, gc)));
    GotIdentity(e.identity, PutOption(e.model, PutStr, gc));
    GotOption(PutStr, GetStr, e.model, gc);
    GotCapabilities(e.capabilities, gm);
    GotMemory(e.memory, gh);
    GotHealth(e.health, gg);
    GotU64(e.generation, gp);
    GotProvenance(e.provenance, rest);
  }

  lemma {:induction false} GotRows(rows: seq<(U32, D.Entry)>, rest: seq<Byte>)
    requires D.KeysMatch(rows)
    ensures GetAll(GetRow, |rows|, D.PutRows(rows, rest)) == Some((rows, rest))
  {
    hide GetRow, D.PutRow;
    if rows != [] {
      GotRow(rows[0], D.PutRows(rows[1..], rest));
      GotRows(rows[1..], rest);
      assert rows == [rows[0]] + rows[1..];
    }
  }

  /** The canonical bytes of a snapshot are read back as the snapshot. */
  lemma SnapshotReadBack(s: D.Snapshot)
    requires D.KeysMatch(s.devices)
    ensures GetSnapshot(D.Canonical(s)) == Some(s)
  {
    hide PutU64, GetU64, D.PutRows, GetAll, GetRow;
    var last := D.PutP2p(s.p2p, []);
    GotU64(s.probeUtcNanos, PutU64(|s.devices|, D.PutRows(s.devices, last)));
    GotU64(|s.devices|, D.PutRows(s.devices, last));
    GotRows(s.devices, last);
    assert last == (if s.p2p == D.NotAttempted then [0] else [1]);
  }
}
