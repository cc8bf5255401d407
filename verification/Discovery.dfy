/** Discovery snapshots and their canonical bytes, over which the snapshot id is a SHA-256 digest. */
module Discovery {
  import opened Wrappers
  import opened Bytes
  import opened DeviceIdentity
  import Sha256
  import Sha256Drivers

  datatype DtypeSurface = DtypeSurface(f32: bool, f64: bool, f16: bool, bf16: bool, i8: bool, i32: bool)

  datatype Capabilities = Capabilities(major: U32, minor: U32, smCount: U32, surface: DtypeSurface)

  datatype Memory = Memory(toolReportTotalMib: Option<U64>, apiTotalBytes: U64)

  datatype Health = Healthy | Degraded(reason: Str)

  datatype Provenance = Provenance(probe: Str, toolVersions: Str)

  datatype Entry = Entry(
    ordinal: U32, identity: IdentityFacts, model: Option<Str>, capabilities: Capabilities,
    memory: Memory, health: Health, generation: U64, provenance: Provenance)

  datatype P2pState = NotAttempted | Attempted

  /** The device map as its rows in key order. */
  type Devices = rows: seq<(U32, Entry)> | |rows| < 0x1_0000_0000_0000_0000

  datatype Snapshot = Snapshot(probeUtcNanos: U64, devices: Devices, p2p: P2pState)

  predicate KeysMatch(rows: seq<(U32, Entry)>) {
    forall k :: 0 <= k < |rows| ==> rows[k].1.ordinal == rows[k].0
  }

  // ----- the bytes of each part

  function PutSurface(d: DtypeSurface, rest: seq<Byte>): seq<Byte> {
    PutBool(d.f32, PutBool(d.f64, PutBool(d.f16, PutBool(d.bf16, PutBool(d.i8, PutBool(d.i32, rest))))))
  }

  function PutCapabilities(c: Capabilities, rest: seq<Byte>): seq<Byte> {
    PutU32(c.major, PutU32(c.minor, PutU32(c.smCount, PutSurface(c.surface, rest))))
  }

  function PutMemory(m: Memory, rest: seq<Byte>): seq<Byte> {
    PutOption(m.toolReportTotalMib, PutU64, PutU64(m.apiTotalBytes, rest))
  }

  function PutHealth(h: Health, rest: seq<Byte>): seq<Byte> {
    match h
    case Healthy => [0] + rest
    case Degraded(reason) => [1] + PutStr(reason, rest)
  }

  function PutProvenance(p: Provenance, rest: seq<Byte>): seq<Byte> {
    PutStr(p.probe, PutStr(p.toolVersions, rest))
  }

  /** The facts that follow the identity. */
  function PutFacts(e: Entry, rest: seq<Byte>): seq<Byte> {
    PutOption(e.model, PutStr,
      PutCapabilities(e.capabilities,
        PutMemory(e.memory,
          PutHealth(e.health,
            PutU64(e.generation,
              PutProvenance(e.provenance, rest))))))
  }

  /** A row is written under its key; the ordinal inside the entry is not written again. */
  function PutRow(row: (U32, Entry), rest: seq<Byte>): seq<Byte> {
    PutU32(row.0, PutIdentity(row.1.identity, PutFacts(row.1, rest)))
  }

  function PutRows(rows: seq<(U32, Entry)>, rest: seq<Byte>): seq<Byte> {
    if rows == [] then rest else PutRow(rows[0], PutRows(rows[1..], rest))
  }

  function PutP2p(p: P2pState, rest: seq<Byte>): seq<Byte> {
    [if p == NotAttempted then 0 else 1] + rest
  }

  /** The canonical bytes of a snapshot. */
  function Canonical(s: Snapshot): seq<Byte> {
    PutU64(s.probeUtcNanos, PutU64(|s.devices|, PutRows(s.devices, PutP2p(s.p2p, []))))
  }

  // ----- each part is read back in one way only

  lemma ReadSurface(a: DtypeSurface, b: DtypeSurface, r: seq<Byte>, s: seq<Byte>)
    requires PutSurface(a, r) == PutSurface(b, s)
    ensures a == b && r == s
  {
    hide PutBool;
    WordsReadable();
    assert Readable(PutBool);
  }

  lemma ReadCapabilities(a: Capabilities, b: Capabilities, r: seq<Byte>, s: seq<Byte>)
    requires PutCapabilities(a, r) == PutCapabilities(b, s)
    ensures a == b && r == s
  {
    hide PutU32, PutSurface;
    WordsReadable();
    ReadSurface(a.surface, b.surface, r, s);
  }

  lemma ReadMemory(a: Memory, b: Memory, r: seq<Byte>, s: seq<Byte>)
    requires PutMemory(a, r) == PutMemory(b, s)
    ensures a == b && r == s
  {
    hide PutU64, PutOption;
    WordsReadable();
    ReadOption(a.toolReportTotalMib, b.toolReportTotalMib, PutU64, PutU64(a.apiTotalBytes, r),
        PutU64(b.apiTotalBytes, s));
  }

  lemma ReadHealth(a: Health, b: Health, r: seq<Byte>, s: seq<Byte>)
    requires PutHealth(a, r) == PutHealth(b, s)
    ensures a == b && r == s
  {
    ReadTag(if a.Healthy? then 0 else 1, if b.Healthy? then 0 else 1,
            if a.Healthy? then r else PutStr(a.reason, r), if b.Healthy? then s else PutStr(b.reason, s));
    if a.Degraded? {
      ReadStr(a.reason, b.reason, r, s);
    }
  }

  lemma ReadProvenance(a: Provenance, b: Provenance, r: seq<Byte>, s: seq<Byte>)
    requires PutProvenance(a, r) == PutProvenance(b, s)
    ensures a == b && r == s
  {
    hide PutStr;
    WordsReadable();
    assert Readable(PutStr);
  }

  lemma ReadFacts(a: Entry, b: Entry, r: seq<Byte>, s: seq<Byte>)
    requires PutFacts(a, r) == PutFacts(b, s)
    ensures a.(ordinal := 0, identity := b.identity) == b.(ordinal := 0) && r == s
  {
    hide PutOption, PutCapabilities, PutMemory, PutHealth, PutU64, PutProvenance, PutStr;
    WordsReadable();
    var gp, hp := PutProvenance(a.provenance, r), PutProvenance(b.provenance, s);
    var gg, hg := PutU64(a.generation, gp), PutU64(b.generation, hp);
    var gh, hh := PutHealth(a.health, gg), PutHealth(b.health, hg);
    var gm, hm := PutMemory(a.memory, gh), PutMemory(b.memory, hh);
    var gc, hc := PutCapabilities(a.capabilities, gm), PutCapabilities(b.capabilities, hm);
    ReadOption(a.model, b.model, PutStr, gc, hc);
    ReadCapabilities(a.capabilities, b.capabilities, gm, hm);
    ReadMemory(a.memory, b.memory, gh, hh);
    ReadHealth(a.health, b.health, gg, hg);
    ReadU64(a.generation, b.generation, gp, hp);
    ReadProvenance(a.provenance, b.provenance, r, s);
  }

  lemma ReadRow(a: (U32, Entry), b: (U32, Entry), r: seq<Byte>, s: seq<Byte>)
    requires a.1.ordinal == a.0 && b.1.ordinal == b.0 && PutRow(a, r) == PutRow(b, s)
    ensures a == b && r == s
  {
    ReadU32(a.0, b.0, PutIdentity(a.1.identity, PutFacts(a.1, r)), PutIdentity(b.1.identity, PutFacts(b.1, s)));
    ReadIdentity(a.1.identity, b.1.identity, PutFacts(a.1, r), PutFacts(b.1, s));
    ReadFacts(a.1, b.1, r, s);
    assert a.1 == b.1;
  }

  lemma {:induction false} ReadRows(a: seq<(U32, Entry)>, b: seq<(U32, Entry)>, r: seq<Byte>, s: seq<Byte>)
    requires |a| == |b| && KeysMatch(a) && KeysMatch(b) && PutRows(a, r) == PutRows(b, s)
    ensures a == b && r == s
  {
    hide PutRow;
    if a != [] {
      ReadRow(a[0], b[0], PutRows(a[1..], r), PutRows(b[1..], s));
      ReadRows(a[1..], b[1..], r, s);
      assert a == [a[0]] + a[1..] && b == [b[0]] + b[1..];
    }
  }

  /** Two snapshots with the same canonical bytes are the same snapshot. */
  lemma CanonicalInjective(a: Snapshot, b: Snapshot)
    requires KeysMatch(a.devices) && KeysMatch(b.devices)
    requires Canonical(a) == Canonical(b)
    ensures a == b
  {
    var p, q := PutP2p(a.p2p, []), PutP2p(b.p2p, []);
    ReadU64(a.probeUtcNanos, b.probeUtcNanos, PutU64(|a.devices|, PutRows(a.devices, p)),
        PutU64(|b.devices|, PutRows(b.devices, q)));
    ReadU64(|a.devices|, |b.devices|, PutRows(a.devices, p), PutRows(b.devices, q));
    ReadRows(a.devices, b.devices, p, q);
    ReadTag(if a.p2p == NotAttempted then 0 else 1, if b.p2p == NotAttempted then 0 else 1, [], []);
  }

  /** Without the check that each entry sits under its own ordinal the bytes would not tell two
      snapshots apart. */
  lemma KeysMustMatch(e: Entry, nanos: U64, p2p: P2pState)
    requires e.ordinal == 0
    ensures var a := Snapshot(nanos, [(0, e)], p2p); var b := Snapshot(nanos, [(0, e.(ordinal := 1))], p2p);
            KeysMatch(a.devices) && !KeysMatch(b.devices) && a != b && Canonical(a) == Canonical(b)
  {
    var a := Snapshot(nanos, [(0, e)], p2p);
    var b := Snapshot(nanos, [(0, e.(ordinal := 1))], p2p);
    assert b.devices[0].1.ordinal != b.devices[0].0;
    assert a.devices[0] != b.devices[0];
    var rest := PutP2p(p2p, []);
    assert PutRows(a.devices, rest) == PutRow(a.devices[0], rest);
    assert PutRows(b.devices, rest) == PutRow(b.devices[0], rest);
    assert PutFacts(e, rest) == PutFacts(e.(ordinal := 1), rest);
  }

  // ----- the appending code

  method PushFacts(out: seq<Byte>, e: Entry, ghost rest: seq<Byte>) returns (r: seq<Byte>)
    ensures r + rest == out + PutFacts(e, rest)
  {
    hide PutOption, PutCapabilities, PutMemory, PutHealth, PutU64, PutStr;
    ghost var gp := PutProvenance(e.provenance, rest);
    ghost var gg := PutU64(e.generation, gp);
    ghost var gh := PutHealth(e.health, gg);
    ghost var gm := PutMemory(e.memory, gh);
    r := PushOptionalStr(out, e.model, PutCapabilities(e.capabilities, gm));
    r := PushCapabilities(r, e.capabilities, gm);
    r := PushMemory(r, e.memory, gh);
    r := PushHealth(r, e.health, gg);
    r := PushU64(r, e.generation, gp);
    r := PushStr(r, e.provenance.probe, PutStr(e.provenance.toolVersions, rest));
    r := PushStr(r, e.provenance.toolVersions, rest);
  }

  method PushCapabilities(out: seq<Byte>, c: Capabilities, ghost rest: seq<Byte>) returns (r: seq<Byte>)
    ensures r + rest == out + PutCapabilities(c, rest)
  {
    hide PutU32, PutBool;
    var d := c.surface;
    ghost var g6 := PutBool(d.i32, rest);
    ghost var g5 := PutBool(d.i8, g6);
    ghost var g4 := PutBool(d.bf16, g5);
    ghost var g3 := PutBool(d.f16, g4);
    ghost var g2 := PutBool(d.f64, g3);
    ghost var g1 := PutBool(d.f32, g2);
    r := PushU32(out, c.major, PutU32(c.minor, PutU32(c.smCount, g1)));
    r := PushU32(r, c.minor, PutU32(c.smCount, g1));
    r := PushU32(r, c.smCount, g1);
    r := PushBool(r, d.f32, g2);
    r := PushBool(r, d.f64, g3);
    r := PushBool(r, d.f16, g4);
    r := PushBool(r, d.bf16, g5);
    r := PushBool(r, d.i8, g6);
    r := PushBool(r, d.i32, rest);
  }

  method PushMemory(out: seq<Byte>, m: Memory, ghost rest: seq<Byte>) returns (r: seq<Byte>)
    ensures r + rest == out + PutMemory(m, rest)
  {
    hide PutU64;
    ghost var tail := PutU64(m.apiTotalBytes, rest);
    if m.toolReportTotalMib.Some? {
      r := PushBool(out, true, PutU64(m.toolReportTotalMib.value, tail));
      r := PushU64(r, m.toolReportTotalMib.value, tail);
    } else {
      r := PushBool(out, false, tail);
    }
    r := PushU64(r, m.apiTotalBytes, rest);
  }

  method PushHealth(out: seq<Byte>, h: Health, ghost rest: seq<Byte>) returns (r: seq<Byte>)
    ensures r + rest == out + PutHealth(h, rest)
  {
    match h {
      case Healthy =>
        r := PushByte(out, 0, rest);
      case Degraded(reason) =>
        r := PushByte(out, 1, PutStr(reason, rest));
        r := PushStr(r, reason, rest);
    }
  }

  /** `canonical_bytes_without_id`. */
  method CanonicalBytes(s: Snapshot) returns (out: seq<Byte>)
    ensures out == Canonical(s)
  {
    hide PutU64, PutU32, PutFacts, PutIdentity;
    ghost var last := PutP2p(s.p2p, []);
    out := PushU64([], s.probeUtcNanos, PutU64(|s.devices|, PutRows(s.devices, last)));
    out := PushU64(out, |s.devices|, PutRows(s.devices, last));
    var i := 0;
    while i < |s.devices|
      invariant 0 <= i <= |s.devices|
      invariant out + PutRows(s.devices[i..], last) == Canonical(s)
    {
      var row := s.devices[i];
      ghost var after := PutRows(s.devices[i + 1..], last);
      assert s.devices[i..][1..] == s.devices[i + 1..];
      out := PushU32(out, row.0, PutIdentity(row.1.identity, PutFacts(row.1, after)));
      out := PushIdentity(out, row.1.identity, PutFacts(row.1, after));
      out := PushFacts(out, row.1, after);
      i := i + 1;
    }
    out := PushByte(out, if s.p2p == NotAttempted then 0 else 1, []);
  }

  /** `DeviceDiscoverySnapshot::new` with the id it computes. It panics, here None, when an entry is not
      under its own ordinal. */
  method New(nanos: U64, devices: Devices, p2p: P2pState) returns (made: Option<(Snapshot, seq<Byte>)>)
    ensures made.Some? <==> KeysMatch(devices)
    ensures made.Some? ==>
            made.value == (Snapshot(nanos, devices, p2p), Sha256.Digest(Canonical(Snapshot(nanos, devices, p2p))))
  {
    hide Canonical, Sha256.Digest;
    var i := 0;
    while i < |devices|
      invariant 0 <= i <= |devices|
      invariant forall k :: 0 <= k < i ==> devices[k].1.ordinal == devices[k].0
    {
      if devices[i].0 != devices[i].1.ordinal {
        return None;
      }
      i := i + 1;
    }
    var snapshot := Snapshot(nanos, devices, p2p);
    var bytes := CanonicalBytes(snapshot);
    var id := Sha256Drivers.DigestPieces([bytes]);
    assert Sha256Drivers.Flatten([bytes]) == bytes;
    made := Some((snapshot, id));
  }
}
