/** The canonical bytes of a topology-bound plan. A virtual partition takes part by its id alone, and a
    map or a set as its elements in their order. */
module BoundPlan {
  import opened Wrappers
  import opened Bytes
  import opened DeviceIdentity

  datatype Binding = Binding(partition: Str, device: IdentityFacts, virtualPartition: Option<U64>)

  datatype Kind =
    | ImplicitLocal(device: IdentityFacts, virtualPartition: Option<U64>)
    | Distributed(bindings: seq<Binding>)

  datatype FixtureClass = Physical | Virtual | Synthetic

  datatype TransportClass = NoTransport | HostStaged | DirectedPeerNotAttempted

  type SnapshotId = d: seq<Byte> | |d| == 32 witness seq(32, _ => 0)

  datatype Plan = Plan(
    logicalHash: Str, kind: Kind, deviceSet: seq<IdentityFacts>, snapshotId: SnapshotId,
    fixture: FixtureClass, transport: TransportClass)

  /** The counts fit the 64-bit words they are written in. */
  predicate Counted(p: Plan) {
    |p.deviceSet| < TWO64 && (p.kind.Distributed? ==> |p.kind.bindings| < TWO64)
  }

  function FixtureTag(f: FixtureClass): U64 {
    match f
    case Physical => 0
    case Virtual => 1
    case Synthetic => 2
  }

  function TransportTag(t: TransportClass): U64 {
    match t
    case NoTransport => 0
    case HostStaged => 1
    case DirectedPeerNotAttempted => 2
  }

  function PutBinding(b: Binding, rest: seq<Byte>): seq<Byte> {
    PutStr(b.partition, PutIdentity(b.device, PutOption(b.virtualPartition, PutU64, rest)))
  }

  function PutKind(k: Kind, rest: seq<Byte>): seq<Byte>
    requires k.Distributed? ==> |k.bindings| < TWO64
  {
    match k
    case ImplicitLocal(device, virtual) => [0] + PutIdentity(device, PutOption(virtual, PutU64, rest))
    case Distributed(bindings) => [1] + PutList(bindings, PutBinding, rest)
  }

  /** The snapshot id and the two classes. */
  function PutEnd(p: Plan, rest: seq<Byte>): seq<Byte> {
    p.snapshotId + PutU64(FixtureTag(p.fixture), PutU64(TransportTag(p.transport), rest))
  }

  function Canonical(p: Plan): seq<Byte>
    requires Counted(p)
  {
    PutStr(p.logicalHash, PutKind(p.kind, PutList(p.deviceSet, PutIdentity, PutEnd(p, []))))
  }

  lemma BindingReadable()
    ensures Readable(PutBinding)
  {
    hide PutOption, PutU64, PutStr, PutIdentity;
    forall x, y, r, s | PutBinding(x, r) == PutBinding(y, s) ensures x == y && r == s {
      var a, b := PutOption(x.virtualPartition, PutU64, r), PutOption(y.virtualPartition, PutU64, s);
      ReadStr(x.partition, y.partition, PutIdentity(x.device, a), PutIdentity(y.device, b));
      ReadIdentity(x.device, y.device, a, b);
      WordsReadable();
      ReadOption(x.virtualPartition, y.virtualPartition, PutU64, r, s);
    }
  }

  lemma ReadKind(a: Kind, b: Kind, r: seq<Byte>, s: seq<Byte>)
    requires a.Distributed? ==> |a.bindings| < TWO64
    requires b.Distributed? ==> |b.bindings| < TWO64
    requires PutKind(a, r) == PutKind(b, s)
    ensures a == b && r == s
  {
    hide PutOption, PutU64, PutIdentity, PutList;
    var tagA, tagB := if a.ImplicitLocal? then 0 else 1, if b.ImplicitLocal? then 0 else 1;
    ReadTag(tagA, tagB, PutKind(a, r)[1..], PutKind(b, s)[1..]);
    if a.ImplicitLocal? {
      var x, y := PutOption(a.virtualPartition, PutU64, r), PutOption(b.virtualPartition, PutU64, s);
      ReadIdentity(a.device, b.device, x, y);
      WordsReadable();
      ReadOption(a.virtualPartition, b.virtualPartition, PutU64, r, s);
    } else {
      BindingReadable();
      ReadList(a.bindings, b.bindings, PutBinding, r, s);
    }
  }

  lemma ReadEnd(a: Plan, b: Plan, r: seq<Byte>, s: seq<Byte>)
    requires PutEnd(a, r) == PutEnd(b, s)
    ensures a.snapshotId == b.snapshotId && a.fixture == b.fixture && a.transport == b.transport && r == s
  {
    hide PutU64;
    var x, y := PutU64(TransportTag(a.transport), r), PutU64(TransportTag(b.transport), s);
    SplitsOnce(a.snapshotId, b.snapshotId, PutU64(FixtureTag(a.fixture), x), PutU64(FixtureTag(b.fixture), y));
    ReadU64(FixtureTag(a.fixture), FixtureTag(b.fixture), x, y);
    ReadU64(TransportTag(a.transport), TransportTag(b.transport), r, s);
  }

  /** Any change of a binding fact, of the device set, of the snapshot or of a class changes the bytes. */
  lemma CanonicalInjective(a: Plan, b: Plan)
    requires Counted(a) && Counted(b) && Canonical(a) == Canonical(b)
    ensures a == b
  {
    hide PutStr, PutKind, PutList, PutEnd;
    var x, y := PutEnd(a, []), PutEnd(b, []);
    var m, n := PutList(a.deviceSet, PutIdentity, x), PutList(b.deviceSet, PutIdentity, y);
    ReadStr(a.logicalHash, b.logicalHash, PutKind(a.kind, m), PutKind(b.kind, n));
    ReadKind(a.kind, b.kind, m, n);
    IdentityReadable();
    ReadList(a.deviceSet, b.deviceSet, PutIdentity, x, y);
    ReadEnd(a, b, [], []);
  }

  // ----- the appending code

  method PushVirtual(out: seq<Byte>, v: Option<U64>, ghost rest: seq<Byte>) returns (r: seq<Byte>)
    ensures r + rest == out + PutOption(v, PutU64, rest)
  {
    hide PutU64;
    if v.Some? {
      r := PushByte(out, 1, PutU64(v.value, rest));
      r := PushU64(r, v.value, rest);
    } else {
      r := PushByte(out, 0, rest);
    }
  }

  method PushBindings(out: seq<Byte>, bindings: seq<Binding>, ghost rest: seq<Byte>) returns (r: seq<Byte>)
    requires |bindings| < TWO64
    ensures r + rest == out + PutList(bindings, PutBinding, rest)
  {
    hide PutU64, PutStr, PutIdentity, PutOption;
    r := PushU64(out, |bindings|, PutAll(bindings, PutBinding, rest));
    var i := 0;
    while i < |bindings|
      invariant 0 <= i <= |bindings|
      invariant r + PutAll(bindings[i..], PutBinding, rest) == out + PutList(bindings, PutBinding, rest)
    {
      var b := bindings[i];
      ghost var after := PutAll(bindings[i + 1..], PutBinding, rest);
      ghost var tail := PutOption(b.virtualPartition, PutU64, after);
      assert bindings[i..][1..] == bindings[i + 1..];
      r := PushStr(r, b.partition, PutIdentity(b.device, tail));
      r := PushIdentity(r, b.device, tail);
      r := PushVirtual(r, b.virtualPartition, after);
      i := i + 1;
    }
  }

  method PushMembers(out: seq<Byte>, members: seq<IdentityFacts>, ghost rest: seq<Byte>) returns (r: seq<Byte>)
    requires |members| < TWO64
    ensures r + rest == out + PutList(members, PutIdentity, rest)
  {
    hide PutU64, PutIdentity;
    r := PushU64(out, |members|, PutAll(members, PutIdentity, rest));
    var i := 0;
    while i < |members|
      invariant 0 <= i <= |members|
      invariant r + PutAll(members[i..], PutIdentity, rest) == out + PutList(members, PutIdentity, rest)
    {
      assert members[i..][1..] == members[i + 1..];
      r := PushIdentity(r, members[i], PutAll(members[i + 1..], PutIdentity, rest));
      i := i + 1;
    }
  }

  /** `BoundDistributedPlan::canonical_bytes`. */
  method CanonicalBytes(p: Plan) returns (out: seq<Byte>)
    requires Counted(p)
    ensures out == Canonical(p)
  {
    hide PutU64, PutStr, PutList, PutIdentity, PutOption;
    ghost var last := PutU64(TransportTag(p.transport), []);
    ghost var classes := PutU64(FixtureTag(p.fixture), last);
    ghost var after := PutList(p.deviceSet, PutIdentity, PutEnd(p, []));
    out := PushStr([], p.logicalHash, PutKind(p.kind, after));
    match p.kind {
      case ImplicitLocal(device, virtual) =>
        out := PushByte(out, 0, PutIdentity(device, PutOption(virtual, PutU64, after)));
        out := PushIdentity(out, device, PutOption(virtual, PutU64, after));
        out := PushVirtual(out, virtual, after);
      case Distributed(bindings) =>
        out := PushByte(out, 1, PutList(bindings, PutBinding, after));
        out := PushBindings(out, bindings, after);
    }
    assert out + after == Canonical(p);
    out := PushMembers(out, p.deviceSet, PutEnd(p, []));
    assert out + PutEnd(p, []) == Canonical(p);
    assert PutEnd(p, []) == p.snapshotId + classes;
    Appended(out, p.snapshotId, classes);
    out := out + p.snapshotId;
    out := PushU64(out, FixtureTag(p.fixture), last);
    out := PushU64(out, TransportTag(p.transport), []);
    assert out + [] == out;
  }
}
