/** Identity facts of a physical device and their canonical bytes. A string stands for its UTF-8 bytes. */
module DeviceIdentity {
  import opened Wrappers
  import opened Bytes

  datatype IdentityFacts =
    | Cuda(pciUuid: Str, driverUuid: Option<Str>)
    | Metal(registryId: Str)

  function PutIdentity(id: IdentityFacts, rest: seq<Byte>): seq<Byte> {
    match id
    case Cuda(uuid, driver) => [0] + PutStr(uuid, PutOption(driver, PutStr, rest))
    case Metal(registry) => [1] + PutStr(registry, rest)
  }

  /** Identity facts are read back in one way only from any longer stream. */
  lemma ReadIdentity(a: IdentityFacts, b: IdentityFacts, r: seq<Byte>, s: seq<Byte>)
    requires PutIdentity(a, r) == PutIdentity(b, s)
    ensures a == b && r == s
  {
    var x := match a case Cuda(u, d) => PutStr(u, PutOption(d, PutStr, r)) case Metal(g) => PutStr(g, r);
    var y := match b case Cuda(u, d) => PutStr(u, PutOption(d, PutStr, s)) case Metal(g) => PutStr(g, s);
    ReadTag(if a.Cuda? then 0 else 1, if b.Cuda? then 0 else 1, x, y);
    if a.Cuda? {
      ReadStr(a.pciUuid, b.pciUuid, PutOption(a.driverUuid, PutStr, r), PutOption(b.driverUuid, PutStr, s));
      WordsReadable();
      ReadOption(a.driverUuid, b.driverUuid, PutStr, r, s);
    } else {
      ReadStr(a.registryId, b.registryId, r, s);
    }
  }

  lemma IdentityReadable()
    ensures Readable(PutIdentity)
  {
    forall x, y, r, s | PutIdentity(x, r) == PutIdentity(y, s) ensures x == y && r == s {
      ReadIdentity(x, y, r, s);
    }
  }

  method PushOptionalStr(out: seq<Byte>, o: Option<Str>, ghost rest: seq<Byte>) returns (r: seq<Byte>)
    ensures r + rest == out + PutOption(o, PutStr, rest)
  {
    if o.Some? {
      r := PushBool(out, true, PutStr(o.value, rest));
      r := PushStr(r, o.value, rest);
    } else {
      r := PushBool(out, false, rest);
    }
  }

  /** The bytes of `PhysicalDeviceId::canonical_bytes`, appended to `out`. */
  method PushIdentity(out: seq<Byte>, id: IdentityFacts, ghost rest: seq<Byte>) returns (r: seq<Byte>)
    ensures r + rest == out + PutIdentity(id, rest)
  {
    match id {
      case Cuda(uuid, driver) =>
        r := PushByte(out, 0, PutStr(uuid, PutOption(driver, PutStr, rest)));
        r := PushStr(r, uuid, PutOption(driver, PutStr, rest));
        r := PushOptionalStr(r, driver, rest);
      case Metal(registry) =>
        r := PushByte(out, 1, PutStr(registry, rest));
        r := PushStr(r, registry, rest);
    }
  }
}
