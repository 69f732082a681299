# OpenVirteX tenant translation core, modelled in Dafny

This project models two pieces of the OpenVirteX network hypervisor, which
slices one physical OpenFlow fabric into isolated virtual networks
("tenants"):

- **`IPMapper`** translates a tenant's virtual IP addresses into physical
  ones. `getPhysicalIp` looks up the (tenant, virtual address) pair in the
  global mapping. If the pair is missing, it draws the next address from the
  tenant's virtual-network pool and records the binding in both directions.
  When any of the three caught exceptions is raised it returns the sentinel
  `0`. `rewriteMatch` overwrites a match's source and destination addresses
  in place. `prependRewriteActions` and `prependUnRewriteActions` build the
  ordered set-source / set-destination action lists, gated on the NW_SRC and
  NW_DST wildcards.
- **`OVXFlowRemoved.virtualize`** turns a physical switch's flow-removed
  message into the owning tenant's view. It reads the tenant from the high 32
  bits of the cookie, finds the virtual switch for (physical switch, tenant),
  finds and deletes the pending flow-mod under the cookie, and forwards the
  message only if that flow-mod carries `OFPFF_SEND_FLOW_REM` (sections 5.3.3
  and 5.4.2 of the OpenFlow Switch Specification 1.0.0). Before forwarding,
  `writeFields` copies the flow-mod's cookie, match, priority and idle timeout
  into the message. Delete-on-first-sight makes a big switch, whose members all
  report the same cookie, notify the tenant at most once.

Files and modules:

- `wrappers.dfy` (`Wrappers`): `Option`, `Result`.
- `openflow.dfy` (`OpenFlow`): the Java integer widths, the `Match` object,
  the two rewrite actions, the stored `FlowMod` and the `FlowRemoved` fields.
- `ovx_map.dfy` (`OVXMap`): the global mapping `Mappable`, with the IP
  mapping in both directions, the per-tenant address pools, and the
  virtual-switch registry keyed by (datapath id, tenant). Also `OVXSwitch`,
  with its flow table and its channel to the tenant controller. `IpRegistry`
  is the value view of the IP part.
- `ip_mapper.dfy` (`IPMapper`): `Translate`, the value-level transition that
  specifies `getPhysicalIp`, its lemmas, and the three methods and one
  function of `IPMapper.java`.
- `flow_removed.dfy` (`Messages`): the cookie's tenant field, `Deliver` (the
  value-level specification of the flow-table part of `virtualize`: find,
  delete, conditionally forward), the big-switch
  lemmas, and the `OVXFlowRemoved` message class with `WriteFields` and
  `Virtualize`.

Modelling choices:

- The `OVXMap` singleton is passed as a parameter.
- `Match` and the message are classes, because the source updates them in
  place. Field-level `modifies` frames say which fields may change.
- `writeFields` copies the match *reference*, as the Java assignment does.
  The field is named `flowMatch` because `match` is a Dafny keyword.
- `sendMsg` appends a snapshot of the message to the virtual switch's
  `outbox`.
- Each pool is the sequence of addresses `nextIP` would hand out; `nextIP`
  takes the head.
- `hasX` followed by `getX` is modelled as one lookup, because in a
  sequential model the two cannot disagree. The `MappingException` path of
  `virtualize` therefore coincides with the silent-drop path: nothing is
  sent and nothing changes.
- The bodies of `OVXMap.addIP` and `OVXFlowMod.hasFlag` are not available.
  `AddIp` is assumed to refuse a binding when either side is already bound
  (see "## Left out"). `HasFlag` is taken to be `flags & flag == flag`.
- A genuine pool address 0 cannot be told apart from the failure sentinel 0.
  The model follows the code, so `GetPhysicalIp` returns `0` on failure. The
  reason for a failure is kept in `Translate`'s `Resolution`, so the lemmas
  can tell a failure apart from a genuine address.

## Model

| member | source | states |
|---|---|---|
| `IPMapper.Translate` | src/main/java/net/onrc/openvirtex/elements/address/IPMapper.java:31-52 | an existing mapping is reported as existing exactly when the key was mapped; an allocation returns the head of the tenant's pool; a successful result is the address now recorded for the key; every existing mapping is kept |
| `IPMapper.GetPhysicalIp` | src/main/java/net/onrc/openvirtex/elements/address/IPMapper.java:31-52 | the returned address and the new registry are those of `Translate` on the old registry for (tenantId, virtualIP); failures return 0; only the IP maps and pools may change |
| `IPMapper.TranslateExisting` | src/main/java/net/onrc/openvirtex/elements/address/IPMapper.java:36-37 | an existing mapping is returned and the registry and pools are unchanged |
| `IPMapper.TranslateAllocates` | src/main/java/net/onrc/openvirtex/elements/address/IPMapper.java:38-43 | without a mapping, the head of the tenant's pool is returned and bound in both directions, the pool loses exactly that address, and no other mapping changes |
| `IPMapper.TranslateFails` | src/main/java/net/onrc/openvirtex/elements/address/IPMapper.java:39-51 | translation fails exactly when there is no mapping and the tenant is unknown, the pool is empty, or the drawn address is bound; a failure returns 0 and records no mapping; unknown tenant and exhausted pool change nothing at all |
| `IPMapper.TranslateKeepsMappings` | src/main/java/net/onrc/openvirtex/elements/address/IPMapper.java:36-43 | a translation never alters or removes an existing mapping of any key |
| `IPMapper.TranslatePreservesBijective` | src/main/java/net/onrc/openvirtex/elements/address/IPMapper.java:38-41 | the virtual-to-physical and physical-to-virtual maps stay inverse to each other |
| `IPMapper.TranslateIdempotent` | src/main/java/net/onrc/openvirtex/elements/address/IPMapper.java:33-43 | after a successful translation, a second one for the same key returns the same address and leaves the registry and pool unchanged |
| `IPMapper.MappingsPersist` | src/main/java/net/onrc/openvirtex/elements/address/IPMapper.java:36-43 | after any sequence of translations, for any keys, an existing mapping still holds the same physical address |
| `IPMapper.IdempotentAfterAnyTranslations` | src/main/java/net/onrc/openvirtex/elements/address/IPMapper.java:33-43 | once a key is translated, any later translations leave it translating to the same address without registry changes |
| `IPMapper.TenantScoped` | src/main/java/net/onrc/openvirtex/elements/address/IPMapper.java:33-37 | with a consistent registry, translating raw address x for tenant a never yields the physical address bound to x for another tenant b |
| `IPMapper.RewriteMatch` | src/main/java/net/onrc/openvirtex/elements/address/IPMapper.java:54-57 | source, then destination, become their successive translations whatever the wildcards; the wildcards and every other field are untouched |
| `IPMapper.RewriteSameAddress` | src/main/java/net/onrc/openvirtex/elements/address/IPMapper.java:54-57 | when source and destination are equal and the first translation succeeds, both are rewritten to the same physical address |
| `IPMapper.PrependRewriteActions` | src/main/java/net/onrc/openvirtex/elements/address/IPMapper.java:59-72 | the list is gated on NW_SRC / NW_DST with source before destination; its addresses are the successive translations of the un-rewrite list's addresses; the source action carries the source's translation on the registry as it was |
| `IPMapper.PrependUnRewriteActions` | src/main/java/net/onrc/openvirtex/elements/address/IPMapper.java:74-87 | the list is gated with source before destination and carries the match's own addresses; it reads only the match |
| `IPMapper.GatedShape` | src/main/java/net/onrc/openvirtex/elements/address/IPMapper.java:59-72 | a gated list has one action per non-wildcarded field (0 to 2), and a set-source stands exactly at position 0 when NW_SRC is concrete |
| `IPMapper.GatedUnique` | src/main/java/net/onrc/openvirtex/elements/address/IPMapper.java:74-87 | two gated lists with the same flags and the same addresses are equal, so the gating contract fixes the result |
| `OVXMap.Mappable.NextIp` | src/main/java/net/onrc/openvirtex/elements/address/IPMapper.java:39 | `getVirtualNetwork(tid).nextIP()`: fails for an unknown tenant or an empty pool without changing it, otherwise takes the pool's head |
| `OVXMap.Mappable.AddIp` | src/main/java/net/onrc/openvirtex/elements/address/IPMapper.java:41 | `addIP` binds both directions unless either side is already bound |
| `OVXMap.Mappable.VirtualSwitchOf` | src/main/java/net/onrc/openvirtex/messages/OVXFlowRemoved.java:31-35 | `hasVirtualSwitch` and `getVirtualSwitch(sw, tid)`: a switch is found exactly when (sw, tid) is registered, and it is the registered one |
| `OVXMap.OVXSwitch.DeleteFlowMod` | src/main/java/net/onrc/openvirtex/messages/OVXFlowRemoved.java:41 | `deleteFlowMod(cookie)`: the flow table loses exactly the cookie's entry; nothing else of the switch changes |
| `OVXMap.OVXSwitch.SendMsg` | src/main/java/net/onrc/openvirtex/messages/OVXFlowRemoved.java:44 | `sendMsg`: the message is appended to the tenant channel, after everything sent before |
| `OpenFlow.HasFlag` | src/main/java/net/onrc/openvirtex/messages/OVXFlowRemoved.java:42 | a flag is set when or-ing it into the flags changes nothing; for OFPFF_SEND_FLOW_REM that is bit 0 |
| `Messages.CopyFromFlowMod` | src/main/java/net/onrc/openvirtex/messages/OVXFlowRemoved.java:58-63 | the value `writeFields` leaves: cookie, match, priority and idle timeout from the flow-mod, reason, durations and counters from the message |
| `Messages.Deliver` | src/main/java/net/onrc/openvirtex/messages/OVXFlowRemoved.java:38-45 | the cookie's entry is gone afterwards whether or not it was there; a message is sent exactly when the entry existed and carries OFPFF_SEND_FLOW_REM, and it is the report rewritten from that entry |
| `Messages.ToInt32` | src/main/java/net/onrc/openvirtex/messages/OVXFlowRemoved.java:28 | the narrowing `(int)` cast agrees with its argument modulo 2^32 and is the identity on 32-bit values |
| `Messages.TenantOf` | src/main/java/net/onrc/openvirtex/messages/OVXFlowRemoved.java:28 | the tenant is the signed high 32-bit field of the cookie: cookie lies in [tid*2^32, tid*2^32 + 2^32) |
| `Messages.TenantOfPacked` | src/main/java/net/onrc/openvirtex/messages/OVXFlowRemoved.java:28 | a cookie packed from a tenant and a 32-bit flow id is a valid long and gives back that tenant |
| `Messages.DeliverNotPending` | src/main/java/net/onrc/openvirtex/messages/OVXFlowRemoved.java:38 | with no pending flow-mod under the cookie, nothing is sent and the flow table is unchanged |
| `Messages.DeliverConsumes` | src/main/java/net/onrc/openvirtex/messages/OVXFlowRemoved.java:38-45 | a pending flow-mod is removed whether or not notification was asked for, other entries are untouched, a message is sent iff OFPFF_SEND_FLOW_REM is set, and it carries the flow-mod's cookie, match, priority and idle timeout and the report's other fields |
| `Messages.DeliverAtMostOnce` | src/main/java/net/onrc/openvirtex/messages/OVXFlowRemoved.java:36-41 | a second same-cookie report after the first changes nothing and sends nothing; the two send at most one message |
| `Messages.FanInNotPending` | src/main/java/net/onrc/openvirtex/messages/OVXFlowRemoved.java:36-38 | any number of reports for a cookie that is not pending change nothing and send nothing |
| `Messages.BigSwitchDeliversOnce` | src/main/java/net/onrc/openvirtex/messages/OVXFlowRemoved.java:36-45 | any number of same-cookie reports remove the flow-mod and send exactly one message if it asked for one and none otherwise, built from the first report |
| `Messages.OVXFlowRemoved.WriteFields` | src/main/java/net/onrc/openvirtex/messages/OVXFlowRemoved.java:58-63 | cookie, match, priority and idle timeout take the flow-mod's values; reason, durations and counters are unchanged |
| `Messages.OVXFlowRemoved.Virtualize` | src/main/java/net/onrc/openvirtex/messages/OVXFlowRemoved.java:26-50 | with no virtual switch for (sw, tenant of the cookie), nothing changes; otherwise only that switch and this message change, and its flow table, its outbox (at most one message appended) and the message fields are as `Deliver` says |
| `Messages.BigSwitchDuplicateReports` | src/main/java/net/onrc/openvirtex/messages/OVXFlowRemoved.java:36-41 | two members of one big switch reporting the same cookie: the flow-mod is gone, the tenant channel keeps its earlier messages and gains exactly what one delivery of the first report sends (at most one message), and the second report is left unchanged |

## Left out

- Logging (`log.debug`, `log.error`, `log.warn`) and `toString`: output with no behavioural contract.
- Concurrency: the check-then-act sequences (lookup then allocate then
  insert; has-flow-mod then delete) run as single sequential calls. Locking
  and atomicity across switch-connection threads are not modelled.
- The internals of `OVXMap`/`Mappable`, `OVXNetwork.nextIP`'s allocation
  policy and `OVXFlowMod` are not part of this model. They appear only
  through the has/get/add/next/delete/hasFlag contracts described above.
- Wire encoding of `OFMatch`, `OFAction` and `OFFlowRemoved`, and the
  `Wildcards` bit layout. A match is reduced to its two network addresses and
  its two wildcard flags.
- The `from` argument of `sendMsg` and the channel I/O. Sending appends to
  the virtual switch's outbox.
- `OVXMap.addIP`'s body is not available. `AddIp` is assumed to refuse when
  either side of the binding is already bound. `IPMapper.TranslatePreservesBijective`
  and `IPMapper.TenantScoped` rest on this assumption: an `addIP` that
  overwrote instead could hand one tenant an address already bound to another.
- Dispatch of `virtualize` over message kinds (`Virtualizable`): only the
  flow-removed handler is modelled.
