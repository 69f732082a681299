/**
 * The global virtual/physical mapping (`OVXMap`, seen through `Mappable`)
 * as far as the translation layer uses it: the tenant-scoped IP address
 * mapping in both directions, each virtual network's pool of unassigned
 * physical addresses, and the registry of virtual switches by
 * (physical switch, tenant). `OVXSwitch` holds a virtual switch's flow
 * table and the channel to its tenant controller.
 */
module OVXMap {
  import opened Wrappers
  import opened OpenFlow

  type TenantId = Int32

  /** A physical switch, known by its datapath id. */
  type Dpid = x: int | 0 <= x < 0x1_0000_0000_0000_0000

  /** `OVXIPAddress`: a virtual address is unique only within its tenant. */
  datatype VirtualIp = VirtualIp(tenantId: TenantId, ip: Int32)

  /** The three exceptions `getPhysicalIp` catches. */
  datatype MappingError =
    | PoolExhausted    // IndexOutOfBoundException from nextIP
    | UnknownNetwork   // NetworkMappingException from getVirtualNetwork
    | AddressConflict  // AddressMappingException from the address mapping

  /**
   * Value view of the IP part of the registry: virtual-to-physical,
   * physical-to-virtual, and the unassigned addresses of each tenant's
   * virtual network in the order `nextIP` hands them out.
   */
  datatype IpRegistry = IpRegistry(
    physicalOf: map<VirtualIp, Int32>,
    virtualOf: map<Int32, VirtualIp>,
    pools: map<TenantId, seq<Int32>>)

  /** The two directions of the address mapping are inverse to each other. */
  ghost predicate Bijective(r: IpRegistry) {
    && (forall v :: v in r.physicalOf ==> r.physicalOf[v] in r.virtualOf && r.virtualOf[r.physicalOf[v]] == v)
    && (forall p :: p in r.virtualOf ==> r.virtualOf[p] in r.physicalOf && r.physicalOf[r.virtualOf[p]] == p)
  }

  /** `nextIP` on a tenant's virtual network, as a value transition. */
  function DrawIp(r: IpRegistry, tid: TenantId): (d: (Result<Int32, MappingError>, IpRegistry))
  {
    if tid !in r.pools then (Failure(UnknownNetwork), r)
    else if r.pools[tid] == [] then (Failure(PoolExhausted), r)
    else (Success(r.pools[tid][0]), r.(pools := r.pools[tid := r.pools[tid][1..]]))
  }

  /**
   * `addIP(pip, vip)`: records the pair in both directions unless either
   * side is already bound, which is a mapping inconsistency.
   */
  function Bind(r: IpRegistry, pip: Int32, vip: VirtualIp): (d: (Result<Int32, MappingError>, IpRegistry))
  {
    if pip in r.virtualOf || vip in r.physicalOf then (Failure(AddressConflict), r)
    else (Success(pip), r.(physicalOf := r.physicalOf[vip := pip], virtualOf := r.virtualOf[pip := vip]))
  }

  /** A virtual switch: its flow table by physical cookie, and what it has sent to its tenant controller. */
  class OVXSwitch {
    var flowTable: map<Int64, FlowMod>
    var outbox: seq<FlowRemoved>

    constructor (table: map<Int64, FlowMod>)
      ensures flowTable == table && outbox == []
    {
      flowTable, outbox := table, [];
    }

    /** `deleteFlowMod(cookie)`. */
    method DeleteFlowMod(cookie: Int64)
      modifies this`flowTable
      ensures flowTable == old(flowTable) - {cookie}
    {
      flowTable := flowTable - {cookie};
    }

    /** `sendMsg(msg, from)`: the message, as it is at this moment, goes to the tenant controller. */
    method SendMsg(msg: FlowRemoved)
      modifies this`outbox
      ensures outbox == old(outbox) + [msg]
    {
      outbox := outbox + [msg];
    }
  }

  /** The `OVXMap` singleton. */
  class Mappable {
    var physicalIps: map<VirtualIp, Int32>
    var virtualIps: map<Int32, VirtualIp>
    var pools: map<TenantId, seq<Int32>>
    var virtualSwitches: map<(Dpid, TenantId), OVXSwitch>

    constructor (pools: map<TenantId, seq<Int32>>, virtualSwitches: map<(Dpid, TenantId), OVXSwitch>)
      ensures Ips() == IpRegistry(map[], map[], pools)
      ensures this.virtualSwitches == virtualSwitches
    {
      physicalIps, virtualIps := map[], map[];
      this.pools, this.virtualSwitches := pools, virtualSwitches;
    }

    function Ips(): (r: IpRegistry)
      reads this
    {
      IpRegistry(physicalIps, virtualIps, pools)
    }

    /** `getVirtualNetwork(tenantId).nextIP()`. */
    method NextIp(tid: TenantId) returns (r: Result<Int32, MappingError>)
      modifies this`pools
      ensures (r, Ips()) == DrawIp(old(Ips()), tid)
    {
      if tid !in pools {
        return Failure(UnknownNetwork);
      }
      var free := pools[tid];
      if free == [] {
        return Failure(PoolExhausted);
      }
      r := Success(free[0]);
      pools := pools[tid := free[1..]];
    }

    /** `addIP(pip, vip)`. */
    method AddIp(pip: Int32, vip: VirtualIp) returns (r: Result<Int32, MappingError>)
      modifies this`physicalIps, this`virtualIps
      ensures (r, Ips()) == Bind(old(Ips()), pip, vip)
    {
      if pip in virtualIps || vip in physicalIps {
        return Failure(AddressConflict);
      }
      physicalIps := physicalIps[vip := pip];
      virtualIps := virtualIps[pip := vip];
      r := Success(pip);
    }

    /** `hasVirtualSwitch(sw, tid)` and `getVirtualSwitch(sw, tid)` together. */
    function VirtualSwitchOf(sw: Dpid, tid: TenantId): (v: Option<OVXSwitch>)
      reads this
      ensures v.Some? <==> (sw, tid) in virtualSwitches
      ensures v.Some? ==> v.value == virtualSwitches[(sw, tid)]
    {
      if (sw, tid) in virtualSwitches then Some(virtualSwitches[(sw, tid)]) else None
    }

    /** The objects a call on behalf of (sw, tid) may change: the owning virtual switch, if there is one. */
    function OwnerFrame(sw: Dpid, tid: TenantId): (s: set<OVXSwitch>)
      reads this
    {
      match VirtualSwitchOf(sw, tid)
      case Some(v) => {v}
      case None => {}
    }
  }
}
