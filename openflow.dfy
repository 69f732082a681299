/**
 * The OpenFlow 1.0 message shapes the translation layer reads and writes:
 * Java's fixed-width integers, the match (an object rewritten in place),
 * the two network-layer rewrite actions, the stored flow-mod and the fields
 * of a flow-removed message (section 5.4.2 of the OpenFlow Switch
 * Specification 1.0.0).
 */
module OpenFlow {

  /** Java `int`. */
  type Int32 = x: int | -0x8000_0000 <= x < 0x8000_0000

  /** Java `long`. */
  type Int64 = x: int | -0x8000_0000_0000_0000 <= x < 0x8000_0000_0000_0000

  /** Java `short`, the width of priority and idle timeout in the message classes. */
  type Int16 = x: int | -0x8000 <= x < 0x8000

  /**
   * Flow-mod flag asking the switch to send a flow-removed message when the
   * entry expires or is deleted (section 5.3.3, `OFPFF_SEND_FLOW_REM = 1 << 0`).
   */
  const OFPFF_SEND_FLOW_REM: bv16 := 1

  /** `fm.hasFlag(flag)`: every bit of `flag` is set in `flags`. */
  predicate HasFlag(flags: bv16, flag: bv16): (set_: bool)
    ensures set_ <==> flags | flag == flags
    ensures flag == OFPFF_SEND_FLOW_REM ==> (set_ <==> flags & 1 != 0)
  {
    flags & flag == flag
  }

  /**
   * An `OFMatch`, reduced to the fields the translation layer touches: the
   * network source and destination addresses and the NW_SRC / NW_DST
   * wildcard flags. Every other header field of a match is left out; the
   * field-level frames of the methods that update a match say that nothing
   * but the two addresses changes.
   */
  class Match {
    var networkSource: Int32
    var networkDestination: Int32
    var wildcardNwSrc: bool
    var wildcardNwDst: bool

    constructor (src: Int32, dst: Int32, srcWildcarded: bool, dstWildcarded: bool)
      ensures networkSource == src && networkDestination == dst
      ensures wildcardNwSrc == srcWildcarded && wildcardNwDst == dstWildcarded
    {
      networkSource, networkDestination := src, dst;
      wildcardNwSrc, wildcardNwDst := srcWildcarded, dstWildcarded;
    }
  }

  /** `OVXActionNetworkLayerSource` and `OVXActionNetworkLayerDestination`. */
  datatype Action =
    | SetNwSrc(networkAddress: Int32)
    | SetNwDst(networkAddress: Int32)

  /** The addresses the actions of a list carry, in list order. */
  function Addresses(actions: seq<Action>): (ips: seq<Int32>)
    ensures |ips| == |actions|
    ensures forall i :: 0 <= i < |actions| ==> ips[i] == actions[i].networkAddress
  {
    if actions == [] then [] else [actions[0].networkAddress] + Addresses(actions[1..])
  }

  /**
   * A flow-mod as the virtual switch's flow table stores it: the values
   * the tenant controller originally sent.
   */
  datatype FlowMod = FlowMod(cookie: Int64, flowMatch: Match, priority: Int16, idleTimeout: Int16, flags: bv16)

  /** The fields of an `OFFlowRemoved` message (section 5.4.2). */
  datatype FlowRemoved = FlowRemoved(
    cookie: Int64,
    flowMatch: Match,
    priority: Int16,
    reason: bv8,
    durationSeconds: Int32,
    durationNanoseconds: Int32,
    idleTimeout: Int16,
    packetCount: Int64,
    byteCount: Int64)
}
