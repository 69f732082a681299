/**
 * `OVXFlowRemoved.virtualize`: a flow-removed message from a physical
 * switch is handed to the tenant that owns the flow, at most once, and only
 * if the tenant asked for it when installing the flow (flow-mod flag
 * OFPFF_SEND_FLOW_REM, section 5.3.3 of the OpenFlow Switch Specification
 * 1.0.0; message fields per its section 5.4.2).
 *
 * Steps, each terminal when it does not match: recover the tenant from the
 * cookie; find the virtual switch of (physical switch, tenant); find the
 * pending flow-mod under the cookie; delete it; and only when it carries the
 * flag, copy its cookie, match, priority and idle timeout into the message
 * and send it.
 */
module Messages {
  import opened Wrappers
  import opened OpenFlow
  import opened OVXMap

  const TWO_32: int := 0x1_0000_0000

  /** Java's narrowing cast `(int) x`: the low 32 bits of `x`, read in two's complement. */
  function ToInt32(x: int): (r: Int32)
    ensures (x - r) % TWO_32 == 0
    ensures -0x8000_0000 <= x < 0x8000_0000 ==> r == x
  {
    var low := x % TWO_32;
    if low < 0x8000_0000 then low else low - TWO_32
  }

  /**
   * `(int) (cookie >> 32)`: the tenant id held in the high 32 bits of a
   * cookie. The shift is arithmetic, a floor division by 2^32, so the tenant
   * is the unique `tid` whose block of 2^32 cookies contains `cookie`.
   */
  function TenantOf(cookie: Int64): (tid: TenantId)
    ensures tid * TWO_32 <= cookie < tid * TWO_32 + TWO_32
  {
    var high := cookie / TWO_32;
    assert -0x8000_0000 <= high < 0x8000_0000;
    ToInt32(high)
  }

  /** A cookie packed from a tenant id and a 32-bit flow id gives back that tenant. */
  lemma TenantOfPacked(tid: TenantId, flowId: int)
    requires 0 <= flowId < TWO_32
    ensures -0x8000_0000_0000_0000 <= tid * TWO_32 + flowId < 0x8000_0000_0000_0000
    ensures TenantOf(tid * TWO_32 + flowId) == tid
  {
  }

  /** `writeFields(fm)` as a value update: the four fields the tenant originally set. */
  function CopyFromFlowMod(msg: FlowRemoved, fm: FlowMod): (out: FlowRemoved)
    ensures out.cookie == fm.cookie && out.flowMatch == fm.flowMatch
    ensures out.priority == fm.priority && out.idleTimeout == fm.idleTimeout
    ensures out.reason == msg.reason
    ensures out.durationSeconds == msg.durationSeconds && out.durationNanoseconds == msg.durationNanoseconds
    ensures out.packetCount == msg.packetCount && out.byteCount == msg.byteCount
  {
    msg.(cookie := fm.cookie, flowMatch := fm.flowMatch, priority := fm.priority, idleTimeout := fm.idleTimeout)
  }

  datatype Delivery = Delivery(table: map<Int64, FlowMod>, sent: Option<FlowRemoved>)

  /**
   * The flow-table part of `virtualize` on the owning virtual switch (find,
   * delete, conditionally forward): the pending flow-mod under the message's
   * cookie is consumed, and the rewritten message is sent only if that
   * flow-mod asked for it.
   */
  function Deliver(table: map<Int64, FlowMod>, msg: FlowRemoved): (d: Delivery)
    ensures d.table == table - {msg.cookie}
    ensures d.sent.Some? <==> msg.cookie in table && HasFlag(table[msg.cookie].flags, OFPFF_SEND_FLOW_REM)
    ensures d.sent.Some? ==> d.sent.value == CopyFromFlowMod(msg, table[msg.cookie])
  {
    if msg.cookie !in table then Delivery(table, None)
    else
      var fm := table[msg.cookie];
      Delivery(table - {msg.cookie},
               if HasFlag(fm.flags, OFPFF_SEND_FLOW_REM) then Some(CopyFromFlowMod(msg, fm)) else None)
  }

  /** What a delivery appends to the tenant channel: nothing or one message. */
  function Sent(d: Delivery): (out: seq<FlowRemoved>)
    ensures |out| <= 1
    ensures out == [] <==> d.sent.None?
  {
    match d.sent
    case Some(m) => [m]
    case None => []
  }

  /** No pending flow-mod under the cookie: nothing is sent and the table is unchanged. */
  lemma DeliverNotPending(table: map<Int64, FlowMod>, msg: FlowRemoved)
    requires msg.cookie !in table
    ensures Deliver(table, msg) == Delivery(table, None)
  {
  }

  /**
   * A pending flow-mod is removed whether or not it asked for notification,
   * other entries are untouched, and a message is sent if and only if the
   * flow-mod carries OFPFF_SEND_FLOW_REM; that message has the flow-mod's
   * cookie, match, priority and idle timeout and the rest of the incoming
   * message (reason, durations, counters).
   */
  lemma DeliverConsumes(table: map<Int64, FlowMod>, msg: FlowRemoved)
    requires msg.cookie in table
    ensures var d := Deliver(table, msg);
      var fm := table[msg.cookie];
      && msg.cookie !in d.table
      && (forall k :: k != msg.cookie ==> (k in d.table <==> k in table))
      && (forall k :: k in d.table ==> d.table[k] == table[k])
      && (d.sent.Some? <==> HasFlag(fm.flags, OFPFF_SEND_FLOW_REM))
      && (d.sent.Some? ==>
            var out := d.sent.value;
            && out.cookie == fm.cookie && out.flowMatch == fm.flowMatch
            && out.priority == fm.priority && out.idleTimeout == fm.idleTimeout
            && out.reason == msg.reason
            && out.durationSeconds == msg.durationSeconds && out.durationNanoseconds == msg.durationNanoseconds
            && out.packetCount == msg.packetCount && out.byteCount == msg.byteCount)
  {
  }

  /** Two reports of the same cookie in succession: the second one finds nothing and does nothing. */
  lemma DeliverAtMostOnce(table: map<Int64, FlowMod>, first: FlowRemoved, second: FlowRemoved)
    requires first.cookie == second.cookie
    ensures var d1 := Deliver(table, first);
      var d2 := Deliver(d1.table, second);
      d2 == Delivery(d1.table, None) && |Sent(d1) + Sent(d2)| <= 1
  {
  }

  datatype FanInResult = FanInResult(table: map<Int64, FlowMod>, sent: seq<FlowRemoved>)

  /** Reports handled one after another on one virtual switch's flow table, as from the members of a big switch. */
  function FanIn(table: map<Int64, FlowMod>, reports: seq<FlowRemoved>): (f: FanInResult)
    decreases |reports|
  {
    if reports == [] then FanInResult(table, [])
    else
      var d := Deliver(table, reports[0]);
      var rest := FanIn(d.table, reports[1..]);
      FanInResult(rest.table, Sent(d) + rest.sent)
  }

  /** Reports for a cookie that is not pending change nothing and send nothing. */
  lemma {:induction false} FanInNotPending(table: map<Int64, FlowMod>, reports: seq<FlowRemoved>, cookie: Int64)
    requires cookie !in table
    requires forall i :: 0 <= i < |reports| ==> reports[i].cookie == cookie
    ensures FanIn(table, reports) == FanInResult(table, [])
    decreases |reports|
  {
    if reports != [] {
      FanInNotPending(table, reports[1..], cookie);
    }
  }

  /**
   * Big-switch fan-in: any number of same-cookie reports consume the pending
   * flow-mod and produce exactly one tenant message if it asked for one and
   * none otherwise; the message is built from the first report.
   */
  lemma {:induction false} BigSwitchDeliversOnce(table: map<Int64, FlowMod>, reports: seq<FlowRemoved>, cookie: Int64)
    requires |reports| > 0
    requires forall i :: 0 <= i < |reports| ==> reports[i].cookie == cookie
    ensures var f := FanIn(table, reports);
      && f.table == table - {cookie}
      && |f.sent| <= 1
      && (|f.sent| == 1 <==> cookie in table && HasFlag(table[cookie].flags, OFPFF_SEND_FLOW_REM))
      && (|f.sent| == 1 ==> f.sent[0] == CopyFromFlowMod(reports[0], table[cookie]))
  {
    var d := Deliver(table, reports[0]);
    assert cookie !in d.table;
    FanInNotPending(d.table, reports[1..], cookie);
    if cookie !in table {
      assert d.table == table - {cookie};
    }
  }

  /** The `OVXFlowRemoved` message object, whose fields `writeFields` overwrites in place. */
  class OVXFlowRemoved {
    var cookie: Int64
    var flowMatch: Match
    var priority: Int16
    var reason: bv8
    var durationSeconds: Int32
    var durationNanoseconds: Int32
    var idleTimeout: Int16
    var packetCount: Int64
    var byteCount: Int64

    constructor (fields: FlowRemoved)
      ensures Fields() == fields
    {
      cookie, flowMatch, priority, reason := fields.cookie, fields.flowMatch, fields.priority, fields.reason;
      durationSeconds, durationNanoseconds := fields.durationSeconds, fields.durationNanoseconds;
      idleTimeout, packetCount, byteCount := fields.idleTimeout, fields.packetCount, fields.byteCount;
    }

    function Fields(): (fields: FlowRemoved)
      reads this
    {
      FlowRemoved(cookie, flowMatch, priority, reason, durationSeconds, durationNanoseconds,
                  idleTimeout, packetCount, byteCount)
    }

    /** `writeFields(fm)`: only cookie, match, priority and idle timeout may change. */
    method WriteFields(fm: FlowMod)
      modifies this`cookie, this`flowMatch, this`priority, this`idleTimeout
      ensures Fields() == CopyFromFlowMod(old(Fields()), fm)
    {
      cookie := fm.cookie;
      flowMatch := fm.flowMatch;
      priority := fm.priority;
      idleTimeout := fm.idleTimeout;
    }

    /**
     * `virtualize(sw)` against the mapping `ovxMap`. Only the virtual switch
     * owning (sw, tenant of the cookie) may change; without one, nothing
     * changes. With one, its flow table and channel and this message end up
     * as `Deliver` says.
     */
    method Virtualize(sw: Dpid, ovxMap: Mappable)
      modifies this`cookie, this`flowMatch, this`priority, this`idleTimeout
      modifies ovxMap.OwnerFrame(sw, TenantOf(cookie))
      ensures match ovxMap.VirtualSwitchOf(sw, TenantOf(old(cookie)))
        case None => Fields() == old(Fields())
        case Some(vsw) =>
          var d := Deliver(old(vsw.flowTable), old(Fields()));
          && vsw.flowTable == d.table
          && vsw.outbox == old(vsw.outbox) + Sent(d)
          && Fields() == (if d.sent.Some? then d.sent.value else old(Fields()))
    {
      var tid := TenantOf(cookie);
      // a physical switch can also be a virtual link's: then no virtual switch is registered
      var owner := ovxMap.VirtualSwitchOf(sw, tid);
      if owner.None? {
        return;
      }
      var vsw := owner.value;
      // a big switch reports one cookie from each member: only the first report finds the flow-mod
      if cookie in vsw.flowTable {
        var fm := vsw.flowTable[cookie];
        vsw.DeleteFlowMod(cookie);
        if HasFlag(fm.flags, OFPFF_SEND_FLOW_REM) {
          WriteFields(fm);
          vsw.SendMsg(Fields());
        }
      }
    }
  }

  /**
   * Two members of a big switch report the same cookie: the flow-mod is
   * gone, the tenant channel keeps what it had and gains exactly what one
   * delivery of the first report sends (one message if the flow-mod asked
   * for it, none otherwise), and the second report is left as it arrived.
   */
  method BigSwitchDuplicateReports(ovxMap: Mappable, sw1: Dpid, sw2: Dpid, m1: OVXFlowRemoved, m2: OVXFlowRemoved)
    requires m1 != m2 && m1.cookie == m2.cookie
    requires ovxMap.VirtualSwitchOf(sw1, TenantOf(m1.cookie)).Some?
    requires ovxMap.VirtualSwitchOf(sw1, TenantOf(m1.cookie)) == ovxMap.VirtualSwitchOf(sw2, TenantOf(m1.cookie))
    modifies m1`cookie, m1`flowMatch, m1`priority, m1`idleTimeout
    modifies m2`cookie, m2`flowMatch, m2`priority, m2`idleTimeout
    modifies ovxMap.OwnerFrame(sw1, TenantOf(m1.cookie))
    ensures var vsw := ovxMap.VirtualSwitchOf(sw1, TenantOf(old(m1.cookie))).value;
      && vsw.outbox == old(vsw.outbox) + Sent(Deliver(old(vsw.flowTable), old(m1.Fields())))
      && |vsw.outbox| <= |old(vsw.outbox)| + 1
      && vsw.flowTable == old(vsw.flowTable) - {old(m1.cookie)}
      && m2.Fields() == old(m2.Fields())
  {
    ghost var vsw := ovxMap.VirtualSwitchOf(sw1, TenantOf(m1.cookie)).value;
    ghost var c := m1.cookie;
    m1.Virtualize(sw1, ovxMap);
    assert c !in vsw.flowTable;
    m2.Virtualize(sw2, ovxMap);
  }
}
