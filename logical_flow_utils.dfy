/**
 * Direction of a logical flow relative to an anchor entity, and the choice of
 * the statistics call used for flow summaries. A flow is INBOUND to the anchor
 * when its target is the anchor, otherwise OUTBOUND when its source is the
 * anchor, and NEITHER when it does not involve the anchor; the inbound test is
 * made first, so a flow from the anchor to itself is INBOUND.
 */
module LogicalFlowUtils {

  /** A reference to any entity: its kind tag and its id. */
  datatype EntityRef = EntityRef(kind: string, id: int)

  /** A logical flow between two entities. */
  datatype LogicalFlow = LogicalFlow(source: EntityRef, target: EntityRef)

  datatype Direction = INBOUND | OUTBOUND | NEITHER

  /** The statistics calls a flow summary can be computed with. */
  datatype StatMethod = DataTypeUsageCalculateStats | LogicalFlowCalculateStats

  /** Two references denote the same entity when both their kinds and their ids agree. */
  predicate SameRef(a: EntityRef, b: EntityRef)
  {
    a.kind == b.kind && a.id == b.id
  }

  /** True iff the flow goes into the anchor; only the flow's target is consulted. */
  predicate IsLogicalFlowInbound(flow: LogicalFlow, anchor: EntityRef)
  {
    SameRef(flow.target, anchor)
  }

  /** True iff the flow comes out of the anchor; only the flow's source is consulted. */
  predicate IsLogicalFlowOutbound(flow: LogicalFlow, anchor: EntityRef)
  {
    SameRef(flow.source, anchor)
  }

  /** Classifies a flow relative to the anchor, testing inbound before outbound. */
  function CategorizeDirection(flow: LogicalFlow, anchor: EntityRef): (d: Direction)
    ensures d == INBOUND <==> flow.target == anchor
    ensures d == OUTBOUND <==> flow.target != anchor && flow.source == anchor
    ensures d == NEITHER <==> flow.target != anchor && flow.source != anchor
  {
    if IsLogicalFlowInbound(flow, anchor) then INBOUND
    else if IsLogicalFlowOutbound(flow, anchor) then OUTBOUND
    else NEITHER
  }

  /** Data-type entities use the data-type usage statistics; every other kind uses the logical flow ones. */
  function DetermineStatMethod(kind: string): (m: StatMethod)
    ensures m == DataTypeUsageCalculateStats <==> kind == "DATA_TYPE"
    ensures m == LogicalFlowCalculateStats <==> kind != "DATA_TYPE"
  {
    if kind == "DATA_TYPE" then DataTypeUsageCalculateStats else LogicalFlowCalculateStats
  }

  /** A flow from the anchor to itself counts as inbound. */
  lemma SelfLoopIsInbound(anchor: EntityRef)
    ensures CategorizeDirection(LogicalFlow(anchor, anchor), anchor) == INBOUND
  {
  }

  /** The inbound test looks at the target only, the outbound test at the source only. */
  lemma TestsReadOneEnd(f: LogicalFlow, g: LogicalFlow, anchor: EntityRef)
    ensures f.target == g.target ==> (IsLogicalFlowInbound(f, anchor) <==> IsLogicalFlowInbound(g, anchor))
    ensures f.source == g.source ==> (IsLogicalFlowOutbound(f, anchor) <==> IsLogicalFlowOutbound(g, anchor))
  {
  }

  /** The flow with its ends exchanged. */
  function Reversed(flow: LogicalFlow): LogicalFlow
  {
    LogicalFlow(flow.target, flow.source)
  }

  /**
   * Reversing a flow that is not a self-loop on the anchor exchanges INBOUND and
   * OUTBOUND and keeps NEITHER.
   */
  lemma ReversalSwapsDirection(flow: LogicalFlow, anchor: EntityRef)
    requires !(flow.source == anchor && flow.target == anchor)
    ensures CategorizeDirection(flow, anchor) == INBOUND ==> CategorizeDirection(Reversed(flow), anchor) == OUTBOUND
    ensures CategorizeDirection(flow, anchor) == OUTBOUND ==> CategorizeDirection(Reversed(flow), anchor) == INBOUND
    ensures CategorizeDirection(flow, anchor) == NEITHER ==> CategorizeDirection(Reversed(flow), anchor) == NEITHER
  {
  }
}
