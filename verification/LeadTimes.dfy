/**
 Two computations of a lead time from the same supplier response packet: the
 calculator, which takes the longest of the parallel stages, and the components
 sent to the lead-time service, which add them up.
 */
module LeadTimes {
  import opened Wrappers

  datatype Stage = Fabric | Trim | PackagingLead | PackagingTime | Production | Qc | Logistics

  /** A packet dictionary; an absent stage is a missing or null entry. */
  type Packet = map<Stage, int>

  const REQUIRED: seq<Stage> := [Production, Qc, Logistics, Fabric, Trim]

  datatype LeadTime = LeadTime(parallelMax: Option<int>, total: Option<int>, missing: seq<Stage>)

  /** The first packet that has the stage decides. */
  function First(packets: seq<Packet>, stage: Stage): Option<int> {
    if packets == [] then None
    else if stage in packets[0] then Some(packets[0][stage])
    else First(packets[1..], stage)
  }

  ghost predicate Occurs(packets: seq<Packet>, stage: Stage) {
    exists i :: 0 <= i < |packets| && stage in packets[i]
  }

  lemma {:induction false} FirstOccurs(packets: seq<Packet>, stage: Stage)
    ensures First(packets, stage).Some? <==> Occurs(packets, stage)
    ensures forall i :: 0 <= i < |packets| && stage in packets[i] && (forall j :: 0 <= j < i ==> stage !in packets[j]) ==>
              First(packets, stage) == Some(packets[i][stage])
  {
    if packets != [] {
      FirstOccurs(packets[1..], stage);
      assert forall i :: 1 <= i < |packets| ==> packets[i] == packets[1..][i - 1];
      if stage in packets[0] {
        assert Occurs(packets, stage);
      } else if Occurs(packets[1..], stage) {
        var i :| 0 <= i < |packets[1..]| && stage in packets[1..][i];
        assert stage in packets[i + 1];
      }
    }
  }

  /** `a or b`: zero counts as missing. */
  function OrElse(a: Option<int>, b: Option<int>): Option<int> {
    if a.Some? && a.value != 0 then a else b
  }

  function MaxOf(a: Option<int>, b: Option<int>): Option<int> {
    if a.None? then b else if b.None? then a else if a.value >= b.value then a else b
  }

  function ParallelMax(packets: seq<Packet>): Option<int> {
    MaxOf(MaxOf(First(packets, Fabric), First(packets, Trim)),
          OrElse(First(packets, PackagingLead), First(packets, PackagingTime)))
  }

  /** `m` is the greatest of those values that are there, and there exactly when one is. */
  predicate IsLongest(m: Option<int>, a: Option<int>, b: Option<int>, c: Option<int>) {
    && (m.None? <==> a.None? && b.None? && c.None?)
    && (m.Some? ==>
          && (m == a || m == b || m == c)
          && (a.Some? ==> a.value <= m.value) && (b.Some? ==> b.value <= m.value) && (c.Some? ==> c.value <= m.value))
  }

  /** The total is there exactly when each required stage occurs in some packet,
      and then it is the longest parallel stage plus the sequential ones. */
  method CalculatePathLeadTime(packets: seq<Packet>) returns (r: LeadTime)
    ensures r.parallelMax == ParallelMax(packets)
    ensures IsLongest(r.parallelMax, First(packets, Fabric), First(packets, Trim),
                      if First(packets, PackagingLead) in [None, Some(0)] then First(packets, PackagingTime)
                      else First(packets, PackagingLead))
    ensures forall s :: s in r.missing <==> s in REQUIRED && !Occurs(packets, s)
    ensures r.total.Some? <==> forall s :: s in REQUIRED ==> Occurs(packets, s)
    ensures r.total.Some? ==>
              && r.parallelMax.Some? && First(packets, Production).Some?
              && First(packets, Qc).Some? && First(packets, Logistics).Some?
              && r.total.value == r.parallelMax.value + First(packets, Production).value
                                  + First(packets, Qc).value + First(packets, Logistics).value
  {
    var fabric, trim := First(packets, Fabric), First(packets, Trim);
    var packaging := OrElse(First(packets, PackagingLead), First(packets, PackagingTime));
    var production, qc, logistics := First(packets, Production), First(packets, Qc), First(packets, Logistics);
    var parallelMax := MaxOf(MaxOf(fabric, trim), packaging);
    forall s ensures First(packets, s).Some? <==> Occurs(packets, s) {
      FirstOccurs(packets, s);
    }
    var missing := MissingStages(packets);
    if |missing| > 0 {
      assert missing[0] in missing;
      r := LeadTime(parallelMax, None, missing);
    } else {
      assert forall s :: s in REQUIRED ==> First(packets, s).Some?;
      assert REQUIRED[0] == Production && REQUIRED[1] == Qc && REQUIRED[2] == Logistics && REQUIRED[3] == Fabric && REQUIRED[4] == Trim;
      r := LeadTime(parallelMax, Some(parallelMax.value + production.value + qc.value + logistics.value), missing);
    }
  }

  /** The required stages that no packet has, in the order of the report. */
  method MissingStages(packets: seq<Packet>) returns (missing: seq<Stage>)
    ensures forall s :: s in missing <==> s in REQUIRED && First(packets, s).None?
  {
    missing := [];
    if First(packets, Production).None? {
      missing := missing + [Production];
    }
    if First(packets, Qc).None? {
      missing := missing + [Qc];
    }
    if First(packets, Logistics).None? {
      missing := missing + [Logistics];
    }
    if First(packets, Fabric).None? {
      missing := missing + [Fabric];
    }
    if First(packets, Trim).None? {
      missing := missing + [Trim];
    }
    assert REQUIRED[0] == Production && REQUIRED[1] == Qc && REQUIRED[2] == Logistics && REQUIRED[3] == Fabric && REQUIRED[4] == Trim;
  }

  // ---------------------------------------------------------------------
  // The same packet, both ways
  // ---------------------------------------------------------------------

  datatype SupplierPacket = SupplierPacket(
    fabric: Option<int>,
    trim: Option<int>,
    packagingTime: Option<int>,
    production: Option<int>,
    qc: Option<int>,
    logistics: Option<int>,
    statedTotal: Option<int>)

  function DaysOf(p: SupplierPacket, stage: Stage): Option<int> {
    match stage
    case Fabric => p.fabric
    case Trim => p.trim
    case PackagingLead => None
    case PackagingTime => p.packagingTime
    case Production => p.production
    case Qc => p.qc
    case Logistics => p.logistics
  }

  /** The dictionary that a decision packet makes of a stored response packet. */
  function AsPacket(p: SupplierPacket): Packet {
    map stage: Stage | DaysOf(p, stage).Some? :: DaysOf(p, stage).value
  }

  datatype Components = Components(material: int, production: int, qc: int, logistics: int)

  function OrZero(days: Option<int>): int {
    if days.Some? then days.value else 0
  }

  /** The components sent to the lead-time service for the same packet. */
  function NodeToSupplier(p: SupplierPacket): (c: Components)
    ensures c.material == OrZero(p.fabric) + OrZero(p.trim) + OrZero(p.packagingTime)
    ensures c.qc == OrZero(p.qc) && c.logistics == OrZero(p.logistics)
    ensures Idle(p) && OrZero(p.statedTotal) != 0 ==> Some(c.production) == p.statedTotal
    ensures !Idle(p) || OrZero(p.statedTotal) == 0 ==> c.production == OrZero(p.production)
  {
    var material := OrZero(p.fabric) + OrZero(p.trim) + OrZero(p.packagingTime);
    var production, qc, logistics := OrZero(p.production), OrZero(p.qc), OrZero(p.logistics);
    var production' := if material + production + qc + logistics == 0 && OrZero(p.statedTotal) != 0
                       then p.statedTotal.value else production;
    Components(material, production', qc, logistics)
  }

  function Sum(c: Components): int {
    c.material + c.production + c.qc + c.logistics
  }

  predicate NonNegative(p: SupplierPacket) {
    && OrZero(p.fabric) >= 0 && OrZero(p.trim) >= 0 && OrZero(p.packagingTime) >= 0
    && OrZero(p.production) >= 0 && OrZero(p.qc) >= 0 && OrZero(p.logistics) >= 0
  }

  predicate HasRequired(p: SupplierPacket) {
    p.fabric.Some? && p.trim.Some? && p.production.Some? && p.qc.Some? && p.logistics.Some?
  }

  /** All stages are zero, so a stated total would take their place. */
  predicate Idle(p: SupplierPacket) {
    OrZero(p.fabric) + OrZero(p.trim) + OrZero(p.packagingTime)
    + OrZero(p.production) + OrZero(p.qc) + OrZero(p.logistics) == 0
  }

  lemma PacketEntry(p: SupplierPacket, stage: Stage)
    ensures First([AsPacket(p)], stage) == DaysOf(p, stage)
  {
    assert First([AsPacket(p)], stage) == if stage in AsPacket(p) then Some(AsPacket(p)[stage]) else None;
  }

  /** The calculator's total as a function of one packet, when it has one. */
  function SingleTotal(p: SupplierPacket): int
    requires HasRequired(p)
  {
    LongestParallel(p) + p.production.value + p.qc.value + p.logistics.value
  }

  function LongestParallel(p: SupplierPacket): int
    requires HasRequired(p)
  {
    var m := if p.fabric.value >= p.trim.value then p.fabric.value else p.trim.value;
    if p.packagingTime.Some? && p.packagingTime.value > m then p.packagingTime.value else m
  }

  lemma SingleTotalIsCalculated(p: SupplierPacket)
    requires HasRequired(p)
    ensures ParallelMax([AsPacket(p)]) == Some(LongestParallel(p))
    ensures forall s :: s in REQUIRED ==> Occurs([AsPacket(p)], s)
    ensures First([AsPacket(p)], Production).Some? && First([AsPacket(p)], Qc).Some? && First([AsPacket(p)], Logistics).Some?
    ensures LongestParallel(p) + First([AsPacket(p)], Production).value + First([AsPacket(p)], Qc).value
            + First([AsPacket(p)], Logistics).value == SingleTotal(p)
  {
    forall s ensures First([AsPacket(p)], s) == DaysOf(p, s) {
      PacketEntry(p, s);
    }
    forall s | s in REQUIRED ensures Occurs([AsPacket(p)], s) {
      FirstOccurs([AsPacket(p)], s);
      assert First([AsPacket(p)], s).Some?;
    }
  }

  /** The two computations bound each other: the calculator's total is at most the
      sum of the components, which exceeds it by at most twice the longest parallel
      stage; each bound fails exactly when a stated total replaces all-zero stages
      in the wrong direction. */
  lemma BoundsHoldExactly(p: SupplierPacket)
    requires NonNegative(p) && HasRequired(p)
    ensures var total, sum, parallel := SingleTotal(p), Sum(NodeToSupplier(p)), LongestParallel(p);
            && (total <= sum <==> !(Idle(p) && OrZero(p.statedTotal) < 0))
            && (sum <= total + 2 * parallel <==> !(Idle(p) && OrZero(p.statedTotal) > 0))
            && (!Idle(p) ==> sum - total == OrZero(p.fabric) + OrZero(p.trim) + OrZero(p.packagingTime) - parallel)
  {
    if Idle(p) {
      assert SingleTotal(p) == 0 && LongestParallel(p) == 0;
    }
  }

  /** What the two make of a packet whose stages are all zero. */
  lemma IdlePacketLeadTimes(p: SupplierPacket)
    requires NonNegative(p) && HasRequired(p) && Idle(p)
    ensures SingleTotal(p) == 0 && LongestParallel(p) == 0 && Sum(NodeToSupplier(p)) == OrZero(p.statedTotal)
  {
  }

  lemma ZeroPacket(stated: int) returns (p: SupplierPacket)
    ensures NonNegative(p) && HasRequired(p) && Idle(p) && p.statedTotal == Some(stated)
  {
    var zero := Some(0);
    p := SupplierPacket(zero, zero, zero, zero, zero, zero, Some(stated));
  }

  /** A packet of zeros with a stated total of thirty days: the calculator finds
      nothing to wait for, the service is sent thirty days. */
  lemma IdlePacketExample() returns (p: SupplierPacket)
    ensures NonNegative(p) && HasRequired(p) && p.statedTotal == Some(30)
    ensures SingleTotal(p) == 0 && LongestParallel(p) == 0 && Sum(NodeToSupplier(p)) == 30
  {
    p := ZeroPacket(30);
    IdlePacketLeadTimes(p);
  }

  /** Both at once, for the result of the calculator. */
  method CompareLeadTimes(p: SupplierPacket) returns (calculated: int, components: Components)
    requires NonNegative(p) && HasRequired(p) && !Idle(p)
    ensures components == NodeToSupplier(p)
    ensures calculated <= Sum(components) <= calculated + 2 * LongestParallel(p)
  {
    SingleTotalIsCalculated(p);
    BoundsHoldExactly(p);
    var r := CalculatePathLeadTime([AsPacket(p)]);
    calculated, components := r.total.value, NodeToSupplier(p);
  }
}
