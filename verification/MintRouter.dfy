/** The protected (pre-agency) V3 mint policy ledger, checked with slice-and-reduce targets. */
module MintRouter {
  import opened Arith
  import opened CumulativeFloor
  import AgencyRouter

  datatype Ledger = Ledger(
    protocolUnits: seq<nat>, settled: nat, paid: seq<nat>, withdrawn: seq<nat>,
    directedUnits: seq<nat>, directedReleased: seq<nat>)

  predicate Shape(l: Ledger) {
    && |l.protocolUnits| == 6 && |l.paid| == |l.withdrawn| == 7
    && |l.directedUnits| == |l.directedReleased| == 3
  }

  /** The ledger conditions under which the account verifies. */
  predicate LedgerAgrees(l: Ledger)
    requires Shape(l)
  {
    && Sum(l.protocolUnits) == AgencyRouter.PROTOCOL_UNITS
    && Sum(l.paid) == l.settled
    && AgencyRouter.Within(l.withdrawn, l.paid)
    && Sum(l.directedUnits) == AgencyRouter.CREATOR_UNITS
    && AgencyRouter.Within(l.directedReleased,
                           Targets(l.paid[0], l.directedUnits, AgencyRouter.CREATOR_UNITS))
    && Sum(l.directedReleased) == l.withdrawn[0]
  }

  method VerifyProtectedLedger(l: Ledger) returns (verified: bool)
    requires Shape(l)
    ensures verified <==> LedgerAgrees(l)
  {
    var rates := AgencyRouter.Total(l.protocolUnits);
    var paid := AgencyRouter.Total(l.paid);
    var overWithdrawn := AgencyRouter.Exceeds(l.withdrawn, l.paid);
    if rates != AgencyRouter.PROTOCOL_UNITS || paid != l.settled || overWithdrawn {
      return false;
    }
    var targets := SliceTargets(l.paid[0], l.directedUnits, AgencyRouter.CREATOR_UNITS);
    var units := AgencyRouter.Total(l.directedUnits);
    var overReleased := AgencyRouter.Exceeds(l.directedReleased, targets);
    var released := AgencyRouter.Total(l.directedReleased);
    verified := units == AgencyRouter.CREATOR_UNITS && !overReleased && released == l.withdrawn[0];
  }

  /** The agency decoder's conditions on the directed shares. */
  predicate AgencyDirectedAgrees(p: AgencyRouter.Policy)
    requires AgencyRouter.Shape(p)
  {
    && Sum(p.directedUnits) == AgencyRouter.CREATOR_UNITS
    && AgencyRouter.Within(p.directedReleased, AgencyRouter.DirectedTargets(p))
    && Sum(p.directedReleased) == p.withdrawn[0]
  }

  /**
   The two decoders agree on the directed shares: what is left of this verifier's conditions
   is about the seven counters alone, and either way the directed targets conserve the
   creator share.
   */
  lemma VerifiersAgreeOnDirectedShares(l: Ledger, p: AgencyRouter.Policy)
    requires Shape(l) && AgencyRouter.Shape(p)
    requires l.paid[0] == p.paid[0] && l.withdrawn[0] == p.withdrawn[0]
    requires l.directedUnits == p.directedUnits && l.directedReleased == p.directedReleased
    ensures LedgerAgrees(l) <==>
      && Sum(l.protocolUnits) == AgencyRouter.PROTOCOL_UNITS && Sum(l.paid) == l.settled
      && AgencyRouter.Within(l.withdrawn, l.paid) && AgencyDirectedAgrees(p)
    ensures AgencyDirectedAgrees(p) ==>
      && Sum(AgencyRouter.DirectedTargets(p)) == p.paid[0]
      && Sum(p.directedReleased) == p.withdrawn[0] <= p.paid[0]
  {
    if AgencyDirectedAgrees(p) {
      AgencyRouter.DirectedTotal(p);
      Conserved(p.paid[0], p.directedUnits, AgencyRouter.CREATOR_UNITS);
      SumMono(p.directedReleased, AgencyRouter.DirectedTargets(p));
    }
  }
}
