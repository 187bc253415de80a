/**
 All reducers together: any sequence of prunes, shrinks, attachment strips, folds and retirements,
 each with its own settings, in any order.
 */
module HistoryReductions {
  import opened Messages
  import C = ContextPrune
  import CL = ContextPruneLaws
  import F = Folding
  import FL = FoldingLaws
  import R = MessageRepair
  import NL = NormalizeLaws

  datatype Reduction =
    | Prune(options: C.PruneOptions)
    | Shrink(factor: real, minKeep: nat, stripImages: bool)
    | StripAttachments(limit: nat)
    | Fold(spec: F.FoldSpec, codec: F.Codec)
    | Retire(isRetired: string -> bool, wording: F.Wording)
  {
    ghost predicate Valid() { Fold? ==> spec.Valid() }
  }

  ghost function Apply(r: Reduction, msgs: seq<Message>): seq<Message>
    requires r.Valid()
  {
    match r
    case Prune(options) => C.Prune(msgs, options)
    case Shrink(factor, minKeep, stripImages) => C.Shrink(msgs, factor, minKeep, stripImages)
    case StripAttachments(limit) => C.StripCurrent(msgs, limit).0
    case Fold(spec, codec) => F.Fold(msgs, spec, codec)
    case Retire(isRetired, wording) => F.Retire(msgs, isRetired, wording)
  }

  ghost function Run(rs: seq<Reduction>, msgs: seq<Message>): seq<Message>
    requires forall r | r in rs :: r.Valid()
  {
    if rs == [] then msgs else Run(rs[1..], Apply(rs[0], msgs))
  }

  ghost predicate SameRoles(a: seq<Message>, b: seq<Message>)
  {
    |a| == |b| && forall i | 0 <= i < |a| :: a[i].role == b[i].role
  }

  /** All but retirement even keep the outline: every call and result block stands where it stood. */
  lemma ReductionKeepsOutlines(r: Reduction, msgs: seq<Message>)
    requires r.Valid() && !r.Retire?
    ensures SameOutlines(msgs, Apply(r, msgs))
  {
    match r
    case Prune(options) => CL.PruneKeepsOutlines(msgs, options);
    case Shrink(factor, minKeep, stripImages) => CL.ShrinkKeepsOutlines(msgs, factor, minKeep, stripImages);
    case StripAttachments(limit) => CL.StripCurrentKeepsOutlines(msgs, limit);
    case Fold(spec, codec) => FL.FoldKeepsOutlines(msgs, spec, codec);
    case Retire(_, _) =>
  }

  lemma ReductionKeepsRoles(r: Reduction, msgs: seq<Message>)
    requires r.Valid()
    ensures SameRoles(msgs, Apply(r, msgs))
  {
    if r.Retire? {
      FL.RetireShape(msgs, r.isRetired, r.wording);
    } else {
      ReductionKeepsOutlines(r, msgs);
    }
  }

  lemma ReductionKeepsPairing(r: Reduction, msgs: seq<Message>)
    requires r.Valid() && WellPaired(msgs)
    ensures WellPaired(Apply(r, msgs))
  {
    if r.Retire? {
      FL.RetireKeepsPairing(msgs, r.isRetired, r.wording);
    } else {
      ReductionKeepsOutlines(r, msgs);
      OutlinesKeepPairing(msgs, Apply(r, msgs));
    }
  }

  /** Whatever the reducers do, message count and role order stay. */
  lemma {:induction false} ReductionsKeepRoles(rs: seq<Reduction>, msgs: seq<Message>)
    requires forall r | r in rs :: r.Valid()
    ensures SameRoles(msgs, Run(rs, msgs))
  {
    if rs != [] {
      ReductionKeepsRoles(rs[0], msgs);
      ReductionsKeepRoles(rs[1..], Apply(rs[0], msgs));
    }
  }

  lemma {:induction false} ReductionsKeepPairing(rs: seq<Reduction>, msgs: seq<Message>)
    requires (forall r | r in rs :: r.Valid()) && WellPaired(msgs)
    ensures WellPaired(Run(rs, msgs))
  {
    if rs != [] {
      ReductionKeepsPairing(rs[0], msgs);
      ReductionsKeepPairing(rs[1..], Apply(rs[0], msgs));
    }
  }

  /**
   A well-paired history stays well paired through any composition of reducers, so pair repair is a
   no-op on the result.
   */
  lemma PairRepairStaysANoOp(rs: seq<Reduction>, msgs: seq<Message>)
    requires (forall r | r in rs :: r.Valid()) && WellPaired(msgs)
    ensures R.Normalize(Run(rs, msgs)) == Run(rs, msgs)
  {
    ReductionsKeepPairing(rs, msgs);
    NL.NormalizeFixesExactlyTheWellPaired(Run(rs, msgs));
  }

  /** A request built by repair can be reduced at will and still needs no repair. */
  lemma RepairedHistoriesStayRepaired(rs: seq<Reduction>, msgs: seq<Message>)
    requires forall r | r in rs :: r.Valid()
    ensures
      var request := Run(rs, R.Normalize(msgs));
      R.Normalize(request) == request
  {
    NL.NormalizeIsWellPaired(msgs);
    PairRepairStaysANoOp(rs, R.Normalize(msgs));
  }
}
