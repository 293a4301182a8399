/** The order book as the simple thing it indexes: a plain map of live orders.
    Every operation of the indexed book (OrderBook.dfy) is proved to act on this map as
    `Apply` does, so whole-run results are stated and proved here. */
module BookModel {
  import opened Types

  datatype Order = Order(
    side: Side,
    price: U32,
    remaining: U32,
    priority: U64,
    attribution: Option<Attribution>)

  type Live = map<U64, Order>

  datatype BookMessage =
    | Add(index: U64, locate: U16, reference: U64, side: Side, shares: U64, price: U32,
          attribution: Option<Attribution>)
    | Execute(index: U64, locate: U16, reference: U64, shares: U64)
    | Cancel(index: U64, locate: U16, reference: U64, shares: U64)
    | Delete(index: U64, locate: U16, reference: U64)
    | Replace(index: U64, locate: U16, reference: U64, replacement: U64, shares: U64, price: U32)

  datatype MutationKind = AddKind | DeleteKind | ExecuteKind | CancelKind | ReplaceKind

  datatype BookDelta = BookDelta(
    kind: MutationKind,
    index: U64,
    locate: U16,
    reference: U64,
    side: Side,
    price: U32,
    previousRemaining: U64,
    remaining: U64,
    newReference: Option<U64>)

  datatype ApplyResult =
    | Applied(delta: BookDelta)
    | Rejected(code: ErrorCode, reference: U64)

  datatype Outcome = Outcome(live: Live, result: ApplyResult)

  // ---------------------------------------------------------------- quantities of a level

  ghost function OrdersAt(live: Live, side: Side, price: U32): set<U64> {
    set r | r in live && live[r].side == side && live[r].price == price
  }

  ghost function SharesOf(live: Live, refs: set<U64>): nat
    requires refs <= live.Keys
  {
    if refs == {} then 0
    else
      var r :| r in refs;
      live[r].remaining + SharesOf(live, refs - {r})
  }

  ghost function LevelTotal(live: Live, side: Side, price: U32): nat {
    SharesOf(live, OrdersAt(live, side, price))
  }

  ghost function TotalShares(live: Live): nat {
    SharesOf(live, live.Keys)
  }

  /** Every order resting at this price entered before source position `index`. */
  ghost predicate AllEarlier(live: Live, side: Side, price: U32, index: U64) {
    forall r :: r in OrdersAt(live, side, price) ==> live[r].priority < index
  }

  lemma {:induction false} SharesOfRemove(live: Live, refs: set<U64>, r: U64)
    requires refs <= live.Keys && r in refs
    ensures SharesOf(live, refs) == live[r].remaining + SharesOf(live, refs - {r})
    decreases refs
  {
    var c :| c in refs && SharesOf(live, refs) == live[c].remaining + SharesOf(live, refs - {c});
    if c != r {
      SharesOfRemove(live, refs - {c}, r);
      SharesOfRemove(live, refs - {r}, c);
      assert refs - {c} - {r} == refs - {r} - {c};
    }
  }

  /** Only the remainders of the summed orders matter. */
  lemma {:induction false} SharesOfFrame(live: Live, other: Live, refs: set<U64>)
    requires refs <= live.Keys && refs <= other.Keys
    requires forall r :: r in refs ==> live[r].remaining == other[r].remaining
    ensures SharesOf(live, refs) == SharesOf(other, refs)
    decreases refs
  {
    if refs != {} {
      var r :| r in refs;
      SharesOfRemove(live, refs, r);
      SharesOfRemove(other, refs, r);
      SharesOfFrame(live, other, refs - {r});
    }
  }

  lemma SharesOfInsert(live: Live, refs: set<U64>, r: U64, order: Order)
    requires refs <= live.Keys && r !in refs
    ensures SharesOf(live[r := order], refs + {r}) == SharesOf(live, refs) + order.remaining
  {
    SharesOfRemove(live[r := order], refs + {r}, r);
    assert refs + {r} - {r} == refs;
    SharesOfFrame(live, live[r := order], refs);
  }

  // ---------------------------------------------------------------- the operations

  ghost function ApplyAdd(live: Live, locate: U16, m: BookMessage): Outcome
    requires m.Add?
  {
    if m.locate != locate then Outcome(live, Rejected(Invariant, m.reference))
    else if m.side == NotApplicable then Outcome(live, Rejected(Invariant, m.reference))
    else if m.shares == 0 || m.shares > U32_MAX then Outcome(live, Rejected(Quantity, m.reference))
    else if m.reference in live then Outcome(live, Rejected(OrderReference, m.reference))
    else if LevelTotal(live, m.side, m.price) + m.shares > U64_MAX then
      Outcome(live, Rejected(Quantity, m.reference))
    else if !AllEarlier(live, m.side, m.price, m.index) then
      Outcome(live, Rejected(Invariant, m.reference))
    else
      Outcome(
        live[m.reference := Order(m.side, m.price, m.shares, m.index, m.attribution)],
        Applied(BookDelta(AddKind, m.index, m.locate, m.reference, m.side, m.price, 0, m.shares, None)))
  }

  ghost function ApplyReduction(live: Live, locate: U16, m: BookMessage): Outcome
    requires m.Execute? || m.Cancel?
  {
    if m.locate != locate then Outcome(live, Rejected(Invariant, m.reference))
    else if m.reference !in live then Outcome(live, Rejected(OrderReference, m.reference))
    else
      var o := live[m.reference];
      if m.index <= o.priority then Outcome(live, Rejected(Invariant, m.reference))
      else if m.shares == 0 || m.shares > o.remaining then Outcome(live, Rejected(Quantity, m.reference))
      else
        Outcome(
          if m.shares == o.remaining then live - {m.reference}
          else live[m.reference := o.(remaining := o.remaining - m.shares)],
          Applied(BookDelta(if m.Execute? then ExecuteKind else CancelKind, m.index, m.locate, m.reference,
                            o.side, o.price, o.remaining, o.remaining - m.shares, None)))
  }

  ghost function ApplyDelete(live: Live, locate: U16, m: BookMessage): Outcome
    requires m.Delete?
  {
    if m.locate != locate then Outcome(live, Rejected(Invariant, m.reference))
    else if m.reference !in live then Outcome(live, Rejected(OrderReference, m.reference))
    else if m.index <= live[m.reference].priority then Outcome(live, Rejected(Invariant, m.reference))
    else
      var o := live[m.reference];
      Outcome(live - {m.reference},
              Applied(BookDelta(DeleteKind, m.index, m.locate, m.reference, o.side, o.price,
                                o.remaining, 0, None)))
  }

  ghost function ApplyReplace(live: Live, locate: U16, m: BookMessage): Outcome
    requires m.Replace?
  {
    if m.locate != locate then Outcome(live, Rejected(Invariant, m.reference))
    else if m.reference == m.replacement then Outcome(live, Rejected(OrderReference, m.replacement))
    else if m.reference !in live then Outcome(live, Rejected(OrderReference, m.reference))
    else if m.replacement in live then Outcome(live, Rejected(OrderReference, m.replacement))
    else if m.index <= live[m.reference].priority then Outcome(live, Rejected(Invariant, m.reference))
    else if m.shares == 0 || m.shares > U32_MAX then Outcome(live, Rejected(Quantity, m.replacement))
    else
      var o := live[m.reference];
      var others := live - {m.reference};
      if LevelTotal(others, o.side, m.price) + m.shares > U64_MAX then
        Outcome(live, Rejected(Quantity, m.replacement))
      else if !AllEarlier(others, o.side, m.price, m.index) then
        Outcome(live, Rejected(Invariant, m.replacement))
      else
        Outcome(
          others[m.replacement := Order(o.side, m.price, m.shares, m.index, o.attribution)],
          Applied(BookDelta(ReplaceKind, m.index, m.locate, m.reference, o.side, m.price,
                            o.remaining, m.shares, Some(m.replacement))))
  }

  ghost function Apply(live: Live, locate: U16, m: BookMessage): Outcome {
    match m
    case Add(_, _, _, _, _, _, _) => ApplyAdd(live, locate, m)
    case Execute(_, _, _, _) => ApplyReduction(live, locate, m)
    case Cancel(_, _, _, _) => ApplyReduction(live, locate, m)
    case Delete(_, _, _) => ApplyDelete(live, locate, m)
    case Replace(_, _, _, _, _, _) => ApplyReplace(live, locate, m)
  }

  // ---------------------------------------------------------------- one call

  /** Every live order entered before source position `index`. */
  ghost predicate EnteredBefore(live: Live, index: nat) {
    forall r :: r in live ==> live[r].priority < index
  }

  ghost predicate RoutedHere(m: BookMessage, locate: U16) {
    m.locate == locate && (m.Add? ==> m.side != NotApplicable)
  }

  /** A rejected message changes nothing. For a correctly routed message whose source position
      follows every live order, a rejection is always one of the two kinds that the permissive
      error policy may skip. */
  lemma RejectionIsSkippable(live: Live, locate: U16, m: BookMessage)
    ensures Apply(live, locate, m).result.Rejected? ==> Apply(live, locate, m).live == live
    ensures EnteredBefore(live, m.index) && RoutedHere(m, locate) && Apply(live, locate, m).result.Rejected?
            ==> Apply(live, locate, m).result.code in {OrderReference, Quantity}
  {
    match m
    case Add(_, _, _, _, _, _, _) =>
    case Replace(_, _, _, _, _, _) =>
    case _ =>
  }

  /** An accepted message leaves only orders entered at or before its own position. */
  lemma ApplyEnteredBefore(live: Live, locate: U16, m: BookMessage, next: nat)
    requires EnteredBefore(live, m.index) && m.index < next
    ensures EnteredBefore(Apply(live, locate, m).live, next)
  {
    match m
    case Add(_, _, _, _, _, _, _) =>
    case Replace(_, _, _, _, _, _) =>
    case _ =>
  }

  /** What the visible shares change by is exactly what the delta reports. */
  lemma ApplyConserves(live: Live, locate: U16, m: BookMessage)
    ensures var out := Apply(live, locate, m);
            TotalShares(out.live) ==
            TotalShares(live) + if out.result.Applied?
                                then out.result.delta.remaining - out.result.delta.previousRemaining
                                else 0
  {
    var out := Apply(live, locate, m);
    if out.result.Applied? {
      match m
      case Add(_, _, r, _, _, _, _) =>
        InsertTotal(live, r, out.live[r]);
      case Replace(_, _, r, n, _, _) =>
        RemoveTotal(live, r);
        InsertTotal(live - {r}, n, out.live[n]);
      case Delete(_, _, r) =>
        RemoveTotal(live, r);
      case _ =>
        RemoveTotal(live, m.reference);
        if m.shares != live[m.reference].remaining {
          var o := live[m.reference].(remaining := live[m.reference].remaining - m.shares);
          InsertTotal(live - {m.reference}, m.reference, o);
          assert (live - {m.reference})[m.reference := o] == live[m.reference := o];
        }
    }
  }

  lemma RemoveTotal(live: Live, r: U64)
    requires r in live
    ensures TotalShares(live) == live[r].remaining + TotalShares(live - {r})
  {
    SharesOfRemove(live, live.Keys, r);
    assert (live - {r}).Keys == live.Keys - {r};
    SharesOfFrame(live, live - {r}, live.Keys - {r});
  }

  lemma InsertTotal(live: Live, r: U64, order: Order)
    requires r !in live
    ensures TotalShares(live[r := order]) == TotalShares(live) + order.remaining
  {
    SharesOfInsert(live, live.Keys, r, order);
    assert live[r := order].Keys == live.Keys + {r};
  }

  // ---------------------------------------------------------------- replace is delete then add

  /** Order Replace is Order Delete of the original followed by an add of the new reference with
      the original's side and attribution: with distinct references both succeed on the same
      inputs and leave the same live orders. */
  lemma ReplaceIsDeleteThenAdd(live: Live, locate: U16, m: BookMessage)
    requires m.Replace? && m.reference != m.replacement
    ensures var replaced := Apply(live, locate, m);
            var deleted := Apply(live, locate, Delete(m.index, m.locate, m.reference));
            if deleted.result.Rejected? then replaced.result.Rejected?
            else
              var o := live[m.reference];
              var added := Apply(deleted.live, locate,
                                 Add(m.index, m.locate, m.replacement, o.side, m.shares, m.price, o.attribution));
              if o.side == NotApplicable then added.result.Rejected?
              else
                && (replaced.result.Applied? <==> added.result.Applied?)
                && (replaced.result.Applied? ==> replaced.live == added.live)
  {
  }

  // ---------------------------------------------------------------- whole runs

  ghost function ApplyAll(live: Live, locate: U16, messages: seq<BookMessage>): Live {
    if messages == [] then live
    else Apply(ApplyAll(live, locate, messages[..|messages| - 1]), locate, messages[|messages| - 1]).live
  }

  /** The sum of (remaining - previous remaining) over the deltas of a run. */
  ghost function NetDelta(live: Live, locate: U16, messages: seq<BookMessage>): int {
    if messages == [] then 0
    else
      var earlier := messages[..|messages| - 1];
      var result := Apply(ApplyAll(live, locate, earlier), locate, messages[|messages| - 1]).result;
      NetDelta(live, locate, earlier) +
      if result.Applied? then result.delta.remaining - result.delta.previousRemaining else 0
  }

  lemma {:induction false} RunConserves(live: Live, locate: U16, messages: seq<BookMessage>)
    ensures TotalShares(ApplyAll(live, locate, messages)) == TotalShares(live) + NetDelta(live, locate, messages)
  {
    if messages != [] {
      var earlier := messages[..|messages| - 1];
      RunConserves(live, locate, earlier);
      ApplyConserves(ApplyAll(live, locate, earlier), locate, messages[|messages| - 1]);
    }
  }
}
