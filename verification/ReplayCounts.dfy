/** The replay's counters always reconcile, so the final reconciliation test of
    cpp/src/replay/replay_coordinator.cpp never fails. */
module ReplayCounts {
  import opened Types
  import opened Counting
  import opened ErrorPolicyModule
  import opened Messages
  import opened InstrumentDirectoryModule
  import opened ReplayModel

  /** Every processed message was decoded or skipped, every decoded one was routed exactly once, the
      per-type counts sum to their totals, and the error policy kept its budget. */
  ghost predicate Reconciled(c: Config, st: Replay) {
    var t := st.tally;
    && t.processed == t.decoded + t.skippedDecode
    && t.decoded == t.system + t.directory + t.selected + t.filtered
    && Total(t.allByType) == t.decoded
    && Total(t.selectedByType) == t.selected
    && t.skippedDecode <= st.policy.skipped
    && PolicyOk(c.policy, st.policy)
  }

  ghost predicate PolicyAdvanced(c: Config, st: Replay, st': Replay, origin: Origin) {
    exists code :: !DecisionOf(c.policy, st.policy, origin, code).overflow &&
                   st'.policy == Observed(c.policy, st.policy, origin, code)
  }

  lemma HandleKeepsTally(c: Config, st: Replay, index: U64, m: Message, id: U16, st': Replay)
    requires Registered(st.market, m.locate) && m.locate in st.mutations && ConcernsMarket(m)
    requires Handle(c, st, index, m, id) == Next(st')
    ensures st'.tally == st.tally
    ensures st'.policy == st.policy || PolicyAdvanced(c, st, st', FromBookApply)
  {
    hide WriteAction, WriteMutation, WritePrint, AppliedOutcome, BookMessageOf, DecisionOf, Observed;
    if !m.Action? && BookMessageOf(m, index).Some? && AppliedOutcome(st.market, index, m).result.Rejected? {
      var code := AppliedOutcome(st.market, index, m).result.code;
      assert !DecisionOf(c.policy, st.policy, FromBookApply, code).overflow;
    }
  }

  lemma AdvancedOk(c: Config, st: Replay, st': Replay, origin: Origin)
    requires PolicyOk(c.policy, st.policy) && PolicyAdvanced(c, st, st', origin)
    ensures PolicyOk(c.policy, st'.policy) && st.policy.skipped <= st'.policy.skipped
  {
    var code :| !DecisionOf(c.policy, st.policy, origin, code).overflow &&
                st'.policy == Observed(c.policy, st.policy, origin, code);
    ObservedOk(c.policy, st.policy, origin, code);
  }

  lemma SelectedReconciled(c: Config, st: Replay, index: U64, m: Message, instrument: Instrument, st': Replay)
    requires Registered(st.market, m.locate) && m.locate in st.mutations && !m.System? && !m.Directory?
    requires HandleSelected(c, st, index, m, instrument) == Next(st')
    requires PolicyOk(c.policy, st.policy)
    ensures Count(st.tally.selectedByType, SourceType(m)) < U64_MAX && st.tally.selected < U64_MAX
    ensures st'.tally == st.tally.(selected := st.tally.selected + 1,
                                   selectedByType := Bump(st.tally.selectedByType, SourceType(m)))
    ensures PolicyOk(c.policy, st'.policy) && st.policy.skipped <= st'.policy.skipped
  {
    hide Handle, EmbeddedSymbol, SourceType, PolicyOk, PolicyAdvanced;
    var next := st.(tally := st.tally.(selected := st.tally.selected + 1,
                                       selectedByType := Bump(st.tally.selectedByType, SourceType(m))));
    if !m.Ignored? && m.timestamp < c.sessionEnd {
      HandleKeepsTally(c, next, index, m, instrument.id, st');
      if st'.policy != st.policy {
        assert PolicyAdvanced(c, st, st', FromBookApply) by {
          PolicyOnly(c, next, st, st');
        }
        AdvancedOk(c, st, st', FromBookApply);
      }
    }
  }

  lemma PolicyOnly(c: Config, st: Replay, other: Replay, st': Replay)
    requires st.policy == other.policy && PolicyAdvanced(c, st, st', FromBookApply)
    ensures PolicyAdvanced(c, other, st', FromBookApply)
  {
  }

  lemma DispatchReconciled(c: Config, st: Replay, index: U64, m: Message, st': Replay)
    requires Wired(c, st) && Dispatch(c, st, index, m) == Next(st') && PolicyOk(c.policy, st.policy)
    ensures var t, t' := st.tally, st'.tally;
            && t'.processed == t.processed && t'.decoded == t.decoded && t'.skippedDecode == t.skippedDecode
            && t'.system + t'.directory + t'.selected + t'.filtered ==
               t.system + t.directory + t.selected + t.filtered + 1
            && t'.allByType == t.allByType
            && Total(t'.selectedByType) - Total(t.selectedByType) == t'.selected - t.selected
    ensures PolicyOk(c.policy, st'.policy) && st.policy.skipped <= st'.policy.skipped
  {
    hide PolicyOk, HandleSelected, EmbeddedSymbol, SourceType, OneToOne, DirectoryRefused, Announce, Selected;
    if !m.System? && !m.Directory? {
      var instrument := Selected(c.symbols, st.market.learned, m.locate);
      if instrument.Some? {
        assert m.locate in st.market.books;
        SelectedReconciled(c, st, index, m, instrument.value, st');
        TotalBump(st.tally.selectedByType, SourceType(m));
      }
    }
  }

  lemma StepReconciled(c: Config, st: Replay, f: Frame)
    requires Wired(c, st) && Reconciled(c, st) && Step(c, st, f).Next?
    ensures Reconciled(c, Step(c, st, f).st)
  {
    hide Dispatch, OneToOne, PolicyOk, SourceType;
    var st' := Step(c, st, f).st;
    match f
    case Bad(_, code) =>
      ObservedOk(c.policy, st.policy, FromDecoder, code);
    case Good(index, m) =>
      var counted := st.(tally := st.tally.(processed := st.tally.processed + 1, decoded := st.tally.decoded + 1,
                                            allByType := Bump(st.tally.allByType, SourceType(m))));
      TotalBump(st.tally.allByType, SourceType(m));
      DispatchReconciled(c, counted, index, m, st');
  }

  /** At every point of every run the counters reconcile. */
  lemma {:induction false} RunReconciled(c: Config, frames: seq<Frame>)
    requires ConfigOk(c) && Run(c, frames).Next?
    ensures Reconciled(c, Run(c, frames).st)
  {
    hide Step, Wired;
    if frames == [] {
      StartTally(c);
    } else {
      var earlier := frames[..|frames| - 1];
      RunReconciled(c, earlier);
      StepReconciled(c, Run(c, earlier).st, frames[|frames| - 1]);
    }
  }

  lemma StartTally(c: Config)
    ensures Reconciled(c, START)
  {
  }

  /** The source's final test, with its checked sums. */
  ghost predicate ReconciliationFails(t: Tally) {
    var all := if Total(t.allByType) <= U64_MAX then Some(Total(t.allByType)) else None;
    var chosen := if Total(t.selectedByType) <= U64_MAX then Some(Total(t.selectedByType)) else None;
    var instruments := CheckedAdd(t.selected, t.filtered);
    var directories := if instruments.Some? then CheckedAdd(t.directory, instruments.value) else None;
    var categorised := if directories.Some? then CheckedAdd(t.system, directories.value) else None;
    var processed := CheckedAdd(t.decoded, t.skippedDecode);
    || all.None? || chosen.None? || categorised.None? || processed.None?
    || all.value != t.decoded || chosen.value != t.selected || categorised.value != t.decoded
    || processed.value != t.processed
  }

  /** The reconciliation error at the end of a run is unreachable. */
  lemma ReconciliationNeverFails(c: Config, frames: seq<Frame>)
    requires ConfigOk(c) && Run(c, frames).Next?
    ensures !ReconciliationFails(Run(c, frames).st.tally)
  {
    hide Run;
    RunReconciled(c, frames);
  }
}
