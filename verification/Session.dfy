/** Daily session phases and per-instrument trading states (cpp/src/replay/session_state.cpp). */
module Session {
  import opened Types

  type States = map<U16, TradingState>

  datatype SessionView = SessionView(rank: Option<nat>, states: States)

  function PhaseRank(code: U8): Option<nat> {
    if code == 'O' as int then Some(0)
    else if code == 'S' as int then Some(1)
    else if code == 'Q' as int then Some(2)
    else if code == 'M' as int then Some(3)
    else if code == 'E' as int then Some(4)
    else if code == 'C' as int then Some(5)
    else None
  }

  function DecodeState(code: U8): Option<TradingState> {
    if code == 'H' as int then Some(Halted)
    else if code == 'P' as int then Some(Paused)
    else if code == 'Q' as int then Some(QuotationOnly)
    else if code == 'T' as int then Some(Trading)
    else None
  }

  predicate AtLeast(rank: Option<nat>, phase: nat) {
    rank.Some? && rank.value >= phase
  }

  function InitialState(rank: Option<nat>): TradingState {
    if AtLeast(rank, 3) then Closed else if AtLeast(rank, 1) then Halted else Preopen
  }

  /** The states after a system event of the given rank: system open halts what is still preopen,
      end of market hours closes everything. */
  function AfterPhase(states: States, rank: nat): (next: States)
    ensures next.Keys == states.Keys
  {
    if rank == 1 then map l | l in states :: if states[l] == Preopen then Halted else states[l]
    else if rank >= 3 then map l | l in states :: Closed
    else states
  }

  predicate SystemRefused(v: SessionView, locate: U16, code: U8) {
    locate != 0 || PhaseRank(code).None? || (v.rank.Some? && PhaseRank(code).value <= v.rank.value)
  }

  function AfterSystem(v: SessionView, code: U8): SessionView
    requires PhaseRank(code).Some?
  {
    SessionView(PhaseRank(code), AfterPhase(v.states, PhaseRank(code).value))
  }

  predicate ActionRefused(v: SessionView, locate: U16, code: U8) {
    locate !in v.states || AtLeast(v.rank, 3) || DecodeState(code).None?
  }

  function AfterAction(v: SessionView, locate: U16, code: U8): SessionView
    requires DecodeState(code).Some?
  {
    v.(states := v.states[locate := DecodeState(code).value])
  }

  function AfterRegister(v: SessionView, locate: U16): SessionView {
    if locate in v.states then v else v.(states := v.states[locate := InitialState(v.rank)])
  }

  predicate Tradable(v: SessionView, locate: U16) {
    locate in v.states && v.states[locate] == Trading
  }

  /** What the state byte of a trading action stands for. */
  predicate MeansState(code: U8, state: TradingState) {
    || (code == 'H' as int && state == Halted) || (code == 'P' as int && state == Paused)
    || (code == 'Q' as int && state == QuotationOnly) || (code == 'T' as int && state == Trading)
  }

  /** An accepted action names one of the four states and puts its instrument there; the instrument can
      trade exactly when the byte is 'T', and no other instrument changes. */
  lemma ActionDecides(v: SessionView, locate: U16, code: U8)
    requires !ActionRefused(v, locate, code)
    ensures var after := AfterAction(v, locate, code);
            && locate in after.states && MeansState(code, after.states[locate])
            && (Tradable(after, locate) <==> code == 'T' as int)
            && after.rank == v.rank && forall l :: l in v.states && l != locate ==> after.states[l] == v.states[l]
  {
  }

  /** Only a trading action can make an instrument tradable, and it reports that as a change. */
  lemma OnlyActionsResume(v: SessionView, locate: U16, other: U16, code: U8)
    ensures !SystemRefused(v, locate, code) && Tradable(AfterSystem(v, code), other) ==> Tradable(v, other)
    ensures Tradable(AfterRegister(v, locate), other) ==> Tradable(v, other)
    ensures !ActionRefused(v, locate, code) && Tradable(AfterAction(v, locate, code), other) && !Tradable(v, other) ==>
              other == locate && DecodeState(code).value != v.states[locate]
  {
  }

  /** After end of market hours nothing trades again, whatever messages follow. */
  lemma ClosedForGood(v: SessionView, locate: U16, other: U16, code: U8)
    requires AtLeast(v.rank, 3) && !Tradable(v, other)
    ensures !SystemRefused(v, locate, code) ==>
              AtLeast(AfterSystem(v, code).rank, 3) && !Tradable(AfterSystem(v, code), other)
    ensures ActionRefused(v, locate, code)
    ensures !Tradable(AfterRegister(v, locate), other)
  {
  }

  class SessionState {
    var rank: Option<nat>
    var states: States

    function View(): SessionView
      reads this
    {
      SessionView(rank, states)
    }

    constructor ()
      ensures View() == SessionView(None, map[])
    {
      rank, states := None, map[];
    }

    method RegisterInstrument(locate: U16) returns (error: Option<ErrorCode>)
      modifies this
      ensures error == if locate == 0 then Some(Invariant) else None
      ensures View() == if locate == 0 then old(View()) else AfterRegister(old(View()), locate)
    {
      if locate == 0 {
        return Some(Invariant);
      }
      if locate in states {
        return None;
      }
      var initial := Preopen;
      if rank.Some? && rank.value >= 3 {
        initial := Closed;
      } else if rank.Some? && rank.value >= 1 {
        initial := Halted;
      }
      states := states[locate := initial];
      error := None;
    }

    method ApplySystem(locate: U16, code: U8) returns (error: Option<ErrorCode>)
      modifies this
      ensures error == if SystemRefused(old(View()), locate, code) then Some(Invariant) else None
      ensures View() == if error.Some? then old(View()) else AfterSystem(old(View()), code)
    {
      if locate != 0 {
        return Some(Invariant);
      }
      var next := PhaseRank(code);
      if next.None? {
        return Some(Invariant);
      }
      if rank.Some? && next.value <= rank.value {
        return Some(Invariant);
      }
      var before, pending := states, states.Keys;
      while pending != {}
        invariant pending <= before.Keys && states.Keys == before.Keys && rank == old(rank)
        invariant forall l :: l in before ==>
                    states[l] == if l in pending then before[l] else AfterPhase(before, next.value)[l]
        decreases pending
      {
        var l :| l in pending;
        if next.value == 1 {
          if states[l] == Preopen {
            states := states[l := Halted];
          }
        } else if next.value >= 3 {
          states := states[l := Closed];
        }
        pending := pending - {l};
      }
      rank := next;
      assert states == AfterPhase(before, next.value);
      error := None;
    }

    /** On success also tells whether the state changed. */
    method ApplyAction(locate: U16, code: U8) returns (error: Option<ErrorCode>, changed: bool)
      modifies this
      ensures error == if ActionRefused(old(View()), locate, code) then Some(Invariant) else None
      ensures View() == if error.Some? then old(View()) else AfterAction(old(View()), locate, code)
      ensures error.None? ==> changed == (old(states)[locate] != states[locate])
      ensures error.None? ==> MeansState(code, states[locate])
    {
      changed := false;
      if locate !in states {
        return Some(Invariant), changed;
      }
      if rank.Some? && rank.value >= 3 {
        return Some(Invariant), changed;
      }
      var next := DecodeState(code);
      if next.None? {
        return Some(Invariant), changed;
      }
      var previous := states[locate];
      states := states[locate := next.value];
      error, changed := None, previous != next.value;
    }
  }
}
