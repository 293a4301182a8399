/** The instrument directory (cpp/src/replay/instrument_directory.cpp): one source-day table of
    locates, symbols and requested instruments. */
module InstrumentDirectoryModule {
  import opened Types
  import opened Messages

  datatype Identity = Identity(symbol: Bytes, marketCategory: U8, financialStatus: U8, roundLotSize: U32,
                               roundLotsOnly: bool)

  datatype Instrument = Instrument(id: U16, locate: U16, identity: Identity)

  /** What the directory has learned: the identity of each locate. Everything else follows. */
  type Learned = map<U16, Identity>

  predicate ValidSourceSymbol(symbol: Bytes) {
    && symbol != [] && |symbol| <= 8 && symbol[0] != PADDING
    && forall i :: 0 <= i < |symbol| ==> 0x20 <= symbol[i] <= 0x7E
  }

  function IdentityOf(m: Message): Identity
    requires m.Directory?
  {
    Identity(Trimmed(m.stock), m.marketCategory, m.financialStatus, m.roundLotSize, m.roundLotsOnly == 'Y' as int)
  }

  ghost predicate SymbolTaken(learned: Learned, symbol: Bytes) {
    exists l :: l in learned && learned[l].symbol == symbol
  }

  /** Symbols and locates correspond one to one. */
  ghost predicate OneToOne(learned: Learned) {
    && 0 !in learned
    && forall k, l :: k in learned && l in learned && learned[k].symbol == learned[l].symbol ==> k == l
  }

  ghost predicate DirectoryRefused(learned: Learned, m: Message)
    requires m.Directory?
  {
    || m.locate == 0
    || !ValidSourceSymbol(Trimmed(m.stock))
    || (m.roundLotsOnly != 'Y' as int && m.roundLotsOnly != 'N' as int)
    || (m.locate in learned && learned[m.locate] != IdentityOf(m))
    || (m.locate !in learned && SymbolTaken(learned, Trimmed(m.stock)))
  }

  function AfterDirectory(learned: Learned, m: Message): Learned
    requires m.Directory?
  {
    learned[m.locate := IdentityOf(m)]
  }

  /** The 1-based position of a requested symbol; 0 when it was not requested. */
  function RequestedId(requested: seq<Bytes>, symbol: Bytes): (id: nat)
    ensures id <= |requested|
    ensures id > 0 <==> symbol in requested
    ensures id > 0 ==> requested[id - 1] == symbol && symbol !in requested[..id - 1]
  {
    if requested == [] then 0
    else
      var init := requested[..|requested| - 1];
      var earlier := RequestedId(init, symbol);
      if earlier > 0 then
        assert requested[earlier - 1] == init[earlier - 1] && requested[..earlier - 1] == init[..earlier - 1];
        earlier
      else if requested[|requested| - 1] == symbol then |requested|
      else 0
  }

  /** The requested instrument that a locate stands for, if any. */
  function Selected(requested: seq<Bytes>, learned: Learned, locate: U16): Option<Instrument>
    requires |requested| <= U16_MAX
  {
    if locate in learned && RequestedId(requested, learned[locate].symbol) > 0
    then Some(Instrument(RequestedId(requested, learned[locate].symbol), locate, learned[locate]))
    else None
  }

  /** A symbol id belongs to one locate. */
  lemma SelectedIsOneToOne(requested: seq<Bytes>, learned: Learned, k: U16, l: U16)
    requires |requested| <= U16_MAX && OneToOne(learned)
    requires Selected(requested, learned, k).Some? && Selected(requested, learned, l).Some?
    requires Selected(requested, learned, k).value.id == Selected(requested, learned, l).value.id
    ensures k == l
  {
  }

  lemma AfterDirectoryOneToOne(learned: Learned, m: Message)
    requires m.Directory? && OneToOne(learned) && !DirectoryRefused(learned, m)
    ensures OneToOne(AfterDirectory(learned, m))
    ensures forall l :: l in learned ==> AfterDirectory(learned, m)[l] == learned[l]
  {
  }

  ghost predicate LocatesAgree(learned: Learned, locates: map<Bytes, U16>) {
    && (forall l :: l in learned ==> learned[l].symbol in locates)
    && (forall s :: s in locates ==> locates[s] in learned && learned[locates[s]].symbol == s)
  }

  ghost predicate LocatesSelected(requested: seq<Bytes>, learned: Learned, byLocate: map<U16, Instrument>)
    requires |requested| <= U16_MAX
  {
    && (forall l :: l in byLocate <==> Selected(requested, learned, l).Some?)
    && (forall l :: l in byLocate ==> byLocate[l] == Selected(requested, learned, l).value)
  }

  ghost predicate SlotsSelected(requested: seq<Bytes>, learned: Learned, byId: seq<Option<Instrument>>)
    requires |requested| <= U16_MAX
  {
    && |byId| == |requested|
    && (forall i :: 0 <= i < |byId| && byId[i].Some? ==> IsSelected(requested, learned, byId[i].value, i + 1))
  }

  ghost predicate AllInSlots(byLocate: map<U16, Instrument>, byId: seq<Option<Instrument>>) {
    forall l :: l in byLocate ==> InSlot(byId, byLocate[l])
  }

  ghost predicate SelectionAgrees(requested: seq<Bytes>, learned: Learned, byLocate: map<U16, Instrument>,
                                  byId: seq<Option<Instrument>>)
    requires |requested| <= U16_MAX
  {
    && LocatesSelected(requested, learned, byLocate)
    && SlotsSelected(requested, learned, byId)
    && AllInSlots(byLocate, byId)
  }

  ghost predicate InSlot(byId: seq<Option<Instrument>>, instrument: Instrument) {
    1 <= instrument.id <= |byId| && byId[instrument.id - 1] == Some(instrument)
  }

  ghost predicate IsSelected(requested: seq<Bytes>, learned: Learned, instrument: Instrument, id: nat)
    requires |requested| <= U16_MAX
  {
    Selected(requested, learned, instrument.locate) == Some(instrument) && instrument.id == id
  }

  lemma LearnLocate(learned: Learned, locates: map<Bytes, U16>, locate: U16, identity: Identity)
    requires LocatesAgree(learned, locates) && locate !in learned && identity.symbol !in locates
    ensures LocatesAgree(learned[locate := identity], locates[identity.symbol := locate])
  {
  }

  lemma SelectedFrame(requested: seq<Bytes>, learned: Learned, locate: U16, identity: Identity)
    requires |requested| <= U16_MAX
    ensures var after, id := learned[locate := identity], RequestedId(requested, identity.symbol);
            && (forall l :: l != locate ==> Selected(requested, after, l) == Selected(requested, learned, l))
            && Selected(requested, after, locate) == (if id > 0 then Some(Instrument(id, locate, identity)) else None)
            && (locate !in learned ==> Selected(requested, learned, locate).None?)
            && (forall l :: Selected(requested, learned, l).Some? ==>
                  1 <= Selected(requested, learned, l).value.id <= |requested|)
  {
  }

  lemma HolderSymbol(requested: seq<Bytes>, learned: Learned, holder: Instrument, symbol: Bytes)
    requires |requested| <= U16_MAX && IsSelected(requested, learned, holder, RequestedId(requested, symbol))
    requires RequestedId(requested, symbol) > 0
    ensures holder.locate in learned && learned[holder.locate].symbol == symbol
  {
  }

  /** The slot of a requested symbol is empty until its first locate is learned. */
  lemma SlotEmpty(requested: seq<Bytes>, learned: Learned, byLocate: map<U16, Instrument>,
                  byId: seq<Option<Instrument>>, locate: U16, identity: Identity)
    requires |requested| <= U16_MAX && SelectionAgrees(requested, learned, byLocate, byId)
    requires locate !in learned && OneToOne(learned[locate := identity])
    requires RequestedId(requested, identity.symbol) > 0
    ensures byId[RequestedId(requested, identity.symbol) - 1].None?
  {
    hide RequestedId, InSlot, Selected, LocatesSelected, AllInSlots;
    var id, after := RequestedId(requested, identity.symbol), learned[locate := identity];
    forall l | l in learned ensures learned[l].symbol != identity.symbol {
      assert l != locate && after[l] == learned[l] && after[locate] == identity;
    }
    if byId[id - 1].Some? {
      HolderSymbol(requested, learned, byId[id - 1].value, identity.symbol);
    }
  }

  lemma StillSelected(requested: seq<Bytes>, learned: Learned, byLocate: map<U16, Instrument>,
                      byId: seq<Option<Instrument>>, locate: U16, identity: Identity)
    requires |requested| <= U16_MAX && SelectionAgrees(requested, learned, byLocate, byId) && locate !in learned
    ensures forall i :: 0 <= i < |byId| && byId[i].Some? ==>
              IsSelected(requested, learned[locate := identity], byId[i].value, i + 1)
    ensures var id := RequestedId(requested, identity.symbol);
            id > 0 ==> IsSelected(requested, learned[locate := identity], Instrument(id, locate, identity), id)
  {
    hide Selected;
    SelectedFrame(requested, learned, locate, identity);
    forall i | 0 <= i < |byId| && byId[i].Some?
      ensures IsSelected(requested, learned[locate := identity], byId[i].value, i + 1)
    {
      assert IsSelected(requested, learned, byId[i].value, i + 1);
    }
  }

  /** Learning a symbol that was not requested changes no selection. */
  lemma LearnUnrequested(requested: seq<Bytes>, learned: Learned, byLocate: map<U16, Instrument>,
                         byId: seq<Option<Instrument>>, locate: U16, identity: Identity)
    requires |requested| <= U16_MAX && SelectionAgrees(requested, learned, byLocate, byId) && locate !in learned
    requires RequestedId(requested, identity.symbol) == 0
    ensures SelectionAgrees(requested, learned[locate := identity], byLocate, byId)
  {
    hide Selected, IsSelected;
    StillSelected(requested, learned, byLocate, byId, locate, identity);
    SelectedFrame(requested, learned, locate, identity);
  }

  lemma FillSlot(byLocate: map<U16, Instrument>, byId: seq<Option<Instrument>>, locate: U16, instrument: Instrument)
    requires AllInSlots(byLocate, byId) && 1 <= instrument.id <= |byId| && byId[instrument.id - 1].None?
    ensures AllInSlots(byLocate[locate := instrument], byId[instrument.id - 1 := Some(instrument)])
  {
    var byLocate', byId' := byLocate[locate := instrument], byId[instrument.id - 1 := Some(instrument)];
    forall l | l in byLocate' ensures InSlot(byId', byLocate'[l]) {
      if l != locate {
        assert InSlot(byId, byLocate[l]);
      }
    }
  }

  /** Learning a requested symbol fills its slot. */
  lemma LearnRequested(requested: seq<Bytes>, learned: Learned, byLocate: map<U16, Instrument>,
                       byId: seq<Option<Instrument>>, locate: U16, identity: Identity)
    requires |requested| <= U16_MAX && SelectionAgrees(requested, learned, byLocate, byId)
    requires locate !in learned && OneToOne(learned[locate := identity])
    requires RequestedId(requested, identity.symbol) > 0
    ensures var id := RequestedId(requested, identity.symbol);
            var instrument := Instrument(id, locate, identity);
            && id <= |byId|
            && SelectionAgrees(requested, learned[locate := identity], byLocate[locate := instrument],
                               byId[id - 1 := Some(instrument)])
  {
    hide Selected, OneToOne, IsSelected, AllInSlots, LocatesSelected, RequestedId;
    var id := RequestedId(requested, identity.symbol);
    var instrument := Instrument(id, locate, identity);
    StillSelected(requested, learned, byLocate, byId, locate, identity);
    LocatesStillSelected(requested, learned, byLocate, locate, identity);
    SlotEmpty(requested, learned, byLocate, byId, locate, identity);
    FillSlot(byLocate, byId, locate, instrument);
  }

  lemma LocatesStillSelected(requested: seq<Bytes>, learned: Learned, byLocate: map<U16, Instrument>, locate: U16,
                             identity: Identity)
    requires |requested| <= U16_MAX && LocatesSelected(requested, learned, byLocate)
    requires RequestedId(requested, identity.symbol) > 0
    ensures LocatesSelected(requested, learned[locate := identity],
                            byLocate[locate := Instrument(RequestedId(requested, identity.symbol), locate, identity)])
  {
    hide Selected, RequestedId;
    SelectedFrame(requested, learned, locate, identity);
  }

  lemma SlotResolved(requested: seq<Bytes>, learned: Learned, byLocate: map<U16, Instrument>,
                     byId: seq<Option<Instrument>>, i: nat)
    requires |requested| <= U16_MAX && SelectionAgrees(requested, learned, byLocate, byId) && i < |byId|
    ensures byId[i].Some? <==> Resolved(requested, learned, i + 1)
  {
    if byId[i].Some? {
      assert IsSelected(requested, learned, byId[i].value, i + 1);
    }
    if Resolved(requested, learned, i + 1) {
      var l :| l in learned && Selected(requested, learned, l).Some? && Selected(requested, learned, l).value.id == i + 1;
      assert l in byLocate;
    }
  }

  /** The requested symbols with their ids. */
  ghost predicate IdsIndexed(requested: seq<Bytes>, ids: map<Bytes, U16>) {
    && ids.Keys == (set s | s in requested)
    && forall s :: s in ids ==> ids[s] == RequestedId(requested, s)
  }

  lemma IndexedId(requested: seq<Bytes>, ids: map<Bytes, U16>, symbol: Bytes)
    requires IdsIndexed(requested, ids)
    ensures if symbol in ids then ids[symbol] == RequestedId(requested, symbol) > 0
            else RequestedId(requested, symbol) == 0
  {
  }

  class InstrumentDirectory {
    const requested: seq<Bytes>
    var requestedIds: map<Bytes, U16>
    var selectedById: seq<Option<Instrument>>
    var identities: Learned
    var locates: map<Bytes, U16>
    var selectedByLocate: map<U16, Instrument>

    /** The five tables agree with what has been learned. */
    ghost predicate Valid()
      reads this
    {
      && |requested| <= U16_MAX
      && OneToOne(identities)
      && IdsIndexed(requested, requestedIds)
      && LocatesAgree(identities, locates)
      && SelectionAgrees(requested, identities, selectedByLocate, selectedById)
    }

    constructor (symbols: seq<Bytes>)
      requires |symbols| <= U16_MAX
      ensures Valid() && requested == symbols && identities == map[]
    {
      requested := symbols;
      requestedIds := map s | s in symbols :: RequestedId(symbols, s);
      selectedById := seq(|symbols|, _ => None);
      identities, locates, selectedByLocate := map[], map[], map[];
    }

    method Apply(m: Message) returns (error: Option<ErrorCode>, resolved: Option<Instrument>)
      requires Valid() && m.Directory?
      modifies this
      ensures Valid()
      ensures error == if DirectoryRefused(old(identities), m) then Some(Invariant) else None
      ensures identities == if error.Some? then old(identities) else AfterDirectory(old(identities), m)
      ensures resolved == if error.None? && m.locate !in old(identities) then Selected(requested, identities, m.locate)
                          else None
    {
      resolved := None;
      var symbol := Trimmed(m.stock);
      if m.locate == 0 {
        return Some(Invariant), resolved;
      }
      if !ValidSourceSymbol(symbol) {
        return Some(Invariant), resolved;
      }
      if m.roundLotsOnly != 'Y' as int && m.roundLotsOnly != 'N' as int {
        return Some(Invariant), resolved;
      }
      var identity := IdentityOf(m);
      if m.locate in identities {
        if identities[m.locate] != identity {
          return Some(Invariant), resolved;
        }
        assert identities[m.locate := identity] == identities;
        return None, resolved;
      }
      if symbol in locates && locates[symbol] != m.locate {
        return Some(Invariant), resolved;
      }
      AfterDirectoryOneToOne(identities, m);
      error, resolved := Learn(m, symbol, identity);
    }

    /** A locate seen for the first time. */
    method Learn(m: Message, symbol: Bytes, identity: Identity)
      returns (error: Option<ErrorCode>, resolved: Option<Instrument>)
      requires Valid() && m.Directory? && m.locate !in identities && symbol !in locates
      requires symbol == Trimmed(m.stock) && identity == IdentityOf(m) && OneToOne(AfterDirectory(identities, m))
      modifies this
      ensures Valid() && error.None?
      ensures identities == AfterDirectory(old(identities), m)
      ensures resolved == Selected(requested, identities, m.locate)
    {
      hide LocatesAgree, SelectionAgrees, OneToOne, Selected, Trimmed, ValidSourceSymbol, IdsIndexed, RequestedId;
      IndexedId(requested, requestedIds, symbol);
      SelectedFrame(requested, identities, m.locate, identity);
      LearnLocate(identities, locates, m.locate, identity);
      if symbol in requestedIds {
        LearnRequested(requested, identities, selectedByLocate, selectedById, m.locate, identity);
      } else {
        LearnUnrequested(requested, identities, selectedByLocate, selectedById, m.locate, identity);
      }
      identities := identities[m.locate := identity];
      locates := locates[symbol := m.locate];
      if symbol !in requestedIds {
        return None, None;
      }
      // The slot of a requested symbol is still empty, so the source's contradiction test on it
      // never fires.
      var instrument := Instrument(requestedIds[symbol], m.locate, identity);
      selectedById := selectedById[instrument.id - 1 := Some(instrument)];
      selectedByLocate := selectedByLocate[m.locate := instrument];
      error, resolved := None, Some(instrument);
    }

    method SelectedByLocate(locate: U16) returns (instrument: Option<Instrument>)
      requires Valid()
      ensures instrument == Selected(requested, identities, locate)
    {
      hide Selected, OneToOne, LocatesAgree, SlotsSelected, AllInSlots;
      instrument := if locate in selectedByLocate then Some(selectedByLocate[locate]) else None;
    }

    method AllRequestedResolved() returns (all: bool)
      requires Valid()
      ensures all <==> AllResolved(requested, identities)
    {
      hide OneToOne, LocatesAgree, Resolved;
      all := true;
      assert |selectedById| == |requested|;
      for i := 0 to |selectedById|
        invariant all <==> forall j :: 0 <= j < i ==> selectedById[j].Some?
      {
        if selectedById[i].None? {
          all := false;
        }
      }
      forall i | 0 <= i < |selectedById| ensures selectedById[i].Some? <==> Resolved(requested, identities, i + 1) {
        SlotResolved(requested, identities, selectedByLocate, selectedById, i);
      }
      if all {
        forall id | 1 <= id <= |requested| ensures Resolved(requested, identities, id) {
          assert selectedById[id - 1].Some?;
        }
      }
    }

    /** The resolved instruments by symbol id; all of them once every symbol is resolved. */
    method SelectedInstruments() returns (instruments: seq<Instrument>)
      requires Valid()
      ensures AllResolved(requested, identities) ==> Listing(requested, identities, instruments)
    {
      hide OneToOne, LocatesAgree, Resolved, IsSelected;
      instruments := [];
      ghost var all := AllResolved(requested, identities);
      for i := 0 to |selectedById|
        invariant all ==> |instruments| == i
        invariant all ==> forall j :: 0 <= j < i ==> IsSelected(requested, identities, instruments[j], j + 1)
      {
        SlotResolved(requested, identities, selectedByLocate, selectedById, i);
        if selectedById[i].Some? {
          instruments := instruments + [selectedById[i].value];
        }
      }
    }
  }

  ghost predicate AllResolved(requested: seq<Bytes>, learned: Learned)
    requires |requested| <= U16_MAX
  {
    forall id :: 1 <= id <= |requested| ==> Resolved(requested, learned, id)
  }

  /** One instrument for each requested symbol, in the order of the request. */
  ghost predicate Listing(requested: seq<Bytes>, learned: Learned, instruments: seq<Instrument>)
    requires |requested| <= U16_MAX
  {
    && |instruments| == |requested|
    && forall i :: 0 <= i < |instruments| ==> IsSelected(requested, learned, instruments[i], i + 1)
  }

  /** Some locate has been announced for the requested symbol with this id. */
  ghost predicate Resolved(requested: seq<Bytes>, learned: Learned, id: nat)
    requires |requested| <= U16_MAX
  {
    exists l :: l in learned && Selected(requested, learned, l).Some? && Selected(requested, learned, l).value.id == id
  }
}
