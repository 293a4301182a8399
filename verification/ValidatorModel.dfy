/** The deep validator's view of an event log (cpp/src/validation/validator.cpp): decode every
    record on its own, rebuild each instrument's book from nothing and compare. */
module ValidatorModel {
  import opened Types
  import opened BookModel
  import opened Messages
  import opened EventCodec
  import opened ReplayModel

  /** The book message that a decoded event stands for; prints and states have none. */
  function MessageOf(e: DecodedEvent, locate: U16): Option<BookMessage> {
    match e.kind
    case AddEvent =>
      Some(Add(e.index, locate, e.primary, e.side, e.quantity, e.price,
               if e.source == 'F' as int then Some(e.aux) else None))
    case ExecuteEvent => Some(Execute(e.index, locate, e.primary, e.quantity))
    case ExecutePriceEvent => Some(Execute(e.index, locate, e.primary, e.quantity))
    case CancelEvent => Some(Cancel(e.index, locate, e.primary, e.quantity))
    case DeleteEvent => Some(Delete(e.index, locate, e.primary))
    case ReplaceEvent => Some(Replace(e.index, locate, e.primary, e.secondary, e.quantity, e.price))
    case _ => None
  }

  /** The recorded mutation agrees with what the rebuilt book just did. */
  predicate RecordedAsApplied(e: DecodedEvent, delta: BookDelta) {
    && delta.side == e.side && delta.price == e.price && delta.remaining == e.remaining
    && (delta.kind == DeleteKind ==> delta.previousRemaining == e.quantity)
  }

  datatype Rebuilt = Rebuilt(books: seq<Live>, last: Option<Position>)

  /** One record: decoded, checked against the session window and applied. */
  ghost function ValidateRecord(c: Config, dictionary: seq<U16>, v: Rebuilt, bytes: Bytes): (result: Option<Rebuilt>)
    requires |bytes| == 72 && |v.books| == |dictionary|
    ensures result.Some? ==> |result.value.books| == |dictionary|
  {
    match DecodeRecord(bytes, |dictionary|, v.last)
    case Refused(_) => None
    case Decoded(e) =>
      var last := Some(Position(e.index, e.timestamp));
      if e.timestamp >= c.sessionEnd || e.inSession != InSession(c, e.timestamp) then None
      else
        var i := e.symbolId - 1;
        var message := MessageOf(e, dictionary[i]);
        if message.None? then Some(Rebuilt(v.books, last))
        else
          var out := Apply(v.books[i], dictionary[i], message.value);
          if out.result.Applied? && RecordedAsApplied(e, out.result.delta)
          then Some(Rebuilt(v.books[i := out.live], last))
          else None
  }

  ghost predicate Records72(records: seq<Bytes>) {
    forall i :: 0 <= i < |records| ==> |records[i]| == 72
  }

  function FreshBooks(count: nat): (books: seq<Live>)
    ensures |books| == count && forall i :: 0 <= i < count ==> books[i] == map[]
  {
    seq(count, _ => map[])
  }

  /** The whole record region, or nothing when some record is refused. */
  ghost function Validate(c: Config, dictionary: seq<U16>, records: seq<Bytes>): (result: Option<Rebuilt>)
    requires Records72(records)
    ensures result.Some? ==> |result.value.books| == |dictionary|
  {
    if records == [] then Some(Rebuilt(FreshBooks(|dictionary|), None))
    else
      var earlier := Validate(c, dictionary, records[..|records| - 1]);
      if earlier.None? then None else ValidateRecord(c, dictionary, earlier.value, records[|records| - 1])
  }

  // ---------------------------------------------------------------- the same from the event itself

  function MessageOfEvent(e: Event, locate: U16): Option<BookMessage> {
    var primary, quantity := e.primary.GetOr(0), e.quantity.GetOr(0);
    match e.kind
    case AddEvent =>
      Some(Add(e.index, locate, primary, e.side.GetOr(NotApplicable), quantity, e.price.GetOr(0),
               if e.source == 'F' as int then Some(AuxBytes(e)) else None))
    case ExecuteEvent => Some(Execute(e.index, locate, primary, quantity))
    case ExecutePriceEvent => Some(Execute(e.index, locate, primary, quantity))
    case CancelEvent => Some(Cancel(e.index, locate, primary, quantity))
    case DeleteEvent => Some(Delete(e.index, locate, primary))
    case ReplaceEvent => Some(Replace(e.index, locate, primary, e.secondary.GetOr(0), quantity, e.price.GetOr(0)))
    case _ => None
  }

  lemma MessageSurvivesCodec(e: Event, locate: U16)
    requires EncodeError(e) == None
    ensures MessageOf(DecodedOf(e), locate) == MessageOfEvent(e, locate)
  {
    hide AuxBytes;
  }

  /** The event, replayed on its instrument's book, does what it recorded. */
  ghost predicate Reproduces(live: Live, locate: U16, e: Event) {
    match MessageOfEvent(e, locate)
    case None => true
    case Some(m) =>
      var out := Apply(live, locate, m);
      && out.result.Applied?
      && var delta := out.result.delta;
         && delta.side == e.side.GetOr(NotApplicable) && delta.price == e.price.GetOr(0)
         && delta.remaining == e.remaining.GetOr(0)
         && (delta.kind == DeleteKind ==> delta.previousRemaining == e.quantity.GetOr(0))
  }

  ghost function AfterEvent(live: Live, locate: U16, e: Event): Live {
    match MessageOfEvent(e, locate)
    case None => live
    case Some(m) => Apply(live, locate, m).live
  }

  /** The book of one instrument after its events in the log. */
  ghost function LogLive(events: seq<Event>, id: nat, locate: U16): Live {
    if events == [] then map[]
    else
      var earlier := LogLive(events[..|events| - 1], id, locate);
      var e := events[|events| - 1];
      if e.symbolId == id then AfterEvent(earlier, locate, e) else earlier
  }

  lemma {:induction false} LogLiveAppend(events: seq<Event>, e: Event, id: nat, locate: U16)
    ensures LogLive(events + [e], id, locate) ==
            if e.symbolId == id then AfterEvent(LogLive(events, id, locate), locate, e)
            else LogLive(events, id, locate)
  {
    assert (events + [e])[..|events|] == events;
  }

  lemma {:induction false} LogLiveNone(events: seq<Event>, id: nat, locate: U16)
    requires forall k :: 0 <= k < |events| ==> events[k].symbolId != id
    ensures LogLive(events, id, locate) == map[]
  {
    if events != [] {
      LogLiveNone(events[..|events| - 1], id, locate);
    }
  }

  /** One event of the log through the codec and the validator. */
  lemma ValidateOne(c: Config, dictionary: seq<U16>, v: Rebuilt, e: Event)
    requires |v.books| == |dictionary| && EncodeError(e) == None
    requires e.timestamp < c.sessionEnd && e.inSession == InSession(c, e.timestamp)
    requires 1 <= e.symbolId <= |dictionary|
    requires Reproduces(v.books[e.symbolId - 1], dictionary[e.symbolId - 1], e)
    ensures var result := ValidateRecord(c, dictionary, v, Record(e));
            var i := e.symbolId - 1;
            && (result.Some? <==> Acceptable(e, |dictionary|, v.last))
            && (result.Some? ==>
                  result.value == Rebuilt(v.books[i := AfterEvent(v.books[i], dictionary[i], e)],
                                          Some(Position(e.index, e.timestamp))))
  {
    hide Record, DecodeRecord, Acceptable, Apply, MessageOf, MessageOfEvent, EncodeError, InSession, AuxBytes;
    DecodeEncoded(e, |dictionary|, v.last);
    MessageSurvivesCodec(e, dictionary[e.symbolId - 1]);
    DecodedFields(e);
  }

  lemma DecodedFields(e: Event)
    requires EncodeError(e) == None
    ensures var d := DecodedOf(e);
            && d.index == e.index && d.timestamp == e.timestamp && d.symbolId == e.symbolId
            && d.inSession == e.inSession && d.side == e.side.GetOr(NotApplicable) && d.price == e.price.GetOr(0)
            && d.remaining == e.remaining.GetOr(0) && d.quantity == e.quantity.GetOr(0)
  {
    hide AuxBytes;
  }
}
