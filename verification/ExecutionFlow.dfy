/** The execution windows of _FeatureState, as shared mutable objects: one contribution sits in
    several windows and in its match, and a broken trade takes it out of every total at once. */
module ExecutionFlowModule {
  import opened FlowModel

  class Contribution {
    const exec: Exec
    var active: bool
    var windows: set<nat>

    constructor (e: Exec, isActive: bool)
      ensures exec == e && active == isActive && windows == {}
    {
      exec, active, windows := e, isActive, {};
    }
  }

  datatype Match = Match(contributions: seq<Contribution>, broken: bool)

  function Execs(cs: seq<Contribution>): (es: seq<Exec>)
    ensures |es| == |cs| && forall i :: 0 <= i < |cs| ==> es[i] == cs[i].exec
  {
    seq(|cs|, i requires 0 <= i < |cs| => cs[i].exec)
  }

  function Buckets(history: seq<seq<Contribution>>): (buckets: seq<seq<Exec>>)
    ensures |buckets| == |history| && forall i :: 0 <= i < |history| ==> buckets[i] == Execs(history[i])
  {
    seq(|history|, i requires 0 <= i < |history| => Execs(history[i]))
  }

  /** The contributions of one match, in order of arrival. */
  function OfMatch(cs: seq<Contribution>, matchNumber: int, gone: set<Contribution>): (own: seq<Contribution>)
    ensures forall i :: 0 <= i < |own| ==> own[i] in cs && own[i].exec.matchNumber == matchNumber && own[i] !in gone
    ensures forall i :: 0 <= i < |cs| && cs[i].exec.matchNumber == matchNumber && cs[i] !in gone ==> cs[i] in own
  {
    if cs == [] then []
    else
      var c := cs[|cs| - 1];
      OfMatch(cs[..|cs| - 1], matchNumber, gone) +
      (if c.exec.matchNumber == matchNumber && c !in gone then [c] else [])
  }

  // ---------------------------------------------------------------- sequences of contributions

  ghost predicate Distinct(cs: seq<Contribution>) {
    DistinctIds(Execs(cs))
  }

  lemma ExecsConcat(a: seq<Contribution>, b: seq<Contribution>)
    ensures Execs(a + b) == Execs(a) + Execs(b)
  {
  }

  lemma {:induction false} FlatBuckets(history: seq<seq<Contribution>>)
    ensures Flat(Buckets(history)) == Execs(Flat(history))
  {
    if history != [] {
      FlatBuckets(history[1..]);
      assert Buckets(history)[1..] == Buckets(history[1..]);
      ExecsConcat(history[0], Flat(history[1..]));
    }
  }

  lemma LastBuckets(history: seq<seq<Contribution>>, n: nat)
    ensures Last(Buckets(history), n) == Buckets(Last(history, n))
  {
  }

  lemma ShownExecs(history: seq<seq<Contribution>>, n: nat)
    ensures Flat(Last(Buckets(history), n)) == Execs(Flat(Last(history, n)))
  {
    LastBuckets(history, n);
    FlatBuckets(Last(history, n));
  }

  lemma DistinctObjects(cs: seq<Contribution>, i: nat, j: nat)
    requires Distinct(cs) && i < j < |cs|
    ensures cs[i] != cs[j]
  {
    assert Execs(cs)[i].id != Execs(cs)[j].id;
  }

  lemma DistinctPart(cs: seq<Contribution>, from: nat, end: nat)
    requires Distinct(cs) && from <= end <= |cs|
    ensures Distinct(cs[from..end])
  {
    var part := cs[from..end];
    forall i, j | 0 <= i < j < |part| ensures Execs(part)[i].id != Execs(part)[j].id {
      assert Execs(part)[i] == Execs(cs)[from + i] && Execs(part)[j] == Execs(cs)[from + j];
    }
  }

  lemma SameId(cs: seq<Contribution>, c: Contribution, d: Contribution)
    requires Distinct(cs) && c in cs && d in cs && c.exec.id == d.exec.id
    ensures c == d
  {
    var i :| 0 <= i < |cs| && cs[i] == c;
    var j :| 0 <= j < |cs| && cs[j] == d;
    assert Execs(cs)[i].id == Execs(cs)[j].id;
  }

  lemma TailIn(cs: seq<Contribution>, k: nat)
    requires k <= |cs|
    ensures forall i :: 0 <= i < |cs[k..]| ==> cs[k..][i] in cs
  {
  }

  /** A contribution is active unless it was retracted. */
  ghost predicate Marked(cs: seq<Contribution>, retracted: set<nat>)
    reads cs`active
  {
    forall i :: 0 <= i < |cs| ==> (cs[i].active <==> cs[i].exec.id !in retracted)
  }

  // ---------------------------------------------------------------- one window

  class ExecutionWindow {
    const window: nat
    var buckets: seq<seq<Contribution>>
    var signedQuantity: int
    var quantity: int

    constructor (size: nat)
      ensures window == size && buckets == [] && signedQuantity == 0 && quantity == 0
    {
      window, buckets, signedQuantity, quantity := size, [], 0, 0;
    }

    /** The totals count what the window shows, without what was retracted. */
    ghost predicate Counts(retracted: set<nat>)
      reads this
    {
      && signedQuantity == SignedTotal(Execs(Flat(buckets)), retracted)
      && quantity == QuantityTotal(Execs(Flat(buckets)), retracted)
    }

    /** Slide by one bucket. */
    method Append(contributions: seq<Contribution>, ghost shown: seq<Contribution>, ghost retracted: set<nat>)
      returns (evicted: seq<Contribution>)
      requires window > 0 && |buckets| <= window && Counts(retracted)
      requires shown == Flat(buckets) && Distinct(shown + contributions) && Marked(shown + contributions, retracted)
      requires forall c :: c in shown ==> window in c.windows
      modifies this`buckets, this`signedQuantity, this`quantity, shown`windows, contributions`windows
      ensures evicted == if |old(buckets)| == window then old(buckets)[0] else []
      ensures buckets == (if |old(buckets)| == window then old(buckets)[1..] else old(buckets)) + [contributions]
      ensures Counts(retracted) && Marked(shown + contributions, retracted)
      ensures forall c :: c in shown + contributions ==>
                c.windows == if c in contributions then old(c.windows) + {window}
                             else if c in evicted then old(c.windows) - {window} else old(c.windows)
    {
      hide Distinct, SignedTotal, QuantityTotal, Execs, Marked, Flat;
      evicted := if |buckets| == window then buckets[0] else [];
      KeptBuckets(buckets, window, shown, contributions);
      ghost var kept := shown[|evicted|..];
      Parts(shown, evicted, kept, contributions, retracted);
      Evict(evicted, kept, retracted);
      if |buckets| == window {
        buckets := buckets[1..];
      }
      buckets := buckets + [contributions];
      Admit(kept, contributions, retracted);
      PartsMarked(shown, evicted, kept, contributions, retracted);
    }

    /** Take the evicted bucket out of the totals. */
    method Evict(evicted: seq<Contribution>, ghost kept: seq<Contribution>, ghost retracted: set<nat>)
      requires Distinct(evicted)
      requires signedQuantity == SignedTotal(Execs(evicted + kept), retracted)
      requires quantity == QuantityTotal(Execs(evicted + kept), retracted)
      requires Marked(evicted, retracted) && forall i :: 0 <= i < |evicted| ==> window in evicted[i].windows
      modifies this`signedQuantity, this`quantity, evicted`windows
      ensures signedQuantity == SignedTotal(Execs(kept), retracted)
      ensures quantity == QuantityTotal(Execs(kept), retracted)
      ensures Marked(evicted, retracted)
      ensures forall i :: 0 <= i < |evicted| ==> evicted[i].windows == old(evicted[i].windows) - {window}
    {
      hide Distinct, SignedTotal, QuantityTotal, Execs, Flat, Marked;
      ExecsConcat(evicted, kept);
      TotalsConcat(Execs(evicted), Execs(kept), retracted);
      NoTotals(Execs(evicted), retracted);
      Apart(evicted, []);
      ghost var es := Execs(evicted);
      ghost var signed, shares := SignedTotal(es, retracted) + SignedTotal(Execs(kept), retracted),
                                  QuantityTotal(es, retracted) + QuantityTotal(Execs(kept), retracted);
      for k := 0 to |evicted|
        invariant signedQuantity == signed - SignedTotal(es[..k], retracted)
        invariant quantity == shares - QuantityTotal(es[..k], retracted)
        invariant Marked(evicted, retracted)
        invariant forall i :: 0 <= i < k ==> evicted[i].windows == old(evicted[i].windows) - {window}
        invariant forall i :: k <= i < |evicted| ==> evicted[i].windows == old(evicted[i].windows)
      {
        var item := evicted[k];
        TotalsStep(es, k, retracted);
        MarkedAt(evicted, k, retracted);
        if window in item.windows {
          item.windows := item.windows - {window};
          if item.active {
            signedQuantity := signedQuantity - item.exec.signed;
            quantity := quantity - item.exec.quantity;
          }
        }
      }
      assert es[..|evicted|] == es;
    }

    /** Bring the new bucket into the totals. */
    method Admit(ghost kept: seq<Contribution>, contributions: seq<Contribution>, ghost retracted: set<nat>)
      requires Distinct(contributions)
      requires Flat(buckets) == kept + contributions
      requires signedQuantity == SignedTotal(Execs(kept), retracted)
      requires quantity == QuantityTotal(Execs(kept), retracted)
      requires Marked(contributions, retracted)
      modifies this`signedQuantity, this`quantity, contributions`windows
      ensures Counts(retracted) && Marked(contributions, retracted)
      ensures forall i :: 0 <= i < |contributions| ==>
                contributions[i].windows == old(contributions[i].windows) + {window}
    {
      hide Distinct, SignedTotal, QuantityTotal, Execs, Flat, Marked;
      NoTotals(Execs(contributions), retracted);
      Apart(contributions, []);
      ExecsConcat(kept, contributions);
      TotalsConcat(Execs(kept), Execs(contributions), retracted);
      ghost var es := Execs(contributions);
      ghost var signed, shares := signedQuantity, quantity;
      for k := 0 to |contributions|
        invariant signedQuantity == signed + SignedTotal(es[..k], retracted)
        invariant quantity == shares + QuantityTotal(es[..k], retracted)
        invariant Marked(contributions, retracted)
        invariant forall i :: 0 <= i < k ==> contributions[i].windows == old(contributions[i].windows) + {window}
        invariant forall i :: k <= i < |contributions| ==> contributions[i].windows == old(contributions[i].windows)
      {
        var item := contributions[k];
        TotalsStep(es, k, retracted);
        MarkedAt(contributions, k, retracted);
        item.windows := item.windows + {window};
        if item.active {
          signedQuantity := signedQuantity + item.exec.signed;
          quantity := quantity + item.exec.quantity;
        }
      }
      assert es[..|contributions|] == es;
    }

    /** A broken trade leaves the totals if the window shows it. */
    method BreakContribution(c: Contribution, ghost retracted: set<nat>)
      requires Counts(retracted) && Distinct(Flat(buckets)) && c.active && c.exec.id !in retracted
      requires window in c.windows <==> c in Flat(buckets)
      requires forall d :: d in Flat(buckets) && d.exec.id == c.exec.id ==> d == c
      modifies this`signedQuantity, this`quantity
      ensures Counts(retracted + {c.exec.id})
    {
      ghost var shown := Flat(buckets);
      if c in shown {
        ghost var i :| 0 <= i < |shown| && shown[i] == c;
        assert Execs(shown)[i] == c.exec;
        TotalsRetract(Execs(shown), retracted, c.exec);
      } else {
        forall e | e in Execs(shown) ensures e.id != c.exec.id {
          var i :| 0 <= i < |shown| && Execs(shown)[i] == e;
          assert shown[i] in shown;
        }
        TotalsSame(Execs(shown), retracted, retracted + {c.exec.id});
      }
      if c.active && window in c.windows {
        signedQuantity := signedQuantity - c.exec.signed;
        quantity := quantity - c.exec.quantity;
      }
    }
  }

  /** What an append needs to know about the evicted, the kept and the arriving contributions. */
  lemma Parts(before: seq<Contribution>, evicted: seq<Contribution>, kept: seq<Contribution>,
              contributions: seq<Contribution>, retracted: set<nat>)
    requires before == evicted + kept && Distinct(before + contributions) && Marked(before + contributions, retracted)
    ensures Distinct(evicted) && Distinct(contributions)
    ensures Marked(evicted, retracted) && Marked(kept, retracted) && Marked(contributions, retracted)
    ensures forall c :: c in before <==> c in evicted || c in kept
    ensures forall c :: c in kept ==> c !in evicted && c !in contributions
    ensures forall c :: c in evicted ==> c !in contributions
    ensures forall c :: c in contributions ==> c !in before
    ensures forall i :: 0 <= i < |evicted| ==> evicted[i] in before
  {
    Apart(before, contributions);
    Apart(evicted, kept);
    MarkedParts(before, contributions, retracted);
    MarkedParts(evicted, kept, retracted);
  }

  lemma PartsMarked(before: seq<Contribution>, evicted: seq<Contribution>, kept: seq<Contribution>,
                    contributions: seq<Contribution>, retracted: set<nat>)
    requires before == evicted + kept
    requires Marked(evicted, retracted) && Marked(kept, retracted) && Marked(contributions, retracted)
    ensures Marked(before + contributions, retracted)
  {
    MarkedParts(evicted, kept, retracted);
    MarkedParts(before, contributions, retracted);
  }

  /** What leaves and what stays when a bucket arrives. */
  lemma KeptBuckets(buckets: seq<seq<Contribution>>, window: nat, shown: seq<Contribution>, contributions: seq<Contribution>)
    requires shown == Flat(buckets) && window > 0
    ensures var evicted := if |buckets| == window then buckets[0] else [];
            var rest := if |buckets| == window then buckets[1..] else buckets;
            && |evicted| <= |shown| && shown == evicted + shown[|evicted|..]
            && Flat(rest + [contributions]) == shown[|evicted|..] + contributions
  {
    FlatAppend(if |buckets| == window then buckets[1..] else buckets, contributions);
    if |buckets| == window {
      FlatFirst(buckets);
    }
  }

  lemma MarkedTail(cs: seq<Contribution>, k: nat, retracted: set<nat>)
    requires Marked(cs, retracted) && k <= |cs|
    ensures Marked(cs[k..], retracted)
  {
  }

  lemma MarkedAt(cs: seq<Contribution>, i: nat, retracted: set<nat>)
    requires Marked(cs, retracted) && i < |cs|
    ensures cs[i].active <==> cs[i].exec.id !in retracted
  {
  }

  lemma MarkedParts(a: seq<Contribution>, b: seq<Contribution>, retracted: set<nat>)
    ensures Marked(a + b, retracted) <==> Marked(a, retracted) && Marked(b, retracted)
  {
    var all := a + b;
    assert forall i :: 0 <= i < |a| ==> all[i] == a[i];
    assert forall i :: 0 <= i < |b| ==> all[|a| + i] == b[i];
  }

  /** Objects of the two parts are different, and none repeats. */
  lemma Apart(a: seq<Contribution>, b: seq<Contribution>)
    requires Distinct(a + b) || (b == [] && Distinct(a))
    ensures Distinct(a) && Distinct(b)
    ensures forall x :: x in b ==> x !in a
    ensures forall i, j :: 0 <= i < j < |a| ==> a[i] != a[j]
  {
    var all := a + b;
    assert b == [] ==> all == a;
    DistinctPart(all, 0, |a|);
    DistinctPart(all, |a|, |all|);
    assert all[0..|a|] == a && all[|a|..|all|] == b;
    forall x | x in b ensures x !in a {
      var j :| 0 <= j < |b| && b[j] == x;
      forall i | 0 <= i < |a| ensures a[i] != x {
        DistinctObjects(all, i, |a| + j);
        assert all[i] == a[i] && all[|a| + j] == x;
      }
    }
    forall i, j | 0 <= i < j < |a| ensures a[i] != a[j] {
      DistinctObjects(a, i, j);
    }
  }

  // ---------------------------------------------------------------- the match lists

  /** list.remove by identity: the first occurrence goes. */
  function Removed(cs: seq<Contribution>, c: Contribution): seq<Contribution> {
    if cs == [] then [] else if cs[0] == c then cs[1..] else [cs[0]] + Removed(cs[1..], c)
  }

  lemma {:induction false} RemovedAppend(cs: seq<Contribution>, x: Contribution, c: Contribution)
    ensures Removed(cs + [x], c) == if c in cs then Removed(cs, c) + [x] else if x == c then cs else cs + [x]
  {
    if cs == [] {
      assert cs + [x] == [x];
    } else {
      assert (cs + [x])[1..] == cs[1..] + [x];
      RemovedAppend(cs[1..], x, c);
    }
  }

  lemma OfMatchAppend(cs: seq<Contribution>, c: Contribution, matchNumber: int, gone: set<Contribution>)
    ensures OfMatch(cs + [c], matchNumber, gone) ==
            OfMatch(cs, matchNumber, gone) + (if c.exec.matchNumber == matchNumber && c !in gone then [c] else [])
  {
    assert (cs + [c])[..|cs|] == cs;
  }

  /** One contribution fewer. */
  lemma {:induction false} OfMatchRemove(cs: seq<Contribution>, matchNumber: int, gone: set<Contribution>, c: Contribution)
    requires Distinct(cs) && c in cs && c !in gone
    ensures OfMatch(cs, matchNumber, gone + {c}) ==
            if c.exec.matchNumber == matchNumber then Removed(OfMatch(cs, matchNumber, gone), c)
            else OfMatch(cs, matchNumber, gone)
  {
    hide OfMatch, Removed, Distinct;
    var n := |cs| - 1;
    var earlier, x := cs[..n], cs[n];
    assert cs == earlier + [x];
    Apart(earlier, [x]);
    OfMatchAppend(earlier, x, matchNumber, gone);
    OfMatchAppend(earlier, x, matchNumber, gone + {c});
    RemovedAppend(OfMatch(earlier, matchNumber, gone), x, c);
    if x == c {
      OfMatchSame(earlier, matchNumber, gone, gone + {c});
    } else {
      OfMatchRemove(earlier, matchNumber, gone, c);
      var i :| 0 <= i < |earlier| && earlier[i] == c;
      assert c.exec.matchNumber == matchNumber ==> c in OfMatch(earlier, matchNumber, gone);
      assert OfMatch(earlier, matchNumber, gone) + [] == OfMatch(earlier, matchNumber, gone);
    }
  }

  lemma {:induction false} OfMatchSame(cs: seq<Contribution>, matchNumber: int, gone: set<Contribution>, gone': set<Contribution>)
    requires forall c :: c in cs ==> (c in gone <==> c in gone')
    ensures OfMatch(cs, matchNumber, gone) == OfMatch(cs, matchNumber, gone')
  {
    if cs != [] {
      OfMatchSame(cs[..|cs| - 1], matchNumber, gone, gone');
    }
  }

  /** When exactly the front is gone, the rest remains. */
  lemma {:induction false} OfMatchRest(front: seq<Contribution>, rest: seq<Contribution>, matchNumber: int,
                                       gone: set<Contribution>)
    requires Distinct(front + rest)
    requires forall c :: c in front + rest ==> (c in gone <==> c in front)
    ensures OfMatch(front + rest, matchNumber, gone) == OfMatch(rest, matchNumber, {})
  {
    hide OfMatch, Distinct;
    Apart(front, rest);
    if rest == [] {
      assert front + rest == front;
      AllGone(front, matchNumber, gone);
      AllGone(rest, matchNumber, {});
    } else {
      var n := |rest| - 1;
      assert front + rest == (front + rest[..n]) + [rest[n]] && rest == rest[..n] + [rest[n]];
      Apart(front + rest[..n], [rest[n]]);
      OfMatchAppend(front + rest[..n], rest[n], matchNumber, gone);
      OfMatchAppend(rest[..n], rest[n], matchNumber, {});
      OfMatchRest(front, rest[..n], matchNumber, gone);
    }
  }

  lemma {:induction false} AllGone(cs: seq<Contribution>, matchNumber: int, gone: set<Contribution>)
    requires forall c :: c in cs ==> c in gone
    ensures OfMatch(cs, matchNumber, gone) == []
  {
    if cs != [] {
      assert forall c :: c in cs[..|cs| - 1] ==> c in cs;
      AllGone(cs[..|cs| - 1], matchNumber, gone);
    }
  }

  // ---------------------------------------------------------------- all windows and matches

  /** A list of live contributions and the executions it stands for. */
  function LiveObjects(history: seq<seq<Contribution>>, pending: seq<Contribution>, span: nat): seq<Contribution> {
    Flat(Last(history, span)) + pending
  }

  lemma LiveExecs(history: seq<seq<Contribution>>, pending: seq<Contribution>, span: nat, model: Flow)
    requires model.history == Buckets(history) && model.pending == Execs(pending)
    ensures Live(model, span) == Execs(LiveObjects(history, pending, span))
    ensures FlowOk(model, span) ==> Distinct(LiveObjects(history, pending, span))
  {
    ShownExecs(history, span);
    ExecsConcat(Flat(Last(history, span)), pending);
  }

  lemma ShownPart(history: seq<seq<Contribution>>, pending: seq<Contribution>, n: nat, span: nat)
    returns (from: nat, end: nat)
    requires n <= span
    ensures from <= end <= |LiveObjects(history, pending, span)|
    ensures Flat(Last(history, n)) == LiveObjects(history, pending, span)[from..end]
  {
    LastIsSuffix(history, n, span);
    hide Flat, Last;
    var all := Flat(Last(history, span));
    var k :| 0 <= k <= |all| && Flat(Last(history, n)) == all[k..];
    from, end := k, |all|;
    assert LiveObjects(history, pending, span)[k..|all|] == all[k..];
  }

  /** The dictionary of matches holds the live contributions of each match, and nothing else. */
  ghost predicate MatchesHold(matches: map<int, Match>, live: seq<Contribution>, gone: set<Contribution>) {
    forall m: int ::
      && (m in matches <==> OfMatch(live, m, gone) != [])
      && (m in matches ==> matches[m].contributions == OfMatch(live, m, gone))
  }

  ghost predicate BrokenAgree(matches: map<int, Match>, broken: set<int>) {
    forall m :: m in matches ==> (matches[m].broken <==> m in broken)
  }

  /** Every window shows the last buckets and counts what is active in them. */
  ghost predicate Showing(windows: seq<ExecutionWindow>, history: seq<seq<Contribution>>, retracted: set<nat>)
    reads windows
  {
    ShowingAt(windows, 0, history, history, retracted)
  }

  /** `own` are exactly the windows that show c, when the first `done` windows have moved on from the
      older buckets to the newer ones. */
  ghost predicate Shows(windows: seq<ExecutionWindow>, done: nat, older: seq<seq<Contribution>>,
                        newer: seq<seq<Contribution>>, c: Contribution, own: set<nat>)
  {
    && (forall j :: 0 <= j < |windows| ==>
          (windows[j].window in own <==> c in Flat(Last(if j < done then newer else older, windows[j].window))))
    && (forall w :: w in own ==> exists j :: 0 <= j < |windows| && windows[j].window == w)
  }

  ghost predicate ShowingAt(windows: seq<ExecutionWindow>, done: nat, older: seq<seq<Contribution>>,
                            newer: seq<seq<Contribution>>, retracted: set<nat>)
    reads windows
  {
    forall j :: 0 <= j < |windows| ==>
      && windows[j].buckets == Last(if j < done then newer else older, windows[j].window)
      && windows[j].Counts(retracted)
  }

  /** A contribution knows the windows that show it. */
  ghost predicate Placed(windows: seq<ExecutionWindow>, done: nat, older: seq<seq<Contribution>>,
                         newer: seq<seq<Contribution>>, c: Contribution)
    reads c`windows
  {
    Shows(windows, done, older, newer, c, c.windows)
  }

  ghost predicate AllPlaced(windows: seq<ExecutionWindow>, done: nat, older: seq<seq<Contribution>>,
                            newer: seq<seq<Contribution>>, cs: seq<Contribution>)
    reads cs`windows
  {
    forall i :: 0 <= i < |cs| ==> Placed(windows, done, older, newer, cs[i])
  }

  /** The windows are different and positive, and `span` is the largest. */
  ghost predicate SpansOk(windows: seq<ExecutionWindow>, span: nat) {
    && (forall j :: 0 <= j < |windows| ==> 0 < windows[j].window <= span)
    && (forall i, j :: 0 <= i < j < |windows| ==> windows[i].window != windows[j].window)
    && (exists j :: 0 <= j < |windows| && windows[j].window == span)
  }

  /** What a window shows is live. */
  lemma ShownIsLive(windows: seq<ExecutionWindow>, history: seq<seq<Contribution>>, pending: seq<Contribution>,
                    span: nat, retracted: set<nat>, j: nat)
    requires SpansOk(windows, span) && Showing(windows, history, retracted) && j < |windows|
    ensures var live, shown := LiveObjects(history, pending, span), Flat(windows[j].buckets);
            && (forall c :: c in shown ==> c in live)
            && (forall e :: e in Execs(shown) ==> e in Execs(live))
            && (Distinct(live) ==> Distinct(shown))
  {
    hide Distinct;
    var from, end := ShownPart(history, pending, windows[j].window, span);
    var live, shown := LiveObjects(history, pending, span), Flat(windows[j].buckets);
    forall i | 0 <= i < |shown| ensures shown[i] in live && Execs(shown)[i] in Execs(live) {
      assert shown[i] == live[from + i] && Execs(live)[from + i] == live[from + i].exec;
    }
    if Distinct(live) {
      DistinctPart(live, from, end);
    }
  }

  /** Totals depend only on which live executions are retracted. */
  lemma CountsKept(windows: seq<ExecutionWindow>, history: seq<seq<Contribution>>, pending: seq<Contribution>,
                   span: nat, retracted: set<nat>, next: set<nat>)
    requires SpansOk(windows, span) && Showing(windows, history, retracted)
    requires forall c :: c in LiveObjects(history, pending, span) ==> (c.exec.id in retracted <==> c.exec.id in next)
    ensures Showing(windows, history, next)
  {
    forall j | 0 <= j < |windows| ensures windows[j].Counts(next) {
      ShownIsLive(windows, history, pending, span, retracted, j);
      var shown := Flat(windows[j].buckets);
      forall e | e in Execs(shown) ensures e.id in retracted <==> e.id in next {
        var i :| 0 <= i < |shown| && Execs(shown)[i] == e;
        assert shown[i] in shown;
      }
      TotalsSame(Execs(shown), retracted, next);
    }
  }

  /** A new contribution is in no window. */
  lemma PlacedOne(windows: seq<ExecutionWindow>, history: seq<seq<Contribution>>, pending: seq<Contribution>,
                  span: nat, retracted: set<nat>, c: Contribution)
    requires SpansOk(windows, span) && Showing(windows, history, retracted)
    requires AllPlaced(windows, 0, history, history, LiveObjects(history, pending, span))
    requires c.windows == {} && c !in LiveObjects(history, pending, span)
    ensures AllPlaced(windows, 0, history, history, LiveObjects(history, pending, span) + [c])
  {
    var live := LiveObjects(history, pending, span);
    forall j | 0 <= j < |windows| ensures c !in Flat(windows[j].buckets) {
      ShownIsLive(windows, history, pending, span, retracted, j);
    }
    assert Placed(windows, 0, history, history, c);
  }

  lemma NothingFlows(span: nat)
    ensures FlowOk(NO_FLOW, span) && Execs([]) == [] && SignedTotal([], {}) == QuantityTotal([], {}) == 0
  {
  }

  class ExecutionFlow {
    ghost const span: nat
    const windows: seq<ExecutionWindow>
    var pending: seq<Contribution>
    var matches: map<int, Match>
    var created: nat
    ghost var history: seq<seq<Contribution>>
    ghost var model: Flow

    ghost function Objects(): seq<Contribution>
      reads this`history, this`pending
    {
      LiveObjects(history, pending, span)
    }

    ghost predicate Valid()
      reads this, windows, Objects()
    {
      && SpansOk(windows, span)
      && Showing(windows, history, model.retracted)
      && model.history == Buckets(history) && model.pending == Execs(pending) && model.created == created
      && FlowOk(model, span)
      && Marked(Objects(), model.retracted)
      && AllPlaced(windows, 0, history, history, Objects())
      && MatchesHold(matches, Objects(), {})
      && BrokenAgree(matches, model.broken)
    }

    constructor (eventWindows: seq<nat>, ghost largest: nat)
      requires largest in eventWindows
      requires forall j :: 0 <= j < |eventWindows| ==> 0 < eventWindows[j] <= largest
      requires forall i, j :: 0 <= i < j < |eventWindows| ==> eventWindows[i] != eventWindows[j]
      ensures Valid() && span == largest && model == NO_FLOW
      ensures |windows| == |eventWindows| && forall j :: 0 <= j < |windows| ==> windows[j].window == eventWindows[j]
      ensures fresh(windows) && Objects() == []
    {
      hide FlowOk, Shows, SignedTotal, QuantityTotal;
      NothingFlows(largest);
      var slots: seq<ExecutionWindow> := [];
      for j := 0 to |eventWindows|
        invariant |slots| == j && fresh(slots)
        invariant forall i :: 0 <= i < j ==>
                    && slots[i].window == eventWindows[i] && slots[i].buckets == []
                    && slots[i].signedQuantity == 0 && slots[i].quantity == 0
      {
        var window := new ExecutionWindow(eventWindows[j]);
        slots := slots + [window];
      }
      span, windows := largest, slots;
      pending, matches, created, history, model := [], map[], 0, [], NO_FLOW;
    }

    /** Live contributions were created before, and every broken match is in the dictionary. */
    lemma LiveFacts()
      requires Valid()
      ensures Live(model, span) == Execs(Objects()) && Distinct(Objects())
      ensures forall c :: c in Objects() ==> c.exec.id < created
      ensures forall c :: c in Objects() ==> c.exec.matchNumber in matches
      ensures forall c :: c in Objects() ==> (c.active <==> !matches[c.exec.matchNumber].broken)
      ensures model.broken <= matches.Keys
    {
      hide Last, Flat;
      LiveExecs(history, pending, span, model);
      forall c | c in Objects()
        ensures c.exec.id < created && c.exec.matchNumber in matches
        ensures c.active <==> !matches[c.exec.matchNumber].broken
      {
        var i :| 0 <= i < |Objects()| && Objects()[i] == c;
        assert Execs(Objects())[i] in Live(model, span);
        assert c in OfMatch(Objects(), c.exec.matchNumber, {});
      }
      forall m | m in model.broken ensures m in matches {
        var e :| e in Live(model, span) && e.matchNumber == m;
        var i :| 0 <= i < |Objects()| && Execs(Objects())[i] == e;
        assert Objects()[i] in OfMatch(Objects(), m, {});
      }
    }

    lemma TotalsCount(j: nat)
      requires Valid() && j < |windows|
      ensures windows[j].signedQuantity == SignedTotal(Flat(Last(model.history, windows[j].window)), model.retracted)
      ensures windows[j].quantity == QuantityTotal(Flat(Last(model.history, windows[j].window)), model.retracted)
    {
      hide FlowOk, Flat, Last, AllPlaced, MatchesHold, BrokenAgree, Marked;
      ShownExecs(history, windows[j].window);
    }

    /** At every moment a window's totals are the flow of its last buckets without the trades whose
        match is broken. */
    lemma TotalsMean(j: nat)
      requires Valid() && j < |windows|
      ensures windows[j].signedQuantity ==
              SignedSum(Unbroken(Flat(Last(model.history, windows[j].window)), model.broken))
      ensures windows[j].quantity ==
              QuantitySum(Unbroken(Flat(Last(model.history, windows[j].window)), model.broken))
    {
      hide FlowOk, Flat, Last, Unbroken, AllPlaced, MatchesHold, BrokenAgree, Marked, Showing;
      TotalsCount(j);
      WindowShowsUnbroken(model, span, windows[j].window);
    }

    /** A match is remembered exactly as long as one of its contributions is pending or shown by the
        largest window; it is broken exactly when its contributions are retracted. */
    lemma MatchesAreLive(m: int)
      requires Valid()
      ensures m in matches <==> exists e :: e in Live(model, span) && e.matchNumber == m
      ensures m in matches ==> (matches[m].broken <==> m in model.broken)
      ensures forall e :: e in Live(model, span) ==> (e.id in model.retracted <==> e.matchNumber in model.broken)
    {
      hide Flat, Last, AllPlaced, Showing;
      LiveExecs(history, pending, span, model);
      if m in matches {
        var own := OfMatch(Objects(), m, {});
        assert own[0] in Objects();
        var i :| 0 <= i < |Objects()| && Objects()[i] == own[0];
        assert Execs(Objects())[i] in Live(model, span);
      }
      if e :| e in Live(model, span) && e.matchNumber == m {
        var i :| 0 <= i < |Objects()| && Execs(Objects())[i] == e;
        assert Objects()[i] in OfMatch(Objects(), m, {});
      }
    }

    /** An execution joins the pending bucket and its match; it starts retracted if its match is
        remembered as broken. */
    method Execute(matchNumber: int, side: int, quantity: int) returns (ghost added: Contribution)
      requires Valid()
      modifies this
      ensures Valid() && fresh(added) && Objects() == old(Objects()) + [added]
      ensures model == Executed(old(model), matchNumber, -side * quantity, quantity)
    {
      hide FlowOk, LiveObjects, Live, Executed, MatchesHold, Execs, Buckets, Marked, Showing, AllPlaced, SpansOk, BrokenAgree;
      ghost var before := Objects();
      var entry := if matchNumber in matches then matches[matchNumber] else Match([], false);
      ghost var next := Executed(model, matchNumber, -side * quantity, quantity);
      ExecuteFacts(matchNumber, -side * quantity, quantity, entry);
      assert allocated(before) && forall d :: d in before ==> allocated(d);
      var c := new Contribution(Exec(created, matchNumber, -side * quantity, quantity), !entry.broken);
      MatchesAppend(matches, before, c, entry);
      BrokenKept(matches, matchNumber, Match(entry.contributions, entry.broken),
                 Match(entry.contributions + [c], entry.broken), next.broken);
      ExecsOne(pending, c);
      LiveAppend(history, pending, c, span);
      MarkedOne(before, c, next.retracted);
      PlacedOne(windows, history, pending, span, next.retracted, c);
      pending := pending + [c];
      matches := matches[matchNumber := Match(entry.contributions + [c], entry.broken)];
      created := created + 1;
      model := next;
      added := c;
    }

    lemma ExecuteFacts(matchNumber: int, signed: int, quantity: int, entry: Match)
      requires Valid()
      requires entry == if matchNumber in matches then matches[matchNumber] else Match([], false)
      ensures var next := Executed(model, matchNumber, signed, quantity);
              && next.history == model.history && next.created == created + 1
              && next.pending == Execs(pending) + [Exec(created, matchNumber, signed, quantity)]
              && FlowOk(next, span)
              && Showing(windows, history, next.retracted)
              && Marked(Objects(), next.retracted)
              && (entry.broken <==> created in next.retracted)
              && BrokenAgree(matches[matchNumber := Match(entry.contributions, entry.broken)], next.broken)
    {
      LiveFacts();
      var next := Executed(model, matchNumber, signed, quantity);
      ExecutedOk(model, span, matchNumber, signed, quantity);
      CountsKept(windows, history, pending, span, model.retracted, next.retracted);
      MarkedKept(Objects(), model.retracted, next.retracted);
    }

    /** A broken trade retracts all its live contributions from every window that shows them. */
    method BreakTrade(matchNumber: int)
      requires Valid()
      modifies this`matches, this`model, windows`signedQuantity, windows`quantity, Objects()`active
      ensures Valid() && Objects() == old(Objects())
      ensures model == TradeBroken(old(model), span, matchNumber)
    {
      if matchNumber !in matches || matches[matchNumber].broken {
        LiveExecs(history, pending, span, model);
        BreakFacts(model, span, matches, Objects(), matchNumber);
        return;
      }
      BreakMatch(matchNumber, Objects());
    }

    method BreakMatch(matchNumber: int, ghost live: seq<Contribution>)
      requires Valid() && live == Objects() && matchNumber in matches && !matches[matchNumber].broken
      modifies this`matches, this`model, windows`signedQuantity, windows`quantity, live`active
      ensures Valid() && Objects() == live
      ensures model == TradeBroken(old(model), span, matchNumber)
    {
      hide FlowOk, Live, TradeBroken, MatchesHold, Execs, Buckets, Marked, Showing, AllPlaced, SpansOk, BrokenAgree;
      hide LiveObjects, Distinct, IdsOf, Flat, Last;
      LiveExecs(history, pending, span, model);
      BreakFacts(model, span, matches, live, matchNumber);
      var contributions := matches[matchNumber].contributions;
      RetractAll(contributions, live, model.retracted);
      matches := matches[matchNumber := Match(contributions, true)];
      model := TradeBroken(model, span, matchNumber);
    }

    method RetractAll(contributions: seq<Contribution>, ghost live: seq<Contribution>, ghost start: set<nat>)
      requires live == Objects() && Distinct(live) && Distinct(contributions)
      requires forall c :: c in contributions ==> c in live && c.exec.id !in start
      requires SpansOk(windows, span)
      requires Showing(windows, history, start) && Marked(live, start) && AllPlaced(windows, 0, history, history, live)
      modifies windows`signedQuantity, windows`quantity, live`active
      ensures Showing(windows, history, start + IdsOf(contributions))
      ensures Marked(live, start + IdsOf(contributions)) && AllPlaced(windows, 0, history, history, live)
    {
      hide Distinct, Marked, Showing, AllPlaced, SpansOk, LiveObjects, IdsOf;
      NoIds(contributions, start);
      for k := 0 to |contributions|
        invariant Showing(windows, history, start + IdsOf(contributions[..k]))
        invariant Marked(live, start + IdsOf(contributions[..k]))
        invariant AllPlaced(windows, 0, history, history, live)
      {
        var c := contributions[k];
        IdsStep(contributions, k, start);
        MarkedIn(live, c, start + IdsOf(contributions[..k]));
        if c.active {
          Retract(c, live, start + IdsOf(contributions[..k]));
        }
      }
      assert contributions[..|contributions|] == contributions;
    }

    /** Take one contribution out of every total that counts it. */
    method Retract(c: Contribution, ghost live: seq<Contribution>, ghost retracted: set<nat>)
      requires live == Objects() && Distinct(live) && c in live && c.active && c.exec.id !in retracted
      requires SpansOk(windows, span)
      requires Showing(windows, history, retracted) && Marked(live, retracted) && AllPlaced(windows, 0, history, history, live)
      modifies windows`signedQuantity, windows`quantity, c`active
      ensures Showing(windows, history, retracted + {c.exec.id})
      ensures Marked(live, retracted + {c.exec.id})
    {
      hide SpansOk, Distinct, Marked, SignedTotal, QuantityTotal, Execs, LiveObjects, Flat, Last, AllPlaced;
      hide ExecutionWindow.Counts;
      ghost var more := retracted + {c.exec.id};
      DistinctWindows(windows, span);
      PlacedIn(windows, history, live, c);
      for j := 0 to |windows|
        invariant c.active && Placed(windows, 0, history, history, c)
        invariant forall i :: 0 <= i < |windows| ==>
                    && windows[i].buckets == Last(history, windows[i].window)
                    && windows[i].Counts(if i < j then more else retracted)
      {
        OneInWindow(windows, history, pending, span, j, c);
        windows[j].BreakContribution(c, retracted);
      }
      Deactivate(c, live, retracted);
    }

    method Deactivate(c: Contribution, ghost live: seq<Contribution>, ghost retracted: set<nat>)
      requires Marked(live, retracted) && Distinct(live) && c in live
      modifies c`active
      ensures Marked(live, retracted + {c.exec.id})
    {
      MarkedOut(live, c, retracted);
      hide Distinct;
      c.active := false;
    }

    /** A qualifying snapshot closes the pending bucket: every window slides, and contributions that
        no window shows any more leave the dictionary of matches. */
    method CloseBucket()
      requires Valid()
      modifies this, windows, Objects()`windows
      ensures Valid() && model == BucketClosed(old(model), span)
      ensures forall i :: 0 <= i < |Objects()| ==> Objects()[i] in old(Objects())
    {
      Close(Objects());
    }

    method Close(ghost live: seq<Contribution>)
      requires Valid() && live == Objects()
      modifies this, windows, live`windows
      ensures Valid() && model == BucketClosed(old(model), span)
      ensures forall i :: 0 <= i < |Objects()| ==> Objects()[i] in live
    {
      hide FlowOk, Live, MatchesHold, Execs, Buckets, Marked, Showing, AllPlaced, SpansOk, BrokenAgree, BucketClosed;
      hide LiveObjects, Distinct, Flat, Last;
      var bucket := pending;
      ghost var newer, next := history + [bucket], BucketClosed(model, span);
      LiveExecs(history, pending, span, model);
      SpanPositive(windows, span);
      ghost var k := CloseFacts(model, span, history, bucket, live);
      var evicted := Slide(bucket, live, newer);
      EvictedFacts(windows, span, history, bucket, live, k, evicted);
      pending := [];
      Forget(evicted, live, k);
      MarkedTail(live, k, model.retracted);
      ClosedMatches(matches, live[k..], model, span);
      PlacedAfter(windows, history, newer, live, k);
      TailIn(live, k);
      history := newer;
      model := next;
    }

    /** Slide every window by the closed bucket. */
    method Slide(bucket: seq<Contribution>, ghost live: seq<Contribution>, ghost newer: seq<seq<Contribution>>)
      returns (evicted: set<Contribution>)
      requires live == LiveObjects(history, bucket, span) && newer == history + [bucket] && Distinct(live)
      requires SpansOk(windows, span) && Showing(windows, history, model.retracted)
      requires Marked(live, model.retracted) && AllPlaced(windows, 0, history, history, live)
      modifies windows, live`windows
      ensures Showing(windows, newer, model.retracted) && AllPlaced(windows, |windows|, history, newer, live)
      ensures forall c :: c in evicted <==> exists j :: 0 <= j < |windows| && EvictedBy(history, windows[j].window, c)
    {
      hide Distinct, Marked, Showing, AllPlaced, SpansOk, LiveObjects, Flat, Last;
      evicted := {};
      SlideStart(windows, history, newer, live, model.retracted);
      for j := 0 to |windows|
        invariant ShowingAt(windows, j, history, newer, model.retracted)
        invariant Marked(live, model.retracted) && AllPlaced(windows, j, history, newer, live)
        invariant forall c :: c in evicted <==> exists i :: 0 <= i < j && EvictedBy(history, windows[i].window, c)
      {
        var dropped := SlideOne(j, bucket, Flat(windows[j].buckets), live, newer);
        evicted := evicted + (set c | c in dropped);
      }
      SlideEnd(windows, history, newer, model.retracted);
    }

    method SlideOne(j: nat, bucket: seq<Contribution>, ghost shown: seq<Contribution>, ghost live: seq<Contribution>,
                    ghost newer: seq<seq<Contribution>>)
      returns (dropped: seq<Contribution>)
      requires j < |windows| && live == LiveObjects(history, bucket, span) && newer == history + [bucket] && Distinct(live)
      requires shown == Flat(windows[j].buckets)
      requires SpansOk(windows, span) && ShowingAt(windows, j, history, newer, model.retracted)
      requires Marked(live, model.retracted) && AllPlaced(windows, j, history, newer, live)
      modifies windows, live`windows
      ensures ShowingAt(windows, j + 1, history, newer, model.retracted) && AllPlaced(windows, j + 1, history, newer, live)
      ensures Marked(live, model.retracted)
      ensures forall c :: c in dropped <==> EvictedBy(history, windows[j].window, c)
    {
      hide Distinct, Marked, ShowingAt, AllPlaced, SpansOk, LiveObjects, Flat, Last;
      SlideNeeds(windows, j, history, newer, bucket, span, model.retracted, live);
      DistinctWindows(windows, span);
      ShowingRest(windows, j, history, newer, model.retracted);
      ghost var owns := OwnWindows(windows, j, history, newer, live);
      dropped := windows[j].Append(bucket, shown, model.retracted);
      ghost var kept := ShownNext(history, bucket, windows[j].window, dropped);
      ShowingJoin(windows, j, history, newer, model.retracted);
      forall i | 0 <= i < |live| ensures Placed(windows, j + 1, history, newer, live[i]) {
        ShowsStep(windows, span, j, history, bucket, dropped, kept, live[i], owns[i], live[i].windows);
      }
      PlacedAll(windows, j + 1, history, newer, live);
    }

    /** Drop what no window shows any more. */
    method Forget(evicted: set<Contribution>, ghost live: seq<Contribution>, ghost k: nat)
      requires Distinct(live) && k <= |live| && MatchesHold(matches, live, {}) && BrokenAgree(matches, model.broken)
      requires forall c :: c in evicted ==> c in live
      requires forall c :: c in live ==> (c.windows == {} <==> c in live[..k])
      requires forall c :: c in live[..k] ==> c in evicted
      modifies this`matches
      ensures MatchesHold(matches, live[k..], {}) && BrokenAgree(matches, model.broken)
    {
      hide Distinct, MatchesHold, BrokenAgree;
      var rest := evicted;
      ghost var gone: set<Contribution> := {};
      while rest != {}
        invariant rest <= evicted
        invariant MatchesHold(matches, live, gone) && BrokenAgree(matches, model.broken)
        invariant forall c :: c in gone ==> c in live[..k] && c !in rest
        invariant forall c :: c in live[..k] ==> c in gone || c in rest
        decreases |rest|
      {
        var c :| c in rest;
        rest := rest - {c};
        if c.windows == {} {
          // A live contribution is in its match's list, so the source's missing-match test never fires.
          ForgetOne(matches, live, gone, c, model.broken);
          var left := Removed(matches[c.exec.matchNumber].contributions, c);
          if left == [] {
            matches := matches - {c.exec.matchNumber};
          } else {
            matches := matches[c.exec.matchNumber := Match(left, matches[c.exec.matchNumber].broken)];
          }
          gone := gone + {c};
        }
      }
      Remaining(matches, live, k, gone);
    }
  }

  /** After the bucket closes, the live contributions are a suffix of those before. */
  lemma CloseFacts(model: Flow, span: nat, history: seq<seq<Contribution>>, bucket: seq<Contribution>,
                   live: seq<Contribution>) returns (k: nat)
    requires model.history == Buckets(history) && model.pending == Execs(bucket) && FlowOk(model, span) && span > 0
    requires live == LiveObjects(history, bucket, span)
    ensures k <= |live| && LiveObjects(history + [bucket], [], span) == live[k..]
    ensures k == if |history| < span then 0 else |history[|history| - span]|
    ensures |history| >= span ==> history[|history| - span] == live[..k]
    ensures var next := BucketClosed(model, span);
            && next.history == Buckets(history + [bucket]) && next.pending == Execs([]) && next.created == model.created
            && next.retracted == model.retracted && FlowOk(next, span)
            && Live(next, span) == Execs(live[k..])
  {
    hide FlowOk, Matched, Live, Flat, Last, Execs, LiveObjects;
    BucketClosedOk(model, span);
    k := NextObjects(history, bucket, span);
    ClosedBuckets(history, bucket);
    LiveExecs(history + [bucket], [], span, BucketClosed(model, span));
  }

  lemma ClosedBuckets(history: seq<seq<Contribution>>, bucket: seq<Contribution>)
    ensures Buckets(history + [bucket]) == Buckets(history) + [Execs(bucket)] && Execs([]) == []
  {
    hide Execs;
  }

  lemma NextObjects(history: seq<seq<Contribution>>, bucket: seq<Contribution>, span: nat) returns (k: nat)
    requires span > 0
    ensures k <= |LiveObjects(history, bucket, span)|
    ensures LiveObjects(history + [bucket], [], span) == LiveObjects(history, bucket, span)[k..]
    ensures k == if |history| < span then 0 else |history[|history| - span]|
    ensures |history| >= span ==> history[|history| - span] == LiveObjects(history, bucket, span)[..k]
  {
    LastAppend(history, bucket, span);
    var last := Last(history, span);
    if |history| < span {
      FlatAppend(history, bucket);
      k := 0;
    } else {
      FlatAppend(last[1..], bucket);
      FlatFirst(last);
      k := |last[0]|;
    }
    hide Flat, Last;
    assert LiveObjects(history + [bucket], [], span) == Flat(Last(history + [bucket], span));
  }

  lemma SpanPositive(windows: seq<ExecutionWindow>, span: nat)
    requires SpansOk(windows, span)
    ensures span > 0
  {
  }

  lemma EvictedFacts(windows: seq<ExecutionWindow>, span: nat, history: seq<seq<Contribution>>,
                     bucket: seq<Contribution>, live: seq<Contribution>, k: nat, evicted: set<Contribution>)
    requires SpansOk(windows, span) && Distinct(live) && live == LiveObjects(history, bucket, span)
    requires k <= |live| && LiveObjects(history + [bucket], [], span) == live[k..]
    requires k == if |history| < span then 0 else |history[|history| - span]|
    requires |history| >= span ==> history[|history| - span] == live[..k]
    requires AllPlaced(windows, |windows|, history, history + [bucket], live)
    requires forall c :: c in evicted <==> exists j :: 0 <= j < |windows| && EvictedBy(history, windows[j].window, c)
    ensures forall c :: c in evicted ==> c in live
    ensures forall c :: c in live[..k] ==> c in evicted
    ensures forall c :: c in live ==> (c.windows == {} <==> c in live[..k])
  {
    hide Distinct, Flat, Last;
    var newer := history + [bucket];
    var largest :| 0 <= largest < |windows| && windows[largest].window == span;
    forall c | c in evicted ensures c in live {
      var j :| 0 <= j < |windows| && EvictedBy(history, windows[j].window, c);
      EvictedIsLive(history, bucket, windows[j].window, span, c);
    }
    forall c | c in live[..k] ensures c in evicted {
      assert EvictedBy(history, windows[largest].window, c);
    }
    assert live == live[..k] + live[k..];
    Apart(live[..k], live[k..]);
    forall c | c in live ensures c.windows == {} <==> c in live[..k] {
      var i :| 0 <= i < |live| && live[i] == c;
      assert Placed(windows, |windows|, history, newer, c);
      assert c in live[..k] <==> c !in live[k..];
      assert LiveObjects(newer, [], span) == Flat(Last(newer, span)) + [] == Flat(Last(newer, span));
      if c in live[..k] {
        forall j | 0 <= j < |windows| ensures c !in Flat(Last(newer, windows[j].window)) {
          var from, end := ShownPart(newer, [], windows[j].window, span);
        }
      }
    }
  }

  lemma EvictedIsLive(history: seq<seq<Contribution>>, bucket: seq<Contribution>, window: nat, span: nat, c: Contribution)
    requires window <= span && EvictedBy(history, window, c)
    ensures c in LiveObjects(history, bucket, span)
  {
    var last := Last(history, window);
    assert last[0] == history[|history| - window];
    FlatFirst(last);
    var from, end := ShownPart(history, bucket, window, span);
    hide Flat, Last, LiveObjects;
    assert c in Flat(last);
    var i :| 0 <= i < |Flat(last)| && Flat(last)[i] == c;
    assert LiveObjects(history, bucket, span)[from + i] == c;
  }

  lemma ClosedMatches(matches: map<int, Match>, rest: seq<Contribution>, model: Flow, span: nat)
    requires MatchesHold(matches, rest, {}) && BrokenAgree(matches, model.broken)
    requires Live(BucketClosed(model, span), span) == Execs(rest)
    ensures BrokenAgree(matches, BucketClosed(model, span).broken)
  {
    hide OfMatch;
    var next := BucketClosed(model, span);
    var closed := model.(history := model.history + [model.pending], pending := []);
    assert Live(closed, span) == Live(next, span);
    forall m | m in matches ensures matches[m].broken <==> m in next.broken {
      var own := OfMatch(rest, m, {});
      assert own[0] in rest;
      var i :| 0 <= i < |rest| && rest[i] == own[0];
      assert Execs(rest)[i] in Execs(rest);
      assert own[0].exec.id in Matched(Live(closed, span), m);
    }
  }

  lemma PlacedAfter(windows: seq<ExecutionWindow>, history: seq<seq<Contribution>>, newer: seq<seq<Contribution>>,
                    live: seq<Contribution>, k: nat)
    requires AllPlaced(windows, |windows|, history, newer, live) && k <= |live|
    ensures AllPlaced(windows, 0, newer, newer, live[k..])
  {
    hide Flat, Last;
    forall i | 0 <= i < |live[k..]| ensures Placed(windows, 0, newer, newer, live[k..][i]) {
      assert Placed(windows, |windows|, history, newer, live[k + i]);
    }
  }

  lemma SlideStart(windows: seq<ExecutionWindow>, history: seq<seq<Contribution>>, newer: seq<seq<Contribution>>,
                   live: seq<Contribution>, retracted: set<nat>)
    requires Showing(windows, history, retracted) && AllPlaced(windows, 0, history, history, live)
    ensures ShowingAt(windows, 0, history, newer, retracted) && AllPlaced(windows, 0, history, newer, live)
  {
    hide Flat, Last, ExecutionWindow.Counts;
    forall i | 0 <= i < |live| ensures Placed(windows, 0, history, newer, live[i]) {
      assert Placed(windows, 0, history, history, live[i]);
    }
  }

  lemma SlideEnd(windows: seq<ExecutionWindow>, history: seq<seq<Contribution>>, newer: seq<seq<Contribution>>,
                 retracted: set<nat>)
    requires ShowingAt(windows, |windows|, history, newer, retracted)
    ensures Showing(windows, newer, retracted)
  {
    hide Last, ExecutionWindow.Counts;
  }

  lemma SlideNeeds(windows: seq<ExecutionWindow>, j: nat, history: seq<seq<Contribution>>,
                   newer: seq<seq<Contribution>>, bucket: seq<Contribution>, span: nat, retracted: set<nat>,
                   live: seq<Contribution>)
    requires j < |windows| && live == LiveObjects(history, bucket, span) && newer == history + [bucket] && Distinct(live)
    requires SpansOk(windows, span) && ShowingAt(windows, j, history, newer, retracted)
    requires Marked(live, retracted) && AllPlaced(windows, j, history, newer, live)
    ensures var shown := Flat(windows[j].buckets);
            && windows[j].window > 0 && |windows[j].buckets| <= windows[j].window && windows[j].Counts(retracted)
            && windows[j].buckets == Last(history, windows[j].window)
            && Distinct(shown + bucket) && Marked(shown + bucket, retracted)
            && (forall c :: c in shown ==> c in live && windows[j].window in c.windows)
            && (forall i :: 0 <= i < |shown| ==> shown[i] in live)
            && (forall i :: 0 <= i < |bucket| ==> bucket[i] in live)
  {
    hide Distinct, Flat, Last, LiveObjects, Marked, Shows, ExecutionWindow.Counts;
    var shown := Flat(windows[j].buckets);
    var part := shown + bucket;
    LastSize(history, windows[j].window);
    LivePart(history, bucket, windows[j].window, span);
    var skip := |live| - |part|;
    assert live == live[..skip] + part;
    Apart(live[..skip], part);
    MarkedParts(live[..skip], part, retracted);
    forall i | 0 <= i < |shown| ensures shown[i] in live && windows[j].window in shown[i].windows {
      assert live[skip + i] == part[i] == shown[i];
      assert Placed(windows, j, history, newer, live[skip + i]);
      ShownKnows(windows, j, history, newer, shown[i]);
    }
    forall i | 0 <= i < |bucket| ensures bucket[i] in live {
      assert live[skip + |shown| + i] == part[|shown| + i] == bucket[i];
    }
  }

  lemma ShownKnows(windows: seq<ExecutionWindow>, j: nat, history: seq<seq<Contribution>>,
                   newer: seq<seq<Contribution>>, c: Contribution)
    requires j < |windows| && Placed(windows, j, history, newer, c) && c in Flat(Last(history, windows[j].window))
    ensures windows[j].window in c.windows
  {
    hide Flat, Last;
  }

  lemma LastSize<T>(s: seq<T>, n: nat)
    ensures |Last(s, n)| <= n
  {
  }

  lemma LivePart(history: seq<seq<Contribution>>, bucket: seq<Contribution>, n: nat, span: nat)
    requires n <= span
    ensures var live, part := LiveObjects(history, bucket, span), Flat(Last(history, n)) + bucket;
            |part| <= |live| && live[|live| - |part|..] == part
  {
    LastIsSuffix(history, n, span);
    hide Flat, Last;
    var all := Flat(Last(history, span));
    var k :| 0 <= k <= |all| && Flat(Last(history, n)) == all[k..];
    assert (all + bucket)[k..] == all[k..] + bucket;
  }

  /** What a window shows after sliding. */
  lemma ShownNext(history: seq<seq<Contribution>>, bucket: seq<Contribution>, window: nat, dropped: seq<Contribution>)
    returns (kept: seq<Contribution>)
    requires window > 0
    requires dropped == if |Last(history, window)| == window then Last(history, window)[0] else []
    ensures var last := Last(history, window);
            Last(history + [bucket], window) == (if |last| == window then last[1..] else last) + [bucket]
    ensures Flat(Last(history, window)) == dropped + kept && Flat(Last(history + [bucket], window)) == kept + bucket
    ensures forall c :: c in dropped <==> EvictedBy(history, window, c)
  {
    LastAppend(history, bucket, window);
    var last := Last(history, window);
    var rest := if |last| == window then last[1..] else last;
    FlatAppend(rest, bucket);
    if |last| == window {
      FlatFirst(last);
    }
    kept := Flat(rest);
    assert Flat(last) == dropped + kept;
  }

  lemma ShowsStep(windows: seq<ExecutionWindow>, span: nat, j: nat, history: seq<seq<Contribution>>,
                  bucket: seq<Contribution>, dropped: seq<Contribution>, kept: seq<Contribution>, c: Contribution,
                  own: set<nat>, own': set<nat>)
    requires SpansOk(windows, span) && j < |windows|
    requires Distinct(Flat(Last(history, windows[j].window)) + bucket)
    requires Flat(Last(history, windows[j].window)) == dropped + kept
    requires Flat(Last(history + [bucket], windows[j].window)) == kept + bucket
    requires Shows(windows, j, history, history + [bucket], c, own)
    requires own' == if c in bucket then own + {windows[j].window}
                     else if c in dropped then own - {windows[j].window} else own
    ensures Shows(windows, j + 1, history, history + [bucket], c, own')
  {
    hide Flat, Last, Distinct;
    var w := windows[j].window;
    assert dropped + kept + bucket == dropped + (kept + bucket);
    Apart(dropped, kept + bucket);
    assert w in own' <==> c in kept + bucket;
    forall x | x in own' ensures exists i :: 0 <= i < |windows| && windows[i].window == x {
      if x != w {
        assert x in own;
      }
    }
  }

  lemma ShowingRest(windows: seq<ExecutionWindow>, j: nat, history: seq<seq<Contribution>>,
                    newer: seq<seq<Contribution>>, retracted: set<nat>)
    requires j < |windows| && ShowingAt(windows, j, history, newer, retracted)
    ensures forall i :: 0 <= i < |windows| && i != j ==>
              && windows[i].buckets == Last(if i < j + 1 then newer else history, windows[i].window)
              && windows[i].Counts(retracted)
  {
    hide Last, ExecutionWindow.Counts;
  }

  lemma ShowingJoin(windows: seq<ExecutionWindow>, j: nat, history: seq<seq<Contribution>>,
                    newer: seq<seq<Contribution>>, retracted: set<nat>)
    requires forall i :: 0 <= i < |windows| ==>
               && windows[i].buckets == Last(if i < j + 1 then newer else history, windows[i].window)
               && windows[i].Counts(retracted)
    ensures ShowingAt(windows, j + 1, history, newer, retracted)
  {
    hide Last, ExecutionWindow.Counts;
  }

  lemma OwnWindows(windows: seq<ExecutionWindow>, done: nat, older: seq<seq<Contribution>>,
                   newer: seq<seq<Contribution>>, cs: seq<Contribution>) returns (owns: seq<set<nat>>)
    requires AllPlaced(windows, done, older, newer, cs)
    ensures |owns| == |cs|
    ensures forall i :: 0 <= i < |cs| ==> owns[i] == cs[i].windows && Shows(windows, done, older, newer, cs[i], owns[i])
  {
    hide Shows;
    owns := seq(|cs|, i requires 0 <= i < |cs| reads cs => cs[i].windows);
    forall i | 0 <= i < |cs| ensures owns[i] == cs[i].windows && Shows(windows, done, older, newer, cs[i], owns[i]) {
      assert Placed(windows, done, older, newer, cs[i]);
    }
  }

  lemma PlacedAll(windows: seq<ExecutionWindow>, done: nat, older: seq<seq<Contribution>>,
                  newer: seq<seq<Contribution>>, cs: seq<Contribution>)
    requires forall i :: 0 <= i < |cs| ==> Placed(windows, done, older, newer, cs[i])
    ensures AllPlaced(windows, done, older, newer, cs)
  {
  }

  /** The bucket that leaves a window of the given size holds c. */
  ghost predicate EvictedBy(history: seq<seq<Contribution>>, window: nat, c: Contribution) {
    0 < window <= |history| && c in history[|history| - window]
  }

  lemma ForgetOne(matches: map<int, Match>, live: seq<Contribution>, gone: set<Contribution>, c: Contribution,
                  broken: set<int>)
    requires Distinct(live) && c in live && c !in gone && MatchesHold(matches, live, gone) && BrokenAgree(matches, broken)
    ensures var m := c.exec.matchNumber;
            && m in matches
            && var left := Removed(matches[m].contributions, c);
               var next := if left == [] then matches - {m} else matches[m := Match(left, matches[m].broken)];
               MatchesHold(next, live, gone + {c}) && BrokenAgree(next, broken)
  {
    hide OfMatch, Removed, Distinct;
    var i :| 0 <= i < |live| && live[i] == c;
    assert c in OfMatch(live, c.exec.matchNumber, gone);
    forall m: int ensures OfMatch(live, m, gone + {c}) ==
                          if c.exec.matchNumber == m then Removed(OfMatch(live, m, gone), c) else OfMatch(live, m, gone)
    {
      OfMatchRemove(live, m, gone, c);
    }
  }

  lemma Remaining(matches: map<int, Match>, live: seq<Contribution>, k: nat, gone: set<Contribution>)
    requires Distinct(live) && k <= |live| && MatchesHold(matches, live, gone)
    requires forall c :: c in live[..k] <==> c in gone
    ensures MatchesHold(matches, live[k..], {})
  {
    hide OfMatch, Distinct;
    assert live == live[..k] + live[k..];
    forall m: int ensures OfMatch(live, m, gone) == OfMatch(live[k..], m, {}) {
      OfMatchRest(live[..k], live[k..], m, gone);
    }
  }

  lemma DistinctWindows(windows: seq<ExecutionWindow>, span: nat)
    requires SpansOk(windows, span)
    ensures forall i, j :: 0 <= i < j < |windows| ==> windows[i] != windows[j]
  {
  }

  lemma PlacedIn(windows: seq<ExecutionWindow>, history: seq<seq<Contribution>>, live: seq<Contribution>, c: Contribution)
    requires AllPlaced(windows, 0, history, history, live) && c in live
    ensures Placed(windows, 0, history, history, c)
  {
  }

  lemma OneInWindow(windows: seq<ExecutionWindow>, history: seq<seq<Contribution>>, pending: seq<Contribution>,
                    span: nat, j: nat, c: Contribution)
    requires SpansOk(windows, span) && j < |windows| && windows[j].buckets == Last(history, windows[j].window)
    requires Distinct(LiveObjects(history, pending, span)) && c in LiveObjects(history, pending, span)
    ensures Distinct(Flat(windows[j].buckets))
    ensures forall d :: d in Flat(windows[j].buckets) && d.exec.id == c.exec.id ==> d == c
  {
    hide Distinct;
    var live, shown := LiveObjects(history, pending, span), Flat(windows[j].buckets);
    var from, end := ShownPart(history, pending, windows[j].window, span);
    DistinctPart(live, from, end);
    forall d | d in shown && d.exec.id == c.exec.id ensures d == c {
      var i :| 0 <= i < |shown| && shown[i] == d;
      assert live[from + i] == d;
      SameId(live, c, d);
    }
  }

  function IdsOf(cs: seq<Contribution>): set<nat> {
    set i | 0 <= i < |cs| :: cs[i].exec.id
  }

  lemma NoIds(cs: seq<Contribution>, start: set<nat>)
    ensures start + IdsOf(cs[..0]) == start
  {
  }

  lemma IdsStep(cs: seq<Contribution>, k: nat, start: set<nat>)
    requires Distinct(cs) && k < |cs| && cs[k].exec.id !in start
    ensures IdsOf(cs[..k + 1]) == IdsOf(cs[..k]) + {cs[k].exec.id}
    ensures start + IdsOf(cs[..k + 1]) == start + IdsOf(cs[..k]) + {cs[k].exec.id}
    ensures cs[k].exec.id !in start + IdsOf(cs[..k])
  {
    forall i | 0 <= i < k ensures cs[i].exec.id != cs[k].exec.id {
      assert Execs(cs)[i].id != Execs(cs)[k].id;
    }
    forall id | id in IdsOf(cs[..k]) + {cs[k].exec.id} ensures id in IdsOf(cs[..k + 1]) {
      if id == cs[k].exec.id {
        assert cs[..k + 1][k].exec.id == id;
      } else {
        var i :| 0 <= i < k && cs[..k][i].exec.id == id;
        assert cs[..k + 1][i].exec.id == id;
      }
    }
  }

  lemma MatchedIds(live: seq<Contribution>, matchNumber: int)
    requires Distinct(live)
    ensures Matched(Execs(live), matchNumber) == IdsOf(OfMatch(live, matchNumber, {}))
    ensures Distinct(OfMatch(live, matchNumber, {}))
  {
    var own := OfMatch(live, matchNumber, {});
    OfMatchDistinct(live, matchNumber);
    forall id | id in Matched(Execs(live), matchNumber) ensures id in IdsOf(own) {
      var e :| e in Execs(live) && e.matchNumber == matchNumber && e.id == id;
      var i :| 0 <= i < |live| && Execs(live)[i] == e;
      assert live[i] in own;
      var n :| 0 <= n < |own| && own[n] == live[i];
    }
    forall id | id in IdsOf(own) ensures id in Matched(Execs(live), matchNumber) {
      var n :| 0 <= n < |own| && own[n].exec.id == id;
      var i :| 0 <= i < |live| && live[i] == own[n];
      assert Execs(live)[i] in Execs(live);
    }
  }

  lemma {:induction false} OfMatchDistinct(live: seq<Contribution>, matchNumber: int)
    requires Distinct(live)
    ensures Distinct(OfMatch(live, matchNumber, {}))
  {
    if live != [] {
      var n := |live| - 1;
      assert live == live[..n] + [live[n]];
      Apart(live[..n], [live[n]]);
      OfMatchDistinct(live[..n], matchNumber);
      var earlier := OfMatch(live[..n], matchNumber, {});
      forall i | 0 <= i < |earlier| ensures earlier[i].exec.id != live[n].exec.id {
        if earlier[i].exec.id == live[n].exec.id {
          SameId(live, earlier[i], live[n]);
        }
      }
    }
  }

  /** All but the contribution that is being retracted carry the next marks already. */
  lemma MarkedOut(cs: seq<Contribution>, c: Contribution, retracted: set<nat>)
    requires Marked(cs, retracted) && Distinct(cs) && c in cs
    ensures forall i :: 0 <= i < |cs| && cs[i] != c ==> (cs[i].active <==> cs[i].exec.id !in retracted + {c.exec.id})
  {
    forall i | 0 <= i < |cs| && cs[i] != c ensures cs[i].exec.id != c.exec.id {
      if cs[i].exec.id == c.exec.id {
        SameId(cs, cs[i], c);
      }
    }
  }

  /** What a broken trade does, seen from the dictionary of matches. */
  lemma BreakFacts(model: Flow, span: nat, matches: map<int, Match>, live: seq<Contribution>, matchNumber: int)
    requires FlowOk(model, span) && Live(model, span) == Execs(live) && Distinct(live)
    requires MatchesHold(matches, live, {}) && BrokenAgree(matches, model.broken)
    ensures var next := TradeBroken(model, span, matchNumber);
            && FlowOk(next, span)
            && next.history == model.history && next.pending == model.pending && next.created == model.created
            && if matchNumber !in matches || matches[matchNumber].broken then next == model
               else
                 var own := matches[matchNumber].contributions;
                 && next.retracted == model.retracted + IdsOf(own)
                 && Distinct(own)
                 && (forall c :: c in own ==> c in live && c.exec.id !in model.retracted)
                 && MatchesHold(matches[matchNumber := Match(own, true)], live, {})
                 && BrokenAgree(matches[matchNumber := Match(own, true)], next.broken)
  {
    TradeBrokenOk(model, span, matchNumber);
    MatchedIds(live, matchNumber);
    var own := OfMatch(live, matchNumber, {});
    if own == [] {
      assert IdsOf(own) == {};
    } else {
      assert own[0].exec.id in IdsOf(own);
      OwnFacts(model, span, live, matchNumber);
      hide FlowOk, Live, OfMatch, Matched, IdsOf;
      BrokenAdd(matches, matchNumber, own, model.broken);
    }
  }

  lemma OwnFacts(model: Flow, span: nat, live: seq<Contribution>, matchNumber: int)
    requires FlowOk(model, span) && Live(model, span) == Execs(live)
    ensures forall c :: c in OfMatch(live, matchNumber, {}) ==>
              c in live && (matchNumber !in model.broken ==> c.exec.id !in model.retracted)
  {
    var own := OfMatch(live, matchNumber, {});
    forall i | 0 <= i < |own|
      ensures own[i] in live && (matchNumber !in model.broken ==> own[i].exec.id !in model.retracted)
    {
      var n :| 0 <= n < |live| && live[n] == own[i];
      assert Execs(live)[n] in Live(model, span);
    }
  }

  lemma BrokenAdd(matches: map<int, Match>, m: int, own: seq<Contribution>, broken: set<int>)
    requires BrokenAgree(matches, broken)
    ensures BrokenAgree(matches[m := Match(own, true)], broken + {m})
  {
  }

  lemma MarkedIn(cs: seq<Contribution>, c: Contribution, retracted: set<nat>)
    requires Marked(cs, retracted) && c in cs
    ensures c.active <==> c.exec.id !in retracted
  {
  }

  lemma BrokenKept(matches: map<int, Match>, m: int, entry: Match, other: Match, broken: set<int>)
    requires BrokenAgree(matches[m := entry], broken) && other.broken == entry.broken
    ensures BrokenAgree(matches[m := other], broken)
  {
  }

  lemma MarkedKept(cs: seq<Contribution>, retracted: set<nat>, next: set<nat>)
    requires Marked(cs, retracted)
    requires forall c :: c in cs ==> (c.exec.id in retracted <==> c.exec.id in next)
    ensures Marked(cs, next)
  {
  }

  lemma MarkedOne(cs: seq<Contribution>, c: Contribution, retracted: set<nat>)
    requires Marked(cs, retracted) && (c.active <==> c.exec.id !in retracted)
    ensures Marked(cs + [c], retracted)
  {
  }

  lemma ExecsOne(cs: seq<Contribution>, c: Contribution)
    ensures Execs(cs + [c]) == Execs(cs) + [c.exec]
  {
  }

  lemma LiveAppend(history: seq<seq<Contribution>>, pending: seq<Contribution>, c: Contribution, span: nat)
    ensures LiveObjects(history, pending + [c], span) == LiveObjects(history, pending, span) + [c]
  {
  }

  lemma MatchesAppend(matches: map<int, Match>, live: seq<Contribution>, c: Contribution, entry: Match)
    requires MatchesHold(matches, live, {})
    requires entry == if c.exec.matchNumber in matches then matches[c.exec.matchNumber] else Match([], false)
    ensures MatchesHold(matches[c.exec.matchNumber := Match(entry.contributions + [c], entry.broken)], live + [c], {})
  {
    hide OfMatch;
    forall m: int ensures OfMatch(live + [c], m, {}) ==
                          OfMatch(live, m, {}) + (if c.exec.matchNumber == m then [c] else []) {
      OfMatchAppend(live, c, m, {});
    }
  }
}
