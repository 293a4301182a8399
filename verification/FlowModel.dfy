/** Execution flow over the last w snapshot transitions, with trades that may be broken later
    (python/src/itchlab_research/datasets/features.py), as a plain value: every bucket ever closed,
    the executions still pending, and which of them were retracted. */
module FlowModel {

  /** One execution; `signed` is positive for buyer-initiated flow. */
  datatype Exec = Exec(id: nat, matchNumber: int, signed: int, quantity: int)

  datatype Flow = Flow(history: seq<seq<Exec>>, pending: seq<Exec>, retracted: set<nat>, broken: set<int>, created: nat)

  const NO_FLOW: Flow := Flow([], [], {}, {}, 0)

  function Last<T>(s: seq<T>, n: nat): (tail: seq<T>) {
    if |s| <= n then s else s[|s| - n..]
  }

  function Flat<T>(s: seq<seq<T>>): seq<T> {
    if s == [] then [] else s[0] + Flat(s[1..])
  }

  /** The executions that some window of at most `span` buckets may still show. */
  function Live(f: Flow, span: nat): seq<Exec> {
    Flat(Last(f.history, span)) + f.pending
  }

  function Executed(f: Flow, matchNumber: int, signed: int, quantity: int): Flow {
    f.(pending := f.pending + [Exec(f.created, matchNumber, signed, quantity)],
       retracted := if matchNumber in f.broken then f.retracted + {f.created} else f.retracted,
       created := f.created + 1)
  }

  function Matched(live: seq<Exec>, matchNumber: int): set<nat> {
    set e | e in live && e.matchNumber == matchNumber :: e.id
  }

  /** A broken trade retracts its executions that are still live, once. */
  function TradeBroken(f: Flow, span: nat, matchNumber: int): Flow {
    var ids := Matched(Live(f, span), matchNumber);
    if ids == {} || matchNumber in f.broken then f
    else f.(retracted := f.retracted + ids, broken := f.broken + {matchNumber})
  }

  /** A qualifying snapshot closes the pending bucket; matches that no window shows are forgotten. */
  function BucketClosed(f: Flow, span: nat): Flow {
    var next := f.(history := f.history + [f.pending], pending := []);
    next.(broken := set m | m in f.broken && Matched(Live(next, span), m) != {})
  }

  function SignedTotal(execs: seq<Exec>, retracted: set<nat>): int {
    if execs == [] then 0
    else
      var e := execs[|execs| - 1];
      SignedTotal(execs[..|execs| - 1], retracted) + (if e.id in retracted then 0 else e.signed)
  }

  function QuantityTotal(execs: seq<Exec>, retracted: set<nat>): int {
    if execs == [] then 0
    else
      var e := execs[|execs| - 1];
      QuantityTotal(execs[..|execs| - 1], retracted) + (if e.id in retracted then 0 else e.quantity)
  }

  // ---------------------------------------------------------------- sequences

  lemma LastAppend<T>(s: seq<T>, x: T, n: nat)
    requires n > 0
    ensures Last(s + [x], n) == (if |s| < n then s else Last(s, n)[1..]) + [x]
    ensures |s| >= n ==> Last(s, n) != [] && Last(s, n)[0] == s[|s| - n]
    ensures |Last(s, n)| == n <==> |s| >= n
  {
  }

  lemma {:induction false} FlatConcat<T>(a: seq<seq<T>>, b: seq<seq<T>>)
    ensures Flat(a + b) == Flat(a) + Flat(b)
  {
    if a == [] {
      assert a + b == b;
    } else {
      assert (a + b)[1..] == a[1..] + b;
      FlatConcat(a[1..], b);
    }
  }

  lemma FlatFirst<T>(s: seq<seq<T>>)
    requires s != []
    ensures Flat(s) == s[0] + Flat(s[1..])
  {
  }

  lemma FlatAppend<T>(s: seq<seq<T>>, x: seq<T>)
    ensures Flat(s + [x]) == Flat(s) + x
  {
    FlatConcat(s, [x]);
    assert Flat([x]) == x + Flat<T>([]);
  }

  /** The last buckets hold a suffix of all executions, longer for a longer window. */
  lemma LastIsSuffix<T>(s: seq<seq<T>>, n: nat, m: nat)
    requires n <= m
    ensures exists k :: 0 <= k <= |Flat(Last(s, m))| && Flat(Last(s, n)) == Flat(Last(s, m))[k..]
  {
    var longer := Last(s, m);
    var cut := |longer| - |Last(s, n)|;
    assert Last(s, n) == longer[cut..] && longer == longer[..cut] + longer[cut..];
    FlatConcat(longer[..cut], longer[cut..]);
    assert Flat(Last(s, n)) == Flat(longer)[|Flat(longer[..cut])|..];
  }

  lemma {:induction false} TotalsConcat(a: seq<Exec>, b: seq<Exec>, retracted: set<nat>)
    ensures SignedTotal(a + b, retracted) == SignedTotal(a, retracted) + SignedTotal(b, retracted)
    ensures QuantityTotal(a + b, retracted) == QuantityTotal(a, retracted) + QuantityTotal(b, retracted)
  {
    if b == [] {
      assert a + b == a;
    } else {
      var n := |b| - 1;
      assert (a + b)[..|a| + n] == a + b[..n];
      TotalsConcat(a, b[..n], retracted);
    }
  }

  lemma NoTotals(execs: seq<Exec>, retracted: set<nat>)
    ensures SignedTotal(execs[..0], retracted) == 0 && QuantityTotal(execs[..0], retracted) == 0
  {
  }

  lemma TotalsStep(execs: seq<Exec>, k: nat, retracted: set<nat>)
    requires k < |execs|
    ensures SignedTotal(execs[..k + 1], retracted) ==
            SignedTotal(execs[..k], retracted) + (if execs[k].id in retracted then 0 else execs[k].signed)
    ensures QuantityTotal(execs[..k + 1], retracted) ==
            QuantityTotal(execs[..k], retracted) + (if execs[k].id in retracted then 0 else execs[k].quantity)
  {
    assert execs[..k + 1][..k] == execs[..k];
  }

  lemma {:induction false} TotalsSame(execs: seq<Exec>, r: set<nat>, r': set<nat>)
    requires forall e :: e in execs ==> (e.id in r <==> e.id in r')
    ensures SignedTotal(execs, r) == SignedTotal(execs, r') && QuantityTotal(execs, r) == QuantityTotal(execs, r')
  {
    if execs != [] {
      TotalsSame(execs[..|execs| - 1], r, r');
    }
  }

  ghost predicate DistinctIds(execs: seq<Exec>) {
    forall i, j :: 0 <= i < j < |execs| ==> execs[i].id != execs[j].id
  }

  /** Retracting one more execution takes it out of the totals that show it. */
  lemma {:induction false} TotalsRetract(execs: seq<Exec>, retracted: set<nat>, e: Exec)
    requires DistinctIds(execs) && e.id !in retracted && e in execs
    ensures SignedTotal(execs, retracted + {e.id}) == SignedTotal(execs, retracted) - e.signed
    ensures QuantityTotal(execs, retracted + {e.id}) == QuantityTotal(execs, retracted) - e.quantity
  {
    var n := |execs| - 1;
    if execs[n] == e {
      TotalsSame(execs[..n], retracted, retracted + {e.id});
    } else {
      assert e in execs[..n] && execs[n].id != e.id;
      TotalsRetract(execs[..n], retracted, e);
    }
  }

  // ---------------------------------------------------------------- what every reachable flow satisfies

  /** Live executions are distinct, and one is retracted if and only if its match is broken; only
      matches that a live execution names are remembered as broken. */
  ghost predicate FlowOk(f: Flow, span: nat) {
    && DistinctIds(Live(f, span))
    && (forall e :: e in Live(f, span) ==> e.id < f.created && (e.id in f.retracted <==> e.matchNumber in f.broken))
    && (forall id :: id in f.retracted ==> id < f.created)
    && (forall m :: m in f.broken ==> exists e :: e in Live(f, span) && e.matchNumber == m)
  }

  lemma ExecutedOk(f: Flow, span: nat, matchNumber: int, signed: int, quantity: int)
    requires FlowOk(f, span)
    ensures FlowOk(Executed(f, matchNumber, signed, quantity), span)
    ensures Live(Executed(f, matchNumber, signed, quantity), span) ==
            Live(f, span) + [Exec(f.created, matchNumber, signed, quantity)]
  {
    hide Flat, Last;
    var next, e := Executed(f, matchNumber, signed, quantity), Exec(f.created, matchNumber, signed, quantity);
    var live := Live(next, span);
    assert live == Live(f, span) + [e];
    forall m | m in next.broken ensures exists x :: x in live && x.matchNumber == m {
      var x :| x in Live(f, span) && x.matchNumber == m;
      assert x in live;
    }
  }

  lemma TradeBrokenOk(f: Flow, span: nat, matchNumber: int)
    requires FlowOk(f, span)
    ensures FlowOk(TradeBroken(f, span, matchNumber), span)
  {
    hide Flat, Last;
    var next := TradeBroken(f, span, matchNumber);
    assert Live(next, span) == Live(f, span);
    if next != f {
      var id :| id in Matched(Live(f, span), matchNumber);
      forall e | e in Live(f, span) ensures e.id in next.retracted <==> e.matchNumber in next.broken {
        if e.id in Matched(Live(f, span), matchNumber) {
          var x :| x in Live(f, span) && x.matchNumber == matchNumber && x.id == e.id;
          assert x == e;
        }
      }
    }
  }

  lemma BucketClosedOk(f: Flow, span: nat)
    requires FlowOk(f, span) && span > 0
    ensures FlowOk(BucketClosed(f, span), span)
    ensures exists k :: 0 <= k <= |Live(f, span)| && Live(BucketClosed(f, span), span) == Live(f, span)[k..]
  {
    var next := BucketClosed(f, span);
    var before, after := Live(f, span), Live(next, span);
    var k := NextLive(f, span);
    assert Live(f.(history := f.history + [f.pending], pending := []), span) == after;
    hide Live;
    forall e | e in after ensures e in before {
    }
    forall e | e in after && e.matchNumber in f.broken ensures e.matchNumber in next.broken {
      assert e.id in Matched(after, e.matchNumber);
    }
    forall m | m in next.broken ensures exists e :: e in after && e.matchNumber == m {
      var id :| id in Matched(after, m);
    }
  }

  lemma NextLive(f: Flow, span: nat) returns (k: nat)
    requires span > 0
    ensures k <= |Live(f, span)| && Live(BucketClosed(f, span), span) == Live(f, span)[k..]
  {
    var next := BucketClosed(f, span);
    LastAppend(f.history, f.pending, span);
    var last := Last(f.history, span);
    if |f.history| < span {
      FlatAppend(f.history, f.pending);
      k := 0;
    } else {
      FlatAppend(last[1..], f.pending);
      k := |last[0]|;
      assert Flat(last) == last[0] + Flat(last[1..]);
    }
  }

  /** The executions of the last w buckets whose match is not broken. */
  function Unbroken(execs: seq<Exec>, broken: set<int>): seq<Exec> {
    if execs == [] then []
    else
      var e := execs[|execs| - 1];
      Unbroken(execs[..|execs| - 1], broken) + (if e.matchNumber in broken then [] else [e])
  }

  function SignedSum(execs: seq<Exec>): int {
    if execs == [] then 0 else SignedSum(execs[..|execs| - 1]) + execs[|execs| - 1].signed
  }

  function QuantitySum(execs: seq<Exec>): int {
    if execs == [] then 0 else QuantitySum(execs[..|execs| - 1]) + execs[|execs| - 1].quantity
  }

  lemma {:induction false} TotalIsUnbroken(execs: seq<Exec>, retracted: set<nat>, broken: set<int>)
    requires forall e :: e in execs ==> (e.id in retracted <==> e.matchNumber in broken)
    ensures SignedTotal(execs, retracted) == SignedSum(Unbroken(execs, broken))
    ensures QuantityTotal(execs, retracted) == QuantitySum(Unbroken(execs, broken))
  {
    if execs != [] {
      var earlier, e := execs[..|execs| - 1], execs[|execs| - 1];
      TotalIsUnbroken(earlier, retracted, broken);
      assert Unbroken(earlier, broken) + [] == Unbroken(earlier, broken);
      assert (Unbroken(earlier, broken) + [e])[..|Unbroken(earlier, broken)|] == Unbroken(earlier, broken);
    }
  }

  /** What a window's totals mean: the signed and the unsigned flow of the last w buckets, without the
      trades that are broken. */
  lemma WindowShowsUnbroken(f: Flow, span: nat, w: nat)
    requires FlowOk(f, span) && w <= span
    ensures SignedTotal(Flat(Last(f.history, w)), f.retracted) == SignedSum(Unbroken(Flat(Last(f.history, w)), f.broken))
    ensures QuantityTotal(Flat(Last(f.history, w)), f.retracted) ==
            QuantitySum(Unbroken(Flat(Last(f.history, w)), f.broken))
  {
    var shown := Flat(Last(f.history, w));
    LastIsSuffix(f.history, w, span);
    hide Flat, Last;
    forall e | e in shown ensures e in Live(f, span) {
    }
    TotalIsUnbroken(shown, f.retracted, f.broken);
  }
}
