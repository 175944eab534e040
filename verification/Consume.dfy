/** The main goroutine's loop over the candidates (cmd/arbd/main.go). */
module Consume {
  import opened Messages
  import opened PathfinderTraces
  import opened Arbitrage

  function AlertsFor(c: CandidatePath, minNetProfit: real): seq<Opportunity> {
    if IsProfitable(Evaluate(c), minNetProfit) then [Evaluate(c)] else []
  }

  function Alerts(candidates: seq<CandidatePath>, minNetProfit: real): seq<Opportunity> {
    if candidates == [] then []
    else
      var n := |candidates| - 1;
      Alerts(candidates[..n], minNetProfit) + AlertsFor(candidates[n], minNetProfit)
  }

  /** Every candidate is evaluated and counted; the profitable ones are reported,
      in order. */
  method Consume(candidates: seq<CandidatePath>, minNetProfit: real)
    returns (total: nat, profitable: nat, alerts: seq<Opportunity>)
    ensures total == |candidates| && profitable == |alerts|
    ensures alerts == Alerts(candidates, minNetProfit)
  {
    total, profitable, alerts := 0, 0, [];
    for i := 0 to |candidates|
      invariant total == i && profitable == |alerts|
      invariant alerts == Alerts(candidates[..i], minNetProfit)
    {
      hide Evaluate, IsProfitable;
      assert candidates[..i + 1][..i] == candidates[..i];
      total := total + 1;
      var op := Evaluate(candidates[i]);
      if !IsProfitable(op, minNetProfit) {
        continue;
      }
      profitable := profitable + 1;
      alerts := alerts + [op];
    }
    assert candidates[..|candidates|] == candidates;
  }

  /** An opportunity is reported exactly when its candidate was consumed and its
      net profit, as computed, is above the threshold. */
  lemma {:induction false} AlertsExactlyTheProfitable(candidates: seq<CandidatePath>, minNetProfit: real,
                                                      op: Opportunity)
    ensures op in Alerts(candidates, minNetProfit) <==>
            op.path in candidates && op == Evaluate(op.path) && op.netProfit > minNetProfit
  {
    if candidates != [] {
      var n := |candidates| - 1;
      AlertsExactlyTheProfitable(candidates[..n], minNetProfit, op);
      assert op.path in candidates <==> op.path in candidates[..n] || op.path == candidates[n];
      EvaluateKeepsPath(candidates[n]);
      hide Evaluate;
    }
  }

  predicate Profitable(c: CandidatePath, minNetProfit: real) {
    Evaluate(c).netProfit > minNetProfit
  }

  ghost predicate Ascending(at: seq<nat>) {
    forall x, y :: 0 <= x < y < |at| ==> at[x] < at[y]
  }

  /** `at` are the positions of the profitable candidates, in order. */
  ghost predicate Positions(candidates: seq<CandidatePath>, minNetProfit: real, at: seq<nat>) {
    && Ascending(at)
    && (forall k: nat :: k in at <==> k < |candidates| && Profitable(candidates[k], minNetProfit))
  }

  /** The reports are the evaluations of the candidates at these positions. */
  ghost predicate Reports(candidates: seq<CandidatePath>, at: seq<nat>, alerts: seq<Opportunity>) {
    && |alerts| == |at|
    && forall x :: 0 <= x < |at| ==> at[x] < |candidates| && alerts[x] == Evaluate(candidates[at[x]])
  }

  lemma AscendingTo(at: seq<nat>, n: nat)
    requires Ascending(at) && forall k :: k in at ==> k < n
    ensures Ascending(at + [n])
  {
    assert forall x :: 0 <= x < |at| ==> at[x] in at;
  }

  lemma InLonger(at: seq<nat>, n: nat, k: nat)
    ensures k in at + [n] <==> k in at || k == n
  {
  }

  lemma OneMorePosition(candidates: seq<CandidatePath>, minNetProfit: real, at: seq<nat>)
    requires candidates != [] && Positions(candidates[..|candidates| - 1], minNetProfit, at)
    ensures var n := |candidates| - 1;
            Positions(candidates, minNetProfit, if Profitable(candidates[n], minNetProfit) then at + [n] else at)
  {
    hide Profitable, Ascending;
    var n := |candidates| - 1;
    AscendingTo(at, n);
    forall k: nat
      ensures k in at <==> k < n && Profitable(candidates[k], minNetProfit)
      ensures k in at + [n] <==> k in at || k == n
    {
      InLonger(at, n, k);
      assert k < n ==> candidates[..n][k] == candidates[k];
    }
  }

  lemma OneMoreReport(candidates: seq<CandidatePath>, minNetProfit: real, at: seq<nat>, alerts: seq<Opportunity>)
    requires candidates != [] && Reports(candidates[..|candidates| - 1], at, alerts)
    ensures var n := |candidates| - 1;
            Reports(candidates, if Profitable(candidates[n], minNetProfit) then at + [n] else at,
                    alerts + AlertsFor(candidates[n], minNetProfit))
  {
    hide Evaluate;
  }

  /** There is one report for each profitable candidate, in their order, whether or
      not some candidates are alike. */
  lemma {:induction false} OneReportEach(candidates: seq<CandidatePath>, minNetProfit: real) returns (at: seq<nat>)
    ensures Positions(candidates, minNetProfit, at) && Reports(candidates, at, Alerts(candidates, minNetProfit))
  {
    if candidates == [] {
      at := [];
    } else {
      var n := |candidates| - 1;
      var before := OneReportEach(candidates[..n], minNetProfit);
      OneMorePosition(candidates, minNetProfit, before);
      OneMoreReport(candidates, minNetProfit, before, Alerts(candidates[..n], minNetProfit));
      hide Positions, Reports, Profitable, AlertsFor;
      at := if Profitable(candidates[n], minNetProfit) then before + [n] else before;
    }
  }

  lemma EvaluateKeepsPath(c: CandidatePath)
    ensures Evaluate(c).path == c
  {
  }

  lemma AlertsLast(candidates: seq<CandidatePath>, minNetProfit: real)
    requires candidates != []
    ensures var n := |candidates| - 1;
            multiset(Alerts(candidates, minNetProfit)) ==
            multiset(Alerts(candidates[..n], minNetProfit)) + multiset(AlertsFor(candidates[n], minNetProfit))
  {
  }

  lemma {:induction false} AlertsWithout(candidates: seq<CandidatePath>, minNetProfit: real, k: nat)
    requires k < |candidates|
    ensures multiset(Alerts(candidates, minNetProfit)) ==
            multiset(Alerts(candidates[..k] + candidates[k + 1..], minNetProfit))
            + multiset(AlertsFor(candidates[k], minNetProfit))
  {
    hide AlertsFor, Alerts;
    var n := |candidates| - 1;
    var less := candidates[..k] + candidates[k + 1..];
    AlertsLast(candidates, minNetProfit);
    if k == n {
      assert less == candidates[..n];
    } else {
      AlertsWithout(candidates[..n], minNetProfit, k);
      AlertsLast(less, minNetProfit);
      assert less[..n - 1] == candidates[..n][..k] + candidates[..n][k + 1..];
      assert less[n - 1] == candidates[n];
    }
  }

  /** What is reported does not depend on the order of the candidates. */
  lemma {:induction false} AlertsPermuted(candidates: seq<CandidatePath>, others: seq<CandidatePath>,
                                          minNetProfit: real)
    requires multiset(candidates) == multiset(others)
    ensures multiset(Alerts(candidates, minNetProfit)) == multiset(Alerts(others, minNetProfit))
    decreases |candidates|
  {
    if candidates == [] {
      assert |multiset(others)| == 0;
    } else {
      var n := |candidates| - 1;
      var k := PermutedRest(candidates, others);
      AlertsPermuted(candidates[..n], others[..k] + others[k + 1..], minNetProfit);
      AlertsWithout(others, minNetProfit, k);
      hide AlertsFor;
    }
  }
}
