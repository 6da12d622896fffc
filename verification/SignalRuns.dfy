/** The signal store over whole runs of its two writers: the rule engine and the concentration check. */
module SignalRuns {
  import opened Tables
  import opened Signals
  import opened ConcentrationCheck
  import Portfolio

  /** One run of a writer, with the clock readings it takes. */
  datatype Writer =
    | Engine(ctx: RuleContext, clock: seq<nat>)
    | Check(positions: seq<Portfolio.PositionWeight>, clock: seq<nat>)

  predicate Clocked(w: Writer) {
    match w
    case Engine(ctx, clock) => |clock| >= 2
    case Check(positions, clock) => |clock| >= |positions|
  }

  function Write(signals: seq<Signal>, w: Writer): seq<Signal>
    requires Clocked(w)
  {
    match w
    case Engine(ctx, clock) => CreateAll(signals, clock, Candidates(ctx)).0
    case Check(positions, clock) => CheckAll(signals, clock, positions).0
  }

  function WriteAll(ws: seq<Writer>): seq<Signal>
    requires forall i :: 0 <= i < |ws| ==> Clocked(ws[i])
  {
    if ws == [] then [] else Write(WriteAll(ws[..|ws| - 1]), ws[|ws| - 1])
  }

  function AttemptsOf(w: Writer): seq<Attempt>
    requires Clocked(w)
  {
    match w
    case Engine(ctx, clock) =>
      seq(|Candidates(ctx)|, i requires 0 <= i < |Candidates(ctx)| => Attempt(clock[i], Candidates(ctx)[i]))
    case Check(positions, clock) => CheckAttempts(clock, positions)
  }

  /** Every attempt of a history, in order. */
  function History(ws: seq<Writer>): seq<Attempt>
    requires forall i :: 0 <= i < |ws| ==> Clocked(ws[i])
  {
    if ws == [] then [] else History(ws[..|ws| - 1]) + AttemptsOf(ws[|ws| - 1])
  }

  lemma {:induction false} AttemptsCompose(signals: seq<Signal>, first: seq<Attempt>, second: seq<Attempt>)
    ensures Attempted(signals, first + second) == Attempted(Attempted(signals, first), second)
  {
    if second == [] {
      assert first + second == first;
    } else {
      var n := |second| - 1;
      AttemptsCompose(signals, first, second[..n]);
      assert (first + second)[..|first| + n] == first + second[..n];
    }
  }

  lemma WriterMakesAttempts(signals: seq<Signal>, w: Writer)
    requires Clocked(w)
    ensures Write(signals, w) == Attempted(signals, AttemptsOf(w))
  {
    match w
    case Engine(ctx, clock) => EngineMakesAttempts(signals, clock, Candidates(ctx));
    case Check(positions, clock) => CheckMakesAttempts(signals, clock, positions);
  }

  lemma {:induction false} WritersMakeAttempts(ws: seq<Writer>)
    requires forall i :: 0 <= i < |ws| ==> Clocked(ws[i])
    ensures WriteAll(ws) == Attempted([], History(ws))
  {
    if ws != [] {
      var n := |ws| - 1;
      WritersMakeAttempts(ws[..n]);
      AttemptsCompose([], History(ws[..n]), AttemptsOf(ws[n]));
      WriterMakesAttempts(WriteAll(ws[..n]), ws[n]);
    }
  }

  /** Over every history of engine runs and concentration checks with an advancing clock, at most one active
      signal exists for each asset, type and news item (or none), from the last write on and for ever after. */
  lemma SignalStoreStaysUnique(ws: seq<Writer>, now: nat)
    requires forall i :: 0 <= i < |ws| ==> Clocked(ws[i])
    requires ClockAdvances(History(ws))
    requires History(ws) != [] ==> History(ws)[|History(ws)| - 1].now <= now
    ensures UniqueFrom(WriteAll(ws), now)
  {
    WritersMakeAttempts(ws);
    AtMostOneActiveSignal(History(ws));
  }

  // ----- Repeating a check -----

  lemma WriteGrows(signals: seq<Signal>, w: Writer)
    requires Clocked(w) && NoExpiries(signals)
    ensures signals <= Write(signals, w) && NoExpiries(Write(signals, w))
  {
    match w
    case Engine(ctx, clock) =>
      assert forall i :: 0 <= i < |Candidates(ctx)| ==> Candidates(ctx)[i].expiresAt.None?;
      CreateAllGrows(signals, clock, Candidates(ctx));
    case Check(positions, clock) => CheckCovers(signals, clock, positions);
  }

  lemma {:induction false} CreateAllGrows(signals: seq<Signal>, clock: seq<nat>, candidates: seq<Signal>)
    requires |clock| >= |candidates| && NoExpiries(signals) && NoExpiries(candidates)
    ensures var after := CreateAll(signals, clock, candidates).0;
            signals <= after && NoExpiries(after)
  {
    if candidates != [] {
      CreateAllGrows(signals, clock, candidates[..|candidates| - 1]);
    }
  }

  lemma {:induction false} NeverExpiring(ws: seq<Writer>)
    requires forall i :: 0 <= i < |ws| ==> Clocked(ws[i])
    ensures NoExpiries(WriteAll(ws))
  {
    if ws != [] {
      var k := |ws| - 1;
      NeverExpiring(ws[..k]);
      WriteGrows(WriteAll(ws[..k]), ws[k]);
    }
  }

  lemma {:induction false} WritersGrow(ws: seq<Writer>, n: nat)
    requires n <= |ws| && forall i :: 0 <= i < |ws| ==> Clocked(ws[i])
    ensures WriteAll(ws[..n]) <= WriteAll(ws)
  {
    if n == |ws| {
      assert ws[..n] == ws;
    } else {
      var k := |ws| - 1;
      WritersGrow(ws[..k], n);
      assert ws[..k][..n] == ws[..n];
      NeverExpiring(ws[..k]);
      WriteGrows(WriteAll(ws[..k]), ws[k]);
    }
  }

  /** In any history, a check of holdings that were checked before with the same weights creates nothing, at any
      time and whatever was written in between. */
  lemma RepeatedCheckIsIdle(ws: seq<Writer>, i: nat, clock: seq<nat>)
    requires forall k :: 0 <= k < |ws| ==> Clocked(ws[k])
    requires i < |ws| && ws[i].Check? && |clock| >= |ws[i].positions|
    ensures CheckAll(WriteAll(ws), clock, ws[i].positions) == (WriteAll(ws), [])
  {
    var before := ws[..i];
    NeverExpiring(before);
    WritersGrow(ws, i + 1);
    assert ws[..i + 1][..i] == before;
    RepeatedCheckCreatesNothing(WriteAll(before), ws[i].clock, ws[i].positions, WriteAll(ws), clock);
  }
}
