/** How often the hardware is written, over all interleavings of requests. */
module Throttle {
  import opened Text
  import opened Clock
  import opened Store
  import opened Hardware
  import opened Runs
  import opened WriteLimiter

  /** The server between its steps: when the limiter last admitted, how many admitted requests
      have yet to reach the controller, the machine, and every WriteFile call so far. */
  datatype Server = Server(last: int, pending: nat, world: World, writes: seq<(Path, string)>)

  /** The steps of any number of requests and pollers, one per lock region. */
  datatype Turn =
    | Arrive(now: int)
    | Apply(k: Ticks, op: Op, w: WriteResult)
    | Abandon
    | Poll(k: Ticks)
    | Elsewhere(tree: Tree)

  /** Only a request that was admitted goes on to the controller, once, or gives up. */
  predicate Enabled(s: Server, turn: Turn) {
    (turn.Apply? || turn.Abandon?) ==> s.pending > 0
  }

  function Take(s: Server, turn: Turn, interval: int): Server
    requires Enabled(s, turn)
  {
    match turn
    case Arrive(now) =>
      var (verdict, last) := Decide(s.last, now, interval);
      s.(last := last, pending := if verdict.Admitted? then s.pending + 1 else s.pending)
    case Apply(k, op, w) =>
      var r := Perform(s.world.tree, s.world.core, k, op, w);
      Server(s.last, s.pending - 1, World(r.tree, r.core), s.writes + r.writes)
    case Abandon => s.(pending := s.pending - 1)
    case Poll(k) =>
      var r := Perform(s.world.tree, s.world.core, k, Look, WriteResult(true, s.world.tree));
      s.(world := World(r.tree, r.core), writes := s.writes + r.writes)
    case Elsewhere(tree) => s.(world := s.world.(tree := tree))
  }

  ghost predicate IsHistory(xs: seq<Server>, turns: seq<Turn>, interval: int) {
    && |xs| == |turns| + 1
    && xs[0] == Server(ZERO_TIME, 0, World(xs[0].world.tree, NewCore(xs[0].world.tree)), [])
    && forall i :: 0 <= i < |turns| ==> Enabled(xs[i], turns[i]) && xs[i + 1] == Take(xs[i], turns[i], interval)
  }

  /** The clock readings the limiter was asked with. */
  function Arrivals(turns: seq<Turn>): (readings: seq<int>)
  {
    if turns == [] then []
    else
      var last := turns[|turns| - 1];
      if last.Arrive? then Arrivals(turns[..|turns| - 1]) + [last.now] else Arrivals(turns[..|turns| - 1])
  }

  /** The writes made and the requests that may yet make one. */
  function Spent(s: Server): nat {
    |s.writes| + s.pending
  }

  predicate Admits(s: Server, turn: Turn, interval: int) {
    turn.Arrive? && Decide(s.last, turn.now, interval).0.Admitted?
  }

  lemma TurnSpends(s: Server, turn: Turn, interval: int)
    requires Enabled(s, turn)
    ensures Spent(Take(s, turn, interval)) <= Spent(s) + if Admits(s, turn, interval) then 1 else 0
    ensures Take(s, turn, interval).last == if turn.Arrive? then Decide(s.last, turn.now, interval).1 else s.last
  {
    hide Perform, Decide;
    match turn
    case Apply(k, op, w) => CallEffect(s.world.tree, s.world.core, k, op, w);
    case Poll(k) => CallEffect(s.world.tree, s.world.core, k, Look, WriteResult(true, s.world.tree));
    case _ =>
  }

  lemma ArrivalsSnoc(turns: seq<Turn>, turn: Turn)
    ensures Arrivals(turns + [turn]) == if turn.Arrive? then Arrivals(turns) + [turn.now] else Arrivals(turns)
  {
    assert (turns + [turn])[..|turns + [turn]| - 1] == turns;
  }

  lemma AdmissionsSnoc(readings: seq<int>, now: int, interval: int)
    ensures var (verdict, last) := Decide(LastAfter(readings, interval), now, interval);
            && LastAfter(readings + [now], interval) == last
            && Admissions(readings + [now], interval) ==
               Admissions(readings, interval) + if verdict.Admitted? then [now] else []
  {
    assert (readings + [now])[..|readings + [now]| - 1] == readings;
  }

  /** Every write so far, and every request still under way, was paid for by an admission. */
  lemma {:induction false} WritesWereAdmitted(xs: seq<Server>, turns: seq<Turn>, interval: int, n: nat)
    requires IsHistory(xs, turns, interval) && n <= |turns|
    ensures xs[n].last == LastAfter(Arrivals(turns[..n]), interval)
    ensures Spent(xs[n]) <= |Admissions(Arrivals(turns[..n]), interval)|
  {
    hide Perform, NewCore, Decide, Take, Arrivals, Admissions, LastAfter, Enabled;
    if n == 0 {
      NothingArrived(interval);
    } else {
      WritesWereAdmitted(xs, turns, interval, n - 1);
      var x, turn := xs[n - 1], turns[n - 1];
      assert turns[..n] == turns[..n - 1] + [turn];
      assert Enabled(x, turn) && xs[n] == Take(x, turn, interval);
      TurnSpends(x, turn, interval);
      ArrivalsSnoc(turns[..n - 1], turn);
      if turn.Arrive? { AdmissionsSnoc(Arrivals(turns[..n - 1]), turn.now, interval); }
    }
  }

  lemma NothingArrived(interval: int)
    ensures Arrivals([]) == [] && LastAfter([], interval) == ZERO_TIME && Admissions([], interval) == []
  {}

  /** However requests interleave, the hardware is written at most once, and once more for every
      interval between the first and the last admission. */
  lemma HardwareWritesBounded(xs: seq<Server>, turns: seq<Turn>, configured: int)
    requires configured <= MAX_INT64
    requires IsHistory(xs, turns, EffectiveInterval(configured)) && NonZero(Arrivals(turns))
    ensures var interval := EffectiveInterval(configured);
            var admitted := Admissions(Arrivals(turns), interval);
            var writes := xs[|turns|].writes;
            if admitted == [] then writes == []
            else |writes| <= 1 + (admitted[|admitted| - 1] - admitted[0]) / interval
  {
    hide Perform, NewCore, Decide, Take, Arrivals, Admissions, LastAfter, Enabled, NonZero;
    var interval := EffectiveInterval(configured);
    WritesWereAdmitted(xs, turns, interval, |turns|);
    assert turns[..|turns|] == turns;
    if Admissions(Arrivals(turns), interval) != [] {
      AdmissionsBounded(Arrivals(turns), interval);
    }
  }
}
