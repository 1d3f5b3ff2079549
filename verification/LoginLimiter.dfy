/** The limiter on password attempts: fewer than five failures in the last 15 minutes. */
module LoginLimiter {
  import opened Clock

  const WINDOW := 15 * MINUTE
  const MAX_FAILURES := 5

  // ----- what the limiter remembers, as values -----

  /** For every address the instants of its failures, oldest first. */
  type Records = map<string, seq<int>>

  function Failures(r: Records, address: string): seq<int> {
    if address in r then r[address] else []
  }

  /** The instants after the cutoff, in order. */
  function After(instants: seq<int>, cutoff: int): (kept: seq<int>)
    ensures |kept| <= |instants|
  {
    if instants == [] then []
    else
      var rest := After(instants[..|instants| - 1], cutoff);
      var last := instants[|instants| - 1];
      if last > cutoff then rest + [last] else rest
  }

  lemma NothingAfter(cutoff: int)
    ensures After([], cutoff) == []
  {}

  function Pruned(r: Records, address: string, now: int): Records {
    r[address := After(Failures(r, address), now - WINDOW)]
  }

  function Allows(r: Records, address: string, now: int): bool {
    |After(Failures(r, address), now - WINDOW)| < MAX_FAILURES
  }

  function WithFailure(r: Records, address: string, now: int): Records {
    r[address := Failures(r, address) + [now]]
  }

  function Cleared(r: Records, address: string): Records {
    r - {address}
  }

  // ----- the limiter -----

  /** A Go slice: the first len elements of a backing array, or nil. */
  datatype Slice = Slice(buffer: array?<int>, len: nat)

  class Limiter {
    var records: map<string, Slice>
    /** The failures each record holds. */
    ghost var view: Records
    /** The backing arrays in use. */
    ghost var buffers: set<array<int>>

    /** The slices hold the view, and no two addresses share a backing array. */
    ghost predicate Valid()
      reads this, buffers
    {
      && view.Keys == records.Keys
      && (forall a :: a in records ==> Holds(records[a], view[a]))
      && (forall a, b :: a in records && b in records && a != b ==> Apart(records[a], records[b]))
    }

    /** Valid but for what the record of one address holds. */
    ghost predicate ValidBut(address: string)
      reads this, buffers
    {
      && view.Keys == records.Keys
      && (forall a :: a in records && a != address ==> Holds(records[a], view[a]))
      && (forall a, b :: a in records && b in records && a != b ==> Apart(records[a], records[b]))
    }

    ghost predicate Holds(s: Slice, instants: seq<int>)
      reads this`buffers, buffers
    {
      if s.buffer == null then s.len == 0 && instants == []
      else s.buffer in buffers && s.len <= s.buffer.Length && s.buffer[..s.len] == instants
    }

    predicate Apart(s: Slice, t: Slice) {
      s.buffer == null || s.buffer != t.buffer
    }

    constructor ()
      ensures Valid() && view == map[] && buffers == {}
    {
      records, view, buffers := map[], map[], {};
    }

    function Record(address: string): Slice
      reads this
    {
      if address in records then records[address] else Slice(null, 0)
    }

    /** records[address] = s */
    method Put(address: string, s: Slice, ghost instants: seq<int>)
      requires ValidBut(address) && Holds(s, instants)
      requires forall a :: a in records && a != address ==> Apart(records[a], s) && Apart(s, records[a])
      modifies this
      ensures Valid() && buffers == old(buffers)
      ensures view == old(view)[address := instants]
    {
      hide Holds, Apart;
      records := records[address := s];
      view := view[address := instants];
    }

    /** Keeps the recent failures in the slice failures[:0]: each one read is written back at or
        before its own place in the same array, so none is lost before it is read. */
    method Allow(address: string, now: int) returns (ok: bool)
      requires Valid()
      modifies this, buffers
      ensures Valid() && buffers == old(buffers)
      ensures view == Pruned(old(view), address, now)
      ensures ok == Allows(old(view), address, now)
    {
      hide After;
      var record := Record(address);
      var kept := 0;
      if record.buffer != null {
        assert Holds(record, Failures(view, address));
        kept := Compact(record.buffer, record.len, now - WINDOW);
      } else {
        NothingAfter(now - WINDOW);
      }
      Put(address, Slice(record.buffer, kept), After(Failures(view, address), now - WINDOW));
      return kept < MAX_FAILURES;
    }

    lemma HoldsFailures(address: string)
      requires Valid()
      ensures Holds(Record(address), Failures(view, address))
    {}

    method Failed(address: string, now: int)
      requires Valid()
      modifies this, buffers
      ensures Valid() && fresh(buffers - old(buffers))
      ensures view == WithFailure(old(view), address, now)
    {
      hide Failures;
      var record := Record(address);
      ghost var instants := Failures(view, address);
      assert Holds(record, instants) by { HoldsFailures(address); }
      record := Append(record, now);
      buffers := buffers + {record.buffer};
      assert Holds(record, instants + [now]);
      forall a | a in records && a != address
        ensures Holds(records[a], view[a]) && Apart(records[a], record) && Apart(record, records[a])
      {
        assert old(Holds(records[a], view[a]));
      }
      Put(address, record, instants + [now]);
    }

    method Succeeded(address: string)
      requires Valid()
      modifies this
      ensures Valid() && buffers == old(buffers)
      ensures view == Cleared(old(view), address)
    {
      records := records - {address};
      view := Cleared(view, address);
    }
  }

  /** recent := failures[:0], then append of every element after the cutoff. */
  method Compact(buffer: array<int>, len: nat, cutoff: int) returns (kept: nat)
    requires len <= buffer.Length
    modifies buffer
    ensures kept <= len
    ensures buffer[..kept] == After(old(buffer[..len]), cutoff)
  {
    kept := 0;
    for i := 0 to len
      invariant kept <= i
      invariant buffer[..kept] == After(old(buffer[..i]), cutoff)
      invariant buffer[i..] == old(buffer[i..])
    {
      assert old(buffer[..i + 1])[..i] == old(buffer[..i]);
      assert buffer[i] == buffer[i..][0] == old(buffer[i..])[0];
      if buffer[i] > cutoff {
        buffer[kept] := buffer[i];
        kept := kept + 1;
      }
    }
  }

  /** append: in place while the array has room, else in a larger copy. */
  method Append(s: Slice, x: int) returns (r: Slice)
    requires if s.buffer == null then s.len == 0 else s.len <= s.buffer.Length
    modifies if s.buffer == null then {} else {s.buffer}
    ensures r.buffer != null && r.len == s.len + 1 <= r.buffer.Length
    ensures r.buffer == s.buffer || fresh(r.buffer)
    ensures r.buffer[..r.len] == (if s.buffer == null then [] else old(s.buffer[..s.len])) + [x]
  {
    if s.buffer != null && s.len < s.buffer.Length {
      s.buffer[s.len] := x;
      return Slice(s.buffer, s.len + 1);
    }
    var larger := new int[2 * s.len + 1];
    for i := 0 to s.len
      invariant forall k :: 0 <= k < i ==> larger[k] == s.buffer[k]
      invariant s.buffer != null ==> s.buffer[..s.len] == old(s.buffer[..s.len])
    {
      larger[i] := s.buffer[i];
    }
    larger[s.len] := x;
    return Slice(larger, s.len + 1);
  }

  // ----- whole runs -----

  /** What the request handlers do to the limiter: ask before an attempt, then report a failed
      or a successful outcome, or give up without one. */
  datatype Event =
    | Attempt(address: string, now: int)
    | Failure(address: string, now: int)
    | Success(address: string)
    | Abandoned(address: string)

  function Handled(r: Records, e: Event): Records {
    match e
    case Attempt(a, now) => Pruned(r, a, now)
    case Failure(a, now) => WithFailure(r, a, now)
    case Success(a) => Cleared(r, a)
    case Abandoned(_) => r
  }

  function Replay(log: seq<Event>): Records {
    if log == [] then map[] else Handled(Replay(log[..|log| - 1]), log[|log| - 1])
  }

  /** All the failures of an address since its last success, forgotten by nobody. */
  function History(log: seq<Event>, address: string): seq<int> {
    if log == [] then []
    else
      var before := History(log[..|log| - 1], address);
      match log[|log| - 1]
      case Failure(a, now) => if a == address then before + [now] else before
      case Success(a) => if a == address then [] else before
      case _ => before
  }

  /** The clock readings of the log never go back, and none is later than the given one. */
  predicate Ordered(log: seq<Event>, latest: int) {
    log == [] ||
    match log[|log| - 1]
    case Attempt(_, now) => now <= latest && Ordered(log[..|log| - 1], now)
    case Failure(_, now) => now <= latest && Ordered(log[..|log| - 1], now)
    case _ => Ordered(log[..|log| - 1], latest)
  }

  lemma AfterSnoc(instants: seq<int>, x: int, cutoff: int)
    ensures After(instants + [x], cutoff) == After(instants, cutoff) + if x > cutoff then [x] else []
  {
    assert (instants + [x])[..|instants|] == instants;
  }

  lemma {:induction false} AfterTwice(instants: seq<int>, early: int, late: int)
    requires early <= late
    ensures After(After(instants, early), late) == After(instants, late)
  {
    if instants != [] {
      var before, x := instants[..|instants| - 1], instants[|instants| - 1];
      AfterTwice(before, early, late);
      AfterSnoc(After(before, early), x, late);
    }
  }

  lemma {:induction false} LaterCutoffKeepsFewer(instants: seq<int>, early: int, late: int)
    requires early <= late
    ensures |After(instants, late)| <= |After(instants, early)|
  {
    if instants != [] { LaterCutoffKeepsFewer(instants[..|instants| - 1], early, late); }
  }

  /** Pruning forgets nothing that any later question could count. */
  lemma {:induction false} PruningIsHarmless(log: seq<Event>, latest: int, address: string, cutoff: int)
    requires Ordered(log, latest) && cutoff >= latest - WINDOW
    ensures After(Failures(Replay(log), address), cutoff) == After(History(log, address), cutoff)
  {
    if log != [] {
      var before := log[..|log| - 1];
      match log[|log| - 1] {
        case Attempt(a, now) =>
          PruningIsHarmless(before, now, address, cutoff);
          if a == address { AfterTwice(Failures(Replay(before), address), now - WINDOW, cutoff); }
        case Failure(a, now) =>
          PruningIsHarmless(before, now, address, cutoff);
          if a == address {
            AfterSnoc(Failures(Replay(before), address), now, cutoff);
            AfterSnoc(History(before, address), now, cutoff);
          }
        case _ =>
          PruningIsHarmless(before, latest, address, cutoff);
      }
    }
  }

  /** After any run with a clock that does not go back, an attempt is allowed exactly when fewer
      than five of the failures since the address's last success are younger than 15 minutes. */
  lemma AllowsMeaning(log: seq<Event>, address: string, now: int)
    requires Ordered(log, now)
    ensures Allows(Replay(log), address, now) <==> |After(History(log, address), now - 900_000_000_000)| < 5
  {
    PruningIsHarmless(log, now, address, now - WINDOW);
  }

  /** Attempts of an address that were allowed and have had no outcome yet. */
  function InFlight(log: seq<Event>, address: string): int {
    if log == [] then 0
    else
      var before := log[..|log| - 1];
      var e := log[|log| - 1];
      var n := InFlight(before, address);
      if e.address != address then n
      else if e.Attempt? then (if Allows(Replay(before), address, e.now) then n + 1 else n)
      else n - 1
  }

  /** Outcomes follow attempts, and at most k attempts are ever in flight at once. */
  predicate AtMostInFlight(log: seq<Event>, address: string, k: nat) {
    0 <= InFlight(log, address) <= k && (log == [] || AtMostInFlight(log[..|log| - 1], address, k))
  }

  /** The failures in the 15 minutes that follow the instant start. */
  function InWindow(instants: seq<int>, start: int): (n: nat)
    ensures n <= |After(instants, start)|
  {
    if instants == [] then 0
    else
      var x := instants[|instants| - 1];
      InWindow(instants[..|instants| - 1], start) + if start < x <= start + 900_000_000_000 then 1 else 0
  }

  lemma InWindowSnoc(instants: seq<int>, x: int, start: int)
    ensures InWindow(instants + [x], start) == InWindow(instants, start) + if start < x <= start + WINDOW then 1 else 0
  {
    assert (instants + [x])[..|instants|] == instants;
  }

  /** Until the window closes, a fifth failure in it leaves room only for attempts in flight. */
  lemma {:induction false} OpenWindow(log: seq<Event>, latest: int, address: string, k: nat, start: int)
    requires Ordered(log, latest) && latest <= start + WINDOW && AtMostInFlight(log, address, k)
    ensures var n := InWindow(History(log, address), start);
            n < MAX_FAILURES || n + InFlight(log, address) <= MAX_FAILURES - 1 + k
  {
    if log != [] {
      var before := log[..|log| - 1];
      match log[|log| - 1] {
        case Attempt(a, now) =>
          OpenWindow(before, now, address, k, start);
          AllowsMeaning(before, address, now);
          LaterCutoffKeepsFewer(History(before, address), now - WINDOW, start);
        case Failure(a, now) =>
          OpenWindow(before, now, address, k, start);
          InWindowSnoc(History(before, address), now, start);
        case _ =>
          OpenWindow(before, latest, address, k, start);
      }
    }
  }

  /** With at most k attempts in flight at once, no 15 minutes ever hold more than 4 + k
      failures since the address's last success. */
  lemma {:induction false} FailuresBounded(log: seq<Event>, latest: int, address: string, k: nat, start: int)
    requires Ordered(log, latest) && AtMostInFlight(log, address, k)
    ensures InWindow(History(log, address), start) <= 4 + k
  {
    if log != [] {
      var before := log[..|log| - 1];
      match log[|log| - 1] {
        case Attempt(a, now) =>
          FailuresBounded(before, now, address, k, start);
        case Failure(a, now) =>
          FailuresBounded(before, now, address, k, start);
          InWindowSnoc(History(before, address), now, start);
          if now <= start + WINDOW { OpenWindow(log, now, address, k, start); }
        case _ =>
          FailuresBounded(before, latest, address, k, start);
      }
    }
  }
}
