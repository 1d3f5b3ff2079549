/** The log filter that keeps one TLS handshake error per window and counts the rest. */
module NoiseFilter {
  import opened Results
  import opened Text
  import opened Clock

  const NOISE := "TLS handshake error"
  const NOISE_WINDOW := 5 * MINUTE

  predicate OccursAt(s: string, part: string, i: nat) {
    i + |part| <= |s| && s[i..i + |part|] == part
  }

  predicate Contains(s: string, part: string) {
    exists i :: 0 <= i <= |s| && OccursAt(s, part, i)
  }

  predicate IsNoise(payload: string) {
    Contains(payload, NOISE)
  }

  function TrimNewlines(s: string): string {
    if s != "" && s[|s| - 1] == '\n' then TrimNewlines(s[..|s| - 1]) else s
  }

  /** What reaches the output: a line untouched, or a handshake error with the number of
      similar ones it stands for and the instant it was let through. */
  datatype Entry = Plain(payload: string) | Handshake(payload: string, suppressed: nat, at: int)

  function Rendered(e: Entry): string {
    match e
    case Plain(payload) => payload
    case Handshake(payload, n, _) =>
      TrimNewlines(payload) + (if n > 0 then " (" + Itoa(n) + " similar suppressed)" else "") + "\n"
  }

  /** One call: what is logged, the clock when the window is checked and when the line is
      stamped, and whether the output takes a write. */
  datatype Call = Call(payload: string, check: int, stamp: int, outputOk: bool)

  datatype State = State(lastSeen: int, dropped: nat, out: seq<Entry>)

  const INITIAL := State(ZERO_TIME, 0, [])

  predicate Suppresses(s: State, c: Call) {
    IsNoise(c.payload) && s.lastSeen != ZERO_TIME && Sub(c.check, s.lastSeen) < NOISE_WINDOW
  }

  /** The entry a call tries to write, if it tries. */
  function Attempted(s: State, c: Call): Option<Entry> {
    if !IsNoise(c.payload) then Some(Plain(c.payload))
    else if Suppresses(s, c) then None
    else Some(Handshake(c.payload, s.dropped, c.stamp))
  }

  function Step(s: State, c: Call): State {
    match Attempted(s, c)
    case None => s.(dropped := s.dropped + 1)
    case Some(e) =>
      var written := if c.outputOk then s.(out := s.out + [e]) else s;
      if e.Plain? then written else written.(lastSeen := c.stamp, dropped := 0)
  }

  class Filter {
    var lastSeen: int
    var dropped: nat
    var out: seq<Entry>

    constructor ()
      ensures View() == INITIAL
    {
      lastSeen, dropped, out := ZERO_TIME, 0, [];
    }

    function View(): State
      reads this
    {
      State(lastSeen, dropped, out)
    }

    /** The number of bytes taken, or an error of the output. */
    method Write(c: Call) returns (n: Option<nat>)
      modifies this
      ensures View() == Step(old(View()), c)
      ensures n == if Attempted(old(View()), c).Some? && !c.outputOk then None else Some(|c.payload|)
    {
      if !IsNoise(c.payload) {
        if !c.outputOk {
          return None;
        }
        out := out + [Plain(c.payload)];
        return Some(|c.payload|);
      }
      if lastSeen != ZERO_TIME && Sub(c.check, lastSeen) < NOISE_WINDOW {
        dropped := dropped + 1;
        return Some(|c.payload|);
      }
      var line := Handshake(c.payload, dropped, c.stamp);
      lastSeen := c.stamp;
      dropped := 0;
      if !c.outputOk {
        return None;
      }
      out := out + [line];
      return Some(|c.payload|);
    }
  }

  // ----- whole runs -----

  function After(calls: seq<Call>): State {
    if calls == [] then INITIAL else Step(After(calls[..|calls| - 1]), calls[|calls| - 1])
  }

  function NoiseCount(calls: seq<Call>): nat {
    if calls == [] then 0
    else NoiseCount(calls[..|calls| - 1]) + if IsNoise(calls[|calls| - 1].payload) then 1 else 0
  }

  /** The handshake errors an output accounts for: its handshake lines, and what they say they
      stand for. */
  function AccountedFor(out: seq<Entry>): nat {
    if out == [] then 0
    else
      AccountedFor(out[..|out| - 1]) +
      match out[|out| - 1]
      case Plain(_) => 0
      case Handshake(_, n, _) => 1 + n
  }

  /** The handshake errors lost with a line the output refused. */
  function Lost(calls: seq<Call>): nat {
    if calls == [] then 0
    else
      var before := calls[..|calls| - 1];
      var c := calls[|calls| - 1];
      Lost(before) +
      match Attempted(After(before), c)
      case Some(Handshake(_, n, _)) => if c.outputOk then 0 else 1 + n
      case _ => 0
  }

  lemma AccountedForSnoc(out: seq<Entry>, e: Entry)
    ensures AccountedFor(out + [e]) == AccountedFor(out) + if e.Plain? then 0 else 1 + e.suppressed
  {
    assert (out + [e])[..|out|] == out;
  }

  /** Every handshake error logged is a line of the output, counted by one, still to be counted,
      or lost with a refused line; with an output that takes every write none is lost. */
  lemma {:induction false} Conservation(calls: seq<Call>)
    ensures NoiseCount(calls) == AccountedFor(After(calls).out) + After(calls).dropped + Lost(calls)
    ensures (forall i :: 0 <= i < |calls| ==> calls[i].outputOk) ==> Lost(calls) == 0
  {
    hide IsNoise;
    if calls != [] {
      var before, c := calls[..|calls| - 1], calls[|calls| - 1];
      Conservation(before);
      var s := After(before);
      if Attempted(s, c).Some? { AccountedForSnoc(s.out, Attempted(s, c).value); }
      assert (forall i :: 0 <= i < |calls| ==> calls[i].outputOk) ==>
               c.outputOk && forall i :: 0 <= i < |before| ==> before[i].outputOk;
    }
  }

  /** The output refused a handshake line that was let through. */
  ghost predicate LosesLine(calls: seq<Call>, i: nat)
    requires i < |calls|
  {
    IsNoise(calls[i].payload) && !Suppresses(After(calls[..i]), calls[i]) && !calls[i].outputOk
  }

  /** Nothing is lost exactly when no such line was refused: another line, or one only counted,
      costs nothing. */
  lemma {:induction false} NothingLostExactly(calls: seq<Call>)
    ensures Lost(calls) == 0 <==> forall i :: 0 <= i < |calls| ==> !LosesLine(calls, i)
  {
    hide IsNoise, Suppresses;
    if calls != [] {
      var n := |calls| - 1;
      var before := calls[..n];
      NothingLostExactly(before);
      forall i | 0 <= i < n ensures LosesLine(calls, i) <==> LosesLine(before, i) {
        assert before[..i] == calls[..i];
      }
      LastLoss(calls);
    }
  }

  lemma LastLoss(calls: seq<Call>)
    requires calls != []
    ensures Lost(calls) == Lost(calls[..|calls| - 1]) <==> !LosesLine(calls, |calls| - 1)
    ensures Lost(calls) >= Lost(calls[..|calls| - 1])
  {
    hide IsNoise;
  }

  /** Three handshake errors, six minutes from the first to the last: a line, one counted, and a
      line the output refuses. */
  function LosingRun(): seq<Call> {
    [Call(NOISE, MINUTE, MINUTE, true), Call(NOISE, 2 * MINUTE, 2 * MINUTE, true),
     Call(NOISE, 7 * MINUTE, 7 * MINUTE, false)]
  }

  /** The refused line takes the count of the suppressed one with it. */
  lemma LosingRunLoses()
    ensures NoiseCount(LosingRun()) == 3 && Lost(LosingRun()) == 2
    ensures AccountedFor(After(LosingRun()).out) == 1 && After(LosingRun()).dropped == 0
  {
    hide IsNoise;
    NoiseIsNoise();
    var calls := LosingRun();
    assert calls[..2] == [calls[0], calls[1]] && calls[..2][..1] == [calls[0]] && calls[..2][..1][..0] == [];
    assert After([calls[0]]) == State(MINUTE, 0, [Handshake(NOISE, 0, MINUTE)]);
    assert After(calls[..2]) == State(MINUTE, 1, [Handshake(NOISE, 0, MINUTE)]);
    assert Lost([calls[0]]) == 0 && Lost(calls[..2]) == 0;
    Conservation(calls);
  }

  lemma NoiseIsNoise()
    ensures IsNoise(NOISE)
  {
    assert OccursAt(NOISE, NOISE, 0);
  }

  /** The lines that are no handshake errors, in order. */
  function OtherLines(calls: seq<Call>): seq<string> {
    if calls == [] then []
    else
      var c := calls[|calls| - 1];
      OtherLines(calls[..|calls| - 1]) + if !IsNoise(c.payload) && c.outputOk then [c.payload] else []
  }

  function PlainTexts(out: seq<Entry>): seq<string> {
    if out == [] then []
    else PlainTexts(out[..|out| - 1]) + if out[|out| - 1].Plain? then [Rendered(out[|out| - 1])] else []
  }

  /** All other lines pass unchanged and in order. */
  lemma {:induction false} OthersPassThrough(calls: seq<Call>)
    ensures PlainTexts(After(calls).out) == OtherLines(calls)
  {
    hide IsNoise, TrimNewlines;
    if calls != [] {
      var before, c := calls[..|calls| - 1], calls[|calls| - 1];
      OthersPassThrough(before);
      var s := After(before);
      if Attempted(s, c).Some? && c.outputOk {
        assert (s.out + [Attempted(s, c).value])[..|s.out|] == s.out;
      }
    }
  }

  /** The clock is past the zero time and does not go back, neither between the two readings of
      a call nor from call to call. */
  predicate Monotone(calls: seq<Call>, latest: int) {
    calls == [] ||
    var c := calls[|calls| - 1];
    ZERO_TIME < c.check <= c.stamp <= latest && Monotone(calls[..|calls| - 1], c.check)
  }

  /** The instants of the handshake lines that were let through, refused by the output or not. */
  function Stamps(calls: seq<Call>): seq<int> {
    if calls == [] then []
    else
      var before, c := calls[..|calls| - 1], calls[|calls| - 1];
      match Attempted(After(before), c)
      case Some(Handshake(_, _, at)) => Stamps(before) + [at]
      case _ => Stamps(before)
  }

  /** Handshake lines are at least a window apart. */
  lemma {:induction false} LinesApart(calls: seq<Call>, latest: int)
    requires Monotone(calls, latest)
    ensures var stamps := Stamps(calls);
            && (forall i :: 1 <= i < |stamps| ==> stamps[i] - stamps[i - 1] >= 300_000_000_000)
            && After(calls).lastSeen == (if stamps == [] then ZERO_TIME else stamps[|stamps| - 1])
            && (stamps != [] ==> ZERO_TIME < stamps[|stamps| - 1] <= latest)
  {
    hide IsNoise;
    if calls != [] {
      LinesApart(calls[..|calls| - 1], calls[|calls| - 1].check);
    }
  }

  /** Line feeds at the end go, all of them, and nothing else. */
  lemma {:induction false} TrimNewlinesMeaning(s: string) returns (feeds: nat)
    ensures s == TrimNewlines(s) + seq(feeds, i => '\n')
    ensures TrimNewlines(s) != "" ==> TrimNewlines(s)[|TrimNewlines(s)| - 1] != '\n'
  {
    feeds := 0;
    if s != "" && s[|s| - 1] == '\n' {
      var n := |s| - 1;
      feeds := TrimNewlinesMeaning(s[..n]);
      feeds := feeds + 1;
      assert seq(feeds, i => '\n') == seq(feeds - 1, i => '\n') + ['\n'];
    }
  }

  lemma {:induction false} TrimKeepsNoise(s: string, i: nat)
    requires OccursAt(s, NOISE, i)
    ensures OccursAt(TrimNewlines(s), NOISE, i)
  {
    if s[|s| - 1] == '\n' {
      assert s[i..i + |NOISE|][|NOISE| - 1] == 'r';
      assert s[..|s| - 1][i..i + |NOISE|] == NOISE;
      TrimKeepsNoise(s[..|s| - 1], i);
    }
  }

  /** A line let through can still be told from the others: it names the handshake error. */
  lemma NoiseStaysVisible(payload: string, n: nat, at: int)
    requires IsNoise(payload)
    ensures IsNoise(Rendered(Handshake(payload, n, at)))
  {
    hide TrimNewlines;
    var i :| 0 <= i <= |payload| && OccursAt(payload, NOISE, i);
    TrimKeepsNoise(payload, i);
    var line := Rendered(Handshake(payload, n, at));
    assert line[i..i + |NOISE|] == TrimNewlines(payload)[i..i + |NOISE|];
    assert OccursAt(line, NOISE, i);
  }

  /** A handshake error is let through exactly when five minutes have passed since the last that
      was, or none was yet; and a line is one exactly when it names one. */
  lemma LetThroughExactly(calls: seq<Call>, c: Call)
    requires Monotone(calls + [c], c.stamp)
    ensures IsNoise(c.payload) <==> exists before: string, after: string ::
              c.payload == before + "TLS handshake error" + after
    ensures var stamps := Stamps(calls);
            Attempted(After(calls), c).Some? <==>
            || !IsNoise(c.payload)
            || stamps == [] || c.check - stamps[|stamps| - 1] >= 300_000_000_000
  {
    assert (calls + [c])[..|calls|] == calls;
    LinesApart(calls, c.check);
    NoiseMeaning(c.payload);
  }

  lemma NoiseMeaning(payload: string)
    ensures IsNoise(payload) <==> exists before: string, after: string ::
              payload == before + "TLS handshake error" + after
  {
    if IsNoise(payload) {
      var i :| 0 <= i <= |payload| && OccursAt(payload, NOISE, i);
      assert payload == payload[..i] + "TLS handshake error" + payload[i + 19..];
    }
    forall before: string, after: string | payload == before + "TLS handshake error" + after ensures IsNoise(payload) {
      assert OccursAt(payload, NOISE, |before|);
    }
  }

  // ----- what the lines say -----

  const TAIL := " similar suppressed)\n"

  /** The number in front of a text's end, if its last characters are digits. */
  function DigitsAtEnd(s: string): string {
    if s != "" && '0' <= s[|s| - 1] <= '9' then DigitsAtEnd(s[..|s| - 1]) + [s[|s| - 1]] else ""
  }

  lemma {:induction false} DigitsBehind(s: string, digits: string)
    requires AllDigits(digits) && (s == "" || !IsDigit(s[|s| - 1]))
    ensures DigitsAtEnd(s + digits) == digits
  {
    if digits == "" {
      assert s + digits == s;
    } else {
      var n := |digits| - 1;
      assert (s + digits)[..|s + digits| - 1] == s + digits[..n];
      DigitsBehind(s, digits[..n]);
    }
  }

  lemma {:induction false} DigitsAreDigits(s: string)
    ensures AllDigits(DigitsAtEnd(s)) && |DigitsAtEnd(s)| <= |s|
  {
    if s != "" && '0' <= s[|s| - 1] <= '9' { DigitsAreDigits(s[..|s| - 1]); }
  }

  /** How many similar errors a line says were suppressed: what a reader of the log sees. */
  function Told(line: string): nat {
    if !HasSuffix(line, TAIL) then 0
    else
      var front := line[..|line| - |TAIL|];
      var digits := DigitsAtEnd(front);
      DigitsAreDigits(front);
      if HasSuffix(front[..|front| - |digits|], " (") then DecimalValue(digits) else 0
  }

  lemma CutTail(front: string)
    ensures HasSuffix(front + TAIL, TAIL) && (front + TAIL)[..|front + TAIL| - |TAIL|] == front
  {}

  lemma CutOpening(text: string, digits: string)
    ensures (text + " (" + digits)[..|text + " (" + digits| - |digits|] == text + " ("
    ensures HasSuffix(text + " (", " (")
  {}

  lemma CountedTells(text: string, digits: string)
    requires AllDigits(digits) && digits != ""
    ensures Told(text + " (" + digits + TAIL) == DecimalValue(digits)
  {
    hide HasSuffix, DigitsAtEnd, DecimalValue;
    var front := text + " (" + digits;
    CutTail(front);
    CutOpening(text, digits);
    DigitsBehind(text + " (", digits);
  }

  lemma RenderedCount(payload: string, n: nat, at: int)
    requires n > 0
    ensures Rendered(Handshake(payload, n, at)) == TrimNewlines(payload) + " (" + Itoa(n) + TAIL
  {
    hide TrimNewlines, Itoa;
    var text, digits := TrimNewlines(payload), Itoa(n);
    assert " similar suppressed)" + "\n" == TAIL;
    assert text + (" (" + digits + " similar suppressed)") + "\n" == text + " (" + digits + (" similar suppressed)" + "\n");
  }

  /** A line with a count tells that count; one without tells what its own text does. */
  lemma RenderedTells(payload: string, n: nat, at: int)
    ensures Told(Rendered(Handshake(payload, n, at))) == if n > 0 then n else Told(TrimNewlines(payload) + "\n")
  {
    hide TrimNewlines, Told, DecimalValue;
    var text := TrimNewlines(payload);
    if n > 0 {
      RenderedCount(payload, n, at);
      DecimalValueNatText(n);
      CountedTells(text, Itoa(n));
    } else {
      assert text + "" + "\n" == text + "\n";
    }
  }

  /** The handshake errors the log tells of: one for each line that names one, and as many more as
      the line says. */
  function ToldOf(lines: seq<string>): nat {
    if lines == [] then 0
    else
      var line := lines[|lines| - 1];
      ToldOf(lines[..|lines| - 1]) + if IsNoise(line) then 1 + Told(line) else 0
  }

  function Lines(out: seq<Entry>): seq<string> {
    if out == [] then [] else Lines(out[..|out| - 1]) + [Rendered(out[|out| - 1])]
  }

  /** What the texts of uncounted lines themselves claim, if they end like a counted one. */
  function Forged(out: seq<Entry>): nat {
    if out == [] then 0
    else Forged(out[..|out| - 1]) + OwnClaim(out[|out| - 1])
  }

  function OwnClaim(e: Entry): nat {
    if e.Handshake? && e.suppressed == 0 then Told(TrimNewlines(e.payload) + "\n") else 0
  }

  lemma LinesSnoc(out: seq<Entry>, e: Entry)
    ensures Lines(out + [e]) == Lines(out) + [Rendered(e)]
    ensures ToldOf(Lines(out + [e])) == ToldOf(Lines(out)) + if IsNoise(Rendered(e)) then 1 + Told(Rendered(e)) else 0
    ensures Forged(out + [e]) == Forged(out) + OwnClaim(e)
  {
    assert (out + [e])[..|out|] == out;
    assert (Lines(out) + [Rendered(e)])[..|Lines(out)|] == Lines(out);
  }

  lemma {:induction false} LinesTell(calls: seq<Call>)
    ensures ToldOf(Lines(After(calls).out)) == AccountedFor(After(calls).out) + Forged(After(calls).out)
  {
    hide IsNoise, Told, TrimNewlines, Rendered, ToldOf, OwnClaim;
    if calls == [] {
      NothingTold();
    } else {
      var before, c := calls[..|calls| - 1], calls[|calls| - 1];
      LinesTell(before);
      var s := After(before);
      if Attempted(s, c).Some? && c.outputOk {
        var e := Attempted(s, c).value;
        LinesSnoc(s.out, e);
        AccountedForSnoc(s.out, e);
        EntryTells(s, c);
      }
    }
  }

  lemma NothingTold()
    ensures ToldOf([]) == 0
  {}

  lemma EntryTells(s: State, c: Call)
    requires Attempted(s, c).Some?
    ensures var e := Attempted(s, c).value;
            if e.Plain? then !IsNoise(Rendered(e)) && OwnClaim(e) == 0
            else IsNoise(Rendered(e)) && Told(Rendered(e)) == e.suppressed + OwnClaim(e)
  {
    hide IsNoise, Told, TrimNewlines;
    if IsNoise(c.payload) {
      NoiseStaysVisible(c.payload, s.dropped, c.stamp);
      RenderedTells(c.payload, s.dropped, c.stamp);
    }
  }

  /** Conservation, as a reader of the log can check it: what the lines tell of are the handshake
      errors logged, but for those still to be counted, those lost with a refused line, and what
      an uncounted line claims in a text of its own. */
  lemma LogTellsAll(calls: seq<Call>)
    ensures var s := After(calls);
            ToldOf(Lines(s.out)) == NoiseCount(calls) - s.dropped - Lost(calls) + Forged(s.out)
  {
    Conservation(calls);
    LinesTell(calls);
  }
}
