/** The string operations of Go's strings and strconv packages that the codecs, the
    controller and the token formats rely on. A Go string is a sequence of bytes; it is a
    `string` here, one char per byte, and white space and letter case are those of ASCII. */
module Text {
  import opened Results

  // ----- white space -----

  predicate IsSpace(c: char) {
    c == ' ' || c == '\t' || c == '\n' || c == '\r' || c == 11 as char || c == 12 as char
  }

  /** Tab, line feed, vertical tab, form feed, carriage return and space. */
  lemma SpaceMeaning(c: char)
    ensures IsSpace(c) <==> 9 <= c as int <= 13 || c as int == 32
  {}

  predicate AllSpace(s: string) {
    forall i :: 0 <= i < |s| ==> IsSpace(s[i])
  }

  /** No white space at either end. */
  predicate IsTrimmed(s: string) {
    s != "" ==> !IsSpace(s[0]) && !IsSpace(s[|s| - 1])
  }

  function TrimLeft(s: string): string {
    if s != "" && IsSpace(s[0]) then TrimLeft(s[1..]) else s
  }

  function TrimRight(s: string): string {
    if s != "" && IsSpace(s[|s| - 1]) then TrimRight(s[..|s| - 1]) else s
  }

  function TrimSpace(s: string): string {
    TrimRight(TrimLeft(s))
  }

  lemma {:induction false} TrimLeftPadded(pre: string, s: string)
    requires AllSpace(pre)
    ensures TrimLeft(pre + s) == TrimLeft(s)
  {
    if pre == "" {
      assert pre + s == s;
    } else {
      assert (pre + s)[1..] == pre[1..] + s;
      TrimLeftPadded(pre[1..], s);
    }
  }

  lemma {:induction false} TrimRightPadded(s: string, post: string)
    requires AllSpace(post)
    ensures TrimRight(s + post) == TrimRight(s)
  {
    if post == "" {
      assert s + post == s;
    } else {
      assert (s + post)[..|s + post| - 1] == s + post[..|post| - 1];
      TrimRightPadded(s, post[..|post| - 1]);
    }
  }

  lemma TrimSpaceOfTrimmed(s: string)
    requires IsTrimmed(s)
    ensures TrimSpace(s) == s
  {}

  /** Padding a trimmed text with white space is undone by TrimSpace. */
  lemma TrimSpacePadded(pre: string, s: string, post: string)
    requires AllSpace(pre) && AllSpace(post) && IsTrimmed(s)
    ensures TrimSpace(pre + s + post) == s
  {
    assert pre + s + post == pre + (s + post);
    TrimLeftPadded(pre, s + post);
    if s == "" {
      assert s + post == post + "";
      TrimLeftPadded(post, "");
    } else {
      TrimRightPadded(s, post);
    }
  }

  /** strings.Fields: the maximal runs of non-space characters. */
  function Fields(s: string): seq<string> {
    FieldsFrom(s, "")
  }

  function FieldsFrom(s: string, word: string): seq<string> {
    if s == "" then (if word == "" then [] else [word])
    else if IsSpace(s[0]) then (if word == "" then [] else [word]) + FieldsFrom(s[1..], "")
    else FieldsFrom(s[1..], word + [s[0]])
  }

  lemma {:induction false} TrimLeftSplits(s: string) returns (pre: string)
    ensures AllSpace(pre) && s == pre + TrimLeft(s)
    ensures TrimLeft(s) != "" ==> !IsSpace(TrimLeft(s)[0])
  {
    pre := "";
    if s != "" && IsSpace(s[0]) {
      pre := TrimLeftSplits(s[1..]);
      assert s == [s[0]] + (pre + TrimLeft(s)) == [s[0]] + pre + TrimLeft(s);
      pre := [s[0]] + pre;
    }
  }

  lemma {:induction false} TrimRightSplits(s: string) returns (post: string)
    ensures AllSpace(post) && s == TrimRight(s) + post
    ensures TrimRight(s) != "" ==> !IsSpace(TrimRight(s)[|TrimRight(s)| - 1])
  {
    post := "";
    if s != "" && IsSpace(s[|s| - 1]) {
      var n := |s| - 1;
      post := TrimRightSplits(s[..n]);
      assert s == TrimRight(s) + post + [s[n]] == TrimRight(s) + (post + [s[n]]);
      post := post + [s[n]];
    }
  }

  /** TrimSpace takes white space away from both ends, all of it, and nothing else. */
  lemma TrimSpaceMeaning(s: string) returns (pre: string, post: string)
    ensures AllSpace(pre) && AllSpace(post) && s == pre + TrimSpace(s) + post
    ensures IsTrimmed(TrimSpace(s))
    ensures TrimSpace(s) == "" <==> AllSpace(s)
  {
    pre := TrimLeftSplits(s);
    post := TrimRightSplits(TrimLeft(s));
    var t := TrimSpace(s);
    assert s == pre + (t + post) == pre + t + post;
    if t != "" {
      assert TrimLeft(s)[0] == t[0];
      assert s[|pre|] == t[0];
    }
  }

  predicate IsWord(s: string) {
    s != "" && forall i :: 0 <= i < |s| ==> !IsSpace(s[i])
  }

  /** Words with gaps before, between and after them. */
  function Spread(words: seq<string>, gaps: seq<string>): string
    requires |gaps| == |words| + 1
  {
    if words == [] then gaps[0] else gaps[0] + words[0] + Spread(words[1..], gaps[1..])
  }

  lemma {:induction false} FieldsGap(gap: string, rest: string)
    requires AllSpace(gap)
    ensures FieldsFrom(gap + rest, "") == FieldsFrom(rest, "")
  {
    if gap == "" {
      assert gap + rest == rest;
    } else {
      assert (gap + rest)[1..] == gap[1..] + rest;
      FieldsGap(gap[1..], rest);
    }
  }

  lemma {:induction false} FieldsWord(start: string, more: string, rest: string)
    requires forall i :: 0 <= i < |more| ==> !IsSpace(more[i])
    requires start + more != "" && (rest == "" || IsSpace(rest[0]))
    ensures FieldsFrom(more + rest, start) == [start + more] + FieldsFrom(rest, "")
    decreases |more|
  {
    if more == "" {
      assert more + rest == rest && start + more == start;
    } else {
      assert (more + rest)[1..] == more[1..] + rest;
      assert start + [more[0]] + more[1..] == start + more;
      FieldsWord(start + [more[0]], more[1..], rest);
    }
  }

  /** However words are spaced out, the fields are those words. */
  lemma {:induction false} FieldsSpread(words: seq<string>, gaps: seq<string>)
    requires |gaps| == |words| + 1
    requires forall i :: 0 <= i < |words| ==> IsWord(words[i])
    requires forall i :: 0 <= i < |gaps| ==> AllSpace(gaps[i])
    requires forall i :: 1 <= i < |words| ==> gaps[i] != ""
    ensures Fields(Spread(words, gaps)) == words
  {
    if words == [] {
      FieldsGap(gaps[0], "");
      assert gaps[0] + "" == gaps[0];
    } else {
      var rest := Spread(words[1..], gaps[1..]);
      assert gaps[0] + words[0] + rest == gaps[0] + (words[0] + rest);
      FieldsGap(gaps[0], words[0] + rest);
      FieldsWord("", words[0], rest);
      assert "" + words[0] == words[0];
      FieldsSpread(words[1..], gaps[1..]);
    }
  }

  // ----- splitting and joining on one separator -----

  function Split(s: string, sep: char): (parts: seq<string>)
    ensures |parts| >= 1
  {
    if s == "" then [""]
    else if s[0] == sep then [""] + Split(s[1..], sep)
    else
      var rest := Split(s[1..], sep);
      [[s[0]] + rest[0]] + rest[1..]
  }

  function Join(parts: seq<string>, sep: char): string
    requires |parts| >= 1
  {
    if |parts| == 1 then parts[0] else parts[0] + [sep] + Join(parts[1..], sep)
  }

  predicate FreeOf(s: string, sep: char) {
    forall i :: 0 <= i < |s| ==> s[i] != sep
  }

  lemma {:induction false} SplitHead(head: string, sep: char, rest: string)
    requires FreeOf(head, sep)
    ensures Split(head + [sep] + rest, sep) == [head] + Split(rest, sep)
  {
    var s := head + [sep] + rest;
    if head == "" {
      assert s[1..] == rest;
    } else {
      assert s[1..] == head[1..] + [sep] + rest;
      SplitHead(head[1..], sep, rest);
      assert [head[0]] + head[1..] == head;
    }
  }

  lemma {:induction false} SplitFree(s: string, sep: char)
    requires FreeOf(s, sep)
    ensures Split(s, sep) == [s]
  {
    if s != "" {
      SplitFree(s[1..], sep);
      assert [s[0]] + s[1..] == s;
    }
  }

  /** Splitting recovers exactly what was joined, when no part contains the separator. */
  lemma {:induction false} SplitJoin(parts: seq<string>, sep: char)
    requires |parts| >= 1
    requires forall i :: 0 <= i < |parts| ==> FreeOf(parts[i], sep)
    ensures Split(Join(parts, sep), sep) == parts
  {
    if |parts| == 1 {
      SplitFree(parts[0], sep);
    } else {
      SplitHead(parts[0], sep, Join(parts[1..], sep));
      SplitJoin(parts[1..], sep);
      assert parts == [parts[0]] + parts[1..];
    }
  }

  /** Joining the parts of a split gives the text back, and no part holds the separator. */
  lemma {:induction false} JoinSplit(s: string, sep: char)
    ensures Join(Split(s, sep), sep) == s
    ensures forall i :: 0 <= i < |Split(s, sep)| ==> FreeOf(Split(s, sep)[i], sep)
  {
    if s != "" {
      JoinSplit(s[1..], sep);
      var rest := Split(s[1..], sep);
      if s[0] == sep {
        assert ([""] + rest)[1..] == rest;
        assert "" + [sep] + s[1..] == s;
      } else {
        var parts := [[s[0]] + rest[0]] + rest[1..];
        assert parts[1..] == rest[1..];
        assert Join(parts, sep) == [s[0]] + Join(rest, sep);
        assert [s[0]] + s[1..] == s;
      }
    }
  }

  // ----- letter case -----

  function LowerChar(c: char): char {
    if 'A' <= c <= 'Z' then (c as int + 32) as char else c
  }

  function ToLower(s: string): (r: string)
    ensures |r| == |s|
    ensures forall i :: 0 <= i < |s| ==> r[i] == LowerChar(s[i])
  {
    seq(|s|, i requires 0 <= i < |s| => LowerChar(s[i]))
  }

  function UpperChar(c: char): char {
    if 'a' <= c <= 'z' then (c as int - 32) as char else c
  }

  function ToUpper(s: string): string {
    seq(|s|, i requires 0 <= i < |s| => UpperChar(s[i]))
  }

  /** The letters of the two cases correspond, and nothing else has a case. */
  lemma CaseMeaning(c: char)
    ensures forall i :: 0 <= i < 26 ==>
              && LowerChar("ABCDEFGHIJKLMNOPQRSTUVWXYZ"[i]) == "abcdefghijklmnopqrstuvwxyz"[i]
              && UpperChar("abcdefghijklmnopqrstuvwxyz"[i]) == "ABCDEFGHIJKLMNOPQRSTUVWXYZ"[i]
    ensures !('A' <= c <= 'Z') ==> LowerChar(c) == c
    ensures !('a' <= c <= 'z') ==> UpperChar(c) == c
  {}

  predicate EqualFold(a: string, b: string) {
    ToLower(a) == ToLower(b)
  }

  lemma ToLowerIdempotent(s: string)
    ensures ToLower(ToLower(s)) == ToLower(s)
  {}

  predicate HasPrefix(s: string, prefix: string) {
    |prefix| <= |s| && s[..|prefix|] == prefix
  }

  predicate HasSuffix(s: string, suffix: string) {
    |suffix| <= |s| && s[|s| - |suffix|..] == suffix
  }

  function TrimSuffix(s: string, suffix: string): string {
    if HasSuffix(s, suffix) then s[..|s| - |suffix|] else s
  }

  // ----- decimal integers -----

  const MIN_INT64: int := -0x8000_0000_0000_0000
  const MAX_INT64: int := 0x7FFF_FFFF_FFFF_FFFF

  predicate IsInt64(n: int) {
    MIN_INT64 <= n <= MAX_INT64
  }

  predicate IsDigit(c: char) {
    '0' <= c <= '9'
  }

  predicate AllDigits(s: string) {
    forall i :: 0 <= i < |s| ==> IsDigit(s[i])
  }

  function DecimalValue(s: string): nat
    requires AllDigits(s)
  {
    if s == "" then 0
    else 10 * DecimalValue(s[..|s| - 1]) + (s[|s| - 1] as int - '0' as int)
  }

  /** strconv.Atoi, which is strconv.ParseInt in base 10 at 64 bits: an optional sign, at
      least one digit, any leading zeros, and an error outside the range of int64. */
  function Atoi(s: string): Option<int> {
    var signed := s != "" && (s[0] == '-' || s[0] == '+');
    var digits := if signed then s[1..] else s;
    if digits == "" || !AllDigits(digits) then None
    else
      var n: int := if signed && s[0] == '-' then 0 - DecimalValue(digits) else DecimalValue(digits);
      if IsInt64(n) then Some(n) else None
  }

  function NatText(n: nat): (s: string)
    ensures s != "" && AllDigits(s)
  {
    if n < 10 then [(n + '0' as int) as char]
    else NatText(n / 10) + [(n % 10 + '0' as int) as char]
  }

  /** strconv.Itoa, and the %d verb of fmt. */
  function Itoa(n: int): string {
    if n < 0 then "-" + NatText(-n) else NatText(n)
  }

  lemma {:induction false} DecimalValueNatText(n: nat)
    ensures DecimalValue(NatText(n)) == n
  {
    if n >= 10 {
      DecimalValueNatText(n / 10);
      var s := NatText(n);
      assert s[..|s| - 1] == NatText(n / 10);
    } else {
      assert NatText(n)[..0] == "";
    }
  }

  /** A printed integer reads back as itself, and only the range of int64 reads back. */
  lemma AtoiItoa(n: int)
    ensures Atoi(Itoa(n)) == if IsInt64(n) then Some(n) else None
  {
    DecimalValueNatText(if n < 0 then -n else n);
    if n < 0 {
      assert Itoa(n)[1..] == NatText(-n);
    }
  }

  /** A printed integer holds only digits and a sign. */
  lemma ItoaCharacters(n: int)
    ensures Itoa(n) != ""
    ensures forall i :: 0 <= i < |Itoa(n)| ==> IsDigit(Itoa(n)[i]) || Itoa(n)[i] == '-'
    ensures IsTrimmed(Itoa(n))
  {}

  /** What Atoi accepts, signs and leading zeros included, and what it makes of it. */
  lemma AtoiMeaning(s: string, n: int)
    ensures Atoi(s) == Some(n) <==>
            && -9_223_372_036_854_775_808 <= n <= 9_223_372_036_854_775_807
            && exists sign: string, digits: string ::
                 && (sign == "" || sign == "+" || sign == "-") && digits != "" && AllDigits(digits)
                 && s == sign + digits
                 && n == if sign == "-" then 0 - DecimalValue(digits) else DecimalValue(digits)
  {
    if Atoi(s) == Some(n) {
      var signed := s[0] == '-' || s[0] == '+';
      var sign, digits := if signed then s[..1] else "", if signed then s[1..] else s;
      assert s == sign + digits;
    }
    forall sign: string, digits: string |
      && (sign == "" || sign == "+" || sign == "-") && digits != "" && AllDigits(digits)
      && s == sign + digits && IsInt64(n)
      && n == (if sign == "-" then 0 - DecimalValue(digits) else DecimalValue(digits))
      ensures Atoi(s) == Some(n)
    {
      if sign == "" {
        assert s == digits && IsDigit(s[0]);
      } else {
        assert s[1..] == digits && s[0] == sign[0];
      }
    }
  }
}
