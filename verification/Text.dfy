/** Text as the candidate and session descriptions use it: tokens between white space,
    decimal numbers, trimmed lines. */
module Text {
  import opened Handshakes

  /** The Unicode white space characters. */
  predicate IsSpace(c: char) {
    var n := c as int;
    || 0x9 <= n <= 0xD || n == 0x20 || n == 0x85 || n == 0xA0 || n == 0x1680 || 0x2000 <= n <= 0x200A
    || n == 0x2028 || n == 0x2029 || n == 0x202F || n == 0x205F || n == 0x3000
  }

  predicate SpaceFree(s: string) {
    forall i :: 0 <= i < |s| ==> !IsSpace(s[i])
  }

  predicate IsToken(s: string) {
    s != "" && SpaceFree(s)
  }

  predicate HasPrefix(s: string, prefix: string) {
    prefix <= s
  }

  // ----- Tokens -----

  /** Length of the run without white space at the front. */
  function TokenEnd(s: string): (n: nat)
    ensures n <= |s| && SpaceFree(s[..n])
    ensures n < |s| ==> IsSpace(s[n])
  {
    if s == "" || IsSpace(s[0]) then 0 else 1 + TokenEnd(s[1..])
  }

  function Tokens(s: string): seq<string>
    decreases |s|
  {
    if s == "" then []
    else if IsSpace(s[0]) then Tokens(s[1..])
    else [s[..TokenEnd(s)]] + Tokens(s[TokenEnd(s)..])
  }

  lemma {:induction false} TokensAreTokens(s: string)
    ensures forall i :: 0 <= i < |Tokens(s)| ==> IsToken(Tokens(s)[i])
    decreases |s|
  {
    if s != "" {
      if IsSpace(s[0]) {
        TokensAreTokens(s[1..]);
      } else {
        TokensAreTokens(s[TokenEnd(s)..]);
      }
    }
  }

  function Joined(parts: seq<string>): string {
    if parts == [] then "" else if |parts| == 1 then parts[0] else parts[0] + " " + Joined(parts[1..])
  }

  lemma {:induction false} TokenEndIs(s: string, n: nat)
    requires n <= |s| && SpaceFree(s[..n]) && (n < |s| ==> IsSpace(s[n]))
    ensures TokenEnd(s) == n
    decreases n
  {
    if n > 0 {
      assert s[..n][0] == s[0];
      assert s[1..][..n - 1] == s[..n][1..];
      TokenEndIs(s[1..], n - 1);
    }
  }

  lemma TokenFirst(t: string, rest: string)
    requires IsToken(t) && (rest == "" || IsSpace(rest[0]))
    ensures Tokens(t + rest) == [t] + Tokens(rest)
  {
    var s := t + rest;
    assert s[..|t|] == t && s[|t|..] == rest && s[0] == t[0];
    TokenEndIs(s, |t|);
  }

  /** Tokens joined by blanks split into the same tokens. */
  lemma {:induction false} JoinedTokens(parts: seq<string>)
    requires forall i :: 0 <= i < |parts| ==> IsToken(parts[i])
    ensures Tokens(Joined(parts)) == parts
    decreases |parts|
  {
    if |parts| == 1 {
      TokenFirst(parts[0], "");
      assert parts[0] + "" == parts[0];
    } else if parts != [] {
      var tail := Joined(parts[1..]);
      JoinedTokens(parts[1..]);
      TokenFirst(parts[0], " " + tail);
      assert parts[0] + (" " + tail) == Joined(parts);
      assert (" " + tail)[1..] == tail;
    }
  }

  lemma {:induction false} JoinedConcat(a: seq<string>, b: seq<string>)
    requires a != [] && b != []
    ensures Joined(a + b) == Joined(a) + " " + Joined(b)
    decreases |a|
  {
    if |a| == 1 {
      assert (a + b)[1..] == b;
    } else {
      assert (a + b)[1..] == a[1..] + b;
      JoinedConcat(a[1..], b);
      assert a[0] + " " + (Joined(a[1..]) + " " + Joined(b)) == (a[0] + " " + Joined(a[1..])) + " " + Joined(b);
    }
  }

  // ----- Numbers -----

  function Digit(d: nat): char
    requires d < 10
  {
    (0x30 + d) as char
  }

  predicate IsDigit(c: char) {
    0x30 <= c as int <= 0x39
  }

  function Decimal(n: nat): (s: string)
    ensures IsToken(s) && forall i :: 0 <= i < |s| ==> IsDigit(s[i])
  {
    if n < 10 then [Digit(n)] else Decimal(n / 10) + [Digit(n % 10)]
  }

  function Digits(s: string): Option<nat> {
    if s == "" then Some(0)
    else
      match Digits(s[..|s| - 1])
      case None => None
      case Some(front) =>
        if IsDigit(s[|s| - 1]) then Some(front * 10 + (s[|s| - 1] as int - 0x30)) else None
  }

  /** An optional plus sign and at least one digit, no larger than the type holds. */
  function ParseUnsigned(s: string, max: nat): Option<nat> {
    var digits := if s != "" && s[0] == '+' then s[1..] else s;
    if digits == "" then None
    else
      match Digits(digits)
      case Some(n) => if n <= max then Some(n) else None
      case None => None
  }

  lemma {:induction false} DecimalDigits(n: nat)
    ensures Digits(Decimal(n)) == Some(n)
  {
    if n < 10 {
      assert Decimal(n)[..0] == "";
    } else {
      DecimalDigits(n / 10);
      assert Decimal(n)[..|Decimal(n)| - 1] == Decimal(n / 10);
    }
  }

  lemma DecimalParses(n: nat, max: nat)
    ensures ParseUnsigned(Decimal(n), max) == if n <= max then Some(n) else None
  {
    DecimalDigits(n);
    assert IsDigit(Decimal(n)[0]);
  }

  // ----- Lines -----

  function TrimStart(s: string): string {
    if s != "" && IsSpace(s[0]) then TrimStart(s[1..]) else s
  }

  function TrimEnd(s: string): string {
    if s != "" && IsSpace(s[|s| - 1]) then TrimEnd(s[..|s| - 1]) else s
  }

  function Trim(s: string): string {
    TrimEnd(TrimStart(s))
  }

  predicate NoBreak(s: string) {
    forall i :: 0 <= i < |s| ==> s[i] != '\r' && s[i] != '\n'
  }

  predicate EndsTight(s: string) {
    s == "" || !IsSpace(s[|s| - 1])
  }

  /** The pieces between line breaks. */
  function SplitLines(s: string): (lines: seq<string>)
    ensures lines != []
  {
    if |s| < 2 then [s]
    else if s[0] == '\r' && s[1] == '\n' then [""] + SplitLines(s[2..])
    else
      var rest := SplitLines(s[1..]);
      [[s[0]] + rest[0]] + rest[1..]
  }

  function Terminated(lines: seq<string>): string {
    if lines == [] then "" else lines[0] + "\r\n" + Terminated(lines[1..])
  }

  lemma {:induction false} FirstLine(line: string, rest: string)
    requires NoBreak(line)
    ensures SplitLines(line + "\r\n" + rest) == [line] + SplitLines(rest)
    decreases |line|
  {
    var s := line + "\r\n" + rest;
    if line == "" {
      assert s[0] == '\r' && s[1] == '\n' && s[2..] == rest;
    } else {
      assert s[0] == line[0] && s[1..] == line[1..] + "\r\n" + rest;
      FirstLine(line[1..], rest);
      assert [line[0]] + line[1..] == line;
      assert ([line[1..]] + SplitLines(rest))[1..] == SplitLines(rest);
    }
  }

  /** Lines without breaks, each ended by one, split into themselves and a last empty one. */
  lemma {:induction false} TerminatedLines(lines: seq<string>)
    requires forall i :: 0 <= i < |lines| ==> NoBreak(lines[i])
    ensures SplitLines(Terminated(lines)) == lines + [""]
    decreases |lines|
  {
    if lines != [] {
      TerminatedLines(lines[1..]);
      FirstLine(lines[0], Terminated(lines[1..]));
      assert [lines[0]] + (lines[1..] + [""]) == lines + [""];
    }
  }

  lemma {:induction false} TrimKeepsFront(s: string)
    requires s != "" && !IsSpace(s[0])
    ensures Trim(s) != "" && Trim(s)[0] == s[0] && (EndsTight(s) ==> Trim(s) == s)
    decreases |s|
  {
    if IsSpace(s[|s| - 1]) {
      TrimKeepsFront(s[..|s| - 1]);
    }
  }

  predicate HasBreak(s: string) {
    exists i :: 0 <= i < |s| - 1 && s[i] == '\r' && s[i + 1] == '\n'
  }

  /** The lines with a break between any two. */
  function Broken(lines: seq<string>): string
    requires lines != []
  {
    if |lines| == 1 then lines[0] else lines[0] + "\r\n" + Broken(lines[1..])
  }

  /** The pieces of a text are what its breaks separate: joined by them they are the text, and
      none holds another. */
  lemma {:induction false} SplitLinesExact(s: string)
    ensures Broken(SplitLines(s)) == s
    ensures forall i :: 0 <= i < |SplitLines(s)| ==> !HasBreak(SplitLines(s)[i])
    ensures |s| > 0 && SplitLines(s)[0] != "" ==> SplitLines(s)[0][0] == s[0]
    ensures |s| > 0 && SplitLines(s)[0] == "" ==> |s| >= 2 && s[0] == '\r' && s[1] == '\n'
    decreases |s|
  {
    if |s| >= 2 {
      if s[0] == '\r' && s[1] == '\n' {
        SplitLinesExact(s[2..]);
        assert ([""] + SplitLines(s[2..]))[1..] == SplitLines(s[2..]);
        assert s == "" + "\r\n" + s[2..];
      } else {
        SplitLinesExact(s[1..]);
        LongerLine(s[0], SplitLines(s[1..]));
        NoNewBreak(s, SplitLines(s[1..])[0]);
      }
    }
  }

  lemma LongerLine(c: char, lines: seq<string>)
    requires lines != []
    ensures Broken([[c] + lines[0]] + lines[1..]) == [c] + Broken(lines)
  {
    var longer := [[c] + lines[0]] + lines[1..];
    if |lines| > 1 {
      assert longer[1..] == lines[1..];
      assert [c] + (lines[0] + "\r\n" + Broken(lines[1..])) == ([c] + lines[0]) + "\r\n" + Broken(lines[1..]);
    }
  }

  lemma NoNewBreak(s: string, first: string)
    requires |s| >= 2 && !(s[0] == '\r' && s[1] == '\n') && !HasBreak(first)
    requires first != "" ==> first[0] == s[1]
    ensures !HasBreak([s[0]] + first)
  {
    var longer := [s[0]] + first;
    forall i | 0 <= i < |longer| - 1
      ensures !(longer[i] == '\r' && longer[i + 1] == '\n')
    {
      if i > 0 {
        assert longer[i] == first[i - 1] && longer[i + 1] == first[i];
      }
    }
  }

  predicate AllSpace(s: string) {
    forall i :: 0 <= i < |s| ==> IsSpace(s[i])
  }

  lemma {:induction false} TrimStartSplits(s: string) returns (n: nat)
    ensures n <= |s| && AllSpace(s[..n]) && TrimStart(s) == s[n..]
    ensures TrimStart(s) != "" ==> !IsSpace(TrimStart(s)[0])
    decreases |s|
  {
    n := 0;
    if s != "" && IsSpace(s[0]) {
      var m := TrimStartSplits(s[1..]);
      n := m + 1;
      assert s[..n] == [s[0]] + s[1..][..m] && s[n..] == s[1..][m..];
    }
  }

  lemma {:induction false} TrimEndSplits(s: string) returns (n: nat)
    ensures n <= |s| && TrimEnd(s) == s[..n] && AllSpace(s[n..])
    ensures EndsTight(TrimEnd(s))
    decreases |s|
  {
    n := |s|;
    if s != "" && IsSpace(s[|s| - 1]) {
      n := TrimEndSplits(s[..|s| - 1]);
      assert s[n..] == s[..|s| - 1][n..] + [s[|s| - 1]] && s[..|s| - 1][..n] == s[..n];
    }
  }

  /** Trimming takes away white space at both ends and all of it. */
  lemma TrimExact(s: string)
    ensures exists a, b :: AllSpace(a) && AllSpace(b) && s == a + Trim(s) + b
    ensures EndsTight(Trim(s)) && (Trim(s) != "" ==> !IsSpace(Trim(s)[0]))
  {
    var i := TrimStartSplits(s);
    var t := TrimStart(s);
    var n := TrimEndSplits(t);
    assert s == s[..i] + Trim(s) + t[n..];
    assert Trim(s) != "" ==> Trim(s)[0] == t[0];
  }
}
