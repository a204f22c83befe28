/** Session descriptions: an offer written as lines, and the ICE part of one read back. */
module Sdp {
  import opened Handshakes
  import opened Text
  import CandidateLine

  datatype Info = Info(ufrag: string, pwd: string, isLite: bool, candidates: seq<string>)

  const NO_INFO := Info("", "", false, [])

  const UFRAG := "a=ice-ufrag:"
  const PWD := "a=ice-pwd:"
  const LITE := "a=ice-lite"
  const CANDIDATE := "a=candidate:"

  datatype Offer = Offer(
    odid: string, timestamp: nat, ufrag: string, pwd: string, candidates: seq<string>, ip: string, port: nat)

  // ----- Writing -----

  function Preamble(o: Offer): seq<string> {
    ["v=0",
     "o=" + o.odid + " " + Decimal(o.timestamp) + " 1 IN IP4 " + o.ip,
     "s=-",
     "t=0 0",
     "m=data " + Decimal(o.port) + " UDP/RTP/AVP 0",
     "c=IN IP4 " + o.ip]
  }

  function CandidateLines(candidates: seq<string>): (lines: seq<string>)
    ensures |lines| == |candidates|
    ensures forall i :: 0 <= i < |lines| ==> lines[i] == "a=" + candidates[i]
  {
    if candidates == [] then [] else ["a=" + candidates[0]] + CandidateLines(candidates[1..])
  }

  function OfferLines(o: Offer): seq<string> {
    Preamble(o) + [UFRAG + o.ufrag, PWD + o.pwd] + CandidateLines(o.candidates)
  }

  /** The lines of an offer come in the order session descriptions need: version, origin, name,
      time, media, connection, and then attributes, those of a candidate its own text. */
  lemma OfferLineOrder(o: Offer)
    ensures var lines := OfferLines(o);
            && |lines| == 8 + |o.candidates|
            && (forall i :: 0 <= i < |lines| ==> |lines[i]| >= 2 && lines[i][1] == '=')
            && lines[0][0] == 'v' && lines[1][0] == 'o' && lines[2][0] == 's' && lines[3][0] == 't'
            && lines[4][0] == 'm' && lines[5][0] == 'c'
            && (forall i :: 6 <= i < |lines| ==> lines[i][0] == 'a')
            && forall i :: 0 <= i < |o.candidates| ==> lines[8 + i][2..] == o.candidates[i]
  {
    var lines := OfferLines(o);
    assert forall i :: 0 <= i < |o.candidates| ==> lines[8 + i] == "a=" + o.candidates[i];
    assert lines[..8] == Preamble(o) + [UFRAG + o.ufrag, PWD + o.pwd];
  }

  method GenerateSdpOffer(o: Offer) returns (sdp: string)
    ensures sdp == Terminated(OfferLines(o))
  {
    var lines := Preamble(o) + [UFRAG + o.ufrag, PWD + o.pwd];
    for i := 0 to |o.candidates|
      invariant lines + CandidateLines(o.candidates[i..]) == OfferLines(o)
    {
      assert o.candidates[i..][1..] == o.candidates[i + 1..];
      lines := lines + ["a=" + o.candidates[i]];
    }
    assert lines == OfferLines(o);
    sdp := "";
    for i := 0 to |lines|
      invariant sdp + Terminated(lines[i..]) == Terminated(lines)
    {
      assert lines[i..][1..] == lines[i + 1..];
      sdp := sdp + (lines[i] + "\r\n");
    }
  }

  // ----- Reading -----

  function ReadLine(info: Info, line: string): Info {
    var trimmed := Trim(line);
    if HasPrefix(trimmed, UFRAG) then info.(ufrag := trimmed[|UFRAG|..])
    else if HasPrefix(trimmed, PWD) then info.(pwd := trimmed[|PWD|..])
    else if trimmed == LITE then info.(isLite := true)
    else if HasPrefix(trimmed, CANDIDATE) then
      info.(candidates := info.candidates + ["candidate:" + trimmed[|CANDIDATE|..]])
    else info
  }

  function ReadLines(info: Info, lines: seq<string>): Info
    decreases |lines|
  {
    if lines == [] then info else ReadLines(ReadLine(info, lines[0]), lines[1..])
  }

  function ParseAnswer(text: string): Info {
    ReadLines(NO_INFO, SplitLines(text))
  }

  method ParseSdpAnswer(text: string) returns (info: Info)
    ensures info == ParseAnswer(text)
  {
    info := NO_INFO;
    var lines := SplitLines(text);
    assert lines[0..] == lines;
    for i := 0 to |lines|
      invariant ReadLines(info, lines[i..]) == ParseAnswer(text)
    {
      assert lines[i..][0] == lines[i] && lines[i..][1..] == lines[i + 1..];
      var trimmed := Trim(lines[i]);
      if HasPrefix(trimmed, UFRAG) {
        info := info.(ufrag := trimmed[|UFRAG|..]);
      } else if HasPrefix(trimmed, PWD) {
        info := info.(pwd := trimmed[|PWD|..]);
      } else if trimmed == LITE {
        info := info.(isLite := true);
      } else if HasPrefix(trimmed, CANDIDATE) {
        info := info.(candidates := info.candidates + ["candidate:" + trimmed[|CANDIDATE|..]]);
      }
    }
  }

  // ----- What an answer says -----

  predicate Says(line: string, prefix: string) {
    HasPrefix(Trim(line), prefix)
  }

  /** The last of the lines that begins so. */
  predicate LastToSay(lines: seq<string>, i: nat, prefix: string)
    requires i < |lines|
  {
    Says(lines[i], prefix) && forall j :: i < j < |lines| ==> !Says(lines[j], prefix)
  }

  /** The candidates among the lines, in order, without the `a=` in front. */
  function CandidatesIn(lines: seq<string>): seq<string> {
    if lines == [] then []
    else
      var last := |lines| - 1;
      CandidatesIn(lines[..last]) + if Says(lines[last], CANDIDATE) then [Trim(lines[last])[2..]] else []
  }

  /** A line speaks of one thing at most. */
  lemma OneThing(line: string, info: Info)
    ensures var next := ReadLine(info, line);
            && next.isLite == (info.isLite || Trim(line) == LITE)
            && (if Says(line, UFRAG) then UFRAG + next.ufrag == Trim(line) else next.ufrag == info.ufrag)
            && (if Says(line, PWD) then PWD + next.pwd == Trim(line) else next.pwd == info.pwd)
            && next.candidates == info.candidates + if Says(line, CANDIDATE) then [Trim(line)[2..]] else []
  {
    assert UFRAG[6] == 'u' && PWD[6] == 'p' && LITE[6] == 'l' && CANDIDATE[2] == 'c';
    assert UFRAG[2] == PWD[2] == LITE[2] == 'i';
    if Says(line, CANDIDATE) {
      var t := Trim(line);
      assert t[..12] == CANDIDATE && CANDIDATE == "a=" + "candidate:";
      assert t[2..] == "candidate:" + t[12..];
    }
  }

  /** The text behind the prefix on the last line that has it, or nothing. */
  ghost predicate Latest(value: string, lines: seq<string>, prefix: string) {
    && ((forall i :: 0 <= i < |lines| ==> !Says(lines[i], prefix)) ==> value == "")
    && forall i :: 0 <= i < |lines| && LastToSay(lines, i, prefix) ==> prefix + value == Trim(lines[i])
  }

  ghost predicate Read(info: Info, lines: seq<string>) {
    && (info.isLite <==> exists i :: 0 <= i < |lines| && Trim(lines[i]) == LITE)
    && Latest(info.ufrag, lines, UFRAG) && Latest(info.pwd, lines, PWD)
    && info.candidates == CandidatesIn(lines)
  }

  lemma FrontSays(front: seq<string>, line: string, prefix: string, i: nat)
    requires i < |front| && !Says(line, prefix)
    ensures LastToSay(front + [line], i, prefix) <==> LastToSay(front, i, prefix)
  {
    var all := front + [line];
    assert all[i] == front[i] && all[|front|] == line;
    if LastToSay(front, i, prefix) {
      forall j | i < j < |all|
        ensures !Says(all[j], prefix)
      {
      }
    } else if Says(front[i], prefix) {
      var j :| i < j < |front| && Says(front[j], prefix);
      assert all[j] == front[j];
    }
  }

  lemma LatestMore(front: seq<string>, line: string, prefix: string, value: string, next: string)
    requires Latest(value, front, prefix)
    requires if Says(line, prefix) then prefix + next == Trim(line) else next == value
    ensures Latest(next, front + [line], prefix)
  {
    var all := front + [line];
    assert all[|front|] == line && forall i :: 0 <= i < |front| ==> all[i] == front[i];
    forall i | 0 <= i < |all| && LastToSay(all, i, prefix)
      ensures prefix + next == Trim(all[i])
    {
      if i < |front| {
        assert !Says(all[|front|], prefix);
        FrontSays(front, line, prefix, i);
      }
    }
    if forall i :: 0 <= i < |all| ==> !Says(all[i], prefix) {
      assert forall i :: 0 <= i < |front| ==> !Says(front[i], prefix);
    }
  }

  lemma LiteMore(front: seq<string>, line: string)
    ensures (exists i :: 0 <= i < |front + [line]| && Trim((front + [line])[i]) == LITE)
            <==> (exists i :: 0 <= i < |front| && Trim(front[i]) == LITE) || Trim(line) == LITE
  {
    var all := front + [line];
    assert all[|front|] == line && forall i :: 0 <= i < |front| ==> all[i] == front[i];
    if i :| 0 <= i < |front| && Trim(front[i]) == LITE {
      assert Trim(all[i]) == LITE;
    }
    if Trim(line) == LITE {
      assert Trim(all[|front|]) == LITE;
    }
  }

  lemma ReadMore(front: seq<string>, line: string, info: Info)
    requires Read(info, front)
    ensures Read(ReadLine(info, line), front + [line])
  {
    var all, next := front + [line], ReadLine(info, line);
    OneThing(line, info);
    LiteMore(front, line);
    LatestMore(front, line, UFRAG, info.ufrag, next.ufrag);
    LatestMore(front, line, PWD, info.pwd, next.pwd);
    assert all[..|front|] == front && all[|front|] == line;
  }

  lemma {:induction false} ReadAll(lines: seq<string>)
    ensures Read(ReadLines(NO_INFO, lines), lines)
    decreases |lines|
  {
    if lines == [] {
      NothingRead();
    } else {
      ReadAll(lines[..|lines| - 1]);
      ReadOneMore(lines, lines[..|lines| - 1], lines[|lines| - 1]);
    }
  }

  lemma ReadOneMore(lines: seq<string>, front: seq<string>, line: string)
    requires lines == front + [line] && Read(ReadLines(NO_INFO, front), front)
    ensures Read(ReadLines(NO_INFO, lines), lines)
  {
    ReadMore(front, line, ReadLines(NO_INFO, front));
    ReadLast(NO_INFO, front, line);
  }

  lemma NothingRead()
    ensures Read(ReadLines(NO_INFO, []), [])
  {
  }

  lemma ReadLast(info: Info, front: seq<string>, line: string)
    ensures ReadLines(info, front + [line]) == ReadLine(ReadLines(info, front), line)
  {
    var before := ReadLines(info, front);
    ReadLinesConcat(info, front, [line]);
    ReadFirst(before, line, [], ReadLine(before, line));
    assert [line] + [] == [line];
  }

  /** Any answer, whatever surrounds it: it is lite exactly if a line says so; user fragment and
      password are those of the last line that gives one, or empty; and the candidates are those
      of the candidate lines, in order. */
  lemma AnswerReads(text: string)
    ensures Read(ParseAnswer(text), SplitLines(text))
  {
    ReadAll(SplitLines(text));
  }

  // ----- Round trip -----

  predicate CandidateText(s: string) {
    HasPrefix(s, CandidateLine.PREFIX) && NoBreak(s) && EndsTight(s)
  }

  /** Nothing in the offer breaks a line, and what is read back ends without white space. */
  predicate Plain(o: Offer) {
    && NoBreak(o.odid) && NoBreak(o.ip)
    && NoBreak(o.ufrag) && EndsTight(o.ufrag) && NoBreak(o.pwd) && EndsTight(o.pwd)
    && forall i :: 0 <= i < |o.candidates| ==> CandidateText(o.candidates[i])
  }

  lemma NoBreakConcat(a: string, b: string)
    requires NoBreak(a) && NoBreak(b)
    ensures NoBreak(a + b)
  {
  }

  lemma TokenNoBreak(s: string)
    requires SpaceFree(s)
    ensures NoBreak(s)
  {
    forall i | 0 <= i < |s|
      ensures s[i] != '\r' && s[i] != '\n'
    {
      assert !IsSpace(s[i]);
    }
  }

  lemma PreamblePlain(o: Offer)
    requires NoBreak(o.odid) && NoBreak(o.ip)
    ensures forall i :: 0 <= i < |Preamble(o)| ==> NoBreak(Preamble(o)[i])
  {
    TokenNoBreak(Decimal(o.timestamp));
    TokenNoBreak(Decimal(o.port));
  }

  lemma OfferPlain(o: Offer)
    requires Plain(o)
    ensures forall i :: 0 <= i < |OfferLines(o)| ==> NoBreak(OfferLines(o)[i])
  {
    PreamblePlain(o);
    NoBreakConcat(UFRAG, o.ufrag);
    NoBreakConcat(PWD, o.pwd);
    var lines := CandidateLines(o.candidates);
    forall i | 0 <= i < |lines|
      ensures NoBreak(lines[i])
    {
      assert CandidateText(o.candidates[i]);
      NoBreakConcat("a=", o.candidates[i]);
    }
  }

  /** A line that begins with another letter says nothing about ICE. */
  lemma OtherLine(info: Info, line: string)
    requires line != "" && line[0] != 'a' && !IsSpace(line[0])
    ensures ReadLine(info, line) == info
  {
    TrimKeepsFront(line);
    assert UFRAG[0] == PWD[0] == LITE[0] == CANDIDATE[0] == 'a';
  }

  lemma UfragLine(info: Info, ufrag: string)
    requires EndsTight(ufrag)
    ensures ReadLine(info, UFRAG + ufrag) == info.(ufrag := ufrag)
  {
    TrimKeepsFront(UFRAG + ufrag);
  }

  lemma PwdLine(info: Info, pwd: string)
    requires EndsTight(pwd)
    ensures ReadLine(info, PWD + pwd) == info.(pwd := pwd)
  {
    var line := PWD + pwd;
    TrimKeepsFront(line);
    assert line[6] == 'p' && UFRAG[6] == 'u';
  }

  lemma CandidateTextLine(info: Info, candidate: string)
    requires CandidateText(candidate)
    ensures ReadLine(info, "a=" + candidate) == info.(candidates := info.candidates + [candidate])
  {
    var line := "a=" + candidate;
    TrimKeepsFront(line);
    assert candidate[..10] == "candidate:";
    assert line[2] == candidate[0] == 'c';
    assert UFRAG[2] == PWD[2] == LITE[2] == 'i';
    assert line[..12] == "a=" + candidate[..10] == CANDIDATE;
    assert line[12..] == candidate[10..];
    assert candidate == "candidate:" + candidate[10..];
  }

  lemma {:induction false} ReadLinesConcat(info: Info, a: seq<string>, b: seq<string>)
    ensures ReadLines(info, a + b) == ReadLines(ReadLines(info, a), b)
    decreases |a|
  {
    if a == [] {
      assert a + b == b;
    } else {
      assert (a + b)[1..] == a[1..] + b;
      ReadLinesConcat(ReadLine(info, a[0]), a[1..], b);
    }
  }

  lemma {:induction false} ReadOthers(info: Info, lines: seq<string>)
    requires forall i :: 0 <= i < |lines| ==> lines[i] != "" && lines[i][0] != 'a' && !IsSpace(lines[i][0])
    ensures ReadLines(info, lines) == info
    decreases |lines|
  {
    if lines != [] {
      OtherLine(info, lines[0]);
      ReadOthers(info, lines[1..]);
    }
  }

  lemma ReadFirst(info: Info, line: string, rest: seq<string>, next: Info)
    requires next == ReadLine(info, line)
    ensures ReadLines(info, [line] + rest) == ReadLines(next, rest)
  {
    assert ([line] + rest)[1..] == rest;
  }

  function With(info: Info, candidates: seq<string>): Info {
    info.(candidates := info.candidates + candidates)
  }

  lemma ReadCandidate(info: Info, candidate: string, rest: seq<string>)
    requires CandidateText(candidate)
    ensures ReadLines(info, ["a=" + candidate] + rest) == ReadLines(With(info, [candidate]), rest)
  {
    CandidateTextLine(info, candidate);
    ReadFirst(info, "a=" + candidate, rest, With(info, [candidate]));
  }

  lemma WithMore(info: Info, first: string, rest: seq<string>, all: seq<string>)
    requires all == [first] + rest
    ensures With(With(info, [first]), rest) == With(info, all)
  {
    assert (info.candidates + [first]) + rest == info.candidates + all;
  }

  lemma {:induction false} ReadCandidates(info: Info, candidates: seq<string>)
    requires forall c :: c in candidates ==> CandidateText(c)
    ensures ReadLines(info, CandidateLines(candidates)) == With(info, candidates)
    decreases |candidates|
  {
    if candidates == [] {
      assert info.candidates + [] == info.candidates;
    } else {
      var first, rest := candidates[0], candidates[1..];
      ReadCandidate(info, first, CandidateLines(rest));
      ReadCandidates(With(info, [first]), rest);
      WithMore(info, first, rest, candidates);
    }
  }

  lemma ReadCredentials(info: Info, ufrag: string, pwd: string)
    requires EndsTight(ufrag) && EndsTight(pwd)
    ensures ReadLines(info, [UFRAG + ufrag, PWD + pwd]) == info.(ufrag := ufrag, pwd := pwd)
  {
    UfragLine(info, ufrag);
    PwdLine(info.(ufrag := ufrag), pwd);
    assert [UFRAG + ufrag, PWD + pwd][1..] == [PWD + pwd] && [PWD + pwd][1..] == [];
    assert ReadLines(info.(ufrag := ufrag), [PWD + pwd]) == ReadLines(info.(ufrag := ufrag, pwd := pwd), []);
  }

  /** An offer without line breaks in it is read back: credentials, candidates in order,
      and not lite. */
  lemma OfferRoundTrip(o: Offer)
    requires Plain(o)
    ensures ParseAnswer(Terminated(OfferLines(o))) == Info(o.ufrag, o.pwd, false, o.candidates)
  {
    OfferPlain(o);
    TerminatedLines(OfferLines(o));
    var credentials, candidates := [UFRAG + o.ufrag, PWD + o.pwd], CandidateLines(o.candidates);
    ReadOthers(NO_INFO, Preamble(o));
    ReadCredentials(NO_INFO, o.ufrag, o.pwd);
    var info := NO_INFO.(ufrag := o.ufrag, pwd := o.pwd);
    ReadCandidates(info, o.candidates);
    ReadLinesConcat(NO_INFO, Preamble(o), credentials);
    ReadLinesConcat(NO_INFO, Preamble(o) + credentials, candidates);
    ReadLinesConcat(NO_INFO, OfferLines(o), [""]);
    assert [] + o.candidates == o.candidates;
    var read := With(info, o.candidates);
    assert ReadLine(read, "") == read;
    assert ReadLines(read, [""]) == ReadLines(ReadLine(read, ""), [""][1..]);
  }

  // ----- Candidates through an offer -----

  function Formatted(cs: seq<CandidateLine.Candidate>): seq<string> {
    seq(|cs|, i requires 0 <= i < |cs| => CandidateLine.Format(cs[i]))
  }

  lemma {:induction false} JoinedPlain(parts: seq<string>)
    requires parts != [] && forall i :: 0 <= i < |parts| ==> IsToken(parts[i])
    ensures NoBreak(Joined(parts)) && Joined(parts) != "" && EndsTight(Joined(parts))
    decreases |parts|
  {
    TokenNoBreak(parts[0]);
    if |parts| > 1 {
      JoinedPlain(parts[1..]);
      var tail := Joined(parts[1..]);
      assert Joined(parts)[|Joined(parts)| - 1] == tail[|tail| - 1];
    }
  }

  lemma FormattedIsText(c: CandidateLine.Candidate)
    requires CandidateLine.WellFormed(c)
    ensures CandidateText(CandidateLine.Format(c))
  {
    JoinedPlain(CandidateLine.Parts(c));
    var joined := Joined(CandidateLine.Parts(c));
    NoBreakConcat(CandidateLine.PREFIX, joined);
    var line := CandidateLine.Format(c);
    assert line[|line| - 1] == joined[|joined| - 1];
  }

  /** Well-formed candidates written into an offer, read from it and read as candidates are
      the candidates they were. */
  lemma CandidatesRoundTrip(o: Offer, cs: seq<CandidateLine.Candidate>)
    requires forall i :: 0 <= i < |cs| ==> CandidateLine.WellFormed(cs[i]) && CandidateLine.Fits(cs[i])
    requires Plain(o.(candidates := []))
    ensures var info := ParseAnswer(Terminated(OfferLines(o.(candidates := Formatted(cs)))));
            && info.ufrag == o.ufrag && info.pwd == o.pwd && !info.isLite && |info.candidates| == |cs|
            && forall i :: 0 <= i < |cs| ==> CandidateLine.Parse(info.candidates[i]) == Some(cs[i])
  {
    var full := o.(candidates := Formatted(cs));
    forall i | 0 <= i < |cs|
      ensures CandidateText(full.candidates[i])
      ensures CandidateLine.Parse(full.candidates[i]) == Some(cs[i])
    {
      FormattedIsText(cs[i]);
      CandidateLine.LineRoundTrip(cs[i]);
    }
    OfferRoundTrip(full);
  }
}
