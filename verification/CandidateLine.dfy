/** ICE candidates as lines of text. */
module CandidateLine {
  import opened Handshakes
  import opened Text

  datatype CandidateType = Host | Srflx | Relay

  datatype Candidate = Candidate(
    foundation: string,
    componentId: nat,
    transport: string,
    priority: nat,
    address: string,
    port: nat,
    kind: CandidateType,
    relatedAddress: string,
    relatedPort: nat)

  const MAX_U8 := 0xFF
  const MAX_U16 := 0xFFFF
  const MAX_U32 := 0xFFFF_FFFF

  /** The widths of the fields. */
  predicate Fits(c: Candidate) {
    c.componentId <= MAX_U8 && c.priority <= MAX_U32 && c.port <= MAX_U16 && c.relatedPort <= MAX_U16
  }

  function TypeName(t: CandidateType): string {
    match t
    case Host => "host"
    case Srflx => "srflx"
    case Relay => "relay"
  }

  function TypeFrom(s: string): Option<CandidateType> {
    if s == "host" then Some(Host) else if s == "srflx" then Some(Srflx) else if s == "relay" then Some(Relay) else None
  }

  const PREFIX := "candidate:"

  // ----- Writing -----

  function BaseParts(c: Candidate): seq<string> {
    [c.foundation, Decimal(c.componentId), c.transport, Decimal(c.priority), c.address, Decimal(c.port),
     "typ", TypeName(c.kind)]
  }

  function RelatedParts(c: Candidate): seq<string> {
    if c.relatedAddress == "" then [] else ["raddr", c.relatedAddress, "rport", Decimal(c.relatedPort)]
  }

  function Parts(c: Candidate): seq<string> {
    BaseParts(c) + RelatedParts(c)
  }

  /** The fields in order, a blank between any two. */
  function Format(c: Candidate): string {
    PREFIX + Joined(Parts(c))
  }

  method FormatCandidateLine(c: Candidate) returns (line: string)
    ensures line == Format(c)
  {
    line := PREFIX + Joined(BaseParts(c));
    if c.relatedAddress != "" {
      JoinedConcat(BaseParts(c), RelatedParts(c));
      line := line + (" " + Joined(RelatedParts(c)));
    } else {
      assert Parts(c) == BaseParts(c);
    }
  }

  // ----- Reading -----

  /** The related address and port named by the tokens from `i` to the last but one. */
  function RelatedFrom(parts: seq<string>, i: nat, address: string, port: nat): (string, nat)
    decreases |parts| - i
  {
    if i + 1 >= |parts| then (address, port)
    else
      RelatedFrom(
        parts, i + 1,
        if parts[i] == "raddr" then parts[i + 1] else address,
        if parts[i] == "rport" then PortOrZero(parts[i + 1]) else port)
  }

  function PortOrZero(s: string): nat {
    match ParseUnsigned(s, MAX_U16)
    case Some(n) => n
    case None => 0
  }

  function Parse(line: string): Option<Candidate> {
    if !HasPrefix(line, PREFIX) then None
    else
      var parts := Tokens(line[|PREFIX|..]);
      if |parts| < 7 then None
      else
        var typeIdx := if |parts| > 7 && parts[6] == "typ" then 7 else 6;
        FromParts(parts, typeIdx, RelatedFrom(parts, typeIdx + 1, "", 0))
  }

  function FromParts(parts: seq<string>, typeIdx: nat, related: (string, nat)): Option<Candidate>
    requires |parts| >= 7 && typeIdx < |parts|
  {
    var componentId, priority, port :=
      ParseUnsigned(parts[1], MAX_U8), ParseUnsigned(parts[3], MAX_U32), ParseUnsigned(parts[5], MAX_U16);
    var kind := TypeFrom(parts[typeIdx]);
    if componentId.None? || priority.None? || port.None? || kind.None? then None
    else
      Some(Candidate(parts[0], componentId.value, parts[2], priority.value, parts[4], port.value, kind.value,
                     related.0, related.1))
  }

  method ParseCandidateLine(line: string) returns (r: Option<Candidate>)
    ensures r == Parse(line)
  {
    if !HasPrefix(line, PREFIX) {
      return None;
    }
    var parts := SplitWhitespace(line[|PREFIX|..]);
    if |parts| < 7 {
      return None;
    }
    var typeIdx := if |parts| > 7 && parts[6] == "typ" then 7 else 6;
    var relatedAddress, relatedPort := "", 0;
    var i := typeIdx + 1;
    while i + 1 < |parts|
      invariant typeIdx + 1 <= i
      invariant RelatedFrom(parts, i, relatedAddress, relatedPort) == RelatedFrom(parts, typeIdx + 1, "", 0)
    {
      if parts[i] == "raddr" {
        relatedAddress := parts[i + 1];
      }
      if parts[i] == "rport" {
        var parsed := ParseUnsigned(parts[i + 1], MAX_U16);
        relatedPort := if parsed.Some? then parsed.value else 0;
      }
      i := i + 1;
    }
    r := FromParts(parts, typeIdx, (relatedAddress, relatedPort));
  }

  method SplitWhitespace(s: string) returns (parts: seq<string>)
    ensures parts == Tokens(s)
  {
    parts := [];
    var rest := s;
    while rest != ""
      invariant parts + Tokens(rest) == Tokens(s)
      decreases |rest|
    {
      if IsSpace(rest[0]) {
        rest := rest[1..];
      } else {
        var n := TokenEnd(rest);
        parts := parts + [rest[..n]];
        rest := rest[n..];
      }
    }
  }

  // ----- Round trip -----

  /** Names are single words, and the related address is not the word that announces one. */
  predicate WellFormed(c: Candidate) {
    && IsToken(c.foundation) && IsToken(c.transport) && IsToken(c.address)
    && if c.relatedAddress == "" then c.relatedPort == 0
       else IsToken(c.relatedAddress) && c.relatedAddress != "raddr"
  }

  lemma RelatedRead(c: Candidate)
    requires Fits(c)
    ensures RelatedFrom(Parts(c), 8, "", 0)
            == if c.relatedAddress == "" then ("", 0)
               else (if c.relatedAddress == "raddr" then "rport" else c.relatedAddress, c.relatedPort)
  {
    var parts := Parts(c);
    if c.relatedAddress != "" {
      DecimalParses(c.relatedPort, MAX_U16);
      assert PortOrZero("rport") == 0 by {
        assert "rport"[..4] == "rpor";
      }
      assert parts[8] == "raddr" && parts[9] == c.relatedAddress && parts[10] == "rport";
      var address := if c.relatedAddress == "raddr" then "rport" else c.relatedAddress;
      assert RelatedFrom(parts, 8, "", 0) == RelatedFrom(parts, 9, c.relatedAddress, 0);
      assert RelatedFrom(parts, 9, c.relatedAddress, 0) == RelatedFrom(parts, 10, address, 0);
      assert RelatedFrom(parts, 10, address, 0) == RelatedFrom(parts, 11, address, c.relatedPort);
    }
  }

  /** What the tokens of a candidate are read as. */
  lemma PartsRead(c: Candidate, related: (string, nat))
    requires Fits(c)
    ensures FromParts(Parts(c), 7, related) == Some(c.(relatedAddress := related.0, relatedPort := related.1))
  {
    DecimalParses(c.componentId, MAX_U8);
    DecimalParses(c.priority, MAX_U32);
    DecimalParses(c.port, MAX_U16);
  }

  lemma {:induction false} RelatedIsToken(parts: seq<string>, i: nat, address: string, port: nat)
    requires forall k :: 0 <= k < |parts| ==> IsToken(parts[k])
    requires address == "" || IsToken(address)
    ensures var related := RelatedFrom(parts, i, address, port).0; related == "" || IsToken(related)
    decreases |parts| - i
  {
    if i + 1 < |parts| {
      RelatedIsToken(parts, i + 1, if parts[i] == "raddr" then parts[i + 1] else address,
                     if parts[i] == "rport" then PortOrZero(parts[i + 1]) else port);
    }
  }

  predicate NamesAreTokens(c: Candidate) {
    && IsToken(c.foundation) && IsToken(c.transport) && IsToken(c.address)
    && (c.relatedAddress == "" || IsToken(c.relatedAddress))
  }

  /** Single words come back as written; only the related address may be misread. */
  lemma NamesReadBack(c: Candidate)
    requires Fits(c) && NamesAreTokens(c)
    ensures var related := RelatedFrom(Parts(c), 8, "", 0);
            Parse(Format(c)) == Some(c.(relatedAddress := related.0, relatedPort := related.1))
  {
    ParsesParts(c);
    PartsRead(c, RelatedFrom(Parts(c), 8, "", 0));
  }

  /** The tokens of a formatted line are the parts it was made of. */
  lemma ParsesParts(c: Candidate)
    requires NamesAreTokens(c)
    ensures Parse(Format(c)) == FromParts(Parts(c), 7, RelatedFrom(Parts(c), 8, "", 0))
  {
    assert Format(c)[|PREFIX|..] == Joined(Parts(c));
    PartsAreTokens(c);
    JoinedTokens(Parts(c));
    assert Parts(c)[6] == "typ";
  }

  lemma PartsAreTokens(c: Candidate)
    requires NamesAreTokens(c)
    ensures forall i :: 0 <= i < |Parts(c)| ==> IsToken(Parts(c)[i])
  {
    forall part | part in Parts(c)
      ensures IsToken(part)
    {
      assert part in BaseParts(c) || part in RelatedParts(c);
    }
  }

  lemma ReadIsToken(c: Candidate)
    requires Parse(Format(c)) == Some(c)
    ensures IsToken(c.foundation) && IsToken(c.transport) && IsToken(c.address)
    ensures c.relatedAddress == "" || IsToken(c.relatedAddress)
  {
    var parts := Tokens(Format(c)[|PREFIX|..]);
    TokensAreTokens(Format(c)[|PREFIX|..]);
    var typeIdx := if |parts| > 7 && parts[6] == "typ" then 7 else 6;
    RelatedIsToken(parts, typeIdx + 1, "", 0);
  }

  /** A candidate line is read back as the candidate it was written from exactly when the
      candidate is well formed. */
  lemma LineRoundTrip(c: Candidate)
    requires Fits(c)
    ensures Parse(Format(c)) == Some(c) <==> WellFormed(c)
  {
    if Parse(Format(c)) == Some(c) {
      ReadIsToken(c);
    }
    if NamesAreTokens(c) {
      NamesReadBack(c);
      RelatedRead(c);
    }
  }

  // ----- The form without `typ` -----

  /** The type may stand by itself, without the word that announces it. */
  function ShortParts(c: Candidate): seq<string> {
    BaseParts(c)[..6] + [TypeName(c.kind)] + RelatedParts(c)
  }

  lemma ShortRelatedRead(c: Candidate)
    requires Fits(c) && WellFormed(c)
    ensures RelatedFrom(ShortParts(c), 7, "", 0) == (c.relatedAddress, c.relatedPort)
  {
    var parts := ShortParts(c);
    if c.relatedAddress != "" {
      DecimalParses(c.relatedPort, MAX_U16);
      assert parts[7] == "raddr" && parts[8] == c.relatedAddress && parts[9] == "rport";
      assert PortOrZero("rport") == 0 by {
        assert "rport"[..4] == "rpor";
      }
      assert RelatedFrom(parts, 7, "", 0) == RelatedFrom(parts, 8, c.relatedAddress, 0);
      assert RelatedFrom(parts, 8, c.relatedAddress, 0) == RelatedFrom(parts, 9, c.relatedAddress, 0);
      assert RelatedFrom(parts, 9, c.relatedAddress, 0) == RelatedFrom(parts, 10, c.relatedAddress, c.relatedPort);
    }
  }

  lemma ShortPartsRead(c: Candidate, related: (string, nat))
    requires Fits(c)
    ensures FromParts(ShortParts(c), 6, related)
            == Some(c.(relatedAddress := related.0, relatedPort := related.1))
  {
    DecimalParses(c.componentId, MAX_U8);
    DecimalParses(c.priority, MAX_U32);
    DecimalParses(c.port, MAX_U16);
  }

  lemma ShortPartsAreTokens(c: Candidate)
    requires WellFormed(c)
    ensures forall i :: 0 <= i < |ShortParts(c)| ==> IsToken(ShortParts(c)[i])
  {
    forall part | part in ShortParts(c)
      ensures IsToken(part)
    {
      assert part in BaseParts(c) || part in RelatedParts(c);
    }
  }

  /** A well-formed candidate is read from that form too. */
  lemma ShortFormRead(c: Candidate)
    requires Fits(c) && WellFormed(c)
    ensures Parse(PREFIX + Joined(ShortParts(c))) == Some(c)
  {
    var line, parts := PREFIX + Joined(ShortParts(c)), ShortParts(c);
    assert line[|PREFIX|..] == Joined(parts);
    ShortPartsAreTokens(c);
    JoinedTokens(parts);
    assert parts[6] == TypeName(c.kind) != "typ";
    ShortRelatedRead(c);
    ShortPartsRead(c, (c.relatedAddress, c.relatedPort));
  }
}
