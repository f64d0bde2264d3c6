/** Picking the client's address out of the forwarding headers. */
module RealIp {
  import opened Options

  /** What net.ParseIP and the trusted networks make of an entry. */
  datatype Kind = NotAnAddress | TrustedProxy | Client

  type Classifier = string -> Kind

  /** The X-Forwarded-For lines of a request, in order, and the value of each other header, "" when it is absent. */
  datatype Headers = Headers(lines: seq<string>, trueClientIp: string, xRealIp: string) {
    /** Header.Get reads the first line only. */
    function ForwardedFor(): string { if lines == [] then "" else lines[0] }
  }

  // ---- Strings ----

  predicate IsSpace(c: char) {
    c == ' ' || c == '\t' || c == '\n' || c == '\r' || c as int == 11 || c as int == 12
  }

  /** strings.TrimSpace, for ASCII white space. */
  function TrimSpace(s: string): string {
    if s == "" then s
    else if IsSpace(s[0]) then TrimSpace(s[1..])
    else if IsSpace(s[|s| - 1]) then TrimSpace(s[..|s| - 1])
    else s
  }

  /** strings.Split(s, ",") */
  function Split(s: string): (parts: seq<string>)
    ensures |parts| > 0
  {
    if s == "" then [""]
    else if s[0] == ',' then [""] + Split(s[1..])
    else var rest := Split(s[1..]); [[s[0]] + rest[0]] + rest[1..]
  }

  lemma {:induction false} SplitConcat(a: string, b: string)
    ensures Split(a + "," + b) == Split(a) + Split(b)
    decreases |a|
  {
    if a == "" {
      assert a + "," + b == "," + b && ("," + b)[1..] == b;
    } else {
      assert (a + "," + b)[1..] == a[1..] + "," + b;
      SplitConcat(a[1..], b);
    }
  }

  lemma {:induction false} SplitWithoutComma(s: string)
    requires ',' !in s
    ensures Split(s) == [s]
    decreases |s|
  {
    if s == "" {
    } else {
      SplitWithoutComma(s[1..]);
      assert [s[0]] + s[1..] == s;
    }
  }

  // ---- The selection ----

  predicate IsClient(kind: Classifier, part: string) {
    kind(TrimSpace(part)) == Client
  }

  /** i is the rightmost entry that is an address and not a trusted proxy. */
  predicate IsRightmostClient(kind: Classifier, parts: seq<string>, i: int) {
    0 <= i < |parts| && IsClient(kind, parts[i]) && forall j :: i < j < |parts| ==> !IsClient(kind, parts[j])
  }

  predicate HasClient(kind: Classifier, parts: seq<string>) {
    exists i :: 0 <= i < |parts| && IsClient(kind, parts[i])
  }

  function Fallback(h: Headers): string {
    if TrimSpace(h.trueClientIp) != "" then TrimSpace(h.trueClientIp) else TrimSpace(h.xRealIp)
  }

  function Entries(h: Headers): seq<string> {
    if h.ForwardedFor() == "" then [] else Split(h.ForwardedFor())
  }

  /** What the result must be: the rightmost client, or a single-value header if and only if there is none. */
  ghost predicate IsExtracted(kind: Classifier, h: Headers, ip: string) {
    if HasClient(kind, Entries(h)) then
      exists i :: IsRightmostClient(kind, Entries(h), i) && ip == TrimSpace(Entries(h)[i])
    else ip == Fallback(h)
  }

  method ExtractForwardedIP(kind: Classifier, h: Headers) returns (ip: string)
    ensures IsExtracted(kind, h, ip)
  {
    if h.ForwardedFor() != "" {
      var parts := Split(h.ForwardedFor());
      var i := |parts| - 1;
      while i >= 0
        invariant -1 <= i < |parts|
        invariant forall j :: i < j < |parts| ==> !IsClient(kind, parts[j])
      {
        ip := TrimSpace(parts[i]);
        var parsed := kind(ip);
        if parsed == NotAnAddress {
          i := i - 1;
          continue;
        }
        if parsed == TrustedProxy {
          i := i - 1;
          continue;
        }
        assert IsRightmostClient(kind, parts, i);
        return;
      }
    }
    ip := TrimSpace(h.trueClientIp);
    if ip != "" {
      return;
    }
    ip := TrimSpace(h.xRealIp);
  }

  /** The specification leaves no choice. */
  lemma ExtractedIsUnique(kind: Classifier, h: Headers, a: string, b: string)
    requires IsExtracted(kind, h, a) && IsExtracted(kind, h, b)
    ensures a == b
  {
  }

  lemma PrefixKeepsRightmost(kind: Classifier, prefix: seq<string>, parts: seq<string>, i: nat)
    requires IsRightmostClient(kind, parts, i)
    ensures IsRightmostClient(kind, prefix + parts, |prefix| + i)
  {
    var longer := prefix + parts;
    forall j | |prefix| + i < j < |longer| ensures !IsClient(kind, longer[j]) {
      assert longer[j] == parts[j - |prefix|];
    }
  }

  lemma ExtractedAt(kind: Classifier, h: Headers, i: nat)
    requires IsRightmostClient(kind, Entries(h), i)
    ensures IsExtracted(kind, h, TrimSpace(Entries(h)[i]))
  {
  }

  lemma ExtractedFrom(kind: Classifier, h: Headers, ip: string) returns (i: nat)
    requires HasClient(kind, Entries(h)) && IsExtracted(kind, h, ip)
    ensures IsRightmostClient(kind, Entries(h), i) && ip == TrimSpace(Entries(h)[i])
  {
    i :| IsRightmostClient(kind, Entries(h), i) && ip == TrimSpace(Entries(h)[i]);
  }

  lemma EntriesPrepended(h: Headers, before: string)
    requires h.ForwardedFor() != ""
    ensures Entries(h.(lines := [before + "," + h.ForwardedFor()] + h.lines[1..])) == Split(before) + Entries(h)
  {
    SplitConcat(before, h.ForwardedFor());
  }

  /** Whatever is put before the header by someone else, an address once found stays the result. */
  lemma PrependingChangesNothing(kind: Classifier, h: Headers, before: string, ip: string)
    requires HasClient(kind, Entries(h)) && IsExtracted(kind, h, ip)
    ensures IsExtracted(kind, h.(lines := [before + "," + h.ForwardedFor()] + h.lines[1..]), ip)
  {
    var longer := h.(lines := [before + "," + h.ForwardedFor()] + h.lines[1..]);
    var i := ExtractedFrom(kind, h, ip);
    EntriesPrepended(h, before);
    PrefixKeepsRightmost(kind, Split(before), Entries(h), i);
    ExtractedAt(kind, longer, |Split(before)| + i);
  }

  // ---- Trimming, and the other headers ----

  predicate IsBlank(s: string) {
    forall i :: 0 <= i < |s| ==> IsSpace(s[i])
  }

  /** It neither starts nor ends with white space. */
  predicate IsTrim(s: string) {
    s != "" ==> !IsSpace(s[0]) && !IsSpace(s[|s| - 1])
  }

  /** White space on both sides goes, and nothing else. */
  lemma {:induction false} TrimmingIsExact(before: string, core: string, after: string)
    requires IsBlank(before) && IsBlank(after) && IsTrim(core)
    ensures TrimSpace(before + core + after) == core
    decreases |before| + |after|
  {
    var s := before + core + after;
    if before != "" {
      assert s[1..] == before[1..] + core + after;
      TrimmingIsExact(before[1..], core, after);
    } else if core == "" {
      assert s == after;
      if after != "" {
        assert s[1..] == before + core + after[1..];
        TrimmingIsExact(before, core, after[1..]);
      }
    } else if after != "" {
      assert s[0] == core[0] && s[|s| - 1] == after[|after| - 1];
      assert s[..|s| - 1] == before + core + after[..|after| - 1];
      TrimmingIsExact(before, core, after[..|after| - 1]);
    } else {
      assert s == core;
    }
  }

  /** Every string is of that form. */
  lemma {:induction false} TrimParts(s: string) returns (before: string, core: string, after: string)
    ensures s == before + core + after && IsBlank(before) && IsBlank(after) && IsTrim(core)
    decreases |s|
  {
    if s == "" {
      return "", "", "";
    } else if IsSpace(s[0]) {
      var b, c, a := TrimParts(s[1..]);
      before, core, after := [s[0]] + b, c, a;
      assert s == [s[0]] + s[1..];
    } else if IsSpace(s[|s| - 1]) {
      var b, c, a := TrimParts(s[..|s| - 1]);
      before, core, after := b, c, a + [s[|s| - 1]];
      assert s == s[..|s| - 1] + [s[|s| - 1]];
    } else {
      before, core, after := "", s, "";
      assert s == "" + s + "";
    }
  }

  /** Without a client in the line that is read, True-Client-IP counts unless it is blank, and only then X-Real-IP. */
  lemma SingleHeadersInOrder(kind: Classifier, h: Headers, before: string, core: string, after: string, ip: string)
    requires !HasClient(kind, Entries(h)) && IsBlank(before) && IsBlank(after) && IsTrim(core)
    ensures core != "" && h.trueClientIp == before + core + after ==> (IsExtracted(kind, h, ip) <==> ip == core)
    ensures IsBlank(h.trueClientIp) && h.xRealIp == before + core + after ==>
              (IsExtracted(kind, h, ip) <==> ip == core)
  {
    TrimmingIsExact(before, core, after);
    if IsBlank(h.trueClientIp) {
      TrimmingIsExact(h.trueClientIp, "", "");
      assert h.trueClientIp + "" + "" == h.trueClientIp;
    }
  }

  // ---- The result as a function of what the lines end with ----

  /** The entries of a line, trimmed. */
  function Addresses(line: string): seq<string> { Trimmed(Split(line)) }

  function Trimmed(parts: seq<string>): seq<string> {
    seq(|parts|, i requires 0 <= i < |parts| => TrimSpace(parts[i]))
  }

  /** The last of some addresses that is a client. */
  function LastClient(kind: Classifier, addresses: seq<string>): Option<string> {
    if addresses == [] then None
    else if kind(addresses[|addresses| - 1]) == Client then Some(addresses[|addresses| - 1])
    else LastClient(kind, addresses[..|addresses| - 1])
  }

  function Or(a: Option<string>, b: Option<string>): Option<string> {
    if a.Some? then a else b
  }

  lemma {:induction false} LastOfConcat(kind: Classifier, a: seq<string>, b: seq<string>)
    ensures LastClient(kind, a + b) == Or(LastClient(kind, b), LastClient(kind, a))
    decreases |b|
  {
    if b == [] {
      assert a + b == a;
    } else {
      assert (a + b)[..|a + b| - 1] == a + b[..|b| - 1];
      LastOfConcat(kind, a, b[..|b| - 1]);
    }
  }

  lemma {:induction false} LastIsRightmost(kind: Classifier, parts: seq<string>)
    ensures HasClient(kind, parts) <==> LastClient(kind, Trimmed(parts)).Some?
    ensures forall i :: IsRightmostClient(kind, parts, i) ==>
              LastClient(kind, Trimmed(parts)) == Some(TrimSpace(parts[i]))
    decreases |parts|
  {
    if parts == [] {
    } else {
      var n := |parts| - 1;
      LastIsRightmost(kind, parts[..n]);
      assert Trimmed(parts)[..n] == Trimmed(parts[..n]);
      if IsClient(kind, parts[n]) {
        assert IsRightmostClient(kind, parts, n);
      } else {
        WithoutLast(kind, parts);
      }
    }
  }

  lemma WithoutLast(kind: Classifier, parts: seq<string>)
    requires parts != [] && !IsClient(kind, parts[|parts| - 1])
    ensures HasClient(kind, parts) <==> HasClient(kind, parts[..|parts| - 1])
    ensures forall i :: IsRightmostClient(kind, parts, i) ==> IsRightmostClient(kind, parts[..|parts| - 1], i)
  {
    var init := parts[..|parts| - 1];
    if HasClient(kind, init) {
      var i :| 0 <= i < |init| && IsClient(kind, init[i]);
      assert IsClient(kind, parts[i]);
    }
    if HasClient(kind, parts) {
      var i :| 0 <= i < |parts| && IsClient(kind, parts[i]);
      assert IsClient(kind, init[i]);
    }
  }

  function LastOf(kind: Classifier, line: string): Option<string> { LastClient(kind, Addresses(line)) }

  /** The empty string is not an address. */
  predicate IsSound(kind: Classifier) {
    kind("") == NotAnAddress
  }

  function Result(kind: Classifier, h: Headers): string {
    var last := LastOf(kind, h.ForwardedFor());
    if last.Some? then last.value else Fallback(h)
  }

  /** The address selected depends only on the last client of the line that is read. */
  lemma ExtractedIsResult(kind: Classifier, h: Headers, ip: string)
    requires IsSound(kind)
    ensures IsExtracted(kind, h, ip) <==> ip == Result(kind, h)
  {
    if h.ForwardedFor() == "" {
      assert Addresses("") == [""] && [""][..0] == [];
    } else {
      var parts := Split(h.ForwardedFor());
      LastIsRightmost(kind, parts);
      if HasClient(kind, parts) {
        var i := RightmostOf(kind, parts);
        assert LastOf(kind, h.ForwardedFor()) == Some(TrimSpace(parts[i]));
      }
    }
  }

  lemma {:induction false} RightmostOf(kind: Classifier, parts: seq<string>) returns (i: nat)
    requires HasClient(kind, parts)
    ensures IsRightmostClient(kind, parts, i)
    decreases |parts|
  {
    var n := |parts| - 1;
    if IsClient(kind, parts[n]) {
      i := n;
    } else {
      WithoutLast(kind, parts);
      i := RightmostOf(kind, parts[..n]);
    }
  }

  // ---- Chains of proxies ----

  /**
   How a proxy passes on the address it was called from: at the end of the first
   line, in a line of its own after the others, or after all lines joined into one.
   */
  datatype Manner = Extending | AddingLine | Joining

  datatype Hop = Hop(manner: Manner, address: string)

  function Appended(line: string, address: string): string {
    if line == "" then address else line + ", " + address
  }

  function Joined(lines: seq<string>): string
    requires lines != []
  {
    if |lines| == 1 then lines[0] else Joined(lines[..|lines| - 1]) + ", " + lines[|lines| - 1]
  }

  function PassedOn(lines: seq<string>, hop: Hop): (passed: seq<string>)
    ensures passed != []
  {
    if lines == [] then [hop.address]
    else match hop.manner
         case Extending => [Appended(lines[0], hop.address)] + lines[1..]
         case AddingLine => lines + [hop.address]
         case Joining => [Joined(lines) + ", " + hop.address]
  }

  function PassedAll(lines: seq<string>, hops: seq<Hop>): seq<string>
    decreases |hops|
  {
    if hops == [] then lines else PassedOn(PassedAll(lines, hops[..|hops| - 1]), hops[|hops| - 1])
  }

  /** An address as proxies write it. */
  predicate IsPlain(address: string) {
    address != "" && ',' !in address && TrimSpace(address) == address
  }

  lemma SplitAfterSpace(s: string)
    ensures Addresses(" " + s) == Addresses(s)
  {
    assert (" " + s)[1..] == s;
    var parts := Split(s);
    assert Split(" " + s) == [[' '] + parts[0]] + parts[1..];
    assert ([' '] + parts[0])[1..] == parts[0];
  }

  lemma AddressesOfConcat(a: string, b: string)
    ensures Addresses(a + ", " + b) == Addresses(a) + Addresses(b)
  {
    assert a + ", " + b == a + "," + (" " + b);
    SplitConcat(a, " " + b);
    SplitAfterSpace(b);
    var left, right := Split(a), Split(" " + b);
    assert Trimmed(left + right) == Trimmed(left) + Trimmed(right);
  }

  lemma AddressesOfPlain(address: string)
    requires IsPlain(address)
    ensures Addresses(address) == [address]
  {
    SplitWithoutComma(address);
  }

  /** What one address at the end of a line changes. */
  lemma LastOfAppended(kind: Classifier, line: string, address: string)
    requires IsSound(kind) && IsPlain(address)
    ensures var own := if kind(address) == Client then Some(address) else None;
            && LastOf(kind, address) == own
            && LastOf(kind, line + ", " + address) == Or(own, LastOf(kind, line))
            && LastOf(kind, Appended(line, address)) == Or(own, LastOf(kind, line))
  {
    AddressesOfPlain(address);
    AddressesOfConcat(line, address);
    LastOfConcat(kind, Addresses(line), [address]);
    assert [address][..0] == [];
    if line == "" {
      assert Addresses("") == [""] && [""][..0] == [];
    }
  }

  /** The last client of the line that is read, and of the lines after it. */
  datatype Clients = Clients(first: Option<string>, others: Option<string>)

  function LastOfAll(kind: Classifier, lines: seq<string>): Option<string> {
    if lines == [] then None
    else Or(LastOf(kind, lines[|lines| - 1]), LastOfAll(kind, lines[..|lines| - 1]))
  }

  function ClientsOf(kind: Classifier, lines: seq<string>): Clients {
    if lines == [] then Clients(None, None) else Clients(LastOf(kind, lines[0]), LastOfAll(kind, lines[1..]))
  }

  lemma LastOfAllStep(kind: Classifier, lines: seq<string>)
    requires |lines| > 1
    ensures LastOfAll(kind, lines[1..])
         == Or(LastOf(kind, lines[|lines| - 1]), LastOfAll(kind, lines[..|lines| - 1][1..]))
  {
    assert lines[1..][..|lines| - 2] == lines[..|lines| - 1][1..];
  }

  lemma LastOfPair(kind: Classifier, a: string, b: string)
    ensures LastOf(kind, a + ", " + b) == Or(LastOf(kind, b), LastOf(kind, a))
  {
    AddressesOfConcat(a, b);
    LastOfConcat(kind, Addresses(a), Addresses(b));
  }

  lemma {:induction false} LastOfJoined(kind: Classifier, lines: seq<string>)
    requires lines != []
    ensures LastOf(kind, Joined(lines)) == Or(LastOfAll(kind, lines[1..]), LastOf(kind, lines[0]))
    decreases |lines|
  {
    var n := |lines| - 1;
    if n == 0 {
    } else {
      LastOfJoined(kind, lines[..n]);
      LastOfPair(kind, Joined(lines[..n]), lines[n]);
      LastOfAllStep(kind, lines);
    }
  }

  /** What a proxy does to them. */
  function ClientsAfter(c: Clients, manner: Manner, noLines: bool, own: Option<string>): Clients {
    if noLines then Clients(own, None)
    else match manner
         case Extending => c.(first := Or(own, c.first))
         case AddingLine => c.(others := Or(own, c.others))
         case Joining => Clients(Or(own, Or(c.others, c.first)), None)
  }

  lemma PassingOn(kind: Classifier, lines: seq<string>, hop: Hop)
    requires IsSound(kind) && IsPlain(hop.address)
    ensures ClientsOf(kind, PassedOn(lines, hop))
         == ClientsAfter(ClientsOf(kind, lines), hop.manner, lines == [],
                         if kind(hop.address) == Client then Some(hop.address) else None)
  {
    if lines == [] {
      LastOfAppended(kind, "", hop.address);
    } else {
      match hop.manner
      case Extending => LastOfAppended(kind, lines[0], hop.address);
      case AddingLine =>
        LastOfAppended(kind, "", hop.address);
        assert (lines + [hop.address])[1..][..|lines| - 1] == lines[1..];
      case Joining =>
        LastOfAppended(kind, Joined(lines), hop.address);
        LastOfJoined(kind, lines);
    }
  }

  predicate SomeJoins(hops: seq<Hop>) {
    exists i :: 0 <= i < |hops| && hops[i].manner == Joining
  }

  predicate IsTrustedChain(kind: Classifier, hops: seq<Hop>) {
    forall i :: 0 <= i < |hops| ==> IsPlain(hops[i].address) && kind(hops[i].address) == TrustedProxy
  }

  /** What trusted proxies do to them: nothing until one joins the lines. */
  function AfterTrusted(c: Clients, joins: bool): Clients {
    if joins then Clients(Or(c.others, c.first), None) else c
  }

  lemma TrustedStep(c: Clients, joins: bool, manner: Manner)
    ensures ClientsAfter(AfterTrusted(c, joins), manner, false, None) == AfterTrusted(c, joins || manner == Joining)
  {
  }

  lemma SomeJoinsStep(hops: seq<Hop>)
    requires hops != []
    ensures var n := |hops| - 1; SomeJoins(hops) <==> SomeJoins(hops[..n]) || hops[n].manner == Joining
  {
    var n := |hops| - 1;
    if SomeJoins(hops[..n]) {
      var i :| 0 <= i < n && hops[..n][i].manner == Joining;
      assert hops[i].manner == Joining;
    }
    if hops[n].manner != Joining && SomeJoins(hops) {
      var i :| 0 <= i < |hops| && hops[i].manner == Joining;
      assert hops[..n][i].manner == Joining;
    }
  }

  lemma {:induction false} TrustedPassing(kind: Classifier, lines: seq<string>, hops: seq<Hop>)
    requires IsSound(kind) && IsTrustedChain(kind, hops) && lines != []
    ensures PassedAll(lines, hops) != []
    ensures ClientsOf(kind, PassedAll(lines, hops)) == AfterTrusted(ClientsOf(kind, lines), SomeJoins(hops))
    decreases |hops|
  {
    if hops == [] {
    } else {
      var n := |hops| - 1;
      TrustedPassing(kind, lines, hops[..n]);
      PassingOn(kind, PassedAll(lines, hops[..n]), hops[n]);
      TrustedStep(ClientsOf(kind, lines), SomeJoins(hops[..n]), hops[n].manner);
      SomeJoinsStep(hops);
    }
  }

  /** The headers after the proxy the client called, and the trusted ones behind it. */
  function ThroughChain(h: Headers, first: Hop, hops: seq<Hop>): Headers {
    h.(lines := PassedAll(PassedOn(h.lines, first), hops))
  }

  /** Exactly when the lines of a request let the address its first proxy saw through. */
  predicate LetsThrough(kind: Classifier, h: Headers, first: Hop, hops: seq<Hop>) {
    h.lines == [] ||
    match first.manner
    case Joining => true
    case Extending => SomeJoins(hops) ==> Or(LastOfAll(kind, h.lines[1..]), Some(first.address)) == Some(first.address)
    case AddingLine => SomeJoins(hops) || Result(kind, h) == first.address
  }

  /** The result behind a chain, from what the request carried. */
  lemma ResultOfChain(kind: Classifier, h: Headers, first: Hop, hops: seq<Hop>)
    requires IsSound(kind) && IsTrustedChain(kind, hops)
    requires IsPlain(first.address) && kind(first.address) == Client
    ensures var seen := ClientsAfter(ClientsOf(kind, h.lines), first.manner, h.lines == [], Some(first.address));
            var last := AfterTrusted(seen, SomeJoins(hops)).first;
            Result(kind, ThroughChain(h, first, hops)) == if last.Some? then last.value else Fallback(h)
  {
    PassingOn(kind, h.lines, first);
    TrustedPassing(kind, PassedOn(h.lines, first), hops);
  }

  lemma FirstClient(kind: Classifier, h: Headers)
    requires h.lines != []
    ensures var c := ClientsOf(kind, h.lines);
            && Result(kind, h) == (if c.first.Some? then c.first.value else Fallback(h))
            && c.others == LastOfAll(kind, h.lines[1..])
  {
  }

  lemma Outcome(c: Clients, manner: Manner, noLines: bool, client: string, joins: bool, fallback: string)
    ensures var last := AfterTrusted(ClientsAfter(c, manner, noLines, Some(client)), joins).first;
            (if last.Some? then last.value else fallback) == client <==>
              || noLines || manner == Joining
              || (manner == Extending && (joins ==> Or(c.others, Some(client)) == Some(client)))
              || (manner == AddingLine && (joins || (if c.first.Some? then c.first.value else fallback) == client))
  {
  }

  lemma ResultIffLetsThrough(kind: Classifier, h: Headers, first: Hop, hops: seq<Hop>)
    requires IsSound(kind) && IsTrustedChain(kind, hops)
    requires IsPlain(first.address) && kind(first.address) == Client
    ensures Result(kind, ThroughChain(h, first, hops)) == first.address <==> LetsThrough(kind, h, first, hops)
  {
    ResultOfChain(kind, h, first, hops);
    Outcome(ClientsOf(kind, h.lines), first.manner, h.lines == [], first.address, SomeJoins(hops), Fallback(h));
    if h.lines != [] {
      FirstClient(kind, h);
    }
  }

  /**
   Whatever lines a request carries and however each proxy passes them on: with
   trusted proxies only, the result is the address the first of them saw if and
   only if it joins the lines, or extends the first and no later one joins to it
   lines that end with another client, or adds its own and a later one joins it or
   the request gave that address itself.
   */
  lemma ChainYieldsClientIff(kind: Classifier, h: Headers, first: Hop, hops: seq<Hop>)
    requires IsSound(kind) && IsTrustedChain(kind, hops)
    requires IsPlain(first.address) && kind(first.address) == Client
    ensures IsExtracted(kind, ThroughChain(h, first, hops), first.address) <==> LetsThrough(kind, h, first, hops)
  {
    ExtractedIsResult(kind, ThroughChain(h, first, hops), first.address);
    ResultIffLetsThrough(kind, h, first, hops);
  }

  /** When all proxies extend the first line or add lines, the first alone decides. */
  lemma FirstProxyDecides(kind: Classifier, h: Headers, first: Hop, hops: seq<Hop>)
    requires IsSound(kind) && IsTrustedChain(kind, hops) && !SomeJoins(hops)
    requires IsPlain(first.address) && kind(first.address) == Client
    ensures IsExtracted(kind, ThroughChain(h, first, hops), first.address)
       <==> first.manner != AddingLine || h.lines == [] || IsExtracted(kind, h, first.address)
  {
    ChainYieldsClientIff(kind, h, first, hops);
    ExtractedIsResult(kind, h, first.address);
  }

  /** When all proxies join the lines, nothing a request carries matters. */
  lemma JoiningYieldsClient(kind: Classifier, h: Headers, first: Hop, hops: seq<Hop>)
    requires IsSound(kind) && IsTrustedChain(kind, hops) && first.manner == Joining
    requires IsPlain(first.address) && kind(first.address) == Client
    ensures IsExtracted(kind, ThroughChain(h, first, hops), first.address)
  {
    ChainYieldsClientIff(kind, h, first, hops);
  }

  /** The part of a request the middleware rewrites. */
  class Request {
    const headers: Headers
    const peer: string            // the raw peer address, without its port
    var remoteAddr: string

    constructor (headers: Headers, peer: string, remoteAddr: string)
      ensures this.headers == headers && this.peer == peer && this.remoteAddr == remoteAddr
    {
      this.headers, this.peer, this.remoteAddr := headers, peer, remoteAddr;
    }

    /** Headers count only when the request really comes from a trusted proxy. */
    method TrustedRealIP(kind: Classifier, anyTrusted: bool)
      modifies this
      ensures !anyTrusted || kind(peer) != TrustedProxy ==> remoteAddr == old(remoteAddr)
      ensures anyTrusted && kind(peer) == TrustedProxy ==>
                exists ip :: IsExtracted(kind, headers, ip) && remoteAddr == if ip != "" then ip else old(remoteAddr)
    {
      if anyTrusted && kind(peer) == TrustedProxy {
        var realIp := ExtractForwardedIP(kind, headers);
        if realIp != "" {
          remoteAddr := realIp;
        }
      }
    }
  }
}
