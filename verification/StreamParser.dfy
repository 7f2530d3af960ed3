/** Token usage read off a streaming body (internal/perf/parser.go). JSON decoding is a parameter. */
module StreamParser {
  import opened Common
  import opened Bytes
  import opened Lines

  const SSE_LINE_CAP: nat := 0x10_0000
  const JSON_CAPTURE_CAP: nat := 0x4_0000

  datatype Usage = Usage(input: int64, output: int64, prompt: int64, completion: int64, cacheRead: int64, cacheCreation: int64,
                         cachedDetail: Option<int64>)
  datatype Message = Message(model: string, usage: Option<Usage>)
  /** content: the first choice's delta carries text. kind and delta are the two type fields. */
  datatype Probe = Probe(model: string, kind: string, usage: Option<Usage>, message: Option<Message>, content: bool, delta: string)

  datatype Seen = Seen(model: string, input: int, cached: int, output: int, token: bool, openAI: bool)
  const NOTHING := Seen("", 0, 0, 0, false, false)

  // ---------- one frame ----------

  /** Regular input of one usage block; the Anthropic sum is a Go addition. */
  function InputOf(u: Usage): int {
    if u.prompt > 0 then u.prompt else Wrap(u.input + u.cacheCreation)
  }

  /** An OpenAI block without details says nothing about cached input. */
  function CachedOf(u: Usage): int {
    if u.prompt > 0 then (if u.cachedDetail.Some? then u.cachedDetail.value else 0) else u.cacheRead
  }

  function OutputOf(u: Usage): int {
    Max(u.output, u.completion)
  }

  /** observeUsage. */
  function ObserveUsage(s: Seen, u: Option<Usage>): Seen {
    match u
    case None => s
    case Some(v) =>
      var cached := if v.prompt > 0 && v.cachedDetail.None? then s.cached else Max(s.cached, CachedOf(v));
      s.(input := Max(s.input, InputOf(v)), cached := cached, output := Max(s.output, OutputOf(v)), openAI := s.openAI || v.prompt > 0)
  }

  predicate Generates(p: Probe) {
    p.content || (p.kind == "content_block_delta" && (p.delta == "text_delta" || p.delta == "thinking_delta"))
  }

  function SeeModel(s: Seen, model: string): Seen {
    if model != "" then s.(model := model) else s
  }

  function SeeMessage(s: Seen, m: Option<Message>): Seen {
    if m.Some? then ObserveUsage(SeeModel(s, m.value.model), m.value.usage) else s
  }

  function Counted(s: Seen, p: Probe): Seen {
    ObserveUsage(SeeModel(SeeMessage(s, p.message), p.model), p.usage)
  }

  /** observe. */
  function Observe(s: Seen, p: Probe, json: bool): Seen {
    var t := Counted(s, p);
    t.(token := t.token || Generates(p) || (json && t.output > 0))
  }

  function Folded(ps: seq<Probe>): Seen {
    if ps == [] then NOTHING else Observe(Folded(ps[..|ps| - 1]), ps[|ps| - 1], false)
  }

  // ---------- the counters are maxima ----------

  /** u is one of the usage blocks of the frame. */
  predicate Reports(p: Probe, u: Usage) {
    p.usage == Some(u) || (p.message.Some? && p.message.value.usage == Some(u))
  }

  ghost predicate Reported(ps: seq<Probe>, u: Usage) {
    exists i :: 0 <= i < |ps| && Reports(ps[i], u)
  }

  /** m is the largest of zero and what the delivered frames report. */
  ghost predicate IsMax(m: int, ps: seq<Probe>, of: Usage -> int) {
    && m >= 0 && (forall u {:trigger Reported(ps, u)} | Reported(ps, u) :: of(u) <= m)
    && (m == 0 || exists u :: Reported(ps, u) && of(u) == m)
  }

  ghost predicate CountersOk(s: Seen, ps: seq<Probe>) {
    && IsMax(s.input, ps, InputOf) && IsMax(s.cached, ps, CachedOf) && IsMax(s.output, ps, OutputOf)
    && (s.openAI <==> AnyOpenAI(ps)) && (s.token <==> AnyToken(ps))
  }

  lemma ReportedAppend(ps: seq<Probe>, p: Probe, u: Usage)
    ensures Reported(ps + [p], u) <==> Reported(ps, u) || Reports(p, u)
  {
    if Reported(ps, u) {
      var i :| 0 <= i < |ps| && Reports(ps[i], u);
      assert Reports((ps + [p])[i], u);
    }
    if Reports(p, u) { assert Reports((ps + [p])[|ps|], u); }
  }

  lemma IsMaxAppend(m: int, ps: seq<Probe>, p: Probe, of: Usage -> int, m': int)
    requires IsMax(m, ps, of) && m <= m' && forall u | Reports(p, u) :: of(u) <= m'
    requires m' == m || exists u :: Reports(p, u) && of(u) == m'
    ensures IsMax(m', ps + [p], of)
  {
    forall u | Reported(ps + [p], u) ensures of(u) <= m' {
      ReportedAppend(ps, p, u);
    }
    if m' != m {
      var u :| Reports(p, u) && of(u) == m';
      ReportedAppend(ps, p, u);
    } else if m != 0 {
      var u :| Reported(ps, u) && of(u) == m;
      ReportedAppend(ps, p, u);
    }
  }

  /** t is s with every counter raised to the largest value the blocks report, or left. */
  ghost predicate Raised(s: Seen, t: Seen, us: set<Usage>) {
    && s.input <= t.input && s.cached <= t.cached && s.output <= t.output
    && (forall u | u in us :: InputOf(u) <= t.input && CachedOf(u) <= t.cached && OutputOf(u) <= t.output)
    && (t.input == s.input || exists u | u in us :: InputOf(u) == t.input)
    && (t.cached == s.cached || exists u | u in us :: CachedOf(u) == t.cached)
    && (t.output == s.output || exists u | u in us :: OutputOf(u) == t.output)
    && (t.openAI <==> s.openAI || exists u | u in us :: u.prompt > 0)
  }

  function Block(u: Option<Usage>): set<Usage> {
    if u.Some? then {u.value} else {}
  }

  lemma UsageRaises(s: Seen, u: Option<Usage>)
    requires s.cached >= 0
    ensures Raised(s, ObserveUsage(s, u), Block(u))
  {
    if u.Some? { assert u.value in Block(u); }
  }

  lemma RaisedTwice(s: Seen, t: Seen, r: Seen, us: set<Usage>, vs: set<Usage>)
    requires Raised(s, t, us) && Raised(t, r, vs)
    ensures Raised(s, r, us + vs)
  {}

  function MessageBlock(m: Option<Message>): set<Usage> {
    if m.Some? then Block(m.value.usage) else {}
  }

  /** The usage blocks of a frame. */
  function Blocks(p: Probe): (us: set<Usage>)
    ensures forall u :: u in us <==> Reports(p, u)
  {
    MessageBlock(p.message) + Block(p.usage)
  }

  lemma MessageRaises(s: Seen, m: Option<Message>)
    requires s.cached >= 0
    ensures Raised(s, SeeMessage(s, m), MessageBlock(m))
  {
    if m.Some? { UsageRaises(SeeModel(s, m.value.model), m.value.usage); }
  }

  /** One frame raises a counter to what it reports, or leaves it. */
  lemma ObserveRaises(s: Seen, p: Probe)
    requires s.cached >= 0
    ensures Raised(s, Observe(s, p, false), Blocks(p))
  {
    var s1 := SeeMessage(s, p.message);
    MessageRaises(s, p.message);
    UsageRaises(SeeModel(s1, p.model), p.usage);
    RaisedTwice(s, s1, Counted(s, p), MessageBlock(p.message), Block(p.usage));
    TokenAside(s, Counted(s, p), Observe(s, p, false), Blocks(p));
  }

  lemma TokenAside(s: Seen, t: Seen, r: Seen, us: set<Usage>)
    requires Raised(s, t, us) && r == t.(token := r.token)
    ensures Raised(s, r, us)
  {}

  /** Whatever order the frames came in and however often. */
  lemma {:induction false} CountersAreMaxima(ps: seq<Probe>)
    ensures CountersOk(Folded(ps), ps)
  {
    if ps == [] {
      assert forall u :: !Reported(ps, u);
    } else {
      var init, p := ps[..|ps| - 1], ps[|ps| - 1];
      CountersAreMaxima(init);
      assert ps == init + [p];
      StepKeepsMaxima(Folded(init), init, p);
      StepKeepsFlags(Folded(init), init, p);
    }
  }

  lemma StepKeepsMaxima(s: Seen, ps: seq<Probe>, p: Probe)
    requires IsMax(s.input, ps, InputOf) && IsMax(s.cached, ps, CachedOf) && IsMax(s.output, ps, OutputOf)
    ensures var t := Observe(s, p, false);
      IsMax(t.input, ps + [p], InputOf) && IsMax(t.cached, ps + [p], CachedOf) && IsMax(t.output, ps + [p], OutputOf)
  {
    var t := Observe(s, p, false);
    ObserveRaises(s, p);
    assert forall u :: Reports(p, u) ==> u in Blocks(p);
    IsMaxAppend(s.input, ps, p, InputOf, t.input);
    IsMaxAppend(s.cached, ps, p, CachedOf, t.cached);
    IsMaxAppend(s.output, ps, p, OutputOf, t.output);
  }

  ghost predicate AnyOpenAI(ps: seq<Probe>) {
    exists u :: Reported(ps, u) && u.prompt > 0
  }

  predicate AnyToken(ps: seq<Probe>) {
    exists i :: 0 <= i < |ps| && Generates(ps[i])
  }

  lemma StepKeepsFlags(s: Seen, ps: seq<Probe>, p: Probe)
    requires s.cached >= 0 && (s.openAI <==> AnyOpenAI(ps)) && (s.token <==> AnyToken(ps))
    ensures var t := Observe(s, p, false); (t.openAI <==> AnyOpenAI(ps + [p])) && (t.token <==> AnyToken(ps + [p]))
  {
    ObserveRaises(s, p);
    OpenAIAppend(ps, p);
    if AnyToken(ps) {
      var i :| 0 <= i < |ps| && Generates(ps[i]);
      assert Generates((ps + [p])[i]);
    }
    if Generates(p) { assert Generates((ps + [p])[|ps|]); }
  }

  lemma OpenAIAppend(ps: seq<Probe>, p: Probe)
    ensures AnyOpenAI(ps + [p]) <==> AnyOpenAI(ps) || exists u | u in Blocks(p) :: u.prompt > 0
  {
    if AnyOpenAI(ps + [p]) {
      var u :| Reported(ps + [p], u) && u.prompt > 0;
      ReportedAppend(ps, p, u);
    }
    if AnyOpenAI(ps) {
      var u :| Reported(ps, u) && u.prompt > 0;
      ReportedAppend(ps, p, u);
    }
    if u :| u in Blocks(p) && u.prompt > 0 { ReportedAppend(ps, p, u); }
  }

  // ---------- said on the fields ----------

  /** The block gives v as regular input: the OpenAI aggregate, or the Anthropic input and cache creation. */
  predicate SaysInput(u: Usage, v: int) {
    if u.prompt > 0 then v == u.prompt else v == Wrap(u.input + u.cacheCreation)
  }

  /** The block gives v as cached input: the OpenAI detail if there is one, or the Anthropic cache read. */
  predicate SaysCached(u: Usage, v: int) {
    if u.prompt > 0 then u.cachedDetail.Some? && v == u.cachedDetail.value else v == u.cacheRead
  }

  /** The block gives v as output, under either name. */
  predicate SaysOutput(u: Usage, v: int) {
    v == u.output || v == u.completion
  }

  /** m is the largest value the delivered blocks give, or zero if that is more. */
  ghost predicate Largest(m: int, ps: seq<Probe>, says: (Usage, int) -> bool) {
    && m >= 0 && (forall u, v {:trigger Reported(ps, u), says(u, v)} | Reported(ps, u) && says(u, v) :: v <= m)
    && (m == 0 || exists u :: Reported(ps, u) && says(u, m))
  }

  /** The counters over the fields of the usage blocks, whichever frames carried them, and both flags. */
  lemma CountersOverFields(ps: seq<Probe>)
    ensures var s := Folded(ps);
      && Largest(s.input, ps, SaysInput) && Largest(s.cached, ps, SaysCached) && Largest(s.output, ps, SaysOutput)
      && (s.openAI <==> exists u :: Reported(ps, u) && u.prompt > 0)
      && (s.token <==> exists i :: 0 <= i < |ps| && (ps[i].content || TextDelta(ps[i].kind, ps[i].delta)))
  {
    CountersAreMaxima(ps);
    InputSaid(Folded(ps).input, ps);
    CachedSaid(Folded(ps).cached, ps);
    OutputSaid(Folded(ps).output, ps);
    TokensSaid(ps);
  }

  lemma TokensSaid(ps: seq<Probe>)
    ensures AnyToken(ps) <==> exists i :: 0 <= i < |ps| && (ps[i].content || TextDelta(ps[i].kind, ps[i].delta))
  {
    assert forall i :: 0 <= i < |ps| ==> (Generates(ps[i]) <==> ps[i].content || TextDelta(ps[i].kind, ps[i].delta));
  }

  /** The two kinds of Anthropic text. */
  predicate TextDelta(kind: string, delta: string) {
    kind == "content_block_delta" && delta in ["text_delta", "thinking_delta"]
  }

  lemma InputSaid(m: int, ps: seq<Probe>)
    requires IsMax(m, ps, InputOf)
    ensures Largest(m, ps, SaysInput)
  {
    if m != 0 {
      var u :| Reported(ps, u) && InputOf(u) == m;
      assert SaysInput(u, m);
    }
  }

  lemma CachedSaid(m: int, ps: seq<Probe>)
    requires IsMax(m, ps, CachedOf)
    ensures Largest(m, ps, SaysCached)
  {
    if m != 0 {
      var u :| Reported(ps, u) && CachedOf(u) == m;
      assert SaysCached(u, m);
    }
  }

  lemma OutputSaid(m: int, ps: seq<Probe>)
    requires IsMax(m, ps, OutputOf)
    ensures Largest(m, ps, SaysOutput)
  {
    if m != 0 {
      var u :| Reported(ps, u) && OutputOf(u) == m;
      assert SaysOutput(u, m);
    }
  }

  /** The model a frame names: its own, or else its message's. */
  function NamedBy(p: Probe): string {
    if p.model != "" then p.model else if p.message.Some? then p.message.value.model else ""
  }

  lemma ObserveModel(s: Seen, p: Probe)
    ensures Observe(s, p, false).model == if NamedBy(p) != "" then NamedBy(p) else s.model
  {}

  /** The model is the one the last frame that names any names. */
  lemma {:induction false} ModelIsLast(ps: seq<Probe>, n: nat)
    requires n <= |ps| && (forall i :: n <= i < |ps| ==> NamedBy(ps[i]) == "") && (n > 0 ==> NamedBy(ps[n - 1]) != "")
    ensures Folded(ps).model == if n > 0 then NamedBy(ps[n - 1]) else ""
  {
    if ps != [] {
      var init, p := ps[..|ps| - 1], ps[|ps| - 1];
      ObserveModel(Folded(init), p);
      if n < |ps| { ModelIsLast(init, n); }
    }
  }

  /** A whole body counts as one frame, except that any output shows it generated. */
  lemma BodyIsOneFrame(p: Probe)
    ensures Observe(NOTHING, p, true) == Folded([p]).(token := Generates(p) || Folded([p]).output > 0)
  {
    assert [p][..0] == [] && Folded([]) == NOTHING;
  }

  lemma MaxIsUnique(m: int, m': int, ps: seq<Probe>, qs: seq<Probe>, of: Usage -> int)
    requires IsMax(m, ps, of) && IsMax(m', qs, of) && forall u :: Reported(ps, u) <==> Reported(qs, u)
    ensures m == m'
  {}

  /** Two deliveries of the same frames, reordered or repeated, count the same. */
  lemma OrderDoesNotMatter(ps: seq<Probe>, qs: seq<Probe>)
    requires forall p :: p in ps <==> p in qs
    ensures Folded(ps).(model := "") == Folded(qs).(model := "")
  {
    CountersAreMaxima(ps);
    CountersAreMaxima(qs);
    forall u ensures Reported(ps, u) <==> Reported(qs, u) {
      SameReports(ps, qs, u);
      SameReports(qs, ps, u);
    }
    MaxIsUnique(Folded(ps).input, Folded(qs).input, ps, qs, InputOf);
    MaxIsUnique(Folded(ps).cached, Folded(qs).cached, ps, qs, CachedOf);
    MaxIsUnique(Folded(ps).output, Folded(qs).output, ps, qs, OutputOf);
    SameTokens(ps, qs);
    SameTokens(qs, ps);
  }

  lemma SameReports(ps: seq<Probe>, qs: seq<Probe>, u: Usage)
    requires forall p :: p in ps ==> p in qs
    ensures Reported(ps, u) ==> Reported(qs, u)
  {
    if Reported(ps, u) {
      var i :| 0 <= i < |ps| && Reports(ps[i], u);
      assert ps[i] in ps;
      var j :| 0 <= j < |qs| && qs[j] == ps[i];
      assert Reports(qs[j], u);
    }
  }

  lemma SameTokens(ps: seq<Probe>, qs: seq<Probe>)
    requires forall p :: p in ps ==> p in qs
    ensures AnyToken(ps) ==> AnyToken(qs)
  {
    if i :| 0 <= i < |ps| && Generates(ps[i]) {
      assert ps[i] in ps;
      var j :| 0 <= j < |qs| && qs[j] == ps[i];
      assert Generates(qs[j]);
    }
  }

  /** settleInputTokens: an aggregate input includes the cached part. */
  function SettleInput(s: Seen): int {
    if s.openAI then Max(0, s.input - s.cached) else s.input
  }

  /** Whatever the frames: regular input is never negative nor above what was reported, and with an
      aggregate of at least the cached part the two add up to it. */
  lemma SettledInputAddsUp(ps: seq<Probe>)
    ensures var s := Folded(ps);
      && 0 <= SettleInput(s) <= s.input
      && (s.openAI && s.cached <= s.input ==> SettleInput(s) + s.cached == s.input)
      && (s.openAI && s.cached > s.input ==> SettleInput(s) == 0)
      && (!AnyOpenAI(ps) ==> SettleInput(s) == s.input)
  {
    CountersAreMaxima(ps);
  }

  // ---------- lines to frames ----------

  /** "data:" */
  const DATA: seq<byte> := [100, 97, 116, 97, 58]
  /** "[DONE]" */
  const DONE: seq<byte> := [91, 68, 79, 78, 69, 93]

  predicate IsSpace(b: byte) {
    b == 32 || 9 <= b <= 13
  }

  function Trim(s: seq<byte>): seq<byte>
    decreases |s|
  {
    if s == [] then [] else if IsSpace(s[0]) then Trim(s[1..]) else if IsSpace(s[|s| - 1]) then Trim(s[..|s| - 1]) else s
  }

  function Payload(line: seq<byte>): Option<seq<byte>> {
    if !(DATA <= line) then None
    else
      var payload := Trim(line[5..]);
      if payload == [] || payload == DONE then None else Some(payload)
  }

  predicate AllSpace(s: seq<byte>) {
    forall i :: 0 <= i < |s| ==> IsSpace(s[i])
  }

  /** Bytes that neither start nor end with white space. */
  predicate Tight(s: seq<byte>) {
    s != [] && !IsSpace(s[0]) && !IsSpace(s[|s| - 1])
  }

  lemma {:induction false} TrimIs(a: seq<byte>, core: seq<byte>, b: seq<byte>)
    requires AllSpace(a) && AllSpace(b) && (Tight(core) || (core == [] && b == []))
    ensures Trim(a + core + b) == core
    decreases |a| + |b|
  {
    var s := a + core + b;
    if a != [] {
      assert s[1..] == a[1..] + core + b;
      TrimIs(a[1..], core, b);
    } else if b != [] {
      assert s[..|s| - 1] == a + core + b[..|b| - 1];
      TrimIs(a, core, b[..|b| - 1]);
    } else {
      assert s == core;
    }
  }

  /** A line is a frame exactly when, between white space, something other than [DONE] follows the data prefix. */
  lemma PayloadAnswers(line: seq<byte>, a: seq<byte>, core: seq<byte>, b: seq<byte>)
    requires AllSpace(a) && AllSpace(b) && (Tight(core) || (core == [] && b == []))
    ensures Payload([100, 97, 116, 97, 58] + a + core + b) == if core == [] || core == [91, 68, 79, 78, 69, 93] then None else Some(core)
    ensures !([100, 97, 116, 97, 58] <= line) ==> Payload(line) == None
  {
    assert ([100, 97, 116, 97, 58] + a + core + b)[5..] == a + core + b;
    TrimIs(a, core, b);
  }

  function Frames(decode: seq<byte> -> Probe, ls: seq<seq<byte>>): seq<Probe> {
    if ls == [] then []
    else
      var p := Payload(ls[|ls| - 1]);
      Frames(decode, ls[..|ls| - 1]) + if p.Some? then [decode(p.value)] else []
  }

  /** What a parser has seen of an event stream, as a function of the bytes alone. */
  function SeenOf(decode: seq<byte> -> Probe, stream: seq<byte>): Seen {
    Folded(Frames(decode, Kept(Complete(stream), SSE_LINE_CAP)))
  }

  lemma FoldedAppend(ps: seq<Probe>, p: Probe)
    ensures Folded(ps + [p]) == Observe(Folded(ps), p, false)
  {
    assert (ps + [p])[..|ps|] == ps;
  }

  function SeeLine(decode: seq<byte> -> Probe, s: Seen, line: seq<byte>): Seen {
    if |line| <= SSE_LINE_CAP && Payload(line).Some? then Observe(s, decode(Payload(line).value), false) else s
  }

  lemma FramesAppend(decode: seq<byte> -> Probe, ls: seq<seq<byte>>, line: seq<byte>)
    ensures Folded(Frames(decode, ls + [line]))
         == (if Payload(line).Some? then Observe(Folded(Frames(decode, ls)), decode(Payload(line).value), false) else Folded(Frames(decode, ls)))
  {
    assert (ls + [line])[..|ls|] == ls;
    if Payload(line).Some? {
      FoldedAppend(Frames(decode, ls), decode(Payload(line).value));
    } else {
      assert Frames(decode, ls + [line]) == Frames(decode, ls);
    }
  }

  lemma SeenAppend(decode: seq<byte> -> Probe, stream: seq<byte>, chunk: seq<byte>)
    requires IsLine(chunk)
    ensures SeenOf(decode, stream + chunk) == SeeLine(decode, SeenOf(decode, stream), Tail(stream) + chunk)
  {
    var line := Tail(stream) + chunk;
    Completes(stream, chunk);
    KeptAppend(Complete(stream), line, SSE_LINE_CAP);
    var ls := Kept(Complete(stream), SSE_LINE_CAP);
    if |line| <= SSE_LINE_CAP {
      FramesAppend(decode, ls, line);
    } else {
      assert ls + [] == ls;
    }
  }

  // ---------- the parser ----------

  datatype Kind = None_ | Sse | Json

  /** The line buffer is a function of the bytes after the last newline. */
  ghost predicate Buffered(stream: seq<byte>, line: seq<byte>, skipLine: bool) {
    && line == (if |Tail(stream)| <= SSE_LINE_CAP then Tail(stream) else [])
    && (skipLine <==> |Tail(stream)| > SSE_LINE_CAP)
  }

  class Parser {
    const kind: Kind
    const decode: seq<byte> -> Probe
    var line: seq<byte>
    var skipLine: bool
    var body: seq<byte>
    var parsed: bool
    var seen: Seen
    /** Everything fed so far. */
    ghost var stream: seq<byte>

    /** The kept state depends on the bytes after the last newline only, the buffer never exceeds the
        cap, and what was seen depends on the bytes, not on how they were cut into chunks. */
    ghost predicate Valid()
      reads this
    {
      && (kind == Sse ==>
            Buffered(stream, line, skipLine) && seen == SeenOf(decode, stream))
      && (kind == Json ==> body == stream[..Min(|stream|, JSON_CAPTURE_CAP)] && (!parsed ==> seen == NOTHING))
    }

    constructor (kind: Kind, decode: seq<byte> -> Probe)
      ensures Valid() && stream == [] && this.kind == kind && this.decode == decode && !parsed
    {
      this.kind, this.decode := kind, decode;
      line, skipLine, body, parsed, seen := [], false, [], false, NOTHING;
      stream := [];
    }

    method Feed(b: seq<byte>)
      requires Valid()
      modifies this
      ensures Valid() && stream == old(stream) + b && parsed == old(parsed)
    {
      match kind
      case Sse => FeedSse(b);
      case Json =>
        if |body| < JSON_CAPTURE_CAP {
          var keep := JSON_CAPTURE_CAP - |body|;
          if keep > |b| { keep := |b|; }
          body := body + b[..keep];
        }
        stream := stream + b;
      case None_ => stream := stream + b;
    }

    method FeedSse(b: seq<byte>)
      requires Valid() && kind == Sse
      modifies this
      ensures Valid() && stream == old(stream) + b && parsed == old(parsed)
    {
      var rest := b;
      while rest != []
        invariant Valid() && stream + rest == old(stream) + b && parsed == old(parsed)
        decreases |rest|
      {
        var i := IndexNewline(rest);
        var chunk := if i < |rest| then rest[..i + 1] else rest;
        assert stream + rest == stream + chunk + rest[|chunk|..];
        FeedChunk(chunk, i < |rest|);
        rest := rest[|chunk|..];
      }
    }

    /** bytes.IndexByte, |b| standing for -1. */
    static method IndexNewline(b: seq<byte>) returns (i: nat)
      ensures i <= |b| && NEWLINE !in b[..i] && (i < |b| ==> b[i] == NEWLINE)
    {
      i := 0;
      while i < |b| && b[i] != NEWLINE
        invariant i <= |b| && NEWLINE !in b[..i]
      {
        i := i + 1;
      }
    }

    /** One piece of a line, ended tells whether it closes it. */
    method FeedChunk(chunk: seq<byte>, ended: bool)
      requires Valid() && kind == Sse && if ended then IsLine(chunk) else NEWLINE !in chunk
      modifies this
      ensures Valid() && stream == old(stream) + chunk && parsed == old(parsed)
    {
      ghost var before := stream;
      stream := stream + chunk;
      if ended {
        SeenAppend(decode, before, chunk);
        Completes(before, chunk);
      } else {
        Extends(before, chunk);
      }
      if skipLine {
        if ended { skipLine, line := false, []; }
      } else if |line| + |chunk| > SSE_LINE_CAP {
        skipLine, line := !ended, [];
      } else {
        line := line + chunk;
        if ended {
          ObserveLine();
          line := [];
        }
      }
    }

    /** observeLine. */
    method ObserveLine()
      requires |line| <= SSE_LINE_CAP
      modifies this`seen
      ensures seen == SeeLine(decode, old(seen), line)
    {
      var p := Payload(line);
      if p.Some? { seen := Observe(seen, decode(p.value), false); }
    }

    /** Idempotent; a JSON body counts when its last non-blank byte closes an object. */
    method Finish()
      requires Valid()
      modifies this
      ensures Valid() && stream == old(stream) && parsed
      ensures old(parsed) || kind != Json ==> seen == old(seen)
      ensures !old(parsed) && kind == Json ==>
                var whole := Trim(stream[..Min(|stream|, JSON_CAPTURE_CAP)]);
                seen == if whole != [] && whole[|whole| - 1] == 125 then Observe(NOTHING, decode(whole), true) else NOTHING
    {
      if parsed { return; }
      parsed := true;
      var whole := Trim(body);
      if kind == Json && whole != [] && whole[|whole| - 1] == 125 {
        seen := Observe(seen, decode(whole), true);
      }
    }
  }

  /** Feeding a stream in any two ways leaves the same state. */
  lemma ChunkingDoesNotMatter(p: Parser, q: Parser)
    requires p.Valid() && q.Valid() && p.kind == q.kind == Sse && p.decode == q.decode && p.stream == q.stream
    ensures p.line == q.line && p.skipLine == q.skipLine && p.seen == q.seen && |p.line| <= SSE_LINE_CAP
  {}
}
