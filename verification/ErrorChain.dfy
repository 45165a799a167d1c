/** Classifying an error by walking its chain of sources, `arion-lib/src/event_error.rs`.

A chain is the sequence of its links, outermost first. Both walks keep a few flags and may return
early; each is proved to be a rule about the chain as a whole. */
module ErrorChain {
  import opened Common

  datatype IoKind =
    | TimedOut
    | ConnectionReset
    | ConnectionAborted
    | BrokenPipe
    | ConnectionRefused
    | OtherKind(name: string)

  /** The error codes of section 7 of RFC 9113, and codes it does not name. */
  datatype Reason =
    | NO_ERROR | PROTOCOL_ERROR | INTERNAL_ERROR | FLOW_CONTROL_ERROR | SETTINGS_TIMEOUT | STREAM_CLOSED
    | FRAME_SIZE_ERROR | REFUSED_STREAM | CANCEL | COMPRESSION_ERROR | CONNECT_ERROR | ENHANCE_YOUR_CALM
    | INADEQUATE_SECURITY | HTTP_1_1_REQUIRED | UnknownCode(code: nat)

  datatype UpstreamError =
    | Connect(failure: string)
    | Io(kind: IoKind, text: string)
    | PerTryTimeout
    | RouteTimeout
    | Reset
    | RefusedStream
    | Http3PostConnectFailure
    | Protocol(text: string)
    | Other(text: string)

  datatype DownstreamError =
    | DownIo(kind: IoKind, text: string)
    | DownReset
    | DownProtocol(text: string)
    | Timeout
    | DownOther(text: string)

  /** What hyper says about an error of its own; `parse` is any of its three parse tests. */
  datatype Hyper = Hyper(
    timeout: bool,
    incomplete: bool,
    canceled: bool,
    closed: bool,
    writeAborted: bool,
    user: bool,
    parse: bool)

  /** One link. The typed ones stand for the error itself and for the crate's error around it; the body
      errors only matter by whether they are a time-out. `text` is what a link displays. */
  datatype Link =
    | TypedUpstream(upstream: UpstreamError, text: string)
    | TypedDownstream(downstream: DownstreamError, text: string)
    | ConnectLink(failure: string, text: string)
    | IoLink(kind: IoKind, text: string)
    | HyperLink(flags: Hyper, text: string)
    | H2Link(reason: Option<Reason>, text: string)
    | ElapsedLink(text: string)
    | BodyLink(timedOut: bool, text: string)
    | OpaqueLink(text: string)

  const H2_REFUSED := "H2 connection refused"

  function ReasonText(reason: Reason): string {
    match reason
    case PROTOCOL_ERROR => "PROTOCOL_ERROR"
    case FRAME_SIZE_ERROR => "FRAME_SIZE_ERROR"
    case FLOW_CONTROL_ERROR => "FLOW_CONTROL_ERROR"
    case SETTINGS_TIMEOUT => "SETTINGS_TIMEOUT"
    case COMPRESSION_ERROR => "COMPRESSION_ERROR"
    case _ => "other"
  }

  function H2Protocol(reason: Reason): string {
    "h2 protocol error: " + ReasonText(reason)
  }

  predicate IsProtocol(reason: Reason) {
    reason in {PROTOCOL_ERROR, FRAME_SIZE_ERROR, FLOW_CONTROL_ERROR, SETTINGS_TIMEOUT, COMPRESSION_ERROR}
  }

  predicate IsResetKind(kind: IoKind) {
    kind in {ConnectionReset, ConnectionAborted, BrokenPipe}
  }

  // ---- What one link says ----

  predicate TimesOut(link: Link) {
    match link
    case IoLink(kind, _) => kind == TimedOut
    case HyperLink(flags, _) => flags.timeout
    case ElapsedLink(_) => true
    case BodyLink(timedOut, _) => timedOut
    case _ => false
  }

  /** A link whose word is final for the upstream side. */
  function Verdict(link: Link): Option<UpstreamError> {
    match link
    case TypedUpstream(e, _) => Some(e)
    case ConnectLink(failure, _) => Some(Connect(failure))
    case _ => if TimesOut(link) then Some(PerTryTimeout) else None
  }

  function DownVerdict(link: Link): Option<DownstreamError> {
    match link
    case TypedDownstream(e, _) => Some(e)
    case _ => if TimesOut(link) then Some(Timeout) else None
  }

  predicate Refuses(link: Link) {
    link.H2Link? && link.reason == Some(REFUSED_STREAM)
  }

  predicate Resets(link: Link) {
    match link
    case IoLink(kind, _) => IsResetKind(kind)
    case HyperLink(flags, _) => flags.canceled || flags.closed
    case H2Link(reason, _) => reason == None || reason == Some(CANCEL) || reason == Some(NO_ERROR)
    case _ => false
  }

  /** The text of a protocol error, if the link is one. */
  function ProtocolText(link: Link): Option<string> {
    match link
    case HyperLink(flags, text) => if flags.parse then Some(text) else None
    case H2Link(reason, _) => if reason.Some? && IsProtocol(reason.value) then Some(H2Protocol(reason.value)) else None
    case _ => None
  }

  function Fallback(link: Link): Option<(IoKind, string)> {
    match link
    case IoLink(kind, text) => Some((kind, text))
    case H2Link(reason, _) => if reason == Some(CONNECT_ERROR) then Some((ConnectionRefused, H2_REFUSED)) else None
    case _ => None
  }

  function DownFallback(link: Link): Option<(IoKind, string)> {
    if link.IoLink? then Some((link.kind, link.text)) else None
  }

  // ---- The rules ----

  /** What the first link that has something to say says. */
  function First<T>(chain: seq<Link>, say: Link -> Option<T>): Option<T> {
    if chain == [] then None else if say(chain[0]).Some? then say(chain[0]) else First(chain[1..], say)
  }

  predicate Any(chain: seq<Link>, test: Link -> bool) {
    exists i :: 0 <= i < |chain| && test(chain[i])
  }

  /** The earliest final word decides; without one, refused before reset before the first protocol
      error before the first I/O error before nothing in particular. */
  function UpstreamRule(chain: seq<Link>): UpstreamError
    requires chain != []
  {
    var verdict := First(chain, Verdict);
    var protocol := First(chain, ProtocolText);
    var fallback := First(chain, Fallback);
    if verdict.Some? then verdict.value
    else if Any(chain, Refuses) then RefusedStream
    else if Any(chain, Resets) then Reset
    else if protocol.Some? then Protocol(protocol.value)
    else if fallback.Some? then Io(fallback.value.0, fallback.value.1)
    else Other(chain[0].text)
  }

  function DownstreamRule(chain: seq<Link>): DownstreamError
    requires chain != []
  {
    var verdict := First(chain, DownVerdict);
    var protocol := First(chain, ProtocolText);
    var fallback := First(chain, DownFallback);
    if verdict.Some? then verdict.value
    else if Any(chain, Refuses) || Any(chain, Resets) then DownReset
    else if protocol.Some? then DownProtocol(protocol.value)
    else if fallback.Some? then DownIo(fallback.value.0, fallback.value.1)
    else DownOther(chain[0].text)
  }

  // ---- The walks ----

  lemma {:induction false} FirstAppend<T>(chain: seq<Link>, link: Link, say: Link -> Option<T>)
    ensures First(chain + [link], say) == if First(chain, say).Some? then First(chain, say) else say(link)
  {
    if chain == [] { assert [link][1..] == []; }
    else {
      assert (chain + [link])[1..] == chain[1..] + [link];
      FirstAppend(chain[1..], link, say);
    }
  }

  lemma {:induction false} FirstSplit<T>(chain: seq<Link>, rest: seq<Link>, say: Link -> Option<T>)
    requires First(chain, say).None?
    ensures First(chain + rest, say) == First(rest, say)
  {
    if chain == [] { assert chain + rest == rest; }
    else {
      assert (chain + rest)[1..] == chain[1..] + rest;
      FirstSplit(chain[1..], rest, say);
    }
  }

  lemma {:induction false} AnyAppend(chain: seq<Link>, link: Link, test: Link -> bool)
    ensures Any(chain + [link], test) <==> Any(chain, test) || test(link)
  {
    var more := chain + [link];
    assert more[|chain|] == link && forall i :: 0 <= i < |chain| ==> more[i] == chain[i];
  }

  /** A link that is final ends the walk with the rule's answer. */
  lemma {:induction false} WalkEnds<T>(chain: seq<Link>, i: nat, say: Link -> Option<T>)
    requires i < |chain| && First(chain[..i], say).None? && say(chain[i]).Some?
    ensures First(chain, say) == say(chain[i])
  {
    FirstSplit(chain[..i], chain[i..], say);
    assert chain == chain[..i] + chain[i..];
  }

  /** The walk's accumulators. */
  datatype Notes = Notes(reset: bool, refused: bool, protocol: Option<string>, fallback: Option<(IoKind, string)>)

  /** What the accumulators hold after some links: flags any of them raised, texts the first of them gave. */
  ghost predicate Noted(chain: seq<Link>, notes: Notes, fallback: Link -> Option<(IoKind, string)>) {
    && notes.reset == Any(chain, Resets) && notes.refused == Any(chain, Refuses)
    && notes.protocol == First(chain, ProtocolText) && notes.fallback == First(chain, fallback)
  }

  /** What one link adds to them. */
  ghost predicate Adds(link: Link, notes: Notes, after: Notes, fallback: Link -> Option<(IoKind, string)>) {
    && after.reset == (notes.reset || Resets(link)) && after.refused == (notes.refused || Refuses(link))
    && after.protocol == (if notes.protocol.Some? then notes.protocol else ProtocolText(link))
    && after.fallback == (if notes.fallback.Some? then notes.fallback else fallback(link))
  }

  lemma {:induction false} NotedAppend(chain: seq<Link>, link: Link, notes: Notes, after: Notes,
                                       fallback: Link -> Option<(IoKind, string)>)
    requires Noted(chain, notes, fallback) && Adds(link, notes, after, fallback)
    ensures Noted(chain + [link], after, fallback)
  {
    FirstAppend(chain, link, ProtocolText);
    FirstAppend(chain, link, fallback);
    AnyAppend(chain, link, Resets);
    AnyAppend(chain, link, Refuses);
  }

  /** One round of the upstream loop: a verdict, or the accumulators with the link's share added. */
  method VisitUpstream(link: Link, notes: Notes) returns (verdict: Option<UpstreamError>, after: Notes)
    ensures verdict == Verdict(link)
    ensures verdict.None? ==> Adds(link, notes, after, Fallback)
  {
    verdict, after := None, notes;
    match link {
      case TypedUpstream(e, _) => return Some(e), notes;
      case ConnectLink(failure, _) => return Some(Connect(failure)), notes;
      case IoLink(kind, text) =>
        if kind == TimedOut { return Some(PerTryTimeout), notes; }
        if IsResetKind(kind) { after := after.(reset := true); }
        if after.fallback.None? { after := after.(fallback := Some((kind, text))); }
      case HyperLink(h, text) =>
        if h.timeout { return Some(PerTryTimeout), notes; }
        if h.canceled || h.closed { after := after.(reset := true); }
        if after.protocol.None? && h.parse { after := after.(protocol := Some(text)); }
      case H2Link(reason, _) =>
        if reason == Some(REFUSED_STREAM) { after := after.(refused := true); }
        if reason == Some(CANCEL) || reason == Some(NO_ERROR) || reason == None { after := after.(reset := true); }
        if after.protocol.None? && reason.Some? && IsProtocol(reason.value) {
          after := after.(protocol := Some(H2Protocol(reason.value)));
        }
        if after.fallback.None? && reason == Some(CONNECT_ERROR) {
          after := after.(fallback := Some((ConnectionRefused, H2_REFUSED)));
        }
      case ElapsedLink(_) => return Some(PerTryTimeout), notes;
      case BodyLink(timedOut, _) => if timedOut { return Some(PerTryTimeout), notes; }
      case TypedDownstream(_, _) =>
      case OpaqueLink(_) =>
    }
  }

  method ClassifyUpstream(chain: seq<Link>) returns (r: UpstreamError)
    requires chain != []
    ensures r == UpstreamRule(chain)
  {
    var notes := Notes(false, false, None, None);
    for i := 0 to |chain|
      invariant First(chain[..i], Verdict).None? && Noted(chain[..i], notes, Fallback)
    {
      var verdict, after := VisitUpstream(chain[i], notes);
      if verdict.Some? {
        WalkEnds(chain, i, Verdict);
        return verdict.value;
      }
      assert chain[..i + 1] == chain[..i] + [chain[i]];
      FirstAppend(chain[..i], chain[i], Verdict);
      NotedAppend(chain[..i], chain[i], notes, after, Fallback);
      notes := after;
    }
    assert chain[..|chain|] == chain;
    if notes.refused { return RefusedStream; }
    if notes.reset { return Reset; }
    if notes.protocol.Some? { return Protocol(notes.protocol.value); }
    if notes.fallback.Some? { return Io(notes.fallback.value.0, notes.fallback.value.1); }
    return Other(chain[0].text);
  }

  /** One round of the downstream loop, which keeps a single flag for resets and refusals. */
  method VisitDownstream(link: Link, notes: Notes) returns (verdict: Option<DownstreamError>, after: Notes)
    ensures verdict == DownVerdict(link)
    ensures verdict.None? ==>
      && after.reset == (notes.reset || Resets(link) || Refuses(link)) && after.refused == notes.refused
      && after.protocol == (if notes.protocol.Some? then notes.protocol else ProtocolText(link))
      && after.fallback == (if notes.fallback.Some? then notes.fallback else DownFallback(link))
  {
    verdict, after := None, notes;
    match link {
      case TypedDownstream(e, _) => return Some(e), notes;
      case IoLink(kind, text) =>
        if kind == TimedOut { return Some(Timeout), notes; }
        if IsResetKind(kind) { after := after.(reset := true); }
        if after.fallback.None? { after := after.(fallback := Some((kind, text))); }
      case HyperLink(h, text) =>
        if h.timeout { return Some(Timeout), notes; }
        if h.canceled || h.closed { after := after.(reset := true); }
        if after.protocol.None? && h.parse { after := after.(protocol := Some(text)); }
      case H2Link(reason, _) =>
        if reason == Some(REFUSED_STREAM) || reason == Some(CANCEL) || reason == Some(NO_ERROR) || reason == None {
          after := after.(reset := true);
        }
        if after.protocol.None? && reason.Some? && IsProtocol(reason.value) {
          after := after.(protocol := Some(H2Protocol(reason.value)));
        }
      case ElapsedLink(_) => return Some(Timeout), notes;
      case BodyLink(timedOut, _) => if timedOut { return Some(Timeout), notes; }
      case TypedUpstream(_, _) =>
      case ConnectLink(_, _) =>
      case OpaqueLink(_) =>
    }
  }

  method ClassifyDownstream(chain: seq<Link>) returns (r: DownstreamError)
    requires chain != []
    ensures r == DownstreamRule(chain)
  {
    var notes := Notes(false, false, None, None);
    for i := 0 to |chain|
      invariant First(chain[..i], DownVerdict).None?
      invariant notes.reset == (Any(chain[..i], Resets) || Any(chain[..i], Refuses))
      invariant notes.protocol == First(chain[..i], ProtocolText) && notes.fallback == First(chain[..i], DownFallback)
    {
      var verdict, after := VisitDownstream(chain[i], notes);
      if verdict.Some? {
        WalkEnds(chain, i, DownVerdict);
        return verdict.value;
      }
      assert chain[..i + 1] == chain[..i] + [chain[i]];
      FirstAppend(chain[..i], chain[i], DownVerdict);
      FirstAppend(chain[..i], chain[i], ProtocolText);
      FirstAppend(chain[..i], chain[i], DownFallback);
      AnyAppend(chain[..i], chain[i], Resets);
      AnyAppend(chain[..i], chain[i], Refuses);
      notes := after;
    }
    assert chain[..|chain|] == chain;
    if notes.reset { return DownReset; }
    if notes.protocol.Some? { return DownProtocol(notes.protocol.value); }
    if notes.fallback.Some? { return DownIo(notes.fallback.value.0, notes.fallback.value.1); }
    return DownOther(chain[0].text);
  }

  // ---- Wrapping ----

  predicate AllOpaque(wrappers: seq<Link>) {
    forall i :: 0 <= i < |wrappers| ==> wrappers[i].OpaqueLink?
  }

  lemma {:induction false} OpaqueSaysNothing<T>(wrappers: seq<Link>, say: Link -> Option<T>)
    requires AllOpaque(wrappers) && forall text :: say(OpaqueLink(text)).None?
    ensures First(wrappers, say).None?
  {
    if wrappers == [] {
    } else {
      assert wrappers[0] == OpaqueLink(wrappers[0].text);
      OpaqueSaysNothing(wrappers[1..], say);
    }
  }

  lemma {:induction false} AnyWrapped(wrappers: seq<Link>, chain: seq<Link>, test: Link -> bool)
    requires forall i :: 0 <= i < |wrappers| ==> !test(wrappers[i])
    ensures Any(wrappers + chain, test) <==> Any(chain, test)
  {
    var all := wrappers + chain;
    if Any(chain, test) {
      var i :| 0 <= i < |chain| && test(chain[i]);
      assert all[|wrappers| + i] == chain[i];
    }
    if Any(all, test) {
      var i :| 0 <= i < |all| && test(all[i]);
      assert i >= |wrappers| && all[i] == chain[i - |wrappers|];
    }
  }

  /** Wrapping an error in opaque ones changes neither classification, except that an unclassified
      error shows the outermost text. */
  lemma {:induction false} WrappersAreTransparent(wrappers: seq<Link>, chain: seq<Link>)
    requires chain != [] && wrappers != [] && AllOpaque(wrappers)
    ensures UpstreamRule(wrappers + chain)
         == if UpstreamRule(chain).Other? && First(chain, Verdict).None? then Other(wrappers[0].text)
            else UpstreamRule(chain)
    ensures DownstreamRule(wrappers + chain)
         == if DownstreamRule(chain).DownOther? && First(chain, DownVerdict).None? then DownOther(wrappers[0].text)
            else DownstreamRule(chain)
  {
    Skip(wrappers, chain, Verdict);
    Skip(wrappers, chain, DownVerdict);
    Skip(wrappers, chain, ProtocolText);
    Skip(wrappers, chain, Fallback);
    Skip(wrappers, chain, DownFallback);
    AnyWrapped(wrappers, chain, Resets);
    AnyWrapped(wrappers, chain, Refuses);
  }

  lemma {:induction false} Skip<T>(wrappers: seq<Link>, chain: seq<Link>, say: Link -> Option<T>)
    requires AllOpaque(wrappers) && forall text :: say(OpaqueLink(text)).None?
    ensures First(wrappers + chain, say) == First(chain, say)
  {
    OpaqueSaysNothing(wrappers, say);
    FirstSplit(wrappers, chain, say);
  }

  // ---- The two walks agree ----

  /** The downstream name of an upstream classification. */
  function Image(e: UpstreamError): DownstreamError {
    match e
    case PerTryTimeout => Timeout
    case RefusedStream => DownReset
    case Reset => DownReset
    case Protocol(text) => DownProtocol(text)
    case Io(kind, text) => DownIo(kind, text)
    case Other(text) => DownOther(text)
    case _ => DownOther("")
  }

  /** Links that mean something to one side only. */
  predicate OneSided(link: Link) {
    || link.TypedUpstream? || link.TypedDownstream? || link.ConnectLink?
    || (link.H2Link? && link.reason == Some(CONNECT_ERROR))
  }

  lemma {:induction false} SidesAgree(chain: seq<Link>)
    requires forall i :: 0 <= i < |chain| ==> !OneSided(chain[i])
    ensures First(chain, Verdict) == None || First(chain, Verdict) == Some(PerTryTimeout)
    ensures First(chain, DownVerdict) == if First(chain, Verdict).Some? then Some(Timeout) else None
    ensures First(chain, DownFallback) == First(chain, Fallback)
  {
    if chain == [] {
    } else {
      SidesAgree(chain[1..]);
    }
  }

  /** On chains whose links mean the same to both sides, the two walks give the same answer. */
  lemma {:induction false} DownstreamIsImage(chain: seq<Link>)
    requires chain != [] && forall i :: 0 <= i < |chain| ==> !OneSided(chain[i])
    ensures DownstreamRule(chain) == Image(UpstreamRule(chain))
  {
    SidesAgree(chain);
  }

  // ---- The typed conversions ----

  function UpstreamFromH2(reason: Option<Reason>, text: string): UpstreamError {
    match reason
    case None => Reset
    case Some(r) =>
      if r == REFUSED_STREAM then RefusedStream
      else if r == CANCEL || r == NO_ERROR then Reset
      else if IsProtocol(r) then Protocol(H2Protocol(r))
      else if r == CONNECT_ERROR then Io(ConnectionRefused, H2_REFUSED)
      else Other(text)
  }

  function DownstreamFromH2(reason: Option<Reason>, text: string): DownstreamError {
    match reason
    case None => DownReset
    case Some(r) =>
      if r == REFUSED_STREAM || r == CANCEL || r == NO_ERROR then DownReset
      else if IsProtocol(r) then DownProtocol(H2Protocol(r))
      else if r == CONNECT_ERROR then DownIo(ConnectionRefused, H2_REFUSED)
      else DownOther(text)
  }

  function UpstreamFromIo(kind: IoKind, text: string): UpstreamError {
    if kind == TimedOut then PerTryTimeout else if IsResetKind(kind) then Reset else Io(kind, text)
  }

  function DownstreamFromIo(kind: IoKind, text: string): DownstreamError {
    if kind == TimedOut then Timeout else if IsResetKind(kind) then DownReset else DownIo(kind, text)
  }

  /** For an hyper error without a source; the last case walks the chain, which is this one link. */
  /** The typed conversions of a hyper error with the chain of its sources. */
  function UpstreamFromHyper(h: Hyper, text: string, sources: seq<Link>): UpstreamError {
    if h.timeout || h.incomplete then PerTryTimeout
    else if h.canceled || h.closed || h.writeAborted then Reset
    else if h.user then Io(ConnectionAborted, text)
    else if h.parse then Protocol(text)
    else UpstreamRule([HyperLink(h, text)] + sources)
  }

  function DownstreamFromHyper(h: Hyper, text: string): DownstreamError {
    if h.timeout then Timeout
    else if h.incomplete || h.canceled || h.closed || h.writeAborted || h.user then DownReset
    else if h.parse then DownProtocol(text)
    else DownOther(text)
  }

  lemma {:induction false} SingleLink(link: Link)
    ensures First([link], Verdict) == Verdict(link) && First([link], DownVerdict) == DownVerdict(link)
    ensures First([link], ProtocolText) == ProtocolText(link)
    ensures First([link], Fallback) == Fallback(link) && First([link], DownFallback) == DownFallback(link)
    ensures Any([link], Resets) == Resets(link) && Any([link], Refuses) == Refuses(link)
  {
    assert [link][0] == link && [link][1..] == [];
  }

  /** On a single link the walks agree with the typed conversions: always for I/O errors, always for
      h2 errors upstream, and downstream exactly when the reason is not CONNECT_ERROR, which the
      downstream walk forgets. */
  lemma {:induction false} TypedConversionsAgree(kind: IoKind, reason: Option<Reason>, text: string)
    ensures UpstreamRule([IoLink(kind, text)]) == UpstreamFromIo(kind, text)
    ensures DownstreamRule([IoLink(kind, text)]) == DownstreamFromIo(kind, text)
    ensures UpstreamRule([H2Link(reason, text)]) == UpstreamFromH2(reason, text)
    ensures DownstreamRule([H2Link(reason, text)]) == DownstreamFromH2(reason, text) <==> reason != Some(CONNECT_ERROR)
  {
    SingleLink(IoLink(kind, text));
    SingleLink(H2Link(reason, text));
  }

  lemma {:induction false} ConsLink(link: Link, rest: seq<Link>)
    ensures First([link] + rest, Verdict) == if Verdict(link).Some? then Verdict(link) else First(rest, Verdict)
    ensures First([link] + rest, DownVerdict)
         == if DownVerdict(link).Some? then DownVerdict(link) else First(rest, DownVerdict)
    ensures First([link] + rest, ProtocolText)
         == if ProtocolText(link).Some? then ProtocolText(link) else First(rest, ProtocolText)
    ensures First([link] + rest, Fallback) == if Fallback(link).Some? then Fallback(link) else First(rest, Fallback)
    ensures First([link] + rest, DownFallback)
         == if DownFallback(link).Some? then DownFallback(link) else First(rest, DownFallback)
  {
    assert ([link] + rest)[1..] == rest;
  }

  lemma {:induction false} ConsAny(link: Link, rest: seq<Link>, test: Link -> bool)
    ensures Any([link] + rest, test) <==> test(link) || Any(rest, test)
  {
    var all := [link] + rest;
    assert all[0] == link && forall i :: 0 <= i < |rest| ==> rest[i] == all[i + 1];
    assert forall i :: 0 < i < |all| ==> all[i] == rest[i - 1];
  }

  /** An aborted connection is a reset, so it is never what the walk falls back on. */
  lemma {:induction false} AbortedIsReset(chain: seq<Link>, text: string)
    requires First(chain, Fallback) == Some((ConnectionAborted, text))
    ensures Any(chain, Resets)
  {
    if Fallback(chain[0]).Some? {
      assert Resets(chain[0]);
    } else {
      AbortedIsReset(chain[1..], text);
      var i :| 0 <= i < |chain[1..]| && Resets(chain[1..][i]);
      assert Resets(chain[i + 1]);
    }
  }

  /** The verdict among the sources is this one or, where there is none, a condition holds. */
  predicate Settles<E(==)>(verdict: Option<E>, expected: E, otherwise: bool) {
    if verdict.Some? then verdict.value == expected else otherwise
  }

  /** When the upstream walk, which also hears the sources, says what the hyper error's flags say. */
  ghost predicate SourcesAgreeUpstream(h: Hyper, text: string, sources: seq<Link>) {
    var verdict := First(sources, Verdict);
    var refused, reset := Any(sources, Refuses), Any(sources, Resets);
    if h.timeout then true
    else if h.incomplete then verdict == Some(PerTryTimeout)
    else if h.canceled || h.closed then Settles(verdict, Reset, !refused)
    else if h.writeAborted then Settles(verdict, Reset, !refused && reset)
    else if h.user then verdict == Some(Io(ConnectionAborted, text))
    else if h.parse then Settles(verdict, Protocol(text), !refused && !reset)
    else true
  }

  ghost predicate SourcesAgreeDownstream(h: Hyper, text: string, sources: seq<Link>) {
    var verdict := First(sources, DownVerdict);
    var reset := Any(sources, Refuses) || Any(sources, Resets);
    if h.timeout then true
    else if h.canceled || h.closed then Settles(verdict, DownReset, true)
    else if h.incomplete || h.writeAborted || h.user then Settles(verdict, DownReset, reset)
    else if h.parse then Settles(verdict, DownProtocol(text), !reset)
    else
      Settles(verdict, DownOther(text),
              !reset && First(sources, ProtocolText).None? && First(sources, DownFallback).None?)
  }

  /** For a hyper error with any sources, exactly when the typed conversion upstream, which reads its
      flags, and the walk, which goes on to the sources, come to the same. */
  lemma {:induction false} HyperConversionAgreesExactly(h: Hyper, text: string, sources: seq<Link>)
    ensures UpstreamRule([HyperLink(h, text)] + sources) == UpstreamFromHyper(h, text, sources)
       <==> SourcesAgreeUpstream(h, text, sources)
  {
    var link := HyperLink(h, text);
    ConsLink(link, sources);
    ConsAny(link, sources, Resets);
    ConsAny(link, sources, Refuses);
    if First(sources, Fallback) == Some((ConnectionAborted, text)) { AbortedIsReset(sources, text); }
  }

  /** The same downstream, where the typed conversion never looks at the sources. */
  lemma {:induction false} DownstreamHyperAgreesExactly(h: Hyper, text: string, sources: seq<Link>)
    ensures DownstreamRule([HyperLink(h, text)] + sources) == DownstreamFromHyper(h, text)
       <==> SourcesAgreeDownstream(h, text, sources)
  {
    var link := HyperLink(h, text);
    ConsLink(link, sources);
    ConsAny(link, sources, Resets);
    ConsAny(link, sources, Refuses);
  }
}
