/** The delta-xDS test server: a sender task pushes resources and registers each push's nonce, a
receiver task completes pushes from the client's replies, and a client stands in between.

This is the ACK/NACK exchange of the xDS transport protocol. Each table access, send and receive is
one step; server, client and the caller that submits pushes step in any order. */
module XdsAck {
  import opened Common

  datatype Resource = Resource(name: string, typeUrl: Option<string>)

  datatype ServerAction = Add(resource: Resource) | Remove(resource: Resource)

  datatype Push = Push(action: ServerAction, nonce: string)

  datatype Response = Response(typeUrl: string, resources: seq<Resource>, removed: seq<string>, nonce: string)

  /** `error_detail` of a reply: code and message. */
  datatype ErrorDetail = ErrorDetail(code: int, message: string)

  datatype Request = Request(responseNonce: string, error: Option<ErrorDetail>)

  datatype PushResult = Ack | Nack(code: int, message: string)

  /** `build_delta_response`: nothing for an action without a resource in it. */
  function BuildDeltaResponse(action: ServerAction, nonce: string): Option<Response> {
    var r := action.resource;
    if r.typeUrl.None? then None
    else
      match action
      case Add(_) => Some(Response(r.typeUrl.value, [r], [], nonce))
      case Remove(_) => Some(Response(r.typeUrl.value, [], [r.name], nonce))
  }

  function ResultOf(request: Request): PushResult {
    match request.error
    case None => Ack
    case Some(e) => Nack(e.code, e.message)
  }

  // ---- The table of pending pushes ----

  type Table = map<string, nat>

  function Enter(table: Table, nonce: string, push: nat): Table {
    table[nonce := push]
  }

  /** The table without a nonce, and the push that waited for it. */
  function Withdraw(table: Table, nonce: string): (Table, Option<nat>) {
    (table - {nonce}, ValueAt(table, nonce))
  }

  /** What is registered under a new nonce is what completing that nonce takes out, once. */
  lemma {:induction false} EnteredIsWithdrawn(table: Table, nonce: string, push: nat)
    requires nonce !in table
    ensures Withdraw(Enter(table, nonce, push), nonce) == (table, Some(push))
    ensures Withdraw(table, nonce) == (table, None)
  {
    assert table[nonce := push] - {nonce} == table && table - {nonce} == table;
  }

  /** Pushes are known by number, which stands for their result channel. */
  class AckTracker {
    var pending: Table
    var delivered: map<nat, PushResult>

    constructor ()
      ensures pending == map[] && delivered == map[]
    {
      pending, delivered := map[], map[];
    }

    /** The nonce now waits for this push, whatever it waited for, and every other for what it did. */
    method Register(nonce: string, push: nat)
      modifies this`pending
      ensures pending == Enter(old(pending), nonce, push)
      ensures forall n :: ValueAt(pending, n) == if n == nonce then Some(push) else ValueAt(old(pending), n)
    {
      pending := pending[nonce := push];
    }

    /** True exactly when the nonce was pending; then its push, and no other, gets the result. */
    method Complete(nonce: string, result: PushResult) returns (found: bool)
      modifies this
      ensures found <==> nonce in old(pending)
      ensures pending == Withdraw(old(pending), nonce).0
      ensures forall n :: ValueAt(pending, n) == if n == nonce then None else ValueAt(old(pending), n)
      ensures delivered == if found then old(delivered)[old(pending)[nonce] := result] else old(delivered)
    {
      found := false;
      if nonce in pending {
        var push := pending[nonce];
        pending := pending - {nonce};
        delivered := delivered[push := result];
        found := true;
      } else {
        assert pending - {nonce} == pending;
      }
    }

    method ClearAll()
      modifies this`pending
      ensures pending == map[]
    {
      pending := map[];
    }
  }

  // ---- The machine ----

  datatype Sender =
    | NotStarted
    | Receiving
    | Built(push: nat, response: Response)
    | Sending(push: nat, response: Response)
    | Closing
    | Stopped

  /** What became of a push once the sender task took it from the queue. */
  datatype Fate = InHand | Skipped | Waiting | Completed(result: PushResult) | Cleared

  datatype Delivery = Delivery(push: nat, response: Response)

  /** `submitted` holds every push ever queued; the first `taken` of them have left the queue.
      `answered` lists the replies handled after their push was registered and before the stream
      was down. */
  datatype State = State(
    submitted: seq<Push>,
    taken: nat,
    owner: Option<nat>,
    refused: set<nat>,
    sender: Sender,
    pending: Table,
    wire: seq<Delivery>,
    received: set<Delivery>,
    inbound: seq<Request>,
    fates: Fates,
    answered: seq<Request>)

  const INITIAL := State([], 0, None, {}, NotStarted, map[], [], {}, [], map[], [])

  /** Capacity of the channel between the sender task and the client's stream. */
  const CAPACITY := 128

  datatype Action =
    | Submit(push: Push)
    | Connect(stream: nat)
    | Take
    | QueueClosed
    | Register
    | Send
    | SendFailed
    | ClearAll
    | ClientReceive
    | ClientReply(request: Request)
    | HandleReply

  /** Nonces are unique. The client may reply anything at any time, to nonces it was never sent too. */
  ghost predicate Enabled(st: State, a: Action) {
    match a
    case Submit(push) => forall i :: 0 <= i < |st.submitted| ==> st.submitted[i].nonce != push.nonce
    case Connect(stream) => stream !in st.refused && st.owner != Some(stream)
    case Take => st.sender.Receiving? && st.taken < |st.submitted|
    case QueueClosed => st.sender.Receiving? && st.taken == |st.submitted|
    case Register => st.sender.Built?
    case Send => st.sender.Sending? && |st.wire| < CAPACITY
    case SendFailed => st.sender.Sending?
    case ClearAll => st.sender.Closing?
    case ClientReceive => st.wire != []
    case ClientReply(_) => true
    case HandleReply => st.inbound != []
  }

  function ClearFates(fates: Fates): Fates {
    map p | p in fates :: if fates[p].Waiting? then Cleared else fates[p]
  }

  type Fates = map<nat, Fate>

  /** A push that has been put on the wire, or is about to be, went through the table first. */
  predicate WentThroughTable(fates: Fates, p: nat) {
    p in fates && (fates[p].Waiting? || fates[p].Completed? || fates[p].Cleared?)
  }

  /** The nonce of a push that went through the table. */
  ghost predicate Tabled(submitted: seq<Push>, fates: Fates, nonce: string) {
    exists p: nat :: WentThroughTable(fates, p) && p < |submitted| && submitted[p].nonce == nonce
  }

  /** The receiver task on one message: an empty nonce is not a reply. */
  ghost function Handle(st: State): State
    requires st.inbound != []
  {
    var request, rest := st.inbound[0], st.inbound[1..];
    var nonce := request.responseNonce;
    if nonce == "" then st.(inbound := rest)
    else
      var counts := Tabled(st.submitted, st.fates, nonce) && !st.sender.Stopped?;
      var (table, push) := Withdraw(st.pending, nonce);
      st.(inbound := rest, pending := table,
          answered := if counts then st.answered + [request] else st.answered,
          fates := if push.None? then st.fates else st.fates[push.value := Completed(ResultOf(request))])
  }

  ghost function Step(st: State, a: Action): State
    requires Enabled(st, a)
  {
    match a
    case Submit(push) => st.(submitted := st.submitted + [push])
    case Connect(stream) =>
      if st.owner.None? then st.(owner := Some(stream), sender := Receiving)
      else st.(refused := st.refused + {stream})
    case Take =>
      var push := st.submitted[st.taken];
      (match BuildDeltaResponse(push.action, push.nonce)
       case None => st.(taken := st.taken + 1, fates := st.fates[st.taken := Skipped])
       case Some(response) =>
         st.(taken := st.taken + 1, fates := st.fates[st.taken := InHand], sender := Built(st.taken, response)))
    case QueueClosed => st.(sender := Closing)
    case Register =>
      st.(pending := Enter(st.pending, st.sender.response.nonce, st.sender.push),
          fates := st.fates[st.sender.push := Waiting], sender := Sending(st.sender.push, st.sender.response))
    case Send => st.(wire := st.wire + [Delivery(st.sender.push, st.sender.response)], sender := Receiving)
    case SendFailed => st.(sender := Closing)
    case ClearAll => st.(pending := map[], fates := ClearFates(st.fates), sender := Stopped)
    case ClientReceive => st.(received := st.received + {st.wire[0]}, wire := st.wire[1..])
    case ClientReply(request) => st.(inbound := st.inbound + [request])
    case HandleReply => Handle(st)
  }

  // ---- Invariant ----

  ghost predicate Distinct(submitted: seq<Push>) {
    forall i, j :: 0 <= i < j < |submitted| ==> submitted[i].nonce != submitted[j].nonce
  }

  /** The result of the first reply to a nonce, among those that counted. */
  function FirstAnswer(answered: seq<Request>, nonce: string): Option<PushResult> {
    if answered == [] then None
    else if answered[0].responseNonce == nonce then Some(ResultOf(answered[0]))
    else FirstAnswer(answered[1..], nonce)
  }

  function ResultFor(fates: Fates, p: nat): Option<PushResult> {
    if p in fates && fates[p].Completed? then Some(fates[p].result) else None
  }

  predicate NothingToSend(push: Push) {
    BuildDeltaResponse(push.action, push.nonce).None?
  }

  /** Exactly the dequeued pushes have a fate, and those without a resource were skipped. */
  ghost predicate FatesOk(submitted: seq<Push>, taken: nat, fates: Fates) {
    && taken <= |submitted|
    && (forall p: nat :: p in fates <==> p < taken)
    && (forall p: nat :: p in fates ==> (fates[p].Skipped? <==> NothingToSend(submitted[p])))
  }

  ghost predicate TableOk(submitted: seq<Push>, fates: Fates, pending: Table) {
    && (forall n :: n in pending ==>
          pending[n] < |submitted| && submitted[pending[n]].nonce == n && pending[n] in fates
            && fates[pending[n]].Waiting?)
    && (forall p :: p in fates && fates[p].Waiting? ==>
          p < |submitted| && submitted[p].nonce in pending && pending[submitted[p].nonce] == p)
  }

  /** A response is the one built for its push, and so carries that push's nonce. */
  predicate Genuine(submitted: seq<Push>, push: nat, response: Response) {
    push < |submitted| && BuildDeltaResponse(submitted[push].action, submitted[push].nonce) == Some(response)
  }

  /** Whatever is on the wire or with the client is genuine and went through the table first. */
  ghost predicate SentOk(submitted: seq<Push>, fates: Fates, wire: seq<Delivery>, received: set<Delivery>) {
    && (forall i :: 0 <= i < |wire| ==> DeliveryOk(submitted, fates, wire[i]))
    && (forall d :: d in received ==> DeliveryOk(submitted, fates, d))
  }

  predicate DeliveryOk(submitted: seq<Push>, fates: Fates, d: Delivery) {
    Genuine(submitted, d.push, d.response) && WentThroughTable(fates, d.push)
  }

  ghost predicate SenderOk(submitted: seq<Push>, fates: Fates, sender: Sender) {
    && (sender.Built? || sender.Sending? ==> Genuine(submitted, sender.push, sender.response))
    && (sender.Sending? ==> WentThroughTable(fates, sender.push))
    && (forall p :: p in fates && fates[p].InHand? <==> sender.Built? && p == sender.push)
    && (forall p :: p in fates && fates[p].Cleared? ==> sender.Stopped?)
  }

  ghost predicate RepliesOk(submitted: seq<Push>, fates: Fates, answered: seq<Request>) {
    && (forall i :: 0 <= i < |answered| ==> Tabled(submitted, fates, answered[i].responseNonce))
    && (forall p :: 0 <= p < |submitted| ==> ResultFor(fates, p) == FirstAnswer(answered, submitted[p].nonce))
  }

  ghost predicate Inv(st: State) {
    && Distinct(st.submitted)
    && FatesOk(st.submitted, st.taken, st.fates)
    && TableOk(st.submitted, st.fates, st.pending)
    && SentOk(st.submitted, st.fates, st.wire, st.received)
    && SenderOk(st.submitted, st.fates, st.sender)
    && RepliesOk(st.submitted, st.fates, st.answered)
    && (st.owner.None? <==> st.sender.NotStarted?)
    && (st.sender.Stopped? ==> st.pending == map[])
  }

  // ---- Steps keep it ----

  lemma {:induction false} FirstAnswerAppend(answered: seq<Request>, request: Request, nonce: string)
    ensures FirstAnswer(answered + [request], nonce)
         == if FirstAnswer(answered, nonce).Some? then FirstAnswer(answered, nonce)
            else if request.responseNonce == nonce then Some(ResultOf(request)) else None
  {
    if answered == [] {
      assert ([] + [request])[1..] == [];
    } else {
      assert (answered + [request])[1..] == answered[1..] + [request];
      FirstAnswerAppend(answered[1..], request, nonce);
    }
  }

  lemma {:induction false} NeverAnswered(answered: seq<Request>, nonce: string)
    requires forall i :: 0 <= i < |answered| ==> answered[i].responseNonce != nonce
    ensures FirstAnswer(answered, nonce) == None
  {
    if answered == [] {
    } else {
      NeverAnswered(answered[1..], nonce);
    }
  }

  /** Fates move on without forgetting who went through the table, or a result. */
  ghost predicate MovesOn(fates: Fates, after: Fates) {
    && (forall p: nat :: WentThroughTable(fates, p) ==> WentThroughTable(after, p))
    && (forall p: nat :: ResultFor(after, p) == ResultFor(fates, p))
  }

  lemma {:induction false} StillTabled(submitted: seq<Push>, fates: Fates, more: seq<Push>, after: Fates, nonce: string)
    requires submitted <= more && Tabled(submitted, fates, nonce)
    requires forall p: nat :: WentThroughTable(fates, p) ==> WentThroughTable(after, p)
    ensures Tabled(more, after, nonce)
  {
    var p: nat :| WentThroughTable(fates, p) && p < |submitted| && submitted[p].nonce == nonce;
    assert WentThroughTable(after, p) && more[p].nonce == nonce;
  }

  lemma {:induction false} RepliesMoveOn(submitted: seq<Push>, fates: Fates, after: Fates, answered: seq<Request>)
    requires RepliesOk(submitted, fates, answered) && MovesOn(fates, after)
    ensures RepliesOk(submitted, after, answered)
  {
    forall i | 0 <= i < |answered| ensures Tabled(submitted, after, answered[i].responseNonce) {
      StillTabled(submitted, fates, submitted, after, answered[i].responseNonce);
    }
  }

  lemma {:induction false} SubmitKeepsReplies(submitted: seq<Push>, fates: Fates, answered: seq<Request>, push: Push)
    requires RepliesOk(submitted, fates, answered) && |submitted| !in fates
    requires forall i :: 0 <= i < |submitted| ==> submitted[i].nonce != push.nonce
    ensures RepliesOk(submitted + [push], fates, answered)
  {
    var more := submitted + [push];
    forall i | 0 <= i < |answered|
      ensures answered[i].responseNonce != push.nonce && Tabled(more, fates, answered[i].responseNonce)
    {
      assert Tabled(submitted, fates, answered[i].responseNonce);
      StillTabled(submitted, fates, more, fates, answered[i].responseNonce);
    }
    NeverAnswered(answered, push.nonce);
    forall p | 0 <= p < |more| ensures ResultFor(fates, p) == FirstAnswer(answered, more[p].nonce) {
      if p < |submitted| { assert more[p] == submitted[p]; }
    }
  }

  lemma {:induction false} SubmitKeeps(st: State, push: Push)
    requires Inv(st) && Enabled(st, Submit(push))
    ensures Inv(Step(st, Submit(push)))
  {
    SubmitKeepsReplies(st.submitted, st.fates, st.answered, push);
    SubmitKeepsSent(st.submitted, st.fates, st.wire, st.received, push);
  }

  lemma {:induction false} SubmitKeepsSent(submitted: seq<Push>, fates: Fates, wire: seq<Delivery>,
                                           received: set<Delivery>, push: Push)
    requires SentOk(submitted, fates, wire, received)
    ensures SentOk(submitted + [push], fates, wire, received)
  {
    var more := submitted + [push];
    forall d: Delivery | DeliveryOk(submitted, fates, d) ensures DeliveryOk(more, fates, d) {
      assert more[d.push] == submitted[d.push];
    }
  }

  // What setting one push's fate does to each part of the invariant.

  lemma {:induction false} FateMovesOn(fates: Fates, p: nat, fate: Fate)
    requires (p in fates ==> fates[p].InHand?) && !fate.Completed?
    ensures MovesOn(fates, fates[p := fate])
  {
  }

  lemma {:induction false} SentMovesOn(submitted: seq<Push>, fates: Fates, after: Fates, wire: seq<Delivery>,
                                       received: set<Delivery>)
    requires SentOk(submitted, fates, wire, received)
    requires forall p: nat :: WentThroughTable(fates, p) ==> WentThroughTable(after, p)
    ensures SentOk(submitted, after, wire, received)
  {
  }

  lemma {:induction false} FatesTaken(submitted: seq<Push>, taken: nat, fates: Fates, fate: Fate)
    requires FatesOk(submitted, taken, fates) && taken < |submitted|
    requires fate.Skipped? <==> NothingToSend(submitted[taken])
    ensures FatesOk(submitted, taken + 1, fates[taken := fate])
  {
  }

  lemma {:induction false} FatesChanged(submitted: seq<Push>, taken: nat, fates: Fates, p: nat, fate: Fate)
    requires FatesOk(submitted, taken, fates) && p in fates && !fates[p].Skipped? && !fate.Skipped?
    ensures FatesOk(submitted, taken, fates[p := fate])
  {
  }

  lemma {:induction false} TableTaken(submitted: seq<Push>, fates: Fates, pending: Table, p: nat, fate: Fate)
    requires TableOk(submitted, fates, pending) && p !in fates && !fate.Waiting?
    ensures TableOk(submitted, fates[p := fate], pending)
  {
  }

  lemma {:induction false} SenderTakes(submitted: seq<Push>, fates: Fates, p: nat, sender: Sender)
    requires SenderOk(submitted, fates, Receiving) && p !in fates && p < |submitted|
    requires sender.Receiving? || (sender.Built? && sender.push == p && Genuine(submitted, p, sender.response))
    ensures SenderOk(submitted, fates[p := if sender.Receiving? then Skipped else InHand], sender)
  {
  }

  lemma {:induction false} SenderRegisters(submitted: seq<Push>, fates: Fates, sender: Sender)
    requires SenderOk(submitted, fates, sender) && sender.Built?
    ensures SenderOk(submitted, fates[sender.push := Waiting], Sending(sender.push, sender.response))
  {
  }

  lemma {:induction false} TakeKeeps(st: State)
    requires Inv(st) && Enabled(st, Take)
    ensures Inv(Step(st, Take))
  {
    var after, p := Step(st, Take), st.taken;
    assert p !in st.fates;
    var fate := if after.sender.Receiving? then Skipped else InHand;
    assert after.fates == st.fates[p := fate];
    FatesTaken(st.submitted, p, st.fates, fate);
    TableTaken(st.submitted, st.fates, st.pending, p, fate);
    SenderTakes(st.submitted, st.fates, p, after.sender);
    FateMovesOn(st.fates, p, fate);
    SentMovesOn(st.submitted, st.fates, after.fates, st.wire, st.received);
    RepliesMoveOn(st.submitted, st.fates, after.fates, st.answered);
  }

  lemma {:induction false} TableEntered(submitted: seq<Push>, fates: Fates, pending: Table, nonce: string, push: nat)
    requires TableOk(submitted, fates, pending) && Distinct(submitted)
    requires push < |submitted| && submitted[push].nonce == nonce && push in fates && fates[push].InHand?
    ensures TableOk(submitted, fates[push := Waiting], Enter(pending, nonce, push))
  {
    forall n | n in pending ensures pending[n] != push && n != nonce { assert submitted[pending[n]].nonce == n; }
  }

  lemma {:induction false} RegisterKeeps(st: State)
    requires Inv(st) && Enabled(st, Register)
    ensures Inv(Step(st, Register))
  {
    var push, after := st.sender.push, Step(st, Register);
    assert push in st.fates && st.fates[push].InHand?;
    FatesChanged(st.submitted, st.taken, st.fates, push, Waiting);
    TableEntered(st.submitted, st.fates, st.pending, st.sender.response.nonce, push);
    SenderRegisters(st.submitted, st.fates, st.sender);
    FateMovesOn(st.fates, push, Waiting);
    SentMovesOn(st.submitted, st.fates, after.fates, st.wire, st.received);
    RepliesMoveOn(st.submitted, st.fates, after.fates, st.answered);
  }

  lemma {:induction false} FatesCleared(submitted: seq<Push>, taken: nat, fates: Fates)
    requires FatesOk(submitted, taken, fates)
    ensures FatesOk(submitted, taken, ClearFates(fates)) && TableOk(submitted, ClearFates(fates), map[])
    ensures MovesOn(fates, ClearFates(fates))
  {
  }

  lemma {:induction false} SenderStops(submitted: seq<Push>, fates: Fates)
    requires SenderOk(submitted, fates, Closing)
    ensures SenderOk(submitted, ClearFates(fates), Stopped)
  {
  }

  lemma {:induction false} ClearAllKeeps(st: State)
    requires Inv(st) && Enabled(st, ClearAll)
    ensures Inv(Step(st, ClearAll))
  {
    var after := Step(st, ClearAll);
    FatesCleared(st.submitted, st.taken, st.fates);
    SenderStops(st.submitted, st.fates);
    SentMovesOn(st.submitted, st.fates, after.fates, st.wire, st.received);
    RepliesMoveOn(st.submitted, st.fates, after.fates, st.answered);
  }

  /** The heart of it: a nonce that went through the table is in it exactly until it is answered, as
      long as the stream is up. */
  lemma {:induction false} TabledIsPending(st: State, nonce: string)
    requires Inv(st) && Tabled(st.submitted, st.fates, nonce) && !st.sender.Stopped?
    ensures nonce in st.pending <==> FirstAnswer(st.answered, nonce).None?
    ensures nonce in st.pending ==> st.pending[nonce] < |st.submitted| && st.submitted[st.pending[nonce]].nonce == nonce
  {
    var p: nat :| WentThroughTable(st.fates, p) && p < |st.submitted| && st.submitted[p].nonce == nonce;
    assert ResultFor(st.fates, p) == FirstAnswer(st.answered, nonce);
    if nonce in st.pending {
      var q := st.pending[nonce];
      assert st.submitted[q].nonce == nonce;
      assert q == p;
    }
  }

  lemma {:induction false} PendingIsTabled(st: State, nonce: string)
    requires Inv(st) && nonce in st.pending
    ensures Tabled(st.submitted, st.fates, nonce) && !st.sender.Stopped?
  {
    assert WentThroughTable(st.fates, st.pending[nonce]);
  }

  /** What handling a message comes to: nothing, an answer to no avail, or a completion. */
  lemma {:induction false} HandleCases(st: State)
    requires Inv(st) && st.inbound != []
    ensures
      var request, nonce, after := st.inbound[0], st.inbound[0].responseNonce, Handle(st);
      var counted := Tabled(st.submitted, st.fates, nonce) && !st.sender.Stopped?
        && after.answered == st.answered + [request];
      if nonce == "" || nonce !in st.pending then
        after.pending == st.pending && after.fates == st.fates && (after.answered == st.answered || counted)
      else
        && counted && after.pending == st.pending - {nonce}
        && after.fates == st.fates[st.pending[nonce] := Completed(ResultOf(request))]
  {
    var nonce := st.inbound[0].responseNonce;
    if nonce in st.pending { PendingIsTabled(st, nonce); } else { assert st.pending - {nonce} == st.pending; }
  }

  lemma {:induction false} TableWithdrawn(submitted: seq<Push>, fates: Fates, pending: Table, nonce: string,
                                          result: PushResult)
    requires TableOk(submitted, fates, pending) && nonce in pending
    ensures TableOk(submitted, fates[pending[nonce] := Completed(result)], pending - {nonce})
  {
    forall n | n in pending && n != nonce ensures pending[n] != pending[nonce] {
      assert submitted[pending[n]].nonce == n && submitted[pending[nonce]].nonce == nonce;
    }
  }

  lemma {:induction false} SenderAfterCompletion(submitted: seq<Push>, fates: Fates, sender: Sender, push: nat,
                                                 result: PushResult)
    requires SenderOk(submitted, fates, sender) && push in fates && fates[push].Waiting?
    ensures SenderOk(submitted, fates[push := Completed(result)], sender)
    ensures forall p: nat :: WentThroughTable(fates, p) ==> WentThroughTable(fates[push := Completed(result)], p)
  {
  }

  /** An answer that counts decides the result of its push if it is the first, and none otherwise. */
  lemma {:induction false} AnswerDecides(st: State, p: nat)
    requires Inv(st) && st.inbound != [] && p < |st.submitted|
    ensures ResultFor(Handle(st).fates, p) == FirstAnswer(Handle(st).answered, st.submitted[p].nonce)
  {
    var request, nonce, asked := st.inbound[0], st.inbound[0].responseNonce, st.submitted[p].nonce;
    var after := Handle(st);
    HandleCases(st);
    assert ResultFor(st.fates, p) == FirstAnswer(st.answered, asked);
    if after.answered == st.answered {
      assert after.answered != st.answered + [request] by { assert |st.answered + [request]| != |st.answered|; }
      assert after.fates == st.fates;
    } else {
      FirstAnswerAppend(st.answered, request, asked);
      TabledIsPending(st, nonce);
      if nonce in st.pending && p == st.pending[nonce] {
        assert ResultFor(after.fates, p) == Some(ResultOf(request));
      } else {
        assert ResultFor(after.fates, p) == ResultFor(st.fates, p);
      }
    }
  }

  lemma {:induction false} AnsweredStayTabled(st: State, after: State)
    requires Inv(st) && after.submitted == st.submitted
    requires forall p: nat :: WentThroughTable(st.fates, p) ==> WentThroughTable(after.fates, p)
    requires || after.answered == st.answered
             || (exists request: Request :: after.answered == st.answered + [request]
                                            && Tabled(st.submitted, st.fates, request.responseNonce))
    ensures forall i :: 0 <= i < |after.answered| ==>
      Tabled(after.submitted, after.fates, after.answered[i].responseNonce)
  {
    forall i | 0 <= i < |after.answered| ensures Tabled(after.submitted, after.fates, after.answered[i].responseNonce) {
      if i < |st.answered| { assert after.answered[i] == st.answered[i]; }
      StillTabled(st.submitted, st.fates, after.submitted, after.fates, after.answered[i].responseNonce);
    }
  }

  lemma {:induction false} HandleKeeps(st: State)
    requires Inv(st) && Enabled(st, HandleReply)
    ensures Inv(Step(st, HandleReply))
  {
    var nonce, after := st.inbound[0].responseNonce, Handle(st);
    HandleCases(st);
    if nonce != "" && nonce in st.pending {
      TableWithdrawn(st.submitted, st.fates, st.pending, nonce, ResultOf(st.inbound[0]));
      var push, result := st.pending[nonce], ResultOf(st.inbound[0]);
      FatesChanged(st.submitted, st.taken, st.fates, push, Completed(result));
      SenderAfterCompletion(st.submitted, st.fates, st.sender, push, result);
      SentMovesOn(st.submitted, st.fates, after.fates, st.wire, st.received);
    }
    AnsweredStayTabled(st, after);
    forall p | 0 <= p < |st.submitted|
      ensures ResultFor(after.fates, p) == FirstAnswer(after.answered, st.submitted[p].nonce)
    {
      AnswerDecides(st, p);
    }
  }

  lemma {:induction false} StepKeeps(st: State, a: Action)
    requires Inv(st) && Enabled(st, a)
    ensures Inv(Step(st, a))
  {
    match a
    case Submit(push) => SubmitKeeps(st, push);
    case Take => TakeKeeps(st);
    case Register => RegisterKeeps(st);
    case ClearAll => ClearAllKeeps(st);
    case HandleReply => HandleKeeps(st);
    case _ =>
  }

  // ---- What every run guarantees ----

  ghost predicate Runs(st: State, actions: seq<Action>)
    decreases |actions|
  {
    actions == [] || (Enabled(st, actions[0]) && Runs(Step(st, actions[0]), actions[1..]))
  }

  ghost function Run(st: State, actions: seq<Action>): State
    requires Runs(st, actions)
    decreases |actions|
  {
    if actions == [] then st else Run(Step(st, actions[0]), actions[1..])
  }

  lemma {:induction false} RunKeeps(st: State, actions: seq<Action>)
    requires Inv(st) && Runs(st, actions)
    ensures Inv(Run(st, actions))
    decreases |actions|
  {
    if actions == [] {
    } else {
      StepKeeps(st, actions[0]);
      RunKeeps(Step(st, actions[0]), actions[1..]);
    }
  }

  /** The client has been sent a response with this nonce. */
  ghost predicate HasReceived(st: State, nonce: string) {
    exists d :: d in st.received && d.response.nonce == nonce
  }

  /** The next message is the first reply that counts to a nonce the client was sent, and the stream
      is up. */
  ghost predicate FirstReplyNext(st: State) {
    && st.inbound != [] && st.inbound[0].responseNonce != "" && !st.sender.Stopped?
    && HasReceived(st, st.inbound[0].responseNonce)
    && FirstAnswer(st.answered, st.inbound[0].responseNonce).None?
  }

  /** Handling the next message takes its nonce's entry from the table and completes that push, and
      no other, with the message's result; it is the push whose response the client was sent. */
  ghost predicate CompletesItsPush(st: State)
    requires st.inbound != []
  {
    var nonce := st.inbound[0].responseNonce;
    && nonce in st.pending && st.pending[nonce] < |st.submitted| && st.submitted[st.pending[nonce]].nonce == nonce
    && Handle(st).fates == st.fates[st.pending[nonce] := Completed(ResultOf(st.inbound[0]))]
    && Handle(st).pending == st.pending - {nonce}
    && forall d :: d in st.received && d.response.nonce == nonce ==> d.push == st.pending[nonce]
  }

  lemma {:induction false} FirstReplyFinds(st: State)
    requires Inv(st) && FirstReplyNext(st)
    ensures CompletesItsPush(st)
  {
    var nonce := st.inbound[0].responseNonce;
    forall d | d in st.received && d.response.nonce == nonce
      ensures WentThroughTable(st.fates, d.push) && d.push < |st.submitted| && st.submitted[d.push].nonce == nonce
    {
      assert DeliveryOk(st.submitted, st.fates, d);
    }
    var sent :| sent in st.received && sent.response.nonce == nonce;
    assert WentThroughTable(st.fates, sent.push);
    TabledIsPending(st, nonce);
    HandleCases(st);
  }

  /** In every run, what is on the wire and what the client has is what was built for its push. */
  lemma {:induction false} DeliveriesAreGenuine(actions: seq<Action>, d: Delivery)
    requires Runs(INITIAL, actions) && (d in Run(INITIAL, actions).wire || d in Run(INITIAL, actions).received)
    ensures
      var st := Run(INITIAL, actions);
      && d.push < |st.submitted| && d.response.nonce == st.submitted[d.push].nonce
      && BuildDeltaResponse(st.submitted[d.push].action, st.submitted[d.push].nonce) == Some(d.response)
  {
    RunKeeps(INITIAL, actions);
  }

  /** In every run, the first reply to a nonce the client was sent, handled while the stream is up,
      finds its entry, because registration precedes sending. */
  lemma {:induction false} FirstReplyCompletes(actions: seq<Action>)
    requires Runs(INITIAL, actions)
    ensures FirstReplyNext(Run(INITIAL, actions)) ==> CompletesItsPush(Run(INITIAL, actions))
  {
    RunKeeps(INITIAL, actions);
    if FirstReplyNext(Run(INITIAL, actions)) { FirstReplyFinds(Run(INITIAL, actions)); }
  }

  /** In every run, a push is completed exactly when a reply to its nonce was handled between its
      registration and the end of the stream, and then with the result of the first such reply. */
  lemma {:induction false} ResultsAreFirstAnswers(actions: seq<Action>, p: nat)
    requires Runs(INITIAL, actions) && p < |Run(INITIAL, actions).submitted|
    ensures
      var st := Run(INITIAL, actions);
      ResultFor(st.fates, p) == FirstAnswer(st.answered, st.submitted[p].nonce)
  {
    RunKeeps(INITIAL, actions);
  }

  /** In every run, exactly the dequeued pushes have a fate; one was skipped just when its action has
      no resource to send, one is in hand just when the sender task has built it and not registered
      it, one waits just when the table holds it, and one is cleared only when the stream is down
      and the table empty. */
  lemma {:induction false} EveryPushAccounted(actions: seq<Action>)
    requires Runs(INITIAL, actions)
    ensures
      var st := Run(INITIAL, actions);
      && st.taken <= |st.submitted|
      && (forall p: nat :: p in st.fates <==> p < st.taken)
      && (forall p :: p in st.fates ==>
            (st.fates[p].Skipped?
             <==> BuildDeltaResponse(st.submitted[p].action, st.submitted[p].nonce).None?))
      && (forall p :: p in st.fates ==> (st.fates[p].InHand? <==> st.sender.Built? && st.sender.push == p))
      && (forall p :: p in st.fates ==>
            (st.fates[p].Waiting? <==> ValueAt(st.pending, st.submitted[p].nonce) == Some(p)))
      && (forall p :: p in st.fates && st.fates[p].Cleared? ==> st.sender.Stopped? && st.pending == map[])
  {
    RunKeeps(INITIAL, actions);
  }

  predicate Final(fate: Fate) {
    fate.Skipped? || fate.Completed? || fate.Cleared?
  }

  ghost predicate FinalStay(fates: Fates, after: Fates) {
    forall p :: p in fates && Final(fates[p]) ==> p in after && after[p] == fates[p]
  }

  lemma {:induction false} StepIsFinal(st: State, a: Action)
    requires Inv(st) && Enabled(st, a)
    ensures FinalStay(st.fates, Step(st, a).fates)
    ensures st.owner.Some? ==> Step(st, a).owner == st.owner
  {
    match a
    case Register => FateStays(st.fates, st.sender.push, Waiting);
    case Take =>
      assert st.taken !in st.fates;
      FateStays(st.fates, st.taken, Step(st, a).fates[st.taken]);
    case HandleReply =>
      HandleCases(st);
      var nonce := st.inbound[0].responseNonce;
      if nonce in st.pending { FateStays(st.fates, st.pending[nonce], Completed(ResultOf(st.inbound[0]))); }
    case _ =>
  }

  lemma {:induction false} FateStays(fates: Fates, p: nat, fate: Fate)
    requires p in fates ==> !Final(fates[p])
    ensures FinalStay(fates, fates[p := fate])
  {
  }

  /** What was resolved once stays so, and the stream that took the queue keeps it: from any state a
      run reaches, no continuation changes a final fate or the owner. */
  lemma {:induction false} ResolvedOnce(st: State, actions: seq<Action>)
    requires Inv(st) && Runs(st, actions)
    ensures
      var after := Run(st, actions);
      && (forall p :: p in st.fates && Final(st.fates[p]) ==> p in after.fates && after.fates[p] == st.fates[p])
      && (st.owner.Some? ==> after.owner == st.owner)
    decreases |actions|
  {
    if actions == [] {
    } else {
      StepKeeps(st, actions[0]);
      StepIsFinal(st, actions[0]);
      ResolvedOnce(Step(st, actions[0]), actions[1..]);
    }
  }
}
