/** The handshake of a main and a worker session over two FIFO links. */
module Handshakes {
  import opened StateStrings
  import opened StoreModel

  datatype Role = Main | Worker
  datatype SessionState = Authenticating | Ready | Broken

  /** A shared secret, or the throw-away credential of a main session without a principal. */
  datatype Credential = Secret(secret: JsString) | Unauthorized

  /** A keyed hash of these fields, taken to reveal none of them and to collide never. */
  datatype Proof = Proof(credential: Credential, workerId: JsString, senderNonce: JsString, receiverNonce: JsString,
                         senderRole: Role)

  datatype Body =
    | Hello(role: Role, nonce: JsString, workerId: Option<JsString>)
    | Authenticate(proof: Proof)
    | Register(registered: JsString)
    | SessionReady(epoch: nat)
    | Heartbeat

  datatype Message = Message(sequence: nat, sessionId: JsString, body: Body)

  datatype Party = Party(
    role: Role, state: SessionState, sessionId: JsString, epoch: nat, nonce: JsString, credential: Credential,
    nextSequence: nat, expectedSequence: nat,
    remoteNonce: Option<JsString>, remoteRole: Option<Role>, remoteHelloSessionId: Option<JsString>,
    principalWorkerId: Option<JsString>, principalAuthorized: bool, peerAuthenticated: bool,
    helloSent: bool, authenticationSent: bool, registrationSent: bool, registrationPending: bool)

  type Resolver = JsString -> Option<Credential>

  /** Two honest ends: who the worker is, what each side knows, and the nonces and session
      identifiers each drew. */
  datatype Config = Config(
    workerId: JsString, workerCredential: Credential, resolve: Resolver,
    mainNonce: JsString, workerNonce: JsString, mainSession: JsString, workerSession: JsString)

  ghost predicate Honest(c: Config) {
    && IsPortableName(c.workerId) && c.workerCredential.Secret?
    && c.resolve(c.workerId) != Some(Unauthorized)
    && 16 <= |c.mainNonce| <= 128 && 16 <= |c.workerNonce| <= 128
  }

  predicate Matching(c: Config) { c.resolve(c.workerId) == Some(c.workerCredential) }

  function NewParty(role: Role, session: JsString, nonce: JsString, credential: Credential,
                    principal: Option<JsString>): Party
  {
    Party(role, Authenticating, session, 0, nonce, credential, 0, 0, None, None, None, principal, principal.Some?,
          false, false, false, false, false)
  }

  function NewMain(c: Config): Party { NewParty(Main, c.mainSession, c.mainNonce, Unauthorized, None) }

  function NewWorker(c: Config): Party {
    NewParty(Worker, c.workerSession, c.workerNonce, c.workerCredential, Some(c.workerId))
  }

  // ----- One session

  datatype Turn = Turn(party: Party, sent: seq<Message>)

  function Fail(p: Party): Turn { Turn(p.(state := Broken), []) }

  function Send(t: Turn, body: Body): Turn {
    Turn(t.party.(nextSequence := t.party.nextSequence + 1),
         t.sent + [Message(t.party.nextSequence, t.party.sessionId, body)])
  }

  function SendHello(t: Turn): Turn {
    if t.party.helloSent then t
    else Send(Turn(t.party.(helloSent := true), t.sent),
              Hello(t.party.role, t.party.nonce, if t.party.role == Worker then t.party.principalWorkerId else None))
  }

  function SendAuthentication(t: Turn): Turn {
    var p := t.party;
    if p.authenticationSent || !p.helloSent || p.remoteNonce.None? || p.remoteRole.None?
       || p.principalWorkerId.None? then
      t
    else Send(Turn(p.(authenticationSent := true), t.sent),
              Authenticate(Proof(p.credential, p.principalWorkerId.value, p.nonce, p.remoteNonce.value, p.role)))
  }

  function SendRegistration(t: Turn): Turn {
    var p := t.party;
    if p.registrationSent || p.principalWorkerId.None? || !p.peerAuthenticated then t
    else Send(Turn(p.(registrationSent := true), t.sent), Register(p.principalWorkerId.value))
  }

  /** What a peer's hello tells; a session it does not fit is broken. */
  function Meet(p: Party, m: Message, resolve: Resolver): Party
    requires m.body.Hello?
  {
    var hello := m.body;
    if p.remoteNonce.Some? || p.state != Authenticating then p.(state := Broken)
    else if (hello.workerId.Some? <==> hello.role != Worker) || hello.role == p.role
            || !(16 <= |hello.nonce| <= 128) then
      p.(state := Broken)
    else
      var met := p.(remoteRole := Some(hello.role), remoteNonce := Some(hello.nonce),
                    remoteHelloSessionId := Some(m.sessionId));
      if p.role == Worker then met else MeetPrincipal(met, m.sessionId, hello.workerId, resolve)
  }

  /** A main takes the worker's identity and session, and the credential registered for it, if any. */
  function MeetPrincipal(p: Party, session: JsString, workerId: Option<JsString>, resolve: Resolver): Party {
    if workerId.None? || !IsPortableName(workerId.value) then p.(state := Broken)
    else
      var resolved := resolve(workerId.value);
      p.(principalWorkerId := workerId, principalAuthorized := resolved.Some?,
         credential := if resolved.Some? then resolved.value else p.credential, sessionId := session)
  }

  function ReceiveHello(p: Party, m: Message, resolve: Resolver): Turn
    requires m.body.Hello?
  {
    var met := Meet(p, m, resolve);
    if met.state == Broken then Turn(met, []) else SendAuthentication(SendHello(Turn(met, [])))
  }

  function ReceiveAuthentication(p: Party, m: Message): Turn
    requires m.body.Authenticate?
  {
    if p.peerAuthenticated || p.remoteNonce.None? || p.remoteRole.None? || p.principalWorkerId.None? then Fail(p)
    else if m.body.proof != Proof(p.credential, p.principalWorkerId.value, p.remoteNonce.value, p.nonce,
                                  p.remoteRole.value)
            || !p.principalAuthorized then Fail(p)
    else
      var trusted := Turn(p.(peerAuthenticated := true), []);
      if p.role == Worker then SendRegistration(trusted) else trusted
  }

  /** The registration is accepted; its epoch is granted in a later step. */
  function ReceiveRegistration(p: Party, m: Message): Turn
    requires m.body.Register?
  {
    if p.role != Main || p.state != Authenticating || p.registrationPending || !p.peerAuthenticated
       || p.remoteRole != Some(Worker) || p.remoteHelloSessionId != Some(m.sessionId) then Fail(p)
    else if p.principalWorkerId != Some(m.body.registered) then Fail(p)
    else Turn(p.(registrationPending := true), [])
  }

  function Grant(p: Party, epoch: nat): Turn {
    if p.state != Authenticating then Turn(p, [])
    else Send(Turn(p.(epoch := epoch, state := Ready), []), SessionReady(epoch))
  }

  /** A worker that becomes ready sends its first heartbeat at once. */
  function ReceiveReady(p: Party, m: Message): Turn
    requires m.body.SessionReady?
  {
    if p.role != Worker || p.state != Authenticating || !p.peerAuthenticated || m.sessionId != p.sessionId then Fail(p)
    else Send(Turn(p.(epoch := m.body.epoch, state := Ready), []), Heartbeat)
  }

  function Dispatch(p: Party, m: Message, resolve: Resolver): Turn {
    match m.body
    case Hello(_, _, _) => ReceiveHello(p, m, resolve)
    case Authenticate(_) => ReceiveAuthentication(p, m)
    case Register(_) => ReceiveRegistration(p, m)
    case SessionReady(_) => ReceiveReady(p, m)
    case Heartbeat => Turn(p, [])
  }

  function Receive(p: Party, m: Message, resolve: Resolver): Turn {
    if p.state == Broken then Turn(p, [])
    else if m.sequence != p.expectedSequence then Fail(p)
    else
      var q := p.(expectedSequence := p.expectedSequence + 1);
      if q.state == Ready && m.sessionId != q.sessionId && !m.body.Hello? then Fail(q) else Dispatch(q, m, resolve)
  }

  // ----- The pair

  datatype Pair = Pair(main: Party, worker: Party, toMain: seq<Message>, toWorker: seq<Message>)

  function Initial(c: Config): Pair { Pair(NewMain(c), NewWorker(c), [], []) }

  datatype Step = MainHello | WorkerHello | ToMain | ToWorker | Granted(epoch: nat) | Beat

  predicate Enabled(p: Pair, step: Step) {
    match step
    case MainHello => p.main.state == Authenticating && !p.main.helloSent
    case WorkerHello => p.worker.state == Authenticating && !p.worker.helloSent
    case ToMain => p.toMain != []
    case ToWorker => p.toWorker != []
    case Granted(_) => p.main.state == Authenticating && p.main.registrationPending
    case Beat => p.worker.state == Ready
  }

  function MainActs(p: Pair, t: Turn): Pair { p.(main := t.party, toWorker := p.toWorker + t.sent) }

  function WorkerActs(p: Pair, t: Turn): Pair { p.(worker := t.party, toMain := p.toMain + t.sent) }

  function Apply(p: Pair, step: Step, c: Config): Pair
    requires Enabled(p, step)
  {
    match step
    case MainHello => MainActs(p, SendHello(Turn(p.main, [])))
    case WorkerHello => WorkerActs(p, SendHello(Turn(p.worker, [])))
    case ToMain => MainActs(p.(toMain := p.toMain[1..]), Receive(p.main, p.toMain[0], c.resolve))
    case ToWorker => WorkerActs(p.(toWorker := p.toWorker[1..]), Receive(p.worker, p.toWorker[0], c.resolve))
    case Granted(epoch) => MainActs(p, Grant(p.main, epoch))
    case Beat => WorkerActs(p, Send(Turn(p.worker, []), Heartbeat))
  }

  ghost predicate Run(states: seq<Pair>, steps: seq<Step>, c: Config) {
    && |states| == |steps| + 1 && states[0] == Initial(c)
    && forall i | 0 <= i < |steps| :: Enabled(states[i], steps[i]) && states[i + 1] == Apply(states[i], steps[i], c)
  }

  // ----- What the counts say

  function MainCredential(c: Config): Credential {
    var resolved := c.resolve(c.workerId);
    if resolved.Some? then resolved.value else Unauthorized
  }

  /** The k-th message a worker ever sends. */
  predicate FromWorker(c: Config, m: Message, k: nat) {
    && m.sequence == k && m.sessionId == c.workerSession
    && (k == 0 ==> m.body == Hello(Worker, c.workerNonce, Some(c.workerId)))
    && (k == 1 ==> m.body == Authenticate(Proof(c.workerCredential, c.workerId, c.workerNonce, c.mainNonce, Worker)))
    && (k == 2 ==> m.body == Register(c.workerId))
    && (k >= 3 ==> m.body == Heartbeat)
  }

  /** The k-th message a main ever sends; its hello may predate the session identifier. */
  predicate FromMain(c: Config, main: Party, m: Message, k: nat) {
    && m.sequence == k && k <= 2
    && (k == 0 ==> m.body == Hello(Main, c.mainNonce, None))
    && (k == 1 ==>
          m.sessionId == c.workerSession
          && m.body == Authenticate(Proof(MainCredential(c), c.workerId, c.mainNonce, c.workerNonce, Main)))
    && (k == 2 ==> m.sessionId == c.workerSession && main.state == Ready && m.body == SessionReady(main.epoch))
  }

  /** How many messages a worker has received fixes everything else about it. */
  predicate WorkerAt(c: Config, w: Party) {
    && w.role == Worker && w.sessionId == c.workerSession && w.nonce == c.workerNonce
    && w.credential == c.workerCredential
    && w.principalWorkerId == Some(c.workerId) && w.principalAuthorized && w.expectedSequence <= 3
    && (w.expectedSequence == 0 ==> w.remoteNonce.None? && w.nextSequence == if w.helloSent then 1 else 0)
    && (w.expectedSequence == 0 ==> !w.authenticationSent)
    && (w.expectedSequence >= 1 ==>
        w.helloSent && w.authenticationSent && w.remoteNonce == Some(c.mainNonce) && w.remoteRole == Some(Main))
    && (w.expectedSequence == 1 ==> w.nextSequence == 2)
    && (w.expectedSequence >= 2 <==> w.peerAuthenticated) && (w.registrationSent <==> w.peerAuthenticated)
    && (w.expectedSequence == 2 ==> w.nextSequence == 3)
    && (w.expectedSequence == 3 ==> w.nextSequence >= 4)
    && w.state == if w.expectedSequence == 3 then Ready else Authenticating
  }

  predicate MainAt(c: Config, m: Party) {
    && m.role == Main && m.nonce == c.mainNonce
    && (m.expectedSequence == 0 ==>
        m.remoteNonce.None? && m.principalWorkerId.None? && m.credential == Unauthorized && m.state == Authenticating
                                    && !m.authenticationSent && m.nextSequence == if m.helloSent then 1 else 0)
    && (m.expectedSequence >= 1 ==>
          && m.helloSent && m.authenticationSent && m.remoteNonce == Some(c.workerNonce) && m.remoteRole == Some(Worker)
          && m.remoteHelloSessionId == Some(c.workerSession) && m.sessionId == c.workerSession
          && m.principalWorkerId == Some(c.workerId) && m.credential == MainCredential(c)
          && m.principalAuthorized == c.resolve(c.workerId).Some?)
    && (m.expectedSequence >= 2 <==> m.peerAuthenticated) && (m.expectedSequence >= 3 <==> m.registrationPending)
    && (m.expectedSequence > 3 ==> m.state == Ready)
    && (m.state == Ready ==> m.expectedSequence >= 3)
    && (m.expectedSequence >= 1 ==> m.nextSequence == if m.state == Ready then 3 else 2)
  }

  ghost predicate PairOk(c: Config, p: Pair) {
    && (p.worker.state != Broken ==> WorkerAt(c, p.worker))
    && (p.main.state != Broken ==> MainAt(c, p.main))
    && (p.main.state == Broken ==> p.main.nextSequence <= 2)
    && (p.main.state != Broken ==>
          && p.main.expectedSequence + |p.toMain| == p.worker.nextSequence
          && forall i | 0 <= i < |p.toMain| :: FromWorker(c, p.toMain[i], p.main.expectedSequence + i))
    && (p.worker.state != Broken ==>
          && p.worker.expectedSequence + |p.toWorker| == p.main.nextSequence
          && forall i | 0 <= i < |p.toWorker| :: FromMain(c, p.main, p.toWorker[i], p.worker.expectedSequence + i))
    && (p.worker.peerAuthenticated || p.main.peerAuthenticated ==> Matching(c))
    && (p.worker.state == Ready ==> p.main.state == Ready && p.worker.epoch == p.main.epoch)
    && (Matching(c) ==> p.main.state != Broken && p.worker.state != Broken)
  }

  /** What a turn may do to a main that received one more message. */
  ghost predicate MainTurn(c: Config, m: Party, t: Turn) {
    && (t.party.state != Broken ==> MainAt(c, t.party) && t.party.expectedSequence == m.expectedSequence + 1)
    && (t.party.state == Broken ==>
        t.sent == [] && t.party.nextSequence == m.nextSequence && !Matching(c) && m.state != Ready)
    && t.party.nextSequence == m.nextSequence + |t.sent|
    && (t.party.peerAuthenticated ==> Matching(c))
    && (m.state == Ready ==> t.party.state == Ready && t.party.epoch == m.epoch)
    && (t.party.state == Ready ==> m.state == Ready)
    && (forall i | 0 <= i < |t.sent| :: FromMain(c, t.party, t.sent[i], m.nextSequence + i))
    && t.party.nextSequence <= (if t.party.state == Ready then 3 else 2)
  }

  /** What a main learns from an honest worker's hello. */
  lemma MeetsWorker(c: Config, m: Party, k: Message)
    requires Honest(c) && MainAt(c, m) && m.state != Broken && m.expectedSequence == 0 && FromWorker(c, k, 0)
    ensures k.body.Hello?
    ensures Meet(m.(expectedSequence := 1), k, c.resolve) ==
      m.(expectedSequence := 1, remoteRole := Some(Worker), remoteNonce := Some(c.workerNonce),
         remoteHelloSessionId := Some(c.workerSession), sessionId := c.workerSession,
         principalWorkerId := Some(c.workerId), principalAuthorized := c.resolve(c.workerId).Some?,
             credential := MainCredential(c))
  {
    hide IsPortableName;
  }

  lemma MainMeetsWorker(c: Config, m: Party, k: Message)
    requires Honest(c) && MainAt(c, m) && m.state != Broken && m.expectedSequence == 0 && FromWorker(c, k, 0)
    ensures MainTurn(c, m, Receive(m, k, c.resolve))
  {
    hide IsPortableName, SendRegistration, Meet;
    MeetsWorker(c, m, k);
  }

  /** What the messages a main receives do to it. */
  lemma MainReceives(c: Config, m: Party, k: Message)
    requires Honest(c) && m.state != Broken && MainAt(c, m) && FromWorker(c, k, m.expectedSequence)
    requires (m.peerAuthenticated ==> Matching(c)) && (m.expectedSequence == 3 ==> m.state == Ready)
    ensures MainTurn(c, m, Receive(m, k, c.resolve))
  {
    hide SendHello, SendAuthentication, Meet, IsPortableName;
    if m.expectedSequence == 0 { MainMeetsWorker(c, m, k); }
  }

  /** A fourth message is on its way to the main only once the worker, and so the main, is ready. */
  lemma MainIsReadyInTime(c: Config, p: Pair)
    requires PairOk(c, p) && p.main.state != Broken && p.main.expectedSequence == 3 && p.toMain != []
    ensures p.main.state == Ready
  {
  }

  lemma ToMainKeepsOk(c: Config, p: Pair)
    requires Honest(c) && PairOk(c, p) && Enabled(p, ToMain)
    ensures PairOk(c, Apply(p, ToMain, c))
  {
    var next := Apply(p, ToMain, c);
    if p.main.state != Broken {
      if p.main.expectedSequence == 3 { MainIsReadyInTime(c, p); }
      hide Receive, MainAt, WorkerAt;
      assert FromWorker(c, p.toMain[0], p.main.expectedSequence);
      MainReceives(c, p.main, p.toMain[0]);
      assert forall i | 0 <= i < |next.toMain| :: next.toMain[i] == p.toMain[i + 1];
    }
  }

  /** What a turn may do to a worker that received one more message. */
  ghost predicate WorkerTurn(c: Config, w: Party, main: Party, t: Turn) {
    && (t.party.state != Broken ==> WorkerAt(c, t.party) && t.party.expectedSequence == w.expectedSequence + 1)
    && (t.party.state == Broken ==> t.sent == [] && t.party.nextSequence == w.nextSequence && !Matching(c))
    && t.party.nextSequence == w.nextSequence + |t.sent|
    && (t.party.peerAuthenticated ==> Matching(c))
    && (t.party.state == Ready ==> main.state == Ready && t.party.epoch == main.epoch)
    && (forall i | 0 <= i < |t.sent| :: FromWorker(c, t.sent[i], w.nextSequence + i))
  }

  lemma WorkerMeetsMain(c: Config, w: Party, main: Party, k: Message)
    requires Honest(c) && WorkerAt(c, w) && w.state != Broken && w.expectedSequence == 0 && FromMain(c, main, k, 0)
    ensures WorkerTurn(c, w, main, Receive(w, k, c.resolve))
  {
    hide IsPortableName, SendRegistration, MeetPrincipal;
    var met := Meet(w.(expectedSequence := 1), k, c.resolve);
    assert met.state == Authenticating && met.remoteNonce == Some(c.mainNonce);
  }

  lemma WorkerReceives(c: Config, w: Party, main: Party, k: Message)
    requires Honest(c) && w.state != Broken && WorkerAt(c, w) && FromMain(c, main, k, w.expectedSequence)
    requires w.peerAuthenticated ==> Matching(c)
    ensures WorkerTurn(c, w, main, Receive(w, k, c.resolve))
  {
    hide SendHello, SendAuthentication, Meet, IsPortableName;
    if w.expectedSequence == 0 { WorkerMeetsMain(c, w, main, k); }
  }

  lemma ToWorkerKeepsOk(c: Config, p: Pair)
    requires Honest(c) && PairOk(c, p) && Enabled(p, ToWorker)
    ensures PairOk(c, Apply(p, ToWorker, c))
  {
    var next := Apply(p, ToWorker, c);
    if p.worker.state != Broken {
      hide Receive, MainAt, WorkerAt;
      assert FromMain(c, p.main, p.toWorker[0], p.worker.expectedSequence);
      WorkerReceives(c, p.worker, p.main, p.toWorker[0]);
      assert forall i | 0 <= i < |next.toWorker| :: next.toWorker[i] == p.toWorker[i + 1];
    }
  }

  lemma LocalKeepsOk(c: Config, p: Pair, step: Step)
    requires Honest(c) && PairOk(c, p) && Enabled(p, step) && !step.ToMain? && !step.ToWorker?
    ensures PairOk(c, Apply(p, step, c))
  {
    hide IsPortableName, Receive;
  }

  lemma RunStep(states: seq<Pair>, steps: seq<Step>, c: Config, k: nat)
    requires Run(states, steps, c) && k + 1 < |states|
    ensures |states| == |steps| + 1 && Enabled(states[k], steps[k]) && states[k + 1] == Apply(states[k], steps[k], c)
  {
  }

  lemma StartsOk(states: seq<Pair>, steps: seq<Step>, c: Config)
    requires Run(states, steps, c) && Honest(c)
    ensures |states| > 0 && PairOk(c, states[0])
  {
  }

  lemma {:induction false} RunKeepsOk(states: seq<Pair>, steps: seq<Step>, c: Config, i: nat)
    requires Run(states, steps, c) && Honest(c) && i < |states|
    ensures PairOk(c, states[i])
  {
    hide Run, PairOk, Enabled, Apply;
    if i == 0 {
      StartsOk(states, steps, c);
    } else {
      RunStep(states, steps, c, i - 1);
      RunKeepsOk(states, steps, c, i - 1);
      match steps[i - 1]
      case ToMain => ToMainKeepsOk(c, states[i - 1]);
      case ToWorker => ToWorkerKeepsOk(c, states[i - 1]);
      case _ => LocalKeepsOk(c, states[i - 1], steps[i - 1]);
    }
  }

  /** With matching credentials neither side ever fails, whatever the interleaving. */
  lemma NeitherFails(states: seq<Pair>, steps: seq<Step>, c: Config, i: nat)
    requires Run(states, steps, c) && Honest(c) && Matching(c) && i < |states|
    ensures states[i].main.state != Broken && states[i].worker.state != Broken
  {
    RunKeepsOk(states, steps, c, i);
  }

  /** A worker is ready only after its main became ready, with the same session, the same epoch,
      and for the worker's own identity; and nobody becomes ready without the shared secret. */
  lemma ReadyAgrees(states: seq<Pair>, steps: seq<Step>, c: Config, i: nat)
    requires Run(states, steps, c) && Honest(c) && i < |states|
    ensures states[i].worker.state == Ready ==>
      && states[i].main.state == Ready && states[i].main.sessionId == states[i].worker.sessionId
      && states[i].main.epoch == states[i].worker.epoch && states[i].main.principalWorkerId == Some(c.workerId)
    ensures states[i].main.state == Ready || states[i].worker.state == Ready ==> Matching(c)
  {
    RunKeepsOk(states, steps, c, i);
  }

  // ----- Progress

  function Least(a: nat, b: nat): nat { if a < b then a else b }

  /** Work left: hellos to send, an epoch to grant, and messages on the links; a session's two
      answers to one hello and a heartbeat after readiness are paid for in advance. */
  function Remaining(p: Pair): nat {
    (if p.main.helloSent then 0 else 2) + (if p.worker.helloSent then 0 else 2)
    + (if p.main.expectedSequence == 0 then 2 else 0) + (if p.main.state == Authenticating then 2 else 0)
    + 2 * (3 - Least(p.worker.expectedSequence, 3)) + |p.toMain| + |p.toWorker|
  }

  /** Every step but a later heartbeat uses up some of the work that is left. */
  lemma StepsUseWorkUp(c: Config, p: Pair, step: Step)
    requires Honest(c) && Matching(c) && PairOk(c, p) && Enabled(p, step)
    ensures Remaining(Apply(p, step, c)) <= if step.Beat? then Remaining(p) + 1 else Remaining(p) - 1
  {
    match step
    case ToMain =>
      if p.main.expectedSequence == 3 { MainIsReadyInTime(c, p); }
      assert FromWorker(c, p.toMain[0], p.main.expectedSequence);
      MainReceives(c, p.main, p.toMain[0]);
    case ToWorker =>
      assert FromMain(c, p.main, p.toWorker[0], p.worker.expectedSequence);
      WorkerReceives(c, p.worker, p.main, p.toWorker[0]);
    case _ =>
  }

  /** When nothing but a heartbeat can happen, both sides are ready. */
  lemma QuiescentIsReady(c: Config, p: Pair)
    requires Honest(c) && Matching(c) && PairOk(c, p)
    requires !Enabled(p, MainHello) && !Enabled(p, WorkerHello) && !Enabled(p, ToMain) && !Enabled(p, ToWorker)
      && !Enabled(p, Granted(1))
    ensures p.main.state == Ready && p.worker.state == Ready
  {
  }

  function Beats(steps: seq<Step>): nat {
    if steps == [] then 0 else Beats(steps[..|steps| - 1]) + if steps[|steps| - 1].Beat? then 1 else 0
  }

  lemma {:induction false} WorkIsBounded(states: seq<Pair>, steps: seq<Step>, c: Config, i: nat)
    requires Run(states, steps, c) && Honest(c) && Matching(c) && i < |states|
    ensures i <= |steps| && i + Remaining(states[i]) <= Remaining(Initial(c)) + 2 * Beats(steps[..i])
  {
    hide Run, PairOk, Enabled, Apply, Remaining;
    RunBounds(states, steps, c);
    if i > 0 {
      WorkIsBounded(states, steps, c, i - 1);
      RunStep(states, steps, c, i - 1);
      RunKeepsOk(states, steps, c, i - 1);
      StepsUseWorkUp(c, states[i - 1], steps[i - 1]);
      assert steps[..i][..i - 1] == steps[..i - 1];
    }
  }

  lemma RunBounds(states: seq<Pair>, steps: seq<Step>, c: Config)
    requires Run(states, steps, c)
    ensures |states| == |steps| + 1 && states[0] == Initial(c)
  {
  }

  /** With matching credentials every run makes at most 14 steps besides heartbeats and their
      deliveries, and one that can go no further but for heartbeats has both sides ready. */
  lemma EveryMaximalRunIsReady(states: seq<Pair>, steps: seq<Step>, c: Config)
    requires Run(states, steps, c) && Honest(c) && Matching(c)
    ensures |states| == |steps| + 1 && |steps| <= 14 + 2 * Beats(steps)
    ensures (forall step | Enabled(states[|steps|], step) :: step.Beat?) ==>
      states[|steps|].main.state == Ready && states[|steps|].worker.state == Ready
  {
    RunBounds(states, steps, c);
    WorkIsBounded(states, steps, c, |steps|);
    assert steps[..|steps|] == steps;
    RunKeepsOk(states, steps, c, |steps|);
    if forall step | Enabled(states[|steps|], step) :: step.Beat? {
      QuiescentIsReady(c, states[|steps|]);
    }
  }

  // ----- Against any peer

  /** What moves one session, whoever is at the other end. */
  datatype Event = Greet | Get(message: Message) | Allow(epoch: nat) | Pulse

  function React(p: Party, e: Event, resolve: Resolver): Turn {
    match e
    case Greet => if p.state == Authenticating then SendHello(Turn(p, [])) else Turn(p, [])
    case Get(m) => Receive(p, m, resolve)
    case Allow(epoch) => if p.registrationPending then Grant(p, epoch) else Turn(p, [])
    case Pulse => if p.state == Ready then Send(Turn(p, []), Heartbeat) else Turn(p, [])
  }

  function Lived(p: Party, events: seq<Event>, resolve: Resolver): Party {
    if events == [] then p else React(Lived(p, events[..|events| - 1], resolve), events[|events| - 1], resolve).party
  }

  function Got(events: seq<Event>): seq<Message> {
    if events == [] then []
    else Got(events[..|events| - 1]) + if events[|events| - 1].Get? then [events[|events| - 1].message] else []
  }

  /** A hello the session went by: of the other role, with a nonce of the right length, and for a main
      with the identity and session of a worker. */
  predicate GreetedBy(p: Party, m: Message, resolve: Resolver) {
    && m.body.Hello? && m.body.role != p.role && p.remoteRole == Some(m.body.role)
    && 16 <= |m.body.nonce| <= 128 && p.remoteNonce == Some(m.body.nonce)
    && (p.role == Main ==>
          && m.body.workerId.Some? && IsPortableName(m.body.workerId.value)
          && p.principalWorkerId == m.body.workerId
          && p.sessionId == m.sessionId && p.remoteHelloSessionId == Some(m.sessionId)
          && p.principalAuthorized == resolve(m.body.workerId.value).Some?
          && (p.principalAuthorized ==> Some(p.credential) == resolve(m.body.workerId.value)))
  }

  predicate Greeted(p: Party, got: seq<Message>, h: nat, resolve: Resolver) {
    h < |got| && GreetedBy(p, got[h], resolve)
  }

  /** Then a proof made with the session's credential, for its worker, by the other role, over the nonce of
      that hello and the session's own. */
  predicate Proved(p: Party, got: seq<Message>, h: nat, a: nat, resolve: Resolver) {
    && Greeted(p, got, h, resolve) && h < a < |got| && got[a].body.Authenticate?
    && p.principalAuthorized && p.principalWorkerId.Some?
    && got[a].body.proof ==
      Proof(p.credential, p.principalWorkerId.value, got[h].body.nonce, p.nonce, got[h].body.role)
  }

  /** Then, for a main, the registration of that worker in the session of that hello, and for a worker
      its epoch in its own session. */
  predicate Admitted(p: Party, got: seq<Message>, h: nat, a: nat, r: nat, resolve: Resolver) {
    && Proved(p, got, h, a, resolve) && a < r < |got| && got[r].sessionId == p.sessionId
    && (p.role == Main ==> got[r].body == Register(p.principalWorkerId.value))
    && (p.role == Worker ==> got[r].body == SessionReady(p.epoch))
  }

  /** What is known of a session that is not broken. */
  ghost predicate Vouched(p: Party, start: Party, got: seq<Message>, resolve: Resolver) {
    && p.role == start.role && p.nonce == start.nonce
    && (p.role == Worker ==>
          && p.sessionId == start.sessionId && p.credential == start.credential
          && p.principalWorkerId == start.principalWorkerId && p.principalAuthorized == start.principalAuthorized)
    && (p.state != Broken ==>
          && p.expectedSequence == |got| && (forall i | 0 <= i < |got| :: got[i].sequence == i)
          && (p.remoteNonce.Some? ==> exists h :: Greeted(p, got, h, resolve))
          && (p.peerAuthenticated ==> p.remoteNonce.Some? && exists h, a :: Proved(p, got, h, a, resolve))
          && (p.registrationPending ==>
                p.role == Main && p.peerAuthenticated && exists h, a, r :: Admitted(p, got, h, a, r, resolve))
          && (p.state == Ready ==> p.peerAuthenticated && exists h, a, r :: Admitted(p, got, h, a, r, resolve)))
  }

  /** One event other than a message adds nothing to trust. */
  lemma LocalVouched(p: Party, start: Party, got: seq<Message>, e: Event, resolve: Resolver)
    requires Vouched(p, start, got, resolve) && !e.Get?
    ensures Vouched(React(p, e, resolve).party, start, got, resolve)
  {
    var q := React(p, e, resolve).party;
    LocalKeeps(p, e, resolve);
    Carried(p, q, got, [], resolve);
    assert got + [] == got;
    hide React, Greeted, Proved, Admitted, IsPortableName;
  }

  lemma LocalKeeps(p: Party, e: Event, resolve: Resolver)
    requires !e.Get?
    ensures var q := React(p, e, resolve).party;
      && q == p.(helloSent := q.helloSent, nextSequence := q.nextSequence, epoch := q.epoch, state := q.state)
      && (q.epoch != p.epoch || q.state != p.state ==>
            p.registrationPending && p.state == Authenticating && q.state == Ready)
  {
    hide SendHello, Receive;
    GreetingKeeps(Turn(p, []));
  }

  /** What was shown stays shown when the session keeps the fields it was shown about. */
  lemma Carried(p: Party, q: Party, got: seq<Message>, more: seq<Message>, resolve: Resolver)
    requires q.role == p.role && q.nonce == p.nonce && q.credential == p.credential && q.sessionId == p.sessionId
    requires q.remoteNonce == p.remoteNonce && q.remoteRole == p.remoteRole
      && q.remoteHelloSessionId == p.remoteHelloSessionId
    requires q.principalWorkerId == p.principalWorkerId && q.principalAuthorized == p.principalAuthorized
    ensures forall h :: Greeted(p, got, h, resolve) ==> Greeted(q, got + more, h, resolve)
    ensures forall h, a :: Proved(p, got, h, a, resolve) ==> Proved(q, got + more, h, a, resolve)
    ensures q.role == Main || q.epoch == p.epoch ==>
      forall h, a, r :: Admitted(p, got, h, a, r, resolve) ==> Admitted(q, got + more, h, a, r, resolve)
  {
    hide IsPortableName;
  }

  lemma GreetingKeeps(t: Turn)
    ensures var q := SendHello(t).party;
      q == t.party.(helloSent := q.helloSent, nextSequence := q.nextSequence)
  {
  }

  lemma AnsweringKeeps(t: Turn)
    ensures var q := SendAuthentication(t).party;
      q == t.party.(authenticationSent := q.authenticationSent, nextSequence := q.nextSequence)
  {
  }

  /** Greeting and answering leave all but the counters and the notes of having done so. */
  lemma AnswersKeep(p: Party)
    ensures var q := SendAuthentication(SendHello(Turn(p, []))).party;
      q == p.(helloSent := q.helloSent, authenticationSent := q.authenticationSent, nextSequence := q.nextSequence)
  {
    hide SendHello, SendAuthentication;
    GreetingKeeps(Turn(p, []));
    AnsweringKeeps(SendHello(Turn(p, [])));
  }

  lemma PrincipalIsMet(p: Party, session: JsString, workerId: Option<JsString>, resolve: Resolver)
    requires p.state != Broken && MeetPrincipal(p, session, workerId, resolve).state != Broken
    ensures workerId.Some? && IsPortableName(workerId.value)
    ensures var met, resolved := MeetPrincipal(p, session, workerId, resolve), resolve(workerId.value);
      && met == p.(principalWorkerId := workerId, principalAuthorized := resolved.Some?, sessionId := session,
                   credential := met.credential)
      && (resolved.Some? ==> met.credential == resolved.value)
  {
    hide IsPortableName;
  }

  lemma MeetingGreets(p: Party, m: Message, resolve: Resolver)
    requires m.body.Hello? && p.state != Broken && Meet(p, m, resolve).state != Broken
    ensures var met := Meet(p, m, resolve);
      && p.state == met.state == Authenticating && p.remoteNonce.None? && GreetedBy(met, m, resolve)
      && met.role == p.role && met.nonce == p.nonce && met.expectedSequence == p.expectedSequence
      && met.peerAuthenticated == p.peerAuthenticated && met.registrationPending == p.registrationPending
  {
    hide IsPortableName, MeetPrincipal;
    var told := p.(remoteRole := Some(m.body.role), remoteNonce := Some(m.body.nonce),
                   remoteHelloSessionId := Some(m.sessionId));
    if p.role == Main { PrincipalIsMet(told, m.sessionId, m.body.workerId, resolve); }
  }

  lemma PrincipalKeeps(p: Party, session: JsString, workerId: Option<JsString>, resolve: Resolver)
    ensures var met := MeetPrincipal(p, session, workerId, resolve); met.role == p.role && met.nonce == p.nonce
  {
    hide IsPortableName;
  }

  lemma MeetingKeepsWorker(p: Party, m: Message, resolve: Resolver)
    requires m.body.Hello?
    ensures var met := Meet(p, m, resolve);
      && met.role == p.role && met.nonce == p.nonce
      && (p.role == Worker ==>
            && met.sessionId == p.sessionId && met.credential == p.credential
            && met.principalWorkerId == p.principalWorkerId && met.principalAuthorized == p.principalAuthorized)
  {
    hide MeetPrincipal;
    PrincipalKeeps(p.(remoteRole := Some(m.body.role), remoteNonce := Some(m.body.nonce),
                      remoteHelloSessionId := Some(m.sessionId)), m.sessionId, m.body.workerId, resolve);
  }

  lemma HelloVouched(p: Party, start: Party, got: seq<Message>, m: Message, resolve: Resolver)
    requires Vouched(p, start, got, resolve) && p.state != Broken && m.body.Hello? && m.sequence == |got|
    ensures Vouched(ReceiveHello(p.(expectedSequence := |got| + 1), m, resolve).party, start, got + [m], resolve)
  {
    hide Meet, Proved, Admitted, SendHello, SendAuthentication, IsPortableName;
    var next := p.(expectedSequence := |got| + 1);
    var met := Meet(next, m, resolve);
    MeetingKeepsWorker(next, m, resolve);
    if met.state != Broken {
      MeetingGreets(next, m, resolve);
      AnswersKeep(met);
      var q := ReceiveHello(next, m, resolve).party;
      assert Greeted(q, got + [m], |got|, resolve);
    }
  }

  lemma ProofVouched(p: Party, start: Party, got: seq<Message>, m: Message, resolve: Resolver)
    requires Vouched(p, start, got, resolve) && p.state != Broken && m.body.Authenticate? && m.sequence == |got|
    ensures Vouched(ReceiveAuthentication(p.(expectedSequence := |got| + 1), m).party, start, got + [m], resolve)
  {
    hide IsPortableName;
    var q := ReceiveAuthentication(p.(expectedSequence := |got| + 1), m).party;
    Carried(p, q, got, [m], resolve);
    if q.state != Broken {
      var h :| Greeted(p, got, h, resolve);
      assert Proved(q, got + [m], h, |got|, resolve);
    }
  }

  /** The registration at a main, the epoch at a worker. */
  lemma AdmissionVouched(p: Party, start: Party, got: seq<Message>, m: Message, resolve: Resolver)
    requires Vouched(p, start, got, resolve) && p.state != Broken && m.sequence == |got|
    requires m.body.Register? || m.body.SessionReady? || m.body.Heartbeat?
    ensures Vouched(Dispatch(p.(expectedSequence := |got| + 1), m, resolve).party, start, got + [m], resolve)
  {
    var q := Dispatch(p.(expectedSequence := |got| + 1), m, resolve).party;
    AdmissionKeeps(p, |got| + 1, m, resolve);
    Carried(p, q, got, [m], resolve);
    hide IsPortableName, Greeted, Proved, Dispatch, Admitted;
    if q.state != Broken && p.peerAuthenticated {
      var h, a :| Proved(p, got, h, a, resolve);
      assert Proved(q, got + [m], h, a, resolve);
      if !m.body.Heartbeat? { Admits(q, got, m, h, a, resolve); }
    }
  }

  lemma Admits(p: Party, got: seq<Message>, m: Message, h: nat, a: nat, resolve: Resolver)
    requires Proved(p, got + [m], h, a, resolve) && a < |got| && m.sessionId == p.sessionId
    requires if p.role == Main then m.body == Register(p.principalWorkerId.value) else m.body == SessionReady(p.epoch)
    ensures Admitted(p, got + [m], h, a, |got|, resolve)
  {
    hide Greeted;
  }

  /** Both demand a proof first, and of them only the epoch makes a worker ready. */
  lemma AdmissionKeeps(p: Party, expected: nat, m: Message, resolve: Resolver)
    requires m.body.Register? || m.body.SessionReady? || m.body.Heartbeat?
    ensures var q := Dispatch(p.(expectedSequence := expected), m, resolve).party;
      && q == p.(expectedSequence := expected, state := q.state, registrationPending := q.registrationPending,
                 epoch := q.epoch, nextSequence := q.nextSequence)
      && (q.state != Broken && m.body.Register? ==>
            && p.role == Main && p.peerAuthenticated && p.remoteHelloSessionId == Some(m.sessionId)
            && p.principalWorkerId == Some(m.body.registered)
            && q.state == p.state == Authenticating && q.epoch == p.epoch)
      && (q.state != Broken && m.body.SessionReady? ==>
            && p.role == Worker && p.peerAuthenticated && p.state == Authenticating && m.sessionId == p.sessionId
            && q.epoch == m.body.epoch && q.registrationPending == p.registrationPending)
      && (m.body.Heartbeat? ==> q == p.(expectedSequence := expected))
  {
    hide ReceiveHello, ReceiveAuthentication, ReceiveRegistration, ReceiveReady;
    if m.body.Register? { RegistrationKeeps(p.(expectedSequence := expected), m); }
    if m.body.SessionReady? { EpochKeeps(p.(expectedSequence := expected), m); }
  }

  lemma RegistrationKeeps(p: Party, m: Message)
    requires m.body.Register?
    ensures var q := ReceiveRegistration(p, m).party;
      && q == p.(state := q.state, registrationPending := q.registrationPending)
      && (q.state != Broken ==>
            && p.role == Main && p.peerAuthenticated && p.remoteHelloSessionId == Some(m.sessionId)
            && p.principalWorkerId == Some(m.body.registered) && q.state == p.state == Authenticating)
  {
  }

  lemma EpochKeeps(p: Party, m: Message)
    requires m.body.SessionReady?
    ensures var q := ReceiveReady(p, m).party;
      && q == p.(state := q.state, epoch := q.epoch, nextSequence := q.nextSequence)
      && (q.state != Broken ==>
            && p.role == Worker && p.peerAuthenticated && p.state == Authenticating && m.sessionId == p.sessionId
            && q.epoch == m.body.epoch)
  {
  }

  lemma MessageVouched(p: Party, start: Party, got: seq<Message>, m: Message, resolve: Resolver)
    requires Vouched(p, start, got, resolve)
    ensures Vouched(Receive(p, m, resolve).party, start, got + [m], resolve)
  {
    hide IsPortableName, ReceiveHello, ReceiveAuthentication;
    if p.state != Broken && m.sequence == p.expectedSequence {
      match m.body
      case Hello(_, _, _) => HelloVouched(p, start, got, m, resolve);
      case Authenticate(_) => ProofVouched(p, start, got, m, resolve);
      case _ => AdmissionVouched(p, start, got, m, resolve);
    }
  }

  lemma {:induction false} LivedVouched(start: Party, events: seq<Event>, resolve: Resolver)
    requires start.state == Authenticating && start.expectedSequence == 0 && start.remoteNonce.None?
    requires !start.peerAuthenticated && !start.registrationPending
    ensures Vouched(Lived(start, events, resolve), start, Got(events), resolve)
  {
    if events != [] {
      hide Vouched, React;
      var front, last := events[..|events| - 1], events[|events| - 1];
      LivedVouched(start, front, resolve);
      if last.Get? {
        MessageVouched(Lived(start, front, resolve), start, Got(front), last.message, resolve);
        ReactsToMessage(Lived(start, front, resolve), last.message, resolve);
      } else {
        LocalVouched(Lived(start, front, resolve), start, Got(front), last, resolve);
        assert Got(events) == Got(front) + [] == Got(front);
      }
    }
  }

  lemma ReactsToMessage(p: Party, m: Message, resolve: Resolver)
    ensures React(p, Get(m), resolve) == Receive(p, m, resolve)
  {
  }

  /** Whatever a main receives from whatever peer: when it is ready, it got, in this order and in an
      unbroken sequence, a worker's hello, a proof made with the credential registered for the worker
      named there, over both nonces, and the registration of that worker in the hello's session. */
  lemma ReadyMainSawProof(session: JsString, nonce: JsString, events: seq<Event>, resolve: Resolver)
    returns (h: nat, a: nat, r: nat)
    requires Lived(NewParty(Main, session, nonce, Unauthorized, None), events, resolve).state == Ready
    ensures h < a < r < |Got(events)|
    ensures var main, got := Lived(NewParty(Main, session, nonce, Unauthorized, None), events, resolve), Got(events);
      && (forall i | 0 <= i < |got| :: got[i].sequence == i)
      && got[h].body.Hello? && got[h].body.role == Worker && 16 <= |got[h].body.nonce| <= 128
      && main.principalWorkerId.Some? && got[h].body.workerId == main.principalWorkerId
      && var worker := main.principalWorkerId.value;
      && IsPortableName(worker) && resolve(worker).Some?
      && got[a].body ==
        Authenticate(Proof(resolve(worker).value, worker, got[h].body.nonce, nonce, Worker))
      && got[r].body == Register(worker) && got[r].sessionId == got[h].sessionId == main.sessionId
  {
    hide IsPortableName, Lived;
    var start := NewParty(Main, session, nonce, Unauthorized, None);
    LivedVouched(start, events, resolve);
    h, a, r :| Admitted(Lived(start, events, resolve), Got(events), h, a, r, resolve);
  }

  /** Likewise a worker that is ready got a main's hello, a proof made with its own credential over both
      nonces, and its epoch in its own session. */
  lemma ReadyWorkerSawProof(session: JsString, nonce: JsString, credential: Credential, workerId: JsString,
                            events: seq<Event>, resolve: Resolver)
    returns (h: nat, a: nat, r: nat)
    requires Lived(NewParty(Worker, session, nonce, credential, Some(workerId)), events, resolve).state == Ready
    ensures h < a < r < |Got(events)|
    ensures var got := Got(events);
      var worker := Lived(NewParty(Worker, session, nonce, credential, Some(workerId)), events, resolve);
      && (forall i | 0 <= i < |got| :: got[i].sequence == i)
      && got[h].body.Hello? && got[h].body.role == Main && 16 <= |got[h].body.nonce| <= 128
      && got[a].body == Authenticate(Proof(credential, workerId, got[h].body.nonce, nonce, Main))
      && got[r].body == SessionReady(worker.epoch) && got[r].sessionId == session
  {
    hide IsPortableName, Lived;
    var start := NewParty(Worker, session, nonce, credential, Some(workerId));
    LivedVouched(start, events, resolve);
    h, a, r :| Admitted(Lived(start, events, resolve), Got(events), h, a, r, resolve);
  }

  /** What a ready session still takes, and that nothing changes who it is with. */
  lemma ReadyTakes(p: Party, e: Event, resolve: Resolver)
    requires p.state == Ready && p.peerAuthenticated
    ensures var q := React(p, e, resolve).party;
      q.state != Broken ==>
        && q.state == Ready && q.sessionId == p.sessionId && q.epoch == p.epoch && q.peerAuthenticated
        && q.principalWorkerId == p.principalWorkerId
        && (e.Get? ==> e.message.body == Heartbeat && e.message.sessionId == p.sessionId)
  {
    hide Receive, SendHello;
    if e.Get? { ReadyTakesHeartbeats(p, e.message, resolve); }
  }

  lemma ReadyTakesHeartbeats(p: Party, m: Message, resolve: Resolver)
    requires p.state == Ready && p.peerAuthenticated
    ensures var q := Receive(p, m, resolve).party;
      q.state != Broken ==>
        q == p.(expectedSequence := q.expectedSequence) && m.body == Heartbeat && m.sessionId == p.sessionId
  {
    hide MeetPrincipal, SendHello, SendAuthentication, SendRegistration;
  }

  /** Once ready a session stays with its peer, its identity and its epoch for as long as it is not
      broken, and all it got since were messages of its own session that belong to a ready one. */
  lemma {:induction false} ReadyStaysInSession(start: Party, events: seq<Event>, n: nat, resolve: Resolver)
    requires start.state == Authenticating && start.expectedSequence == 0 && start.remoteNonce.None?
    requires !start.peerAuthenticated && !start.registrationPending && n <= |events|
    requires Lived(start, events[..n], resolve).state == Ready
    requires forall k | n <= k <= |events| :: Lived(start, events[..k], resolve).state != Broken
    ensures var once, now := Lived(start, events[..n], resolve), Lived(start, events, resolve);
      && now.state == Ready && now.sessionId == once.sessionId && now.epoch == once.epoch
      && now.principalWorkerId == once.principalWorkerId
      && Got(events[..n]) <= Got(events)
      && forall i | |Got(events[..n])| <= i < |Got(events)| ::
           Got(events)[i].body == Heartbeat && Got(events)[i].sessionId == now.sessionId
  {
    assert events[..|events|] == events;
    if n < |events| {
      hide React, Vouched;
      var front, last := events[..|events| - 1], events[|events| - 1];
      forall k | n <= k <= |front| ensures front[..k] == events[..k] {}
      ReadyStaysInSession(start, front, n, resolve);
      ReadyIsTrusted(start, front, resolve);
      ReadyTakes(Lived(start, front, resolve), last, resolve);
    }
  }

  lemma ReadyIsTrusted(start: Party, events: seq<Event>, resolve: Resolver)
    requires start.state == Authenticating && start.expectedSequence == 0 && start.remoteNonce.None?
    requires !start.peerAuthenticated && !start.registrationPending
    ensures Lived(start, events, resolve).state == Ready ==> Lived(start, events, resolve).peerAuthenticated
  {
    hide Lived;
    LivedVouched(start, events, resolve);
  }

  // ----- The session object

  /** Answering after something was already sent in the same turn. */
  lemma AuthenticationFollows(t: Turn)
    ensures var answer := SendAuthentication(Turn(t.party, []));
      SendAuthentication(t) == Turn(answer.party, t.sent + answer.sent)
  {
  }

  class HandshakeSession {
    const role: Role
    const nonce: JsString
    const resolve: Resolver
    var state: SessionState
    var sessionId: JsString
    var epoch: nat
    var credential: Credential
    var nextSequence: nat
    var expectedSequence: nat
    var remoteNonce: Option<JsString>
    var remoteRole: Option<Role>
    var remoteHelloSessionId: Option<JsString>
    var principalWorkerId: Option<JsString>
    var principalAuthorized: bool
    var peerAuthenticated: bool
    var helloSent: bool
    var authenticationSent: bool
    var registrationSent: bool
    var registrationPending: bool
    var socket: seq<Message>

    function View(): Party
      reads this
    {
      Party(role, state, sessionId, epoch, nonce, credential, nextSequence, expectedSequence, remoteNonce, remoteRole,
            remoteHelloSessionId,
            principalWorkerId, principalAuthorized, peerAuthenticated, helloSent, authenticationSent, registrationSent,
                registrationPending)
    }

    constructor (role: Role, session: JsString, nonce: JsString, credential: Credential, principal: Option<JsString>,
                 resolve: Resolver)
      ensures View() == NewParty(role, session, nonce, credential, principal) && socket == [] && this.resolve == resolve
    {
      this.role, this.nonce, this.resolve := role, nonce, resolve;
      state, sessionId, epoch, this.credential := Authenticating, session, 0, credential;
      nextSequence, expectedSequence := 0, 0;
      remoteNonce, remoteRole, remoteHelloSessionId := None, None, None;
      principalWorkerId, principalAuthorized, peerAuthenticated := principal, principal.Some?, false;
      helloSent, authenticationSent, registrationSent, registrationPending := false, false, false, false;
      socket := [];
    }

    method SendInternal(body: Body)
      modifies this`nextSequence, this`socket
      ensures View() == Send(Turn(old(View()), []), body).party
        && socket == old(socket) + Send(Turn(old(View()), []), body).sent
    {
      socket := socket + [Message(nextSequence, sessionId, body)];
      nextSequence := nextSequence + 1;
    }

    method SendHelloOnce()
      modifies this`helloSent, this`nextSequence, this`socket
      ensures View() == SendHello(Turn(old(View()), [])).party
        && socket == old(socket) + SendHello(Turn(old(View()), [])).sent
    {
      if helloSent {
        return;
      }
      helloSent := true;
      SendInternal(Hello(role, nonce, if role == Worker then principalWorkerId else None));
    }

    method SendAuthenticationOnce()
      modifies this`authenticationSent, this`nextSequence, this`socket
      ensures View() == SendAuthentication(Turn(old(View()), [])).party
        && socket == old(socket) + SendAuthentication(Turn(old(View()), [])).sent
    {
      if authenticationSent || !helloSent || remoteNonce.None? || remoteRole.None? || principalWorkerId.None? {
        return;
      }
      authenticationSent := true;
      SendInternal(Authenticate(Proof(credential, principalWorkerId.value, nonce, remoteNonce.value, role)));
    }

    method SendRegistrationOnce()
      modifies this`registrationSent, this`nextSequence, this`socket
      ensures View() == SendRegistration(Turn(old(View()), [])).party
        && socket == old(socket) + SendRegistration(Turn(old(View()), [])).sent
    {
      if registrationSent || principalWorkerId.None? || !peerAuthenticated {
        return;
      }
      registrationSent := true;
      SendInternal(Register(principalWorkerId.value));
    }

    method MeetPeer(m: Message)
      requires m.body.Hello?
      modifies this
      ensures View() == Meet(old(View()), m, resolve) && socket == old(socket)
    {
      if remoteNonce.Some? || state != Authenticating {
        state := Broken;
        return;
      }
      if (m.body.workerId.Some? <==> m.body.role != Worker) || m.body.role == role || !(16 <= |m.body.nonce| <= 128) {
        state := Broken;
        return;
      }
      remoteRole := Some(m.body.role);
      remoteNonce := Some(m.body.nonce);
      remoteHelloSessionId := Some(m.sessionId);
      if role == Main {
        TakePrincipal(m.sessionId, m.body.workerId);
      }
    }

    method TakePrincipal(session: JsString, workerId: Option<JsString>)
      modifies this`state, this`principalWorkerId, this`principalAuthorized, this`credential, this`sessionId
      ensures View() == MeetPrincipal(old(View()), session, workerId, resolve)
    {
      if workerId.None? || !IsPortableName(workerId.value) {
        state := Broken;
        return;
      }
      var resolved := resolve(workerId.value);
      principalWorkerId := workerId;
      principalAuthorized := resolved.Some?;
      if resolved.Some? {
        credential := resolved.value;
      }
      sessionId := session;
    }

    method OnHello(m: Message)
      requires m.body.Hello?
      modifies this
      ensures View() == ReceiveHello(old(View()), m, resolve).party
        && socket == old(socket) + ReceiveHello(old(View()), m, resolve).sent
    {
      hide Meet, SendHello, SendAuthentication;
      MeetPeer(m);
      if state == Broken {
        return;
      }
      ghost var greeted := SendHello(Turn(View(), []));
      SendHelloOnce();
      AuthenticationFollows(greeted);
      SendAuthenticationOnce();
    }

    method OnAuthentication(m: Message)
      requires m.body.Authenticate?
      modifies this
      ensures View() == ReceiveAuthentication(old(View()), m).party
        && socket == old(socket) + ReceiveAuthentication(old(View()), m).sent
    {
      if peerAuthenticated || remoteNonce.None? || remoteRole.None? || principalWorkerId.None? {
        state := Broken;
        return;
      }
      if m.body.proof != Proof(credential, principalWorkerId.value, remoteNonce.value, nonce, remoteRole.value)
        || !principalAuthorized
      {
        state := Broken;
        return;
      }
      peerAuthenticated := true;
      if role == Worker {
        SendRegistrationOnce();
      }
    }

    method OnRegistration(m: Message)
      requires m.body.Register?
      modifies this
      ensures View() == ReceiveRegistration(old(View()), m).party
        && socket == old(socket) + ReceiveRegistration(old(View()), m).sent
    {
      if role != Main || state != Authenticating || registrationPending || !peerAuthenticated
        || remoteRole != Some(Worker)
         || remoteHelloSessionId != Some(m.sessionId) || principalWorkerId != Some(m.body.registered)
      {
        state := Broken;
        return;
      }
      registrationPending := true;
    }

    method OnEpochGranted(granted: nat)
      modifies this
      ensures View() == Grant(old(View()), granted).party && socket == old(socket) + Grant(old(View()), granted).sent
    {
      if state != Authenticating {
        return;
      }
      epoch := granted;
      state := Ready;
      SendInternal(SessionReady(granted));
    }

    method OnReady(m: Message)
      requires m.body.SessionReady?
      modifies this
      ensures View() == ReceiveReady(old(View()), m).party && socket == old(socket) + ReceiveReady(old(View()), m).sent
    {
      if role != Worker || state != Authenticating || !peerAuthenticated || m.sessionId != sessionId {
        state := Broken;
        return;
      }
      epoch := m.body.epoch;
      state := Ready;
      SendInternal(Heartbeat);
    }

    method DispatchControl(m: Message)
      modifies this
      ensures View() == Dispatch(old(View()), m, resolve).party
        && socket == old(socket) + Dispatch(old(View()), m, resolve).sent
    {
      hide ReceiveHello, ReceiveAuthentication, ReceiveRegistration, ReceiveReady;
      match m.body {
        case Hello(_, _, _) => OnHello(m);
        case Authenticate(_) => OnAuthentication(m);
        case Register(_) => OnRegistration(m);
        case SessionReady(_) => OnReady(m);
        case Heartbeat =>
      }
    }

    method ReceiveControl(m: Message)
      modifies this
      ensures View() == Receive(old(View()), m, resolve).party
        && socket == old(socket) + Receive(old(View()), m, resolve).sent
    {
      hide Dispatch;
      if state == Broken {
        return;
      }
      if m.sequence != expectedSequence {
        state := Broken;
        return;
      }
      expectedSequence := expectedSequence + 1;
      if state == Ready && m.sessionId != sessionId && !m.body.Hello? {
        state := Broken;
        return;
      }
      DispatchControl(m);
    }
  }
}
