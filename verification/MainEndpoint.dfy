/** The main side of worker sessions: registrations queue per worker, epochs come from an
    allocator that may answer late or stale, and each publication replaces its predecessor. */
module MainEndpoints {
  import opened StateStrings

  datatype SessionState = Authenticating | Ready | Unavailable | Gone

  /** A registration on its way: queued, asking for an epoch, or holding one. */
  datatype Phase = Waiting | Allocating | Allocated(epoch: nat)
  datatype Claim = Claim(session: nat, phase: Phase)
  datatype Publication = Publication(worker: JsString, session: nat, epoch: nat)

  /** `granted` are the epochs handed to sessions, `late` the answers nobody waits for any more,
      `published` every publication so far. */
  datatype Main = Main(
    closed: bool, sessions: set<nat>, states: map<nat, SessionState>, registered: map<nat, JsString>,
    tails: map<JsString, seq<Claim>>, current: map<JsString, nat>, lastEpochs: map<JsString, nat>,
    granted: map<nat, nat>, late: map<JsString, nat>, published: seq<Publication>)

  const Fresh: Main := Main(false, {}, map[], map[], map[], map[], map[], map[], map[], [])

  datatype Step =
    | Attach(session: nat)
    | Register(session: nat, worker: JsString)
    | Start(worker: JsString)
    | Answer(worker: JsString, epoch: nat)
    | Abandon(worker: JsString)
    | Refuse(worker: JsString)
    | LateAnswer(worker: JsString, epoch: nat)
    | Publish(worker: JsString, publishable: bool)
    | BecomeReady(session: nat)
    | End(session: nat)
    | Close

  predicate Live(m: Main, s: nat) { s in m.states && (m.states[s] == Authenticating || m.states[s] == Ready) }

  function Tail(m: Main, w: JsString): seq<Claim> { if w in m.tails then m.tails[w] else [] }

  function LastEpoch(m: Main, w: JsString): nat { if w in m.lastEpochs then m.lastEpochs[w] else 0 }

  predicate HeadIs(m: Main, w: JsString, phase: Phase) { Tail(m, w) != [] && Tail(m, w)[0].phase == phase }

  predicate Candidate(m: Main, s: nat) {
    !m.closed && s in m.sessions && s in m.states && m.states[s] == Authenticating
  }

  predicate Enabled(m: Main, step: Step) {
    match step
    case Attach(s) => !m.closed && s !in m.states
    case Register(s, w) => s in m.states && m.states[s] == Authenticating && s !in m.registered
    case Start(w) => HeadIs(m, w, Waiting)
    case Answer(w, _) => HeadIs(m, w, Allocating)
    case Abandon(w) =>
      HeadIs(m, w, Allocating)
        && !(Tail(m, w)[0].session in m.states && m.states[Tail(m, w)[0].session] == Authenticating)
    case Refuse(w) => HeadIs(m, w, Allocating)
    case LateAnswer(w, _) => w in m.late && m.late[w] > 0
    case Publish(w, _) => Tail(m, w) != [] && Tail(m, w)[0].phase.Allocated?
    case BecomeReady(s) => s in m.granted && s in m.states && m.states[s] == Authenticating
    case End(s) => Live(m, s)
    case Close => true
  }

  function WithHead(m: Main, w: JsString, phase: Phase): Main
    requires Tail(m, w) != []
  {
    m.(tails := m.tails[w := [Tail(m, w)[0].(phase := phase)] + Tail(m, w)[1..]])
  }

  function DropHead(m: Main, w: JsString): Main
    requires Tail(m, w) != []
  {
    m.(tails := m.tails[w := Tail(m, w)[1..]])
  }

  /** Epochs are recorded only upwards. */
  function Recorded(m: Main, w: JsString, epoch: nat): Main {
    if epoch <= LastEpoch(m, w) then m else m.(lastEpochs := m.lastEpochs[w := epoch])
  }

  function Released(m: Main, s: nat): Main {
    m.(sessions := m.sessions - {s}, current := map w | w in m.current && m.current[w] != s :: m.current[w])
  }

  /** A session leaves its live states at most once, and is released as it does. */
  function Ended(m: Main, s: nat, final: SessionState): Main {
    if Live(m, s) then Released(m.(states := m.states[s := final]), s) else m
  }

  function Published(m: Main, w: JsString, s: nat, epoch: nat): Main {
    var next := m.(current := m.current[w := s], granted := m.granted[s := epoch],
                   published := m.published + [Publication(w, s, epoch)]);
    if w in m.current then Ended(next, m.current[w], Unavailable) else next
  }

  function Apply(m: Main, step: Step): Main
    requires Enabled(m, step)
  {
    match step
    case Attach(s) => m.(sessions := m.sessions + {s}, states := m.states[s := Authenticating])
    case Register(s, w) =>
      m.(registered := m.registered[s := w], tails := m.tails[w := Tail(m, w) + [Claim(s, Waiting)]])
    case Start(w) => if Candidate(m, Tail(m, w)[0].session) then WithHead(m, w, Allocating) else DropHead(m, w)
    case Answer(w, epoch) =>
      if epoch <= LastEpoch(m, w) then DropHead(m, w) else WithHead(Recorded(m, w, epoch), w, Allocated(epoch))
    case Abandon(w) => DropHead(m, w).(late := m.late[w := 1 + if w in m.late then m.late[w] else 0])
    case Refuse(w) => DropHead(m, w)
    case LateAnswer(w, epoch) => Recorded(m, w, epoch).(late := m.late[w := m.late[w] - 1])
    case Publish(w, publishable) =>
      var head := Tail(m, w)[0];
      if Candidate(m, head.session) && publishable then Published(DropHead(m, w), w, head.session, head.phase.epoch)
      else DropHead(m, w)
    case BecomeReady(s) => m.(states := m.states[s := Ready])
    case End(s) => Ended(m, s, Gone)
    case Close =>
      m.(closed := true, sessions := {}, current := map[],
         states := map s | s in m.states :: if Live(m, s) then Gone else m.states[s])
  }

  ghost predicate Run(states: seq<Main>, steps: seq<Step>) {
    && |states| == |steps| + 1 && states[0] == Fresh
    && forall i | 0 <= i < |steps| :: Enabled(states[i], steps[i]) && states[i + 1] == Apply(states[i], steps[i])
  }

  // ----- Invariants

  /** For each worker, later publications carry higher epochs. */
  ghost predicate EpochsRise(published: seq<Publication>) {
    forall i, j | 0 <= i < j < |published| && published[i].worker == published[j].worker ::
      published[i].epoch < published[j].epoch
  }

  /** A worker's published epochs are below the one its registration holds, and below the highest recorded. */
  ghost predicate Bounded(published: seq<Publication>, w: JsString, tail: seq<Claim>, last: nat) {
    && (forall p | p in published && p.worker == w :: p.epoch <= last)
    && (tail != [] && tail[0].phase.Allocated? ==>
          tail[0].phase.epoch <= last && forall p | p in published && p.worker == w :: p.epoch < tail[0].phase.epoch)
  }

  /** A session queues once, with the worker it registered, and is not published while it queues. */
  ghost predicate TailOk(w: JsString, tail: seq<Claim>, registered: map<nat, JsString>, granted: map<nat, nat>) {
    && (forall i | 0 <= i < |tail| ::
        tail[i].session in registered && registered[tail[i].session] == w && tail[i].session !in granted)
    && (forall i | 0 < i < |tail| :: tail[i].phase == Waiting)
    && (forall i, j | 0 <= i < j < |tail| :: tail[i].session != tail[j].session)
  }

  ghost predicate TailsOk(m: Main) {
    && (forall w: JsString :: Bounded(m.published, w, Tail(m, w), LastEpoch(m, w)))
    && (forall w: JsString :: TailOk(w, Tail(m, w), m.registered, m.granted))
  }

  ghost predicate PublishedOk(m: Main) {
    && (forall p | p in m.published ::
          p.session in m.registered && m.registered[p.session] == p.worker && p.session in m.states
          && p.session in m.granted && m.granted[p.session] == p.epoch)
    && (forall s | s in m.granted :: exists p :: p in m.published && p.session == s)
    && (forall s | s in m.states && m.states[s] == Ready :: s in m.granted)
  }

  /** A current session is alive, its worker's own, and its newest. */
  ghost predicate IsNewest(m: Main, w: JsString, s: nat) {
    && Live(m, s) && s in m.registered && m.registered[s] == w && s in m.granted
    && forall p | p in m.published && p.worker == w :: p.epoch <= m.granted[s]
  }

  /** The published sessions still alive are exactly the current ones, each its worker's newest. */
  ghost predicate CurrentOk(m: Main) {
    && (forall w | w in m.current :: IsNewest(m, w, m.current[w]))
    && (forall p | p in m.published && Live(m, p.session) :: p.worker in m.current && m.current[p.worker] == p.session)
  }

  ghost predicate MainOk(m: Main) {
    EpochsRise(m.published) && TailsOk(m) && PublishedOk(m) && CurrentOk(m)
  }

  // Publication

  /** Ending a session touches its state, its place among the attached, and where it was current. */
  lemma EndedShape(m: Main, s: nat, final: SessionState)
    ensures var next := Ended(m, s, final);
      && next == m.(states := next.states, sessions := next.sessions, current := next.current)
      && next.states == (if Live(m, s) then m.states[s := final] else m.states)
      && (forall w :: w in next.current <==> w in m.current && !(Live(m, s) && m.current[w] == s))
      && (forall w | w in next.current :: next.current[w] == m.current[w])
  {
  }

  lemma PublishShape(m: Main, w: JsString, p: Publication)
    requires Enabled(m, Publish(w, true)) && Candidate(m, Tail(m, w)[0].session)
    requires p == Publication(w, Tail(m, w)[0].session, Tail(m, w)[0].phase.epoch)
    requires w in m.current ==> m.current[w] != p.session
    requires forall v | v in m.current && v != w && w in m.current :: m.current[v] != m.current[w]
    ensures var next := Apply(m, Publish(w, true));
      && next.published == m.published + [p] && next.granted == m.granted[p.session := p.epoch]
      && next.registered == m.registered && next.lastEpochs == m.lastEpochs
      && next.tails == m.tails[w := Tail(m, w)[1..]]
      && next.current == m.current[w := p.session]
      && next.states.Keys == m.states.Keys
      && (forall s | s in m.states ::
          next.states[s] == if w in m.current && s == m.current[w] && Live(m, s) then Unavailable else m.states[s])
  {
    hide Ended, Tail, LastEpoch;
    var dropped := DropHead(m, w);
    var unreplaced := dropped.(current := m.current[w := p.session], granted := m.granted[p.session := p.epoch],
                               published := m.published + [p]);
    if w in m.current { EndedShape(unreplaced, m.current[w], Unavailable); }
  }

  lemma PublishKeepsTails(m: Main, w: JsString, p: Publication, next: Main)
    requires TailsOk(m) && Tail(m, w) != [] && Tail(m, w)[0].phase == Allocated(p.epoch)
      && p == Publication(w, Tail(m, w)[0].session, p.epoch)
    requires next.published == m.published + [p] && next.granted == m.granted[p.session := p.epoch]
    requires next.registered == m.registered && next.lastEpochs == m.lastEpochs
      && next.tails == m.tails[w := Tail(m, w)[1..]]
    ensures TailsOk(next)
  {
    assert forall q :: q in next.published <==> q in m.published || q == p;
    forall v: JsString
      ensures Bounded(next.published, v, Tail(next, v), LastEpoch(next, v))
        && TailOk(v, Tail(next, v), next.registered, next.granted)
    {
      assert Bounded(m.published, v, Tail(m, v), LastEpoch(m, v)) && TailOk(v, Tail(m, v), m.registered, m.granted);
      assert TailOk(w, Tail(m, w), m.registered, m.granted);
    }
  }

  lemma PublishKeepsRising(m: Main, w: JsString, p: Publication)
    requires EpochsRise(m.published) && TailsOk(m) && Tail(m, w) != [] && Tail(m, w)[0].phase == Allocated(p.epoch)
      && p.worker == w
    ensures EpochsRise(m.published + [p])
  {
    assert Bounded(m.published, w, Tail(m, w), LastEpoch(m, w));
    forall i | 0 <= i < |m.published| && m.published[i].worker == w ensures m.published[i].epoch < p.epoch {
      assert m.published[i] in m.published;
    }
  }

  lemma PublishKeepsPublished(m: Main, p: Publication, next: Main)
    requires PublishedOk(m) && p.session !in m.granted && p.session in m.registered
      && m.registered[p.session] == p.worker && p.session in m.states
    requires next.published == m.published + [p] && next.granted == m.granted[p.session := p.epoch]
      && next.registered == m.registered
    requires next.states.Keys == m.states.Keys && forall s | s in next.states && next.states[s] == Ready ::
      m.states[s] == Ready
    ensures PublishedOk(next)
  {
    assert forall q :: q in next.published <==> q in m.published || q == p;
    forall s | s in next.granted ensures exists q :: q in next.published && q.session == s {
      if s == p.session {
        assert p in next.published;
      } else {
        var q :| q in m.published && q.session == s;
        assert q in next.published;
      }
    }
  }

  lemma CurrentIsNewest(m: Main, w: JsString)
    requires CurrentOk(m) && w in m.current
    ensures IsNewest(m, w, m.current[w])
  {
  }

  lemma LiveIsCurrent(m: Main, p: Publication)
    requires CurrentOk(m) && p in m.published && Live(m, p.session)
    ensures p.worker in m.current && m.current[p.worker] == p.session
  {
  }

  lemma BothWaysCurrent(m: Main)
    requires forall w | w in m.current :: IsNewest(m, w, m.current[w])
    requires forall p | p in m.published && Live(m, p.session) ::
      p.worker in m.current && m.current[p.worker] == p.session
    ensures CurrentOk(m)
  {
  }

  lemma PublishKeepsCurrent(m: Main, w: JsString, p: Publication, next: Main)
    requires CurrentOk(m) && PublishedOk(m) && p.worker == w && p.session !in m.granted && Live(m, p.session)
    requires p.session in m.registered && m.registered[p.session] == w
    requires forall q | q in m.published && q.worker == w :: q.epoch < p.epoch
    requires next.published == m.published + [p] && next.granted == m.granted[p.session := p.epoch]
      && next.registered == m.registered
    requires next.current == m.current[w := p.session] && next.states.Keys == m.states.Keys
    requires forall s | s in m.states ::
      next.states[s] == if w in m.current && s == m.current[w] && Live(m, s) then Unavailable else m.states[s]
    ensures CurrentOk(next)
  {
    assert forall q :: q in next.published <==> q in m.published || q == p;
    assert forall s :: Live(next, s) <==> Live(m, s) && !(w in m.current && s == m.current[w]);
    hide Live, CurrentOk, PublishedOk;
    forall v | v in next.current ensures IsNewest(next, v, next.current[v]) {
      if v != w { CurrentIsNewest(m, v); }
    }
    forall q | q in next.published && Live(next, q.session)
      ensures q.worker in next.current && next.current[q.worker] == q.session
    {
      if q != p { LiveIsCurrent(m, q); }
    }
    assert CurrentOk(next) by { BothWaysCurrent(next); }
  }

  lemma PublishKeepsOk(m: Main, w: JsString)
    requires MainOk(m) && Enabled(m, Publish(w, true)) && Candidate(m, Tail(m, w)[0].session)
    ensures MainOk(Apply(m, Publish(w, true)))
  {
    hide EpochsRise, Apply, PublishedOk;
    var p := Publication(w, Tail(m, w)[0].session, Tail(m, w)[0].phase.epoch);
    var next := Apply(m, Publish(w, true));
    assert Bounded(m.published, w, Tail(m, w), LastEpoch(m, w)) && TailOk(w, Tail(m, w), m.registered, m.granted);
    PublishShape(m, w, p);
    PublishKeepsRising(m, w, p);
    PublishKeepsTails(m, w, p, next);
    PublishKeepsPublished(m, p, next);
    PublishKeepsCurrent(m, w, p, next);
  }

  // Everything else

  /** Nothing but a worker's queue and its highest recorded epoch changes. */
  lemma QueueKeepsOk(m: Main, next: Main, w: JsString)
    requires MainOk(m) && next == m.(tails := next.tails, lastEpochs := next.lastEpochs, late := next.late)
    requires forall v: JsString | v != w :: Tail(next, v) == Tail(m, v) && LastEpoch(next, v) == LastEpoch(m, v)
    requires Bounded(m.published, w, Tail(next, w), LastEpoch(next, w))
      && TailOk(w, Tail(next, w), m.registered, m.granted)
    ensures MainOk(next)
  {
    hide EpochsRise, Bounded, TailOk;
    StatesKeepOk(m, next);
    forall v: JsString
      ensures Bounded(next.published, v, Tail(next, v), LastEpoch(next, v))
        && TailOk(v, Tail(next, v), next.registered, next.granted)
    {
      assert Bounded(m.published, v, Tail(m, v), LastEpoch(m, v)) && TailOk(v, Tail(m, v), m.registered, m.granted);
    }
  }

  /** Sessions may appear and become ready, but none that was published comes back to life. */
  lemma StatesKeepOk(m: Main, next: Main)
    requires PublishedOk(m) && CurrentOk(m)
    requires next.published == m.published && next.granted == m.granted && next.registered == m.registered
      && next.current == m.current
    requires forall s | s in m.states :: s in next.states && (Live(next, s) <==> Live(m, s))
    requires forall s | s in next.states && next.states[s] == Ready :: s in m.granted
    ensures PublishedOk(next) && CurrentOk(next)
  {
  }

  lemma SameQueues(m: Main, next: Main)
    requires TailsOk(m) && next.tails == m.tails && next.lastEpochs == m.lastEpochs && next.published == m.published
    requires next.granted == m.granted && next.registered == m.registered
    ensures TailsOk(next)
  {
    hide Bounded, TailOk;
    forall v: JsString
      ensures Bounded(next.published, v, Tail(next, v), LastEpoch(next, v))
        && TailOk(v, Tail(next, v), next.registered, next.granted)
    {
      assert Bounded(m.published, v, Tail(m, v), LastEpoch(m, v)) && TailOk(v, Tail(m, v), m.registered, m.granted);
    }
  }

  predicate MovesHead(m: Main, step: Step, w: JsString)
    requires Enabled(m, step)
  {
    || step == Start(w) || (step.Answer? && step.worker == w)
    || step == Abandon(w) || step == Refuse(w) || step == Publish(w, false)
    || (step == Publish(w, true) && !Candidate(m, Tail(m, w)[0].session))
  }

  lemma TailAfterDrop(m: Main, w: JsString)
    requires Tail(m, w) != []
    ensures forall v: JsString :: Tail(DropHead(m, w), v) == if v == w then Tail(m, w)[1..] else Tail(m, v)
  {
  }

  lemma TailAfterMove(m: Main, w: JsString, phase: Phase)
    requires Tail(m, w) != []
    ensures forall v: JsString | v != w :: Tail(WithHead(m, w, phase), v) == Tail(m, v)
    ensures Tail(WithHead(m, w, phase), w) == [Tail(m, w)[0].(phase := phase)] + Tail(m, w)[1..]
  {
  }

  lemma SameTails(a: Main, b: Main)
    requires a.tails == b.tails
    ensures forall v: JsString :: Tail(a, v) == Tail(b, v)
  {
  }

  /** The head goes, starts to ask, or gets an epoch above everything recorded. */
  lemma HeadShape(m: Main, step: Step, w: JsString)
    requires Enabled(m, step) && MovesHead(m, step, w)
    ensures var next := Apply(m, step);
      && next == m.(tails := next.tails, lastEpochs := next.lastEpochs, late := next.late)
      && (forall v: JsString | v != w :: Tail(next, v) == Tail(m, v) && LastEpoch(next, v) == LastEpoch(m, v))
      && Tail(m, w) != []
      && (|| (LastEpoch(next, w) == LastEpoch(m, w) && Tail(next, w) == Tail(m, w)[1..])
          || (LastEpoch(next, w) == LastEpoch(m, w)
              && Tail(next, w) == [Tail(m, w)[0].(phase := Allocating)] + Tail(m, w)[1..])
          || (LastEpoch(next, w) > LastEpoch(m, w)
              && Tail(next, w) == [Tail(m, w)[0].(phase := Allocated(LastEpoch(next, w)))] + Tail(m, w)[1..]))
  {
    hide Tail, Live;
    var next := Apply(m, step);
    TailAfterDrop(m, w);
    TailAfterMove(m, w, Allocating);
    if next.tails == DropHead(m, w).tails { SameTails(next, DropHead(m, w)); }
    if step.Answer? && step.epoch > LastEpoch(m, w) {
      var recorded := Recorded(m, w, step.epoch);
      SameTails(m, recorded);
      TailAfterMove(recorded, w, Allocated(step.epoch));
    }
  }

  lemma HeadKeepsTail(w: JsString, tail: seq<Claim>, moved: seq<Claim>, registered: map<nat, JsString>,
                      granted: map<nat, nat>,
                      published: seq<Publication>, last: nat, higher: nat)
    requires tail != [] && Bounded(published, w, tail, last) && TailOk(w, tail, registered, granted) && last <= higher
    requires moved == tail[1..] || moved == [tail[0].(phase := Allocating)] + tail[1..]
             || (last < higher && moved == [tail[0].(phase := Allocated(higher))] + tail[1..])
    ensures Bounded(published, w, moved, higher) && TailOk(w, moved, registered, granted)
  {
  }

  lemma HeadKeepsOk(m: Main, step: Step, w: JsString)
    requires MainOk(m) && Enabled(m, step) && MovesHead(m, step, w)
    ensures MainOk(Apply(m, step))
  {
    hide EpochsRise, PublishedOk, CurrentOk, Bounded, TailOk, Apply, Enabled, MovesHead;
    assert Bounded(m.published, w, Tail(m, w), LastEpoch(m, w)) && TailOk(w, Tail(m, w), m.registered, m.granted);
    HeadShape(m, step, w);
    var next := Apply(m, step);
    HeadKeepsTail(w, Tail(m, w), Tail(next, w), m.registered, m.granted, m.published, LastEpoch(m, w),
                  LastEpoch(next, w));
    QueueKeepsOk(m, next, w);
  }

  lemma BoundedHigher(published: seq<Publication>, w: JsString, tail: seq<Claim>, last: nat, higher: nat)
    requires Bounded(published, w, tail, last) && last <= higher
    ensures Bounded(published, w, tail, higher)
  {
  }

  lemma LateKeepsOk(m: Main, w: JsString, epoch: nat)
    requires MainOk(m) && Enabled(m, LateAnswer(w, epoch))
    ensures MainOk(Apply(m, LateAnswer(w, epoch)))
  {
    hide Bounded, TailOk, EpochsRise, PublishedOk, CurrentOk;
    assert Bounded(m.published, w, Tail(m, w), LastEpoch(m, w)) && TailOk(w, Tail(m, w), m.registered, m.granted);
    var next := Apply(m, LateAnswer(w, epoch));
    SameTails(m, next);
    BoundedHigher(m.published, w, Tail(m, w), LastEpoch(m, w), LastEpoch(next, w));
    QueueKeepsOk(m, next, w);
  }

  /** A queue stays good when a new session registers, at its end or elsewhere. */
  lemma RegisteredTail(w: JsString, tail: seq<Claim>, registered: map<nat, JsString>, granted: map<nat, nat>,
                       published: seq<Publication>, last: nat, s: nat, v: JsString)
    requires TailOk(w, tail, registered, granted) && Bounded(published, w, tail, last)
    requires s !in registered && s !in granted
    ensures v != w ==> TailOk(w, tail, registered[s := v], granted)
    ensures TailOk(w, tail + [Claim(s, Waiting)], registered[s := w], granted)
    ensures Bounded(published, w, tail + [Claim(s, Waiting)], last)
  {
  }

  lemma RegisterKeepsOk(m: Main, s: nat, w: JsString)
    requires MainOk(m) && Enabled(m, Register(s, w))
    ensures MainOk(Apply(m, Register(s, w)))
  {
    assert s !in m.granted;
    RegisterKeepsSessions(m, s, w);
    hide EpochsRise, Bounded, TailOk, PublishedOk, CurrentOk;
    var next := Apply(m, Register(s, w));
    assert forall v: JsString :: Tail(next, v) == if v == w then Tail(m, w) + [Claim(s, Waiting)] else Tail(m, v);
    hide Tail;
    forall v: JsString
      ensures Bounded(next.published, v, Tail(next, v), LastEpoch(next, v))
        && TailOk(v, Tail(next, v), next.registered, next.granted)
    {
      assert Bounded(m.published, v, Tail(m, v), LastEpoch(m, v)) && TailOk(v, Tail(m, v), m.registered, m.granted);
      RegisteredTail(v, Tail(m, v), m.registered, m.granted, m.published, LastEpoch(m, v), s, w);
    }
  }

  lemma RegisterKeepsSessions(m: Main, s: nat, w: JsString)
    requires PublishedOk(m) && CurrentOk(m) && Enabled(m, Register(s, w))
    ensures PublishedOk(Apply(m, Register(s, w))) && CurrentOk(Apply(m, Register(s, w)))
  {
    assert s !in m.granted;
  }

  lemma EndKeepsOk(m: Main, s: nat)
    requires MainOk(m) && Enabled(m, End(s))
    ensures MainOk(Apply(m, End(s)))
  {
    hide EpochsRise, Bounded, TailOk;
    SameQueues(m, Apply(m, End(s)));
  }

  lemma CloseKeepsOk(m: Main)
    requires MainOk(m)
    ensures MainOk(Apply(m, Close))
  {
    hide EpochsRise, Bounded, TailOk;
    SameQueues(m, Apply(m, Close));
  }

  lemma SessionKeepsOk(m: Main, step: Step)
    requires MainOk(m) && Enabled(m, step) && (step.Attach? || step.BecomeReady?)
    ensures MainOk(Apply(m, step))
  {
    hide EpochsRise, Bounded, TailOk;
    SameQueues(m, Apply(m, step));
    AttachedAreNew(m, step);
    StatesKeepOk(m, Apply(m, step));
  }

  lemma AttachedAreNew(m: Main, step: Step)
    requires PublishedOk(m) && Enabled(m, step) && (step.Attach? || step.BecomeReady?)
    ensures var next := Apply(m, step); forall s | s in m.states :: s in next.states && (Live(next, s) <==> Live(m, s))
    ensures var next := Apply(m, step); forall s | s in next.states && next.states[s] == Ready :: s in m.granted
  {
  }

  lemma ApplyKeepsOk(m: Main, step: Step)
    requires MainOk(m) && Enabled(m, step)
    ensures MainOk(Apply(m, step))
  {
    hide MainOk, Enabled, Apply;
    match step
    case Publish(w, publishable) =>
      assert Tail(m, w) != [] by { assert Enabled(m, step); HeadExists(m, step); }
      if Candidate(m, Tail(m, w)[0].session) && publishable { PublishKeepsOk(m, w); } else { HeadKeepsOk(m, step, w); }
    case Start(w) => HeadKeepsOk(m, step, w);
    case Answer(w, _) => HeadKeepsOk(m, step, w);
    case Abandon(w) => HeadKeepsOk(m, step, w);
    case Refuse(w) => HeadKeepsOk(m, step, w);
    case LateAnswer(w, epoch) => LateKeepsOk(m, w, epoch);
    case Register(s, w) => RegisterKeepsOk(m, s, w);
    case Attach(_) => SessionKeepsOk(m, step);
    case BecomeReady(_) => SessionKeepsOk(m, step);
    case End(s) => EndKeepsOk(m, s);
    case Close => CloseKeepsOk(m);
  }

  lemma HeadExists(m: Main, step: Step)
    requires step.Publish? && Enabled(m, step)
    ensures Tail(m, step.worker) != []
  {
  }

  lemma RunStep(states: seq<Main>, steps: seq<Step>, k: nat)
    requires Run(states, steps) && k + 1 < |states|
    ensures |states| == |steps| + 1 && Enabled(states[k], steps[k]) && states[k + 1] == Apply(states[k], steps[k])
  {
  }

  lemma StartsOk(states: seq<Main>, steps: seq<Step>)
    requires Run(states, steps)
    ensures |states| > 0 && MainOk(states[0])
  {
  }

  lemma {:induction false} RunKeepsOk(states: seq<Main>, steps: seq<Step>, i: nat)
    requires Run(states, steps) && i < |states|
    ensures MainOk(states[i])
  {
    hide Run, MainOk, Enabled, Apply;
    if i == 0 {
      StartsOk(states, steps);
    } else {
      RunStep(states, steps, i - 1);
      RunKeepsOk(states, steps, i - 1);
      ApplyKeepsOk(states[i - 1], steps[i - 1]);
    }
  }

  /** Under any interleaving of registrations, ends and late or stale answers, the epochs
      published for a worker strictly increase. */
  lemma PublishedEpochsIncrease(states: seq<Main>, steps: seq<Step>, i: nat, a: nat, b: nat)
    requires Run(states, steps) && i < |states| && a < b < |states[i].published|
    requires states[i].published[a].worker == states[i].published[b].worker
    ensures states[i].published[a].epoch < states[i].published[b].epoch
  {
    RunKeepsOk(states, steps, i);
  }

  /** Of all sessions ever published for a worker, at most the newest is alive, and it is the
      current one: every predecessor has been replaced or has ended. */
  lemma OnlyNewestIsLive(states: seq<Main>, steps: seq<Step>, i: nat, a: nat)
    requires Run(states, steps) && i < |states| && a < |states[i].published|
    ensures var p := states[i].published[a];
      Live(states[i], p.session) ==>
        && p.worker in states[i].current && states[i].current[p.worker] == p.session
        && forall b | a < b < |states[i].published| :: states[i].published[b].worker != p.worker
  {
    RunKeepsOk(states, steps, i);
    var m, p := states[i], states[i].published[a];
    assert p in m.published;
    if Live(m, p.session) {
      forall b | a < b < |m.published| ensures m.published[b].worker != p.worker {
        assert m.published[b] in m.published;
      }
    }
  }

  /** A session is ready only with the epoch published for it, and only while it is current. */
  lemma ReadyIsCurrent(states: seq<Main>, steps: seq<Step>, i: nat, s: nat)
    requires Run(states, steps) && i < |states| && s in states[i].states && states[i].states[s] == Ready
    ensures exists p :: p in states[i].published && p.session == s && p.worker in states[i].current
                        && states[i].current[p.worker] == s && s in states[i].granted && states[i].granted[s] == p.epoch
  {
    RunKeepsOk(states, steps, i);
    var m := states[i];
    var p :| p in m.published && p.session == s;
  }

  lemma PublishKeepsEpochs(m: Main, w: JsString, publishable: bool)
    requires Enabled(m, Publish(w, publishable))
    ensures Apply(m, Publish(w, publishable)).lastEpochs == m.lastEpochs
  {
  }

  lemma EpochsOnlyByAnswers(m: Main, step: Step)
    requires Enabled(m, step) && !step.Answer? && !step.LateAnswer? && !step.Publish?
    ensures Apply(m, step).lastEpochs == m.lastEpochs
  {
    hide Tail, Live, Candidate, HeadIs, Ended;
    if step.End? { EndedShape(m, step.session, Gone); }
  }

  lemma AnswersRaise(m: Main, step: Step, w: JsString)
    requires Enabled(m, step) && (step.Answer? || step.LateAnswer?)
    ensures LastEpoch(m, w) <= LastEpoch(Apply(m, step), w)
  {
    if step.Answer? {
      HeadShape(m, step, step.worker);
      hide Apply, Tail, Enabled;
    }
  }

  lemma LastEpochStep(m: Main, step: Step, w: JsString)
    requires Enabled(m, step)
    ensures LastEpoch(m, w) <= LastEpoch(Apply(m, step), w)
  {
    hide Apply, LastEpoch, Enabled;
    if step.Publish? {
      PublishKeepsEpochs(m, step.worker, step.publishable);
      SameEpochs(m, Apply(m, step), w);
    } else if !step.Answer? && !step.LateAnswer? {
      EpochsOnlyByAnswers(m, step);
      SameEpochs(m, Apply(m, step), w);
    } else {
      AnswersRaise(m, step, w);
    }
  }

  lemma SameEpochs(a: Main, b: Main, w: JsString)
    requires a.lastEpochs == b.lastEpochs
    ensures LastEpoch(a, w) == LastEpoch(b, w)
  {
  }

  /** The highest epoch seen for a worker never falls, whoever was still waiting for it. */
  lemma {:induction false} LastEpochNeverFalls(states: seq<Main>, steps: seq<Step>, i: nat, j: nat, w: JsString)
    requires Run(states, steps) && i <= j < |states|
    ensures LastEpoch(states[i], w) <= LastEpoch(states[j], w)
  {
    hide Run, Enabled, Apply, LastEpoch;
    if i < j {
      RunStep(states, steps, j - 1);
      LastEpochNeverFalls(states, steps, i, j - 1, w);
      LastEpochStep(states[j - 1], steps[j - 1], w);
    }
  }

  // ----- What each step of a registration brings about

  ghost predicate StillWanted(m: Main, s: nat) {
    !m.closed && s in m.sessions && s in m.states && m.states[s] == Authenticating
  }

  /** A registration joins the end of its worker's queue. */
  lemma RegistrationsQueue(m: Main, s: nat, w: JsString)
    requires Enabled(m, Register(s, w))
    ensures var next := Apply(m, Register(s, w));
      && s in next.registered && next.registered[s] == w && Tail(next, w) == Tail(m, w) + [Claim(s, Waiting)]
      && (forall v | v != w :: Tail(next, v) == Tail(m, v))
      && next.(tails := m.tails, registered := m.registered) == m
  {
  }

  /** The head of a queue asks for an epoch when its session is still wanted, and leaves otherwise. */
  lemma HeadAsks(m: Main, w: JsString)
    requires Enabled(m, Start(w))
    ensures Tail(m, w) != []
    ensures var next, head := Apply(m, Start(w)), Tail(m, w)[0];
      && Tail(next, w) ==
           (if StillWanted(m, head.session) then [Claim(head.session, Allocating)] else []) + Tail(m, w)[1..]
      && (forall v | v != w :: Tail(next, v) == Tail(m, v)) && next.(tails := m.tails) == m
  {
  }

  /** An answer above everything recorded is recorded and taken; any other one loses the registration. */
  lemma AnswerIsTakenIfHigher(m: Main, w: JsString, epoch: nat)
    requires Enabled(m, Answer(w, epoch))
    ensures Tail(m, w) != []
    ensures var next, head := Apply(m, Answer(w, epoch)), Tail(m, w)[0];
      && Tail(next, w) ==
           (if epoch > LastEpoch(m, w) then [Claim(head.session, Allocated(epoch))] else []) + Tail(m, w)[1..]
      && LastEpoch(next, w) == (if epoch > LastEpoch(m, w) then epoch else LastEpoch(m, w))
      && (forall v | v != w :: Tail(next, v) == Tail(m, v) && LastEpoch(next, v) == LastEpoch(m, v))
      && next.(tails := m.tails, lastEpochs := m.lastEpochs) == m
  {
    hide Tail;
    TailAfterDrop(m, w);
    if epoch > LastEpoch(m, w) {
      var recorded := Recorded(m, w, epoch);
      SameTails(m, recorded);
      TailAfterMove(recorded, w, Allocated(epoch));
    } else {
      SameTails(Apply(m, Answer(w, epoch)), DropHead(m, w));
    }
  }

  /** A registration whose session ended, or whose allocator failed, leaves the queue; an answer that
      comes for it later is still recorded when it is higher, and nothing else. */
  lemma LostRegistrationsLeave(m: Main, w: JsString, epoch: nat, step: Step)
    requires (step == Abandon(w) || step == Refuse(w)) && Enabled(m, step)
    ensures Tail(m, w) != []
    ensures var next := Apply(m, step);
      && Tail(next, w) == Tail(m, w)[1..] && (forall v | v != w :: Tail(next, v) == Tail(m, v))
      && (step.Abandon? ==> Enabled(next, LateAnswer(w, epoch)))
      && (step.Refuse? ==> next.late == m.late) && next.(tails := m.tails, late := m.late) == m
  {
    hide Tail;
    TailAfterDrop(m, w);
    SameTails(Apply(m, step), DropHead(m, w));
  }

  lemma LateAnswersAreRecorded(m: Main, w: JsString, epoch: nat)
    requires Enabled(m, LateAnswer(w, epoch))
    ensures var next := Apply(m, LateAnswer(w, epoch));
      && LastEpoch(next, w) == (if epoch > LastEpoch(m, w) then epoch else LastEpoch(m, w))
      && (forall v | v != w :: LastEpoch(next, v) == LastEpoch(m, v))
      && next.(lastEpochs := m.lastEpochs, late := m.late) == m
  {
  }

  /** The registration that holds an epoch leaves the queue. If its session is still wanted, the
      session becomes the worker's current one, with that epoch, and replaces its predecessor. */
  lemma PublicationReplaces(m: Main, w: JsString, publishable: bool)
    requires MainOk(m) && Enabled(m, Publish(w, publishable))
    ensures Tail(m, w) != [] && Tail(m, w)[0].phase.Allocated?
    ensures var next, head := Apply(m, Publish(w, publishable)), Tail(m, w)[0];
      && Tail(next, w) == Tail(m, w)[1..] && (forall v | v != w :: Tail(next, v) == Tail(m, v))
      && (!(publishable && StillWanted(m, head.session)) ==> next.(tails := m.tails) == m)
      && (publishable && StillWanted(m, head.session) ==>
            && w in next.current && next.current[w] == head.session
            && next.granted == m.granted[head.session := head.phase.epoch]
            && next.published == m.published + [Publication(w, head.session, head.phase.epoch)]
            && head.session in next.states && next.states[head.session] == Authenticating
            && (w in m.current ==> m.current[w] in next.states && next.states[m.current[w]] == Unavailable)
            && (forall v | v != w && v in m.current :: v in next.current && next.current[v] == m.current[v])
            && next.states.Keys == m.states.Keys
            && (forall s | s in m.states && !(w in m.current && s == m.current[w]) :: next.states[s] == m.states[s])
            && next.lastEpochs == m.lastEpochs && next.registered == m.registered && next.closed == m.closed)
  {
    hide EpochsRise, Bounded;
    var head := Tail(m, w)[0];
    assert TailOk(w, Tail(m, w), m.registered, m.granted);
    TailAfterDrop(m, w);
    if publishable && StillWanted(m, head.session) {
      var p := Publication(w, head.session, head.phase.epoch);
      forall v | v in m.current && v != w && w in m.current ensures m.current[v] != m.current[w] {
        CurrentIsNewest(m, v);
        CurrentIsNewest(m, w);
      }
      if w in m.current { CurrentIsNewest(m, w); }
      PublishShape(m, w, p);
    }
  }

  /** So a registration at the head of its queue, whose session stays wanted and whose allocator
      answers with a higher epoch, is published and can become ready. */
  lemma RegistrationGoesThrough(m: Main, w: JsString, epoch: nat)
    requires MainOk(m) && Tail(m, w) != [] && Tail(m, w)[0].phase == Waiting
    requires StillWanted(m, Tail(m, w)[0].session) && epoch > LastEpoch(m, w)
    ensures Enabled(m, Start(w))
    ensures var asking := Apply(m, Start(w));
      && Enabled(asking, Answer(w, epoch))
      && var holding := Apply(asking, Answer(w, epoch));
      && Enabled(holding, Publish(w, true))
      && var published := Apply(holding, Publish(w, true));
      var s := Tail(m, w)[0].session;
      && w in published.current && published.current[w] == s && s in published.granted && published.granted[s] == epoch
      && Enabled(published, BecomeReady(s)) && Apply(published, BecomeReady(s)).states[s] == Ready
  {
    hide Apply, EpochsRise, Bounded, TailOk, PublishedOk, CurrentOk;
    HeadAsks(m, w);
    var asking := Apply(m, Start(w));
    HeadKeepsOk(m, Start(w), w);
    AnswerIsTakenIfHigher(asking, w, epoch);
    var holding := Apply(asking, Answer(w, epoch));
    HeadKeepsOk(asking, Answer(w, epoch), w);
    PublicationReplaces(holding, w, true);
    ReadyIsReady(Apply(holding, Publish(w, true)), Tail(m, w)[0].session);
  }

  lemma ReadyIsReady(m: Main, s: nat)
    requires s in m.granted && s in m.states && m.states[s] == Authenticating
    ensures Enabled(m, BecomeReady(s)) && Apply(m, BecomeReady(s)).states[s] == Ready
  {
  }

  /** A session that ends is gone, forgotten and nobody's current one; closing ends all. */
  lemma EndedIsForgotten(m: Main, s: nat)
    requires Enabled(m, End(s))
    ensures var next := Apply(m, End(s));
      && next.states == m.states[s := Gone] && s !in next.sessions
      && (forall w :: w in next.current <==> w in m.current && m.current[w] != s)
      && (forall w | w in next.current :: next.current[w] == m.current[w])
      && next.(states := m.states, sessions := m.sessions, current := m.current) == m
    ensures var next := Apply(m, Close);
      && next.closed && next.sessions == {} && next.current == map[]
      && forall r | r in m.states :: r in next.states && next.states[r] ==
           if m.states[r] == Authenticating || m.states[r] == Ready then Gone else m.states[r]
  {
  }

  // ----- The endpoint object

  class MainEndpoint {
    var closed: bool
    var sessions: set<nat>
    var states: map<nat, SessionState>
    var registered: map<nat, JsString>
    var tails: map<JsString, seq<Claim>>
    var current: map<JsString, nat>
    var lastEpochs: map<JsString, nat>
    var granted: map<nat, nat>
    ghost var late: map<JsString, nat>
    ghost var published: seq<Publication>

    ghost function View(): Main
      reads this
    {
      Main(closed, sessions, states, registered, tails, current, lastEpochs, granted, late, published)
    }

    /** Live sessions are attached, so closing the attached ones closes them all. */
    ghost predicate Valid()
      reads this
    {
      forall s | Live(View(), s) :: s in sessions
    }

    constructor ()
      ensures Valid() && View() == Fresh
    {
      closed, sessions, states, registered, tails := false, {}, map[], map[], map[];
      current, lastEpochs, granted, late, published := map[], map[], map[], map[], [];
    }

    method RecordAllocatedEpoch(w: JsString, epoch: nat) returns (recorded: bool)
      modifies this`lastEpochs
      ensures recorded == (epoch > LastEpoch(old(View()), w)) && View() == Recorded(old(View()), w, epoch)
    {
      var lastEpoch := if w in lastEpochs then lastEpochs[w] else 0;
      if epoch <= lastEpoch {
        return false;
      }
      lastEpochs := lastEpochs[w := epoch];
      recorded := true;
    }

    method AssertRegistrationCandidate(s: nat) returns (ok: bool)
      ensures ok == Candidate(View(), s)
    {
      if closed {
        return false;
      }
      ok := s in sessions && s in states && states[s] == Authenticating;
    }

    /** Walks the current sessions and forgets those that are this one. */
    method Release(s: nat)
      modifies this`sessions, this`current
      ensures View() == Released(old(View()), s)
    {
      sessions := sessions - {s};
      var rest := current.Keys;
      while rest != {}
        invariant sessions == old(sessions) - {s} && rest <= current.Keys <= old(current).Keys
        invariant forall w :: w in current <==> w in old(current) && (w in rest || old(current)[w] != s)
        invariant forall w | w in current :: current[w] == old(current)[w]
        decreases rest
      {
        var w :| w in rest;
        rest := rest - {w};
        if current[w] == s {
          current := current - {w};
        }
      }
      assert current == Released(old(View()), s).current;
    }

    /** A session is replaced, closed or fails: its state changes once and it is released. */
    method EndSession(s: nat, final: SessionState)
      requires Valid() && (final == Unavailable || final == Gone)
      modifies this`states, this`sessions, this`current
      ensures Valid() && View() == Ended(old(View()), s, final)
    {
      if s !in states || !(states[s] == Authenticating || states[s] == Ready) {
        return;
      }
      states := states[s := final];
      Release(s);
    }

    /** What follows the allocator's answer, in one stretch: check again, publish, replace the predecessor. */
    method ClaimRegistration(w: JsString, publishable: bool) returns (epoch: nat, ok: bool)
      requires Valid() && Tail(View(), w) != [] && Tail(View(), w)[0].phase.Allocated?
      modifies this
      ensures Valid() && View() == Apply(old(View()), Publish(w, publishable))
      ensures epoch == Tail(old(View()), w)[0].phase.epoch
      ensures ok == (publishable && Candidate(old(View()), Tail(old(View()), w)[0].session))
    {
      hide Ended;
      var head := tails[w][0];
      epoch := head.phase.epoch;
      ok := AssertRegistrationCandidate(head.session);
      tails := tails[w := tails[w][1..]];
      if !ok || !publishable {
        return epoch, false;
      }
      var predecessor := if w in current then [current[w]] else [];
      current := current[w := head.session];
      granted := granted[head.session := epoch];
      published := published + [Publication(w, head.session, epoch)];
      if predecessor != [] {
        EndSession(predecessor[0], Unavailable);
      }
    }

    method CloseAll()
      requires Valid()
      modifies this`closed, this`states, this`sessions, this`current
      ensures Valid() && View() == Apply(old(View()), Close)
    {
      closed := true;
      var rest := sessions;
      while rest != {}
        invariant closed && forall s | Live(View(), s) :: s in rest && s in sessions
        invariant states.Keys == old(states).Keys
        invariant forall s | s in states ::
          states[s] == old(states)[s] || (Live(old(View()), s) && states[s] == Gone)
        decreases rest
      {
        var s :| s in rest;
        rest := rest - {s};
        EndSession(s, Gone);
      }
      forall s | s in states ensures states[s] == if Live(old(View()), s) then Gone else old(states)[s] {
        assert !Live(View(), s);
      }
      sessions := {};
      current := map[];
      assert states == Apply(old(View()), Close).states;
    }
  }
}
