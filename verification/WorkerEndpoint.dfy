/** The worker side: sessions become ready in any order, and only one that raises the
    highest accepted epoch becomes current. */
module WorkerEndpoints {
  datatype SessionState = Authenticating | Ready(epoch: nat) | Unavailable | Gone

  /** `handled` are the sessions whose readiness the endpoint has reacted to. */
  datatype Worker = Worker(
    closed: bool, sessions: set<nat>, states: map<nat, SessionState>, handled: map<nat, nat>,
    current: int, highest: nat)

  /** No session is current. */
  const NONE: int := -1

  const Fresh: Worker := Worker(false, {}, map[], map[], NONE, 0)

  datatype Step =
    | Attach(session: nat)
    | BecomeReady(session: nat, epoch: nat)
    | HandleReady(session: nat)
    | HandleRejected(session: nat)
    | End(session: nat)
    | Close

  predicate Live(m: Worker, s: int) { s >= 0 && s in m.states && (m.states[s].Authenticating? || m.states[s].Ready?) }

  predicate IsReady(m: Worker, s: int) { s >= 0 && s in m.states && m.states[s].Ready? }

  predicate Enabled(m: Worker, step: Step) {
    match step
    case Attach(s) => !m.closed && s !in m.states
    case BecomeReady(s, _) => s in m.states && m.states[s].Authenticating?
    case HandleReady(s) => s in m.states && s !in m.handled && !m.states[s].Authenticating?
    case HandleRejected(s) => s in m.states && !Live(m, s)
    case End(s) => Live(m, s)
    case Close => true
  }

  function Released(m: Worker, s: int): Worker
    requires s >= 0
  {
    m.(sessions := m.sessions - {s}, current := if m.current == s then NONE else m.current)
  }

  function Ended(m: Worker, s: int, final: SessionState): Worker {
    if Live(m, s) then Released(m.(states := m.states[s := final]), s) else m
  }

  /** The reaction to a session's readiness, whenever it comes. */
  function Handled(m: Worker, s: nat): Worker
    requires s in m.states
  {
    if m.closed || !m.states[s].Ready? then m.(handled := m.handled[s := 0])
    else
      var epoch := m.states[s].epoch;
      var seen := m.(handled := m.handled[s := epoch]);
      if epoch > m.highest then
        var next := seen.(highest := epoch, current := s);
        if m.current != s then Ended(next, m.current, Unavailable) else next
      else if m.current != s then Ended(seen, s, Unavailable)
      else seen
  }

  function Apply(m: Worker, step: Step): Worker
    requires Enabled(m, step)
  {
    match step
    case Attach(s) => m.(sessions := m.sessions + {s}, states := m.states[s := Authenticating])
    case BecomeReady(s, epoch) => m.(states := m.states[s := Ready(epoch)])
    case HandleReady(s) => Handled(m, s)
    case HandleRejected(s) => m.(sessions := m.sessions - {s})
    case End(s) => Ended(m, s, Gone)
    case Close =>
      m.(closed := true, sessions := {}, current := NONE,
         states := map s | s in m.states :: if Live(m, s) then Gone else m.states[s])
  }

  ghost predicate Run(states: seq<Worker>, steps: seq<Step>) {
    && |states| == |steps| + 1 && states[0] == Fresh
    && forall i | 0 <= i < |steps| :: Enabled(states[i], steps[i]) && states[i + 1] == Apply(states[i], steps[i])
  }

  /** The current session carries the highest accepted epoch, and it is the only session
      still ready among those the endpoint has reacted to. */
  ghost predicate WorkerOk(m: Worker) {
    && (m.current != NONE ==>
        m.current >= 0 && IsReady(m, m.current) && m.states[m.current].epoch == m.highest && m.current in m.handled)
    && (forall s | s in m.handled && IsReady(m, s) :: s == m.current)
    && (forall s | s in m.handled :: s in m.states && !m.states[s].Authenticating? && m.handled[s] <= m.highest)
    && (m.closed ==> forall s | s in m.states :: !Live(m, s))
  }

  lemma ApplyKeepsOk(m: Worker, step: Step)
    requires WorkerOk(m) && Enabled(m, step)
    ensures WorkerOk(Apply(m, step)) && m.highest <= Apply(m, step).highest
  {
  }

  lemma RunStep(states: seq<Worker>, steps: seq<Step>, k: nat)
    requires Run(states, steps) && k + 1 < |states|
    ensures |states| == |steps| + 1 && Enabled(states[k], steps[k]) && states[k + 1] == Apply(states[k], steps[k])
  {
  }

  lemma StartsOk(states: seq<Worker>, steps: seq<Step>)
    requires Run(states, steps)
    ensures |states| > 0 && WorkerOk(states[0])
  {
  }

  lemma {:induction false} RunKeepsOk(states: seq<Worker>, steps: seq<Step>, i: nat)
    requires Run(states, steps) && i < |states|
    ensures WorkerOk(states[i])
  {
    hide Run, WorkerOk, Enabled, Apply;
    if i == 0 {
      StartsOk(states, steps);
    } else {
      RunStep(states, steps, i - 1);
      RunKeepsOk(states, steps, i - 1);
      ApplyKeepsOk(states[i - 1], steps[i - 1]);
    }
  }

  /** Whatever order readiness arrives in, a current session's epoch is the highest accepted
      epoch, and no other accepted session is still ready. */
  lemma CurrentIsHighest(states: seq<Worker>, steps: seq<Step>, i: nat)
    requires Run(states, steps) && i < |states|
    ensures states[i].current != NONE ==>
      IsReady(states[i], states[i].current) && states[i].states[states[i].current].epoch == states[i].highest
    ensures forall s | s in states[i].handled && IsReady(states[i], s) :: s == states[i].current
    ensures forall s | s in states[i].handled :: states[i].handled[s] <= states[i].highest
  {
    RunKeepsOk(states, steps, i);
  }

  /** The highest accepted epoch never falls, and it only rises to a ready session's own epoch. */
  lemma {:induction false} HighestNeverFalls(states: seq<Worker>, steps: seq<Step>, i: nat, j: nat)
    requires Run(states, steps) && i <= j < |states|
    ensures states[i].highest <= states[j].highest
  {
    hide Run, WorkerOk, Enabled, Apply;
    if i < j {
      RunStep(states, steps, j - 1);
      RunKeepsOk(states, steps, j - 1);
      ApplyKeepsOk(states[j - 1], steps[j - 1]);
      HighestNeverFalls(states, steps, i, j - 1);
    }
  }

  // ----- What readiness and ends bring about

  /** Only this session's state and its predecessor's may have changed. */
  ghost predicate OthersStay(m: Worker, next: Worker, s: int, t: int) {
    && next.states.Keys == m.states.Keys && next.closed == m.closed
    && forall r | r in m.states && r != s && r != t :: next.states[r] == m.states[r]
  }

  /** Readiness with an epoch above everything seen makes the session current, leaves it ready and
      replaces the one that was current; any other readiness ends the session and changes nothing else. */
  lemma ReadyIsAcceptedOrReplaced(m: Worker, s: nat)
    requires WorkerOk(m) && Enabled(m, HandleReady(s)) && !m.closed && m.states[s].Ready?
    ensures var epoch, next := m.states[s].epoch, Apply(m, HandleReady(s));
      && s in next.handled && next.handled[s] == epoch && OthersStay(m, next, s, m.current)
      && (epoch > m.highest ==>
            && next.current == s && next.states[s] == Ready(epoch) && next.highest == epoch
            && (m.current >= 0 && m.current != s ==>
                next.states[m.current] == Unavailable && m.current !in next.sessions)
            && (s in m.sessions ==> s in next.sessions))
      && (epoch <= m.highest && m.current != s ==>
            && next.states[s] == Unavailable && s !in next.sessions
            && next.current == m.current && next.highest == m.highest
            && (m.current >= 0 ==> next.states[m.current] == m.states[m.current]))
      && (epoch <= m.highest && m.current == s ==> next.(handled := m.handled) == m)
  {
  }

  /** After the endpoint has closed, or for a session that has ended meanwhile, readiness changes nothing. */
  lemma LateReadyIsIgnored(m: Worker, s: nat)
    requires Enabled(m, HandleReady(s)) && (m.closed || !m.states[s].Ready?)
    ensures Apply(m, HandleReady(s)).(handled := m.handled) == m
  {
  }

  /** A session that ends is gone and forgotten; closing ends all. */
  lemma EndsAreForgotten(m: Worker, s: nat)
    requires Enabled(m, End(s))
    ensures var next := Apply(m, End(s));
      && next.states[s] == Gone && s !in next.sessions && next.current == (if m.current == s then NONE else m.current)
      && next.highest == m.highest && OthersStay(m, next, s, s)
    ensures var next := Apply(m, Close);
      && next.closed && next.sessions == {} && next.current == NONE && next.highest == m.highest
      && forall r | r in m.states :: next.states[r] ==
           if m.states[r].Authenticating? || m.states[r].Ready? then Gone else m.states[r]
  {
  }

  /** Step k accepted the session: its readiness came with an epoch above all seen. */
  ghost predicate AcceptsAt(states: seq<Worker>, steps: seq<Step>, k: nat, s: nat, epoch: nat)
    requires k < |steps| && k < |states|
  {
    && steps[k] == HandleReady(s) && !states[k].closed && s in states[k].states
    && states[k].states[s] == Ready(epoch) && epoch > states[k].highest
  }

  ghost predicate Accepted(states: seq<Worker>, steps: seq<Step>, i: nat, s: nat, epoch: nat)
    requires i <= |steps| && |steps| < |states|
  {
    exists k :: 0 <= k < i && AcceptsAt(states, steps, k, s, epoch)
  }

  /** The highest epoch, once there is one, was accepted for a session that has been reacted to. */
  lemma {:induction false} HighestWasAccepted(states: seq<Worker>, steps: seq<Step>, i: nat) returns (s: nat)
    requires Run(states, steps) && i < |states| && states[i].highest > 0
    ensures i <= |steps| && |steps| < |states| && Accepted(states, steps, i, s, states[i].highest)
    ensures s in states[i].handled && s in states[i].states
  {
    var m, step := states[i - 1], steps[i - 1];
    assert states[i] == Apply(m, step);
    if m.highest < states[i].highest {
      s := step.session;
      assert AcceptsAt(states, steps, i - 1, s, states[i].highest);
    } else {
      RunKeepsOk(states, steps, i - 1);
      ApplyKeepsOk(m, step);
      s := HighestWasAccepted(states, steps, i - 1);
      var k :| 0 <= k < i - 1 && AcceptsAt(states, steps, k, s, m.highest);
      assert AcceptsAt(states, steps, k, s, states[i].highest);
    }
  }

  /** There is no current session only when none was ever accepted, the endpoint is closed, or the
      session accepted with the highest epoch is no longer ready. */
  lemma NoCurrentOnlyAfterEnd(states: seq<Worker>, steps: seq<Step>, i: nat)
    requires Run(states, steps) && i < |states| && states[i].current == NONE
    ensures i <= |steps| && |steps| < |states|
    ensures || states[i].highest == 0 || states[i].closed
            || exists s: nat :: Accepted(states, steps, i, s, states[i].highest) && !IsReady(states[i], s)
  {
    hide Accepted;
    RunKeepsOk(states, steps, i);
    if states[i].highest > 0 {
      var s := HighestWasAccepted(states, steps, i);
      assert !IsReady(states[i], s);
    }
  }

  // ----- The endpoint object

  class WorkerEndpoint {
    var closed: bool
    var sessions: set<nat>
    var states: map<nat, SessionState>
    ghost var handled: map<nat, nat>
    var current: int
    var highestAcceptedEpoch: nat

    ghost function View(): Worker
      reads this
    {
      Worker(closed, sessions, states, handled, current, highestAcceptedEpoch)
    }

    constructor ()
      ensures View() == Fresh
    {
      closed, sessions, states, handled, current, highestAcceptedEpoch := false, {}, map[], map[], NONE, 0;
    }

    /** A session ends or is replaced; the endpoint forgets it at once. */
    method EndSession(s: int, final: SessionState)
      modifies this`states, this`sessions, this`current
      ensures View() == Ended(old(View()), s, final)
    {
      if s < 0 || s !in states || !(states[s].Authenticating? || states[s].Ready?) {
        return;
      }
      states := states[s := final];
      sessions := sessions - {s};
      if current == s {
        current := NONE;
      }
    }

    method OnReady(s: nat)
      requires s in states
      modifies this
      ensures View() == Handled(old(View()), s)
    {
      handled := handled[s := if !closed && states[s].Ready? then states[s].epoch else 0];
      if closed || !states[s].Ready? {
        return;
      }
      var predecessor := current;
      var epoch := states[s].epoch;
      if epoch > highestAcceptedEpoch {
        highestAcceptedEpoch := epoch;
        current := s;
        if predecessor != s {
          EndSession(predecessor, Unavailable);
        }
      } else if predecessor != s {
        EndSession(s, Unavailable);
      }
    }
  }
}
