/** The epoch check of a remote executor: which worker sessions it attaches. */
module ExecutorSessions {

  datatype Session = Session(id: nat, epoch: nat)

  datatype AttachResult = Attached | StaleEpoch

  class ExecutorSessions {
    var session: seq<Session>
    var highestEpoch: nat
    ghost var history: seq<Session>

    /** At most one session is attached, with the highest epoch; a session that was attached
        after another has a higher epoch, and none is above the highest. */
    ghost predicate Valid()
      reads this
    {
      && |session| <= 1
      && (forall i, j | 0 <= i < j < |history| :: history[i].epoch < history[j].epoch)
      && (forall s | s in history :: s.epoch <= highestEpoch)
      && (session != [] ==> history != [] && history[|history| - 1] == session[0] && session[0].epoch == highestEpoch)
    }

    constructor ()
      ensures Valid() && session == [] && history == [] && highestEpoch == 0
    {
      session, highestEpoch, history := [], 0, [];
    }

    /** Hydration raises the watermark to the one the store recovered; it comes before any session. */
    method Hydrate(recovered: nat)
      requires Valid() && session == []
      modifies this`highestEpoch
      ensures Valid() && highestEpoch == (if recovered > old(highestEpoch) then recovered else old(highestEpoch))
    {
      if recovered > highestEpoch {
        highestEpoch := recovered;
      }
    }

    /** A session whose epoch is not above everything seen is refused, unless it is the attached one. */
    method Attach(candidate: Session) returns (r: AttachResult)
      requires Valid()
      modifies this
      ensures Valid() && highestEpoch >= old(highestEpoch)
      ensures r == Attached <==> candidate.epoch > old(highestEpoch) || old(session) == [candidate]
      ensures r == Attached ==> session == [candidate] && highestEpoch == candidate.epoch
      ensures history == if r == Attached && old(session) != [candidate] then old(history) + [candidate]
        else old(history)
      ensures r == StaleEpoch ==> session == old(session) && highestEpoch == old(highestEpoch)
    {
      var epoch := candidate.epoch;
      if epoch <= highestEpoch && session != [candidate] {
        return StaleEpoch;
      }
      if session != [candidate] {
        history := history + [candidate];
      }
      session := [candidate];
      highestEpoch := epoch;
      r := Attached;
    }

    method Detach()
      requires Valid()
      modifies this`session
      ensures Valid() && session == []
    {
      session := [];
    }
  }
}
