/** The replay session: its snapshot, the transitions the coordinator commits, and the gate they drive. */
module Session {
  import opened Counters
  import opened Options

  datatype SessionState = Idle | Queued | Running | Completed | Failed | Aborted

  datatype Session = Session(
    state: SessionState, queued: int, delivered: int, startedAt: Option<int>, endedAt: Option<int>,
    lastError: Option<string>, nextRetryAt: Option<int>, failures: nat, heartbeats: nat, required: nat)

  datatype Component = Transport | Dedupe | CausalOrder

  datatype HealthState = Online | Degraded | Offline

  function IdleSession(required: nat): Session {
    Session(Idle, 0, 0, None, None, None, None, 0, 0, required)
  }

  /** The session rebuilt at startup from what recovery counted. */
  function RestartSession(required: nat, total: int, waiting: nat, earliest: Option<int>, attempts: nat): Session {
    if total == 0 then IdleSession(required)
    else if waiting == total && earliest.Some? then
      Session(Failed, total, 0, None, None, Some("Replay retry is waiting after process restart."), earliest,
              attempts, 0, required)
    else Session(Queued, total, 0, None, None, None, None, attempts, 0, required)
  }

  /** Live flow is held back while a session is under way, and after it until recovery is confirmed and drained. */
  predicate GateClosed(s: Session, live: int) {
    || s.state.Queued? || s.state.Running? || s.state.Failed?
    || (s.state.Completed? && (s.heartbeats < s.required || live > 0))
  }

  predicate Confirmed(s: Session) {
    s.heartbeats >= s.required
  }

  function QueueIfNeeded(s: Session, backlog: int, now: int, required: nat): Session {
    if backlog == 0 then s
    else if s.state.Running? || s.state.Queued? then s.(queued := Max(s.queued, backlog))
    else if s.state.Failed? && s.nextRetryAt.Some? && now < s.nextRetryAt.value then
      s.(queued := Max(s.queued, backlog))
    else
      Session(Queued, backlog, 0, None, None, None, None, if s.state.Failed? then s.failures else 0, 0, required)
  }

  /** `start` throws only when there is a backlog and the session is idle, completed or aborted. */
  predicate CanStart(s: Session, backlog: int) {
    backlog == 0 || s.state.Running? || s.state.Queued? || s.state.Failed?
  }

  function Start(s: Session, backlog: int, now: int, required: nat): Session {
    if backlog == 0 then IdleSession(required)
    else if s.state.Running? then s
    else
      Session(Running, backlog, 0, Some(now), None, None, None, if s.state.Failed? then s.failures else 0, 0, required)
  }

  function Tally(s: Session, deliveredNow: int, remaining: int): Session {
    s.(delivered := s.delivered + deliveredNow, queued := s.delivered + deliveredNow + remaining)
  }

  function Complete(s: Session, now: int): Session {
    s.(state := Completed, queued := s.delivered, endedAt := Some(now), lastError := None, nextRetryAt := None,
       heartbeats := 0)
  }

  function Fail(s: Session, error: string, now: int, backoff: int): Session {
    s.(state := Failed, endedAt := Some(now), lastError := Some(error), nextRetryAt := Some(now + backoff),
       failures := s.failures + 1)
  }

  function Abort(s: Session, reason: string, now: int): Session {
    s.(state := Aborted, endedAt := Some(now), lastError := Some(reason), nextRetryAt := None)
  }

  /** The counting half of a recovery heartbeat. */
  function CountHeartbeat(
    s: Session, component: Component, state: HealthState, allHealthy: bool, required: nat): Session
  {
    if component.Transport? || s.state.Running? then s
    else if !state.Online? || !allHealthy then s.(heartbeats := 0)
    else s.(heartbeats := Min(s.heartbeats + 1, required))
  }

  /** Whether a heartbeat, once counted, also returns a drained and confirmed session to idle. */
  predicate Confirms(
    s: Session, component: Component, state: HealthState, allHealthy: bool, required: nat, live: int)
  {
    && !component.Transport? && s.state.Completed? && state.Online? && allHealthy
    && Min(s.heartbeats + 1, required) >= required && live == 0
  }

  function ObserveHeartbeat(
    s: Session, component: Component, state: HealthState, allHealthy: bool, required: nat, live: int): Session
  {
    if Confirms(s, component, state, allHealthy, required, live) then IdleSession(required)
    else CountHeartbeat(s, component, state, allHealthy, required)
  }

  /** Queueing never loses count: a backlog ends up counted in full, and a session under way forgets nothing. */
  lemma QueueingCountsBacklog(s: Session, backlog: int, now: int, required: nat)
    requires backlog > 0
    ensures var q := QueueIfNeeded(s, backlog, now, required);
            && q.queued >= backlog
            && (q.state == s.state && !s.state.Queued? ==> q.queued >= s.queued && q.delivered == s.delivered)
            && (q.state.Queued? || q.state.Running? ||
                (q.state.Failed? && q.nextRetryAt == s.nextRetryAt && now < q.nextRetryAt.value))
  {
  }

  // ---------------------------------------------------------------- confirmation of recovery

  datatype Beat = Beat(component: Component, state: HealthState, allHealthy: bool)

  /** The session after a series of heartbeats, none of which returns it to idle. */
  function Counted(s: Session, beats: seq<Beat>, required: nat): Session {
    if |beats| == 0 then s
    else
      var last := beats[|beats| - 1];
      CountHeartbeat(Counted(s, beats[..|beats| - 1], required), last.component, last.state, last.allHealthy, required)
  }

  /** How many heartbeats of a target, going back from the latest, were healthy without a break. */
  function HealthyStreak(beats: seq<Beat>): nat {
    if |beats| == 0 then 0
    else
      var last := beats[|beats| - 1];
      var before := HealthyStreak(beats[..|beats| - 1]);
      if last.component.Transport? then before
      else if last.state.Online? && last.allHealthy then before + 1
      else 0
  }

  /** Recovery is confirmed exactly when the last `required` heartbeats of the targets were all healthy. */
  lemma {:induction false} ConfirmationIsAStreak(s: Session, beats: seq<Beat>, required: nat)
    requires s.heartbeats == 0 && s.required == required && !s.state.Running?
    ensures Counted(s, beats, required).heartbeats == Min(HealthyStreak(beats), required)
    ensures Confirmed(Counted(s, beats, required)) <==> HealthyStreak(beats) >= required
    ensures Counted(s, beats, required).state == s.state && Counted(s, beats, required).required == required
  {
    if |beats| > 0 {
      ConfirmationIsAStreak(s, beats[..|beats| - 1], required);
    }
  }
}
