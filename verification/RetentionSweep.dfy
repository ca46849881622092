/** The retention sweep of one organisation: chat content with its children, and finished checkpoints. */
module RetentionSweep {
  import opened Text
  import opened Uuids
  import opened WorkStates

  type Time = int

  const DAY: int := 86_400

  // ----- windows

  /** A configured override, as decoded from JSON. */
  datatype Override = WholeNumber(n: int) | Boolean(b: bool) | Other

  const DEFAULT_CHECKPOINT_DAYS: int := 30

  /** `window_for(GRAPH_CHECKPOINT, ...)`: a positive whole number of days, or the platform default. */
  function CheckpointWindow(override: Option<Override>): (duration: int)
    ensures duration >= DAY
  {
    if override.Some? && override.value.WholeNumber? && override.value.n > 0 then override.value.n * DAY
    else DEFAULT_CHECKPOINT_DAYS * DAY
  }

  // ----- state

  datatype Session = Session(tenant: Uuid, contentExpiresAt: Option<Time>)

  datatype Feedback = Feedback(message: Uuid, session: Uuid)

  datatype Work = Work(tenant: Uuid, requester: Uuid, session: Uuid, state: WorkState, updatedAt: Time)
  {
    function Thread(): string {
      ThreadKey(tenant, requester, session)
    }
  }

  /** `checkpoint_thread_id`. */
  function ThreadKey(tenant: Uuid, requester: Uuid, session: Uuid): string
  {
    Join([Render(tenant), Render(requester), Render(session)], ':')
  }

  /** Sessions and their children by identifier, work items, and the threads that have checkpoints. */
  datatype State = State(
    sessions: map<Uuid, Session>,
    messages: map<Uuid, Uuid>,
    steps: map<Uuid, Uuid>,
    feedback: map<Uuid, Feedback>,
    work: map<Uuid, Work>,
    threads: set<string>)

  /** Every child row points at rows that exist. */
  predicate NoOrphans(s: State)
  {
    && (forall m :: m in s.messages ==> s.messages[m] in s.sessions)
    && (forall p :: p in s.steps ==> s.steps[p] in s.sessions)
    && (forall f :: f in s.feedback ==> s.feedback[f].session in s.sessions && s.feedback[f].message in s.messages)
  }

  /** `uq_work_item_session_id`. */
  predicate OneWorkPerSession(s: State)
  {
    forall a, b :: a in s.work && b in s.work && a != b ==> s.work[a].session != s.work[b].session
  }

  // ----- what a sweep removes

  predicate Stale(session: Session, tenant: Uuid, now: Time)
  {
    session.tenant == tenant && session.contentExpiresAt.Some? && session.contentExpiresAt.value <= now
  }

  predicate Eligible(work: Work, tenant: Uuid, now: Time, window: int)
  {
    work.tenant == tenant && work.state in COMPLETED_WORK_STATES && work.updatedAt <= now - window
  }

  function StaleSessions(s: State, tenant: Uuid, now: Time): set<Uuid>
  {
    set x | x in s.sessions && Stale(s.sessions[x], tenant, now)
  }

  /** `DELETE FROM chat_session` with its cascades. */
  function WithoutSessions(s: State, gone: set<Uuid>): State
  {
    var messages := map m | m in s.messages && s.messages[m] !in gone :: s.messages[m];
    s.(sessions := s.sessions - gone,
      messages := messages,
      steps := map p | p in s.steps && s.steps[p] !in gone :: s.steps[p],
      feedback := map f | f in s.feedback && s.feedback[f].session !in gone
                          && (s.feedback[f].message in s.messages ==> s.feedback[f].message in messages)
                  :: s.feedback[f])
  }

  function EligibleThreads(s: State, tenant: Uuid, now: Time, window: int): set<string>
  {
    set w | w in s.work && Eligible(s.work[w], tenant, now, window) :: s.work[w].Thread()
  }

  /** The whole sweep. */
  function SweptState(s: State, tenant: Uuid, now: Time, window: int): State
  {
    var t := WithoutSessions(s, StaleSessions(s, tenant, now));
    t.(threads := s.threads - EligibleThreads(s, tenant, now, window))
  }

  datatype SweepResult = SweepResult(sessionsRemoved: nat, checkpointsEligible: nat, checkpointsPruned: nat)

  /** The rows of the eligibility query, in whatever order it returns them. */
  ghost predicate EligibleList(s: State, tenant: Uuid, now: Time, window: int, list: seq<Uuid>)
  {
    && (forall i, j :: 0 <= i < j < |list| ==> list[i] != list[j])
    && forall w :: w in list <==> w in s.work && Eligible(s.work[w], tenant, now, window)
  }

  /** Of another organisation, or without an expiry, or not yet at it. */
  predicate OutlivesPass(s: State, tenant: Uuid, now: Time, x: Uuid)
    requires x in s.sessions
  {
    || s.sessions[x].tenant != tenant
    || s.sessions[x].contentExpiresAt.None?
    || now < s.sessions[x].contentExpiresAt.value
  }

  /** The sessions that are left are as they were, and of the children exactly theirs are left, as they were. */
  ghost predicate JustTheirChildren(s: State, t: State)
  {
    && (forall x :: x in t.sessions ==> x in s.sessions && t.sessions[x] == s.sessions[x])
    && (forall m :: m in t.messages <==> m in s.messages && s.messages[m] in t.sessions)
    && (forall m :: m in t.messages ==> t.messages[m] == s.messages[m])
    && (forall p :: p in t.steps <==> p in s.steps && s.steps[p] in t.sessions)
    && (forall p :: p in t.steps ==> t.steps[p] == s.steps[p])
    && (forall f :: f in t.feedback <==>
          && f in s.feedback && s.feedback[f].session in t.sessions
          && s.feedback[f].message in s.messages && s.messages[s.feedback[f].message] in t.sessions)
    && (forall f :: f in t.feedback ==> t.feedback[f] == s.feedback[f])
    && t.work == s.work
  }

  /**
   A session is left by a pass exactly when it is another organisation's, never expires, or has not expired
   yet; and it is left with all its messages, steps and feedback, while a session that goes takes its own along.
   */
  lemma SurvivesIff(s: State, tenant: Uuid, now: Time, window: int)
    ensures var t := SweptState(s, tenant, now, window);
            && (forall x :: x in t.sessions <==> x in s.sessions && OutlivesPass(s, tenant, now, x))
            && (NoOrphans(s) ==> JustTheirChildren(s, t))
  {
    hide Eligible, ThreadKey;
  }

  class Platform {
    var state: State

    constructor (state: State)
      ensures this.state == state
    {
      this.state := state;
    }

    /** `sweep_chat_content`. */
    method SweepChatContent(tenant: Uuid, now: Time) returns (removed: nat)
      modifies this
      ensures state == WithoutSessions(old(state), StaleSessions(old(state), tenant, now))
      ensures removed == |StaleSessions(old(state), tenant, now)|
    {
      var gone := StaleSessions(state, tenant, now);
      state := WithoutSessions(state, gone);
      removed := |gone|;
    }

    /** `prune_checkpoints`: deleting a thread that is not there changes nothing, and still counts. */
    method PruneCheckpoints(keys: seq<string>) returns (pruned: nat)
      modifies this
      ensures state == old(state).(threads := old(state).threads - set k | k in keys)
      ensures pruned == |keys|
    {
      pruned := 0;
      assert state.threads == old(state).threads - set k | k in keys[..0];
      while pruned < |keys|
        invariant pruned <= |keys|
        invariant state == old(state).(threads := old(state).threads - set k | k in keys[..pruned])
      {
        assert keys[..pruned + 1] == keys[..pruned] + [keys[pruned]];
        state := state.(threads := state.threads - {keys[pruned]});
        pruned := pruned + 1;
      }
      assert keys[..pruned] == keys;
    }

    /** `sweep_tenant`. */
    method SweepTenant(tenant: Uuid, now: Time, override: Option<Override>, list: seq<Uuid>)
      returns (result: SweepResult)
      requires EligibleList(state, tenant, now, CheckpointWindow(override), list)
      modifies this
      ensures state == SweptState(old(state), tenant, now, CheckpointWindow(override))
      ensures result == SweepResult(|StaleSessions(old(state), tenant, now)|, |list|, |list|)
      ensures forall x :: x in state.sessions <==> x in old(state).sessions && OutlivesPass(old(state), tenant, now, x)
      ensures NoOrphans(old(state)) ==> JustTheirChildren(old(state), state)
    {
      SurvivesIff(state, tenant, now, CheckpointWindow(override));
      var removed := SweepChatContent(tenant, now);
      var work := state.work;
      var keys := seq(|list|, i requires 0 <= i < |list| && list[i] in work => work[list[i]].Thread());
      KeysAreEligible(state, tenant, now, CheckpointWindow(override), list, keys);
      var pruned := PruneCheckpoints(keys);
      return SweepResult(removed, |keys|, pruned);
    }
  }

  lemma KeysAreEligible(s: State, tenant: Uuid, now: Time, window: int, list: seq<Uuid>, keys: seq<string>)
    requires EligibleList(s, tenant, now, window, list) && |keys| == |list|
    requires forall i :: 0 <= i < |list| ==> keys[i] == s.work[list[i]].Thread()
    ensures (set k | k in keys) == EligibleThreads(s, tenant, now, window)
  {
    hide ThreadKey, Eligible;
    forall k
      ensures k in (set k | k in keys) <==> k in EligibleThreads(s, tenant, now, window)
    {
      if k in keys {
        var i :| 0 <= i < |keys| && keys[i] == k;
        assert list[i] in list;
      }
      if k in EligibleThreads(s, tenant, now, window) {
        var w :| w in s.work && Eligible(s.work[w], tenant, now, window) && s.work[w].Thread() == k;
        var i :| 0 <= i < |list| && list[i] == w;
        assert keys[i] == k;
      }
    }
  }

  // ----- what the sweep promises

  /** Organisation, requester and session, with a colon between each two. */
  lemma ThreadKeySpelledOut(tenant: Uuid, requester: Uuid, session: Uuid)
    ensures ThreadKey(tenant, requester, session) ==
            Render(tenant) + [':'] + (Render(requester) + [':'] + Render(session))
  {
    var t, r, x := Render(tenant), Render(requester), Render(session);
    hide Render, Join;
    JoinPrepend(t, [r, x], ':');
    JoinPrepend(r, [x], ':');
    assert [t] + [r, x] == [t, r, x] && [r] + [x] == [r, x];
    JoinOne(x, ':');
  }

  /** The thread key determines the organisation, the requester and the session. */
  lemma ThreadKeyInjective(t1: Uuid, r1: Uuid, s1: Uuid, t2: Uuid, r2: Uuid, s2: Uuid)
    ensures ThreadKey(t1, r1, s1) == ThreadKey(t2, r2, s2) <==> t1 == t2 && r1 == r2 && s1 == s2
  {
    if ThreadKey(t1, r1, s1) == ThreadKey(t2, r2, s2) {
      var a, b := [Render(t1), Render(r1), Render(s1)], [Render(t2), Render(r2), Render(s2)];
      hide Join, Split, Render;
      RenderAlphabet(t1, ':');
      RenderAlphabet(r1, ':');
      RenderAlphabet(s1, ':');
      RenderAlphabet(t2, ':');
      RenderAlphabet(r2, ':');
      RenderAlphabet(s2, ':');
      SplitJoin(a, ':');
      SplitJoin(b, ':');
      assert a == b;
      assert a[0] == b[0] && a[1] == b[1] && a[2] == b[2];
      RenderInjective(t1, t2);
      RenderInjective(r1, r2);
      RenderInjective(s1, s2);
    }
  }

  /** Nothing is left hanging: every message, step and feedback that stays points at rows that stay. */
  lemma SweepLeavesNoOrphans(s: State, tenant: Uuid, now: Time, window: int)
    requires NoOrphans(s)
    ensures NoOrphans(SweptState(s, tenant, now, window))
  {
  }

  /** A later pass does what the passes before it did, and more: only the last one's instant matters. */
  lemma LaterSweepsAbsorb(s: State, tenant: Uuid, now: Time, later: Time, window: int)
    requires NoOrphans(s) && now <= later
    ensures SweptState(SweptState(s, tenant, now, window), tenant, later, window) ==
            SweptState(s, tenant, later, window)
  {
    var once := SweptState(s, tenant, now, window);
    var first, second := StaleSessions(s, tenant, now), StaleSessions(once, tenant, later);
    assert first + second == StaleSessions(s, tenant, later);
    SweepLeavesNoOrphans(s, tenant, now, window);
    WithoutTwice(s, first, second);
    assert EligibleThreads(once, tenant, later, window) == EligibleThreads(s, tenant, later, window);
    assert EligibleThreads(s, tenant, now, window) <= EligibleThreads(s, tenant, later, window);
    hide NoOrphans, StaleSessions, EligibleThreads;
  }

  /** Removing sessions in two steps is removing them in one. */
  lemma WithoutTwice(s: State, first: set<Uuid>, second: set<Uuid>)
    requires NoOrphans(s)
    ensures WithoutSessions(WithoutSessions(s, first), second) == WithoutSessions(s, first + second)
  {
    var a, b := WithoutSessions(WithoutSessions(s, first), second), WithoutSessions(s, first + second);
    assert a.sessions == b.sessions;
    assert a.messages == b.messages;
    assert a.steps == b.steps;
    assert a.feedback == b.feedback;
  }

  /** A second pass at the same instant changes nothing, though it counts the same threads again. */
  lemma SweepIsIdempotent(s: State, tenant: Uuid, now: Time, window: int)
    requires NoOrphans(s)
    ensures var once := SweptState(s, tenant, now, window);
            && SweptState(once, tenant, now, window) == once
            && StaleSessions(once, tenant, now) == {}
            && EligibleThreads(once, tenant, now, window) == EligibleThreads(s, tenant, now, window)
  {
    LaterSweepsAbsorb(s, tenant, now, now, window);
    assert StaleSessions(SweptState(s, tenant, now, window), tenant, now) == {};
  }

  /** Feedback on a message of the session. */
  predicate FeedbackWithin(s: State, f: Uuid, session: Uuid)
    requires f in s.feedback
  {
    && s.feedback[f].session == session
    && s.feedback[f].message in s.messages && s.messages[s.feedback[f].message] == session
  }

  /** Another organisation keeps its sessions with all their children, its work and its threads. */
  lemma OtherTenantsAreUntouched(
    s: State, tenant: Uuid, now: Time, window: int, other: Uuid, requester: Uuid, session: Uuid)
    requires NoOrphans(s) && other != tenant
    ensures var t := SweptState(s, tenant, now, window);
            && t.work == s.work
            && (ThreadKey(other, requester, session) in t.threads <==>
                ThreadKey(other, requester, session) in s.threads)
            && (session in s.sessions && s.sessions[session].tenant == other ==>
                  && session in t.sessions && t.sessions[session] == s.sessions[session]
                  && (forall m :: m in s.messages && s.messages[m] == session ==> m in t.messages)
                  && (forall p :: p in s.steps && s.steps[p] == session ==> p in t.steps)
                  && (forall f :: f in s.feedback && FeedbackWithin(s, f, session) ==> f in t.feedback))
  {
    var key := ThreadKey(other, requester, session);
    if w :| w in s.work && Eligible(s.work[w], tenant, now, window) && s.work[w].Thread() == key {
      ThreadKeyInjective(other, requester, session, s.work[w].tenant, s.work[w].requester, s.work[w].session);
      assert false;
    }
    hide ThreadKey;
  }

  /** A thread goes exactly when finished work that is old enough ran under it. */
  lemma ThreadIsPrunedIff(s: State, tenant: Uuid, now: Time, window: int, w: Uuid)
    requires OneWorkPerSession(s) && w in s.work && s.work[w].Thread() in s.threads
    ensures s.work[w].Thread() !in SweptState(s, tenant, now, window).threads <==>
            && s.work[w].tenant == tenant && now - s.work[w].updatedAt >= window
            && s.work[w].state in {Executed, WorkState.Failed, Expired, Cancelled, Escalated}
  {
    var key := s.work[w].Thread();
    if x :| x in s.work && Eligible(s.work[x], tenant, now, window) && s.work[x].Thread() == key {
      ThreadKeyInjective(s.work[w].tenant, s.work[w].requester, s.work[w].session,
                         s.work[x].tenant, s.work[x].requester, s.work[x].session);
      assert x == w;
    }
    hide ThreadKey;
  }

  /** The window, in days: the organisation's own when it is a positive whole number, thirty otherwise. */
  lemma ThreadIsPrunedAfterDays(
    s: State, tenant: Uuid, now: Time, override: Option<Override>, w: Uuid, days: int)
    requires OneWorkPerSession(s) && w in s.work && s.work[w].Thread() in s.threads
    requires days == match override
                     case Some(WholeNumber(n)) => if n > 0 then n else 30
                     case _ => 30
    ensures s.work[w].Thread() !in SweptState(s, tenant, now, CheckpointWindow(override)).threads <==>
            && s.work[w].tenant == tenant && now - s.work[w].updatedAt >= days * 86_400
            && s.work[w].state in {Executed, WorkState.Failed, Expired, Cancelled, Escalated}
  {
    hide ThreadKey, SweptState, Eligible;
    ThreadIsPrunedIff(s, tenant, now, CheckpointWindow(override), w);
  }

  /** So work that may still resume never loses its thread, however old it is. */
  lemma UnfinishedWorkKeepsItsThread(s: State, tenant: Uuid, now: Time, window: int, w: Uuid)
    requires OneWorkPerSession(s) && w in s.work && s.work[w].Thread() in s.threads
    requires s.work[w].state !in COMPLETED_WORK_STATES
    ensures s.work[w].Thread() in SweptState(s, tenant, now, window).threads
  {
    hide ThreadKey, SweptState;
    ThreadIsPrunedIff(s, tenant, now, window, w);
  }
}
