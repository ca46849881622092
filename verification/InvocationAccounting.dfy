/** How many connector calls an operation can cost, and where each of them went. */
module InvocationAccounting {
  import opened Text
  import opened Uuids
  import opened Idempotency
  import opened Domain
  import opened AccessPolicy
  import opened ExecutionStore
  import opened ExecutionProtocol
  import opened ExecutionInvariant
  import opened ExecutionSafety

  /** Calls made for an operation, by its key. */
  function CallsFor(requests: seq<Request>, key: Key): nat
  {
    if requests == [] then 0
    else
      CallsFor(requests[..|requests| - 1], key)
      + if requests[|requests| - 1].triple == key then 1 else 0
  }

  /** The deliveries that made them. */
  function Callers(requests: seq<Request>, key: Key): set<nat>
  {
    set i | 0 <= i < |requests| && requests[i].triple == key :: requests[i].delivery
  }

  datatype Fate = InFlight | Aborted | LostTheInsert | Won

  /** What became of a delivery that called. */
  ghost function FateOf(s: State, d: nat): Fate
    requires d in s.deliveries
  {
    if Wrote(s, d) then Won
    else
      match s.deliveries[d].pc
      case Recording(_) => InFlight
      case Done(_, LostInsert) => LostTheInsert
      case _ => Aborted
  }

  ghost function CallersWith(s: State, key: Key, fate: Fate): set<nat>
  {
    set d | d in Callers(s.requests, key) && d in s.deliveries && FateOf(s, d) == fate
  }

  /** One more call adds its own delivery to its own operation's callers. */
  lemma CallersGrow(before: seq<Request>, last: Request, key: Key)
    ensures Callers(before + [last], key) ==
            Callers(before, key) + if last.triple == key then {last.delivery} else {}
  {
    var requests := before + [last];
    assert requests[|before|] == last;
    assert forall i :: 0 <= i < |before| ==> before[i] == requests[i];
  }

  predicate OncePerDelivery(requests: seq<Request>)
  {
    forall i, j :: 0 <= i < j < |requests| ==> requests[i].delivery != requests[j].delivery
  }

  lemma OnceBefore(before: seq<Request>, last: Request, key: Key)
    requires OncePerDelivery(before + [last])
    ensures OncePerDelivery(before) && last.delivery !in Callers(before, key)
  {
    var requests := before + [last];
    assert requests[|before|] == last;
    assert forall i :: 0 <= i < |before| ==> before[i] == requests[i];
  }

  lemma {:induction false} CallsAreCallers(requests: seq<Request>, key: Key)
    requires OncePerDelivery(requests)
    ensures CallsFor(requests, key) == |Callers(requests, key)|
  {
    if requests == [] {
    } else {
      hide OncePerDelivery, Callers;
      var n := |requests| - 1;
      var before, last := requests[..n], requests[n];
      assert requests == before + [last];
      OnceBefore(before, last, key);
      CallersGrow(before, last, key);
      CallsAreCallers(before, key);
    }
  }

  lemma RequestFacts(derive: Deriver, s: State, i: nat)
    requires Reachable(derive, s) && i < |s.requests|
    ensures RequestOk(derive, s, s.requests[i])
  {
    hide Reachable, DeliveriesOk, CommitsOk, ChecksOk, RequestOk;
    ReachableInv(derive, s);
  }

  lemma CallersKnown(derive: Deriver, s: State, key: Key, d: nat)
    requires Reachable(derive, s) && d in Callers(s.requests, key)
    ensures d in s.deliveries && Sent(s, d)
    ensures s.deliveries[d].envelope.jobId in s.store.jobs
    ensures JobKey(derive, s.store.jobs[s.deliveries[d].envelope.jobId]) == key
  {
    var i :| 0 <= i < |s.requests| && s.requests[i].triple == key && s.requests[i].delivery == d;
    hide Reachable;
    RequestFacts(derive, s, i);
  }

  /** At most one of the calls for an operation ends in a record. */
  lemma OneWinner(derive: Deriver, s: State, key: Key)
    requires Reachable(derive, s)
    ensures |CallersWith(s, key, Won)| <= 1
  {
    hide Reachable;
    var winners := CallersWith(s, key, Won);
    forall a, b | a in winners && b in winners
      ensures a == b
    {
      WinnersShareRecord(derive, s, key, a, b);
    }
    if winners != {} {
      var a :| a in winners;
      assert winners == {a};
    }
  }

  lemma WinnersShareRecord(derive: Deriver, s: State, key: Key, a: nat, b: nat)
    requires Reachable(derive, s)
    requires a in Callers(s.requests, key) && b in Callers(s.requests, key)
    requires Wrote(s, a) && Wrote(s, b)
    ensures a == b
  {
    hide Reachable, Told;
    var e :| e in s.commits && s.commits[e].delivery == a;
    var f :| f in s.commits && s.commits[f].delivery == b;
    CallersKnown(derive, s, key, a);
    CallersKnown(derive, s, key, b);
    RecordFacts(derive, s, e);
    RecordFacts(derive, s, f);
    if e != f {
      RecordsApart(derive, s, e, f);
    }
  }

  /** Where a caller of each fate is: its program counter says what became of its call. */
  ghost predicate FateShows(s: State, d: nat)
    requires d in s.deliveries
  {
    var pc := s.deliveries[d].pc;
    match FateOf(s, d)
    case InFlight => pc.Recording?
    case LostTheInsert => pc == Done(Complete, LostInsert)
    case Aborted => pc == Done(Abandon, Faulted(true, false)) || pc == Crashed
    case Won =>
      || pc.Written? || (pc.Done? && pc.disposition == Complete && pc.ending.Recorded?)
      || pc == Done(Abandon, Faulted(true, true)) || pc == Crashed
  }

  lemma FateMeans(derive: Deriver, s: State, d: nat)
    requires Reachable(derive, s) && d in s.deliveries && Sent(s, d)
    ensures FateShows(s, d)
  {
    DeliveryFacts(derive, s, d);
    hide Reachable, Told;
  }

  lemma FourParts(a: set<nat>, b: set<nat>, c: set<nat>, d: set<nat>, whole: set<nat>)
    requires whole == a + b + c + d
    requires a !! b && a !! c && a !! d && b !! c && b !! d && c !! d
    ensures |whole| == |a| + |b| + |c| + |d|
  {
    assert |a + b| == |a| + |b|;
    assert |a + b + c| == |a + b| + |c|;
    assert |a + b + c + d| == |a + b + c| + |d|;
  }

  lemma FatesPartition(derive: Deriver, s: State, key: Key)
    requires Reachable(derive, s)
    ensures var flying, aborted := CallersWith(s, key, InFlight), CallersWith(s, key, Aborted);
            var lost, won := CallersWith(s, key, LostTheInsert), CallersWith(s, key, Won);
            && Callers(s.requests, key) == flying + aborted + lost + won
            && flying !! aborted && flying !! lost && flying !! won
            && aborted !! lost && aborted !! won && lost !! won
  {
    hide Reachable, Callers, FateOf;
    forall d | d in Callers(s.requests, key)
      ensures d in s.deliveries && d in CallersWith(s, key, FateOf(s, d))
    {
      CallersKnown(derive, s, key, d);
    }
  }

  /**
   In every reachable state, the calls made for an operation are the ones still to be recorded, the
   ones aborted or crashed after calling, the ones that lost the insert, and at most one winner; and
   each caller is where its fate says.
   */
  lemma EveryCallIsAccountedFor(derive: Deriver, s: State, key: Key)
    requires Reachable(derive, s)
    ensures CallsFor(s.requests, key) ==
            |CallersWith(s, key, InFlight)| + |CallersWith(s, key, Aborted)|
            + |CallersWith(s, key, LostTheInsert)| + |CallersWith(s, key, Won)|
    ensures |CallersWith(s, key, Won)| <= 1
    ensures forall d :: d in Callers(s.requests, key) ==> d in s.deliveries && FateShows(s, d)
  {
    forall d | d in Callers(s.requests, key)
      ensures d in s.deliveries && FateShows(s, d)
    {
      CallersKnown(derive, s, key, d);
      FateMeans(derive, s, d);
    }
    hide FateShows;
    OneWinner(derive, s, key);
    OneCallEach(derive, s);
    CallsAreCallers(s.requests, key);
    hide Reachable, CallsFor, Callers, FateOf, CallersWith;
    FatesPartition(derive, s, key);
    FourParts(CallersWith(s, key, InFlight), CallersWith(s, key, Aborted),
              CallersWith(s, key, LostTheInsert), CallersWith(s, key, Won),
              Callers(s.requests, key));
  }

  /** While an operation has no record, every call made for it is still in flight, or aborted or crashed. */
  lemma UnrecordedCalls(derive: Deriver, s: State, key: Key, d: nat)
    requires Reachable(derive, s) && d in Callers(s.requests, key) && !HasKey(s.store.executions, key)
    ensures d in s.deliveries && (FateOf(s, d).InFlight? || FateOf(s, d).Aborted?)
  {
    CallersKnown(derive, s, key, d);
    DeliveryFacts(derive, s, d);
    hide Reachable, Callers, Told, Sent;
    if Wrote(s, d) {
      var e :| e in s.commits && s.commits[e].delivery == d;
      RecordFacts(derive, s, e);
    }
  }

  /** Whoever sent the key looked for it before the key's first and only record was committed. */
  lemma CheckedBeforeCommit(derive: Deriver, s: State, i: nat, e: Uuid)
    requires Reachable(derive, s) && i < |s.requests| && s.requests[i].idempotencyHeader.Some?
    requires e in s.commits && e in s.store.executions
    requires s.store.executions[e].key == s.requests[i].triple
    ensures s.requests[i].delivery in s.deliveries
    ensures s.deliveries[s.requests[i].delivery].readAt.check < s.commits[e].at
  {
    RequestFacts(derive, s, i);
    hide Reachable, DeliveriesOk, LogOk, CommitsOk;
    ReachableInv(derive, s);
  }

  // ----- when one operation costs at most one call

  /** The call carried this key. */
  predicate Bears(r: Request, key: Key)
  {
    r.idempotencyHeader == Some(key)
  }

  predicate SentWith(requests: seq<Request>, key: Key)
  {
    exists i :: 0 <= i < |requests| && Bears(requests[i], key)
  }

  /** Two calls that carried this key. */
  predicate SentTwice(requests: seq<Request>, key: Key)
  {
    exists i, j :: 0 <= i < j < |requests| && Bears(requests[i], key) && Bears(requests[j], key)
  }

  /** One more call doubles a key exactly when it carries one sent before. */
  lemma OneMoreCall(before: seq<Request>, r: Request, key: Key)
    ensures SentWith(before + [r], key) <==> SentWith(before, key) || Bears(r, key)
    ensures SentTwice(before + [r], key) <==>
            SentTwice(before, key) || (SentWith(before, key) && Bears(r, key))
  {
    hide Bears;
    var after := before + [r];
    assert after[|before|] == r && forall i :: 0 <= i < |before| ==> after[i] == before[i];
  }

  /** The delivery is about to look for the key before calling under it. */
  predicate Checking(derive: Deriver, s: State, d: nat, key: Key)
  {
    && d in s.deliveries && s.deliveries[d].pc.Permitted?
    && s.deliveries[d].pc.binding.policy.DerivedKey? && s.deliveries[d].pc.instruction.Key(derive) == key
  }

  /** It has looked, and will call. */
  predicate ClearedFor(derive: Deriver, s: State, d: nat, key: Key)
  {
    && d in s.deliveries && s.deliveries[d].pc.Cleared?
    && s.deliveries[d].pc.binding.policy.DerivedKey? && s.deliveries[d].pc.instruction.Key(derive) == key
  }

  /** It has called, and has yet to record. */
  ghost predicate CallOpen(s: State, d: nat, key: Key)
  {
    && d in s.deliveries && s.deliveries[d].pc.Recording?
    && exists i :: 0 <= i < |s.requests| && s.requests[i].delivery == d && Bears(s.requests[i], key)
  }

  ghost predicate Engaged(derive: Deriver, s: State, d: nat, key: Key)
  {
    ClearedFor(derive, s, d, key) || CallOpen(s, d, key)
  }

  /**
   While the operation has no record: none of its deliveries looks for the key when another is between its
   own look and its record, and none is lost between its call and its record. Nothing is asked of
   deliveries of other operations.
   */
  ghost predicate Orderly(derive: Deriver, s: State, a: Action, key: Key)
  {
    a.Advance? && !HasKey(s.store.executions, key) ==>
      && (a.step.PreCheck? && Checking(derive, s, a.d, key) ==> forall x :: !Engaged(derive, s, x, key))
      && (a.step.Fault? || a.step.Crash? ==> !CallOpen(s, a.d, key))
  }

  ghost predicate OrderlyRun(derive: Deriver, s: State, actions: seq<Action>, key: Key)
  {
    actions == [] ||
    var before := actions[..|actions| - 1];
    OrderlyRun(derive, s, before, key) && Orderly(derive, Run(derive, s, before), actions[|actions| - 1], key)
  }

  /** Every call under the key is being recorded, or the key is taken. */
  ghost predicate CallsSettled(s: State, key: Key)
  {
    forall i :: 0 <= i < |s.requests| && Bears(s.requests[i], key) ==>
                  HasKey(s.store.executions, key) || CallOpen(s, s.requests[i].delivery, key)
  }

  /** At most one delivery is cleared to call, and only while nothing has been sent. */
  ghost predicate LastToCall(derive: Deriver, s: State, key: Key)
  {
    && (forall x, y :: ClearedFor(derive, s, x, key) && ClearedFor(derive, s, y, key) ==> x == y)
    && (forall x :: ClearedFor(derive, s, x, key) ==> !SentWith(s.requests, key))
  }

  ghost predicate OneCall(derive: Deriver, s: State, key: Key)
  {
    !SentTwice(s.requests, key) && CallsSettled(s, key) && LastToCall(derive, s, key)
  }

  lemma OrderlyStepPreserves(derive: Deriver, s: State, a: Action, key: Key)
    requires Reachable(derive, s) && OneCall(derive, s, key) && Orderly(derive, s, a, key)
    ensures OneCall(derive, Do(derive, s, a), key)
  {
    hide Reachable, OneCall, Orderly, FromBody;
    match a
    case Receive(d, body) =>
      OutsideKeeps(derive, s, Do(derive, s, a), key);
    case SetFacts(_) => OutsideKeeps(derive, s, Do(derive, s, a), key);
    case AddJob(_, _) => OutsideKeeps(derive, s, Do(derive, s, a), key);
    case Advance(d, step) =>
      if d in s.deliveries {
        DoAdvance(derive, s, d, step);
        if step.Invoke? {
          OrderlyInvoke(derive, s, d, step.startedAt, step.reply, key);
        } else if step.Record? {
          OrderlyRecord(derive, s, d, step.ids, step.completedAt, key);
        } else {
          OrderlyLocal(derive, s, d, step, key);
        }
        hide Do, Effect, Stepped;
        OutsideKeeps(derive, Stepped(derive, s, d, step), Do(derive, s, a), key);
      } else {
        OutsideKeeps(derive, s, Do(derive, s, a), key);
      }
  }

  /** What happens outside the deliveries, an arrival included, calls nothing. */
  lemma OutsideKeeps(derive: Deriver, s: State, t: State, key: Key)
    requires OneCall(derive, s, key) && t.requests == s.requests
    requires t.store.executions == s.store.executions
    requires forall x :: x in s.deliveries ==> x in t.deliveries && t.deliveries[x] == s.deliveries[x]
    requires forall x :: x in t.deliveries && x !in s.deliveries ==> !t.deliveries[x].pc.Cleared?
    ensures OneCall(derive, t, key)
  {
    hide Bears, HasKey, SentWith, SentTwice;
    assert forall x :: CallOpen(s, x, key) ==> CallOpen(t, x, key);
    assert forall x :: ClearedFor(derive, t, x, key) ==> ClearedFor(derive, s, x, key);
  }

  lemma OrderlyInvoke(derive: Deriver, s: State, d: nat, startedAt: Time, reply: Reply, key: Key)
    requires d in s.deliveries && OneCall(derive, s, key)
    ensures OneCall(derive, Stepped(derive, s, d, Invoke(startedAt, reply)), key)
  {
    if s.deliveries[d].pc.Cleared? {
      var t := StepInvoke(derive, s, d, startedAt, reply);
      var r := t.requests[|s.requests|];
      assert r.delivery == d && (Bears(r, key) <==> ClearedFor(derive, s, d, key));
      hide StepInvoke;
      CallKeeps(derive, s, t, d, r, key);
    }
  }

  lemma CallKeeps(derive: Deriver, s: State, t: State, d: nat, r: Request, key: Key)
    requires OneCall(derive, s, key) && d in s.deliveries && s.deliveries[d].pc.Cleared?
    requires d in t.deliveries && t.deliveries == s.deliveries[d := t.deliveries[d]]
    requires t.deliveries[d].pc.Recording? && t.store == s.store && t.requests == s.requests + [r]
    requires r.delivery == d && (Bears(r, key) <==> ClearedFor(derive, s, d, key))
    ensures OneCall(derive, t, key)
  {
    hide Bears, HasKey, SentWith, SentTwice;
    OneMoreCall(s.requests, r, key);
    assert forall i :: 0 <= i < |s.requests| ==> t.requests[i] == s.requests[i];
    assert t.requests[|s.requests|] == r;
    assert forall x :: ClearedFor(derive, t, x, key) ==> x != d && ClearedFor(derive, s, x, key);
    forall i | 0 <= i < |t.requests| && Bears(t.requests[i], key)
      ensures HasKey(t.store.executions, key) || CallOpen(t, t.requests[i].delivery, key)
    {
      if i < |s.requests| && !HasKey(s.store.executions, key) {
        assert CallOpen(s, s.requests[i].delivery, key);
      }
    }
  }

  /** A delivery moves on without calling: cleared in its turn, or leaving no call unrecorded. */
  lemma MoveKeeps(derive: Deriver, s: State, t: State, d: nat, key: Key)
    requires OneCall(derive, s, key) && d in s.deliveries && t.requests == s.requests
    requires d in t.deliveries && t.deliveries == s.deliveries[d := t.deliveries[d]]
    requires HasKey(s.store.executions, key) ==> HasKey(t.store.executions, key)
    requires CallOpen(s, d, key) ==> HasKey(t.store.executions, key)
    requires ClearedFor(derive, t, d, key) ==>
               !HasKey(s.store.executions, key) && forall x :: !Engaged(derive, s, x, key)
    ensures OneCall(derive, t, key)
  {
    hide Bears, HasKey, SentTwice;
    forall x | x != d
      ensures CallOpen(t, x, key) <==> CallOpen(s, x, key)
      ensures ClearedFor(derive, t, x, key) <==> ClearedFor(derive, s, x, key)
    {
    }
    assert CallsSettled(t, key);
    hide CallOpen;
    if ClearedFor(derive, t, d, key) {
      forall x
        ensures !ClearedFor(derive, s, x, key) && !CallOpen(s, x, key)
      {
        assert !Engaged(derive, s, x, key);
      }
      assert !SentWith(s.requests, key);
    }
  }

  /** Trying to record leaves the operation's key taken, won or lost. */
  lemma RecordTakesKey(derive: Deriver, s: State, d: nat, ids: Ids, completedAt: Time)
    requires Reachable(derive, s) && d in s.deliveries && s.deliveries[d].pc.Recording?
    requires Fresh(s.store, ids)
    ensures var t := StepRecord(derive, s, d, ids, completedAt);
            var key := s.deliveries[d].pc.draft.instruction.Key(derive);
            && HasKey(t.store.executions, key)
            && (forall k :: HasKey(s.store.executions, k) ==> HasKey(t.store.executions, k))
            && t.deliveries == s.deliveries[d := t.deliveries[d]] && !t.deliveries[d].pc.Cleared?
            && t.requests == s.requests
    ensures forall i :: 0 <= i < |s.requests| && s.requests[i].delivery == d ==>
              s.requests[i].triple == s.deliveries[d].pc.draft.instruction.Key(derive)
              && (s.requests[i].idempotencyHeader.Some? ==>
                    s.requests[i].idempotencyHeader.value == s.requests[i].triple)
  {
    DeliveryFacts(derive, s, d);
    var draft, envelope := s.deliveries[d].pc.draft, s.deliveries[d].envelope;
    forall i | 0 <= i < |s.requests| && s.requests[i].delivery == d
      ensures s.requests[i].triple == draft.instruction.Key(derive)
              && (s.requests[i].idempotencyHeader.Some? ==>
                    s.requests[i].idempotencyHeader.value == s.requests[i].triple)
    {
      RequestFacts(derive, s, i);
    }
    OnlyDuplicateKey(derive, s.store, draft, envelope, ids, completedAt);
    hide Reachable, Told, DeliveryOk;
    var record := RecordOf(derive, draft, envelope.correlationId, completedAt);
    var t := StepRecord(derive, s, d, ids, completedAt);
    if Insertable(s.store.executions, ids.execution, record) {
      assert t.store.executions == s.store.executions[ids.execution := record];
      assert ids.execution in t.store.executions && t.store.executions[ids.execution].key == record.key;
      KeysKept(s.store.executions, ids.execution, record);
    }
  }

  lemma KeysKept(executions: map<Uuid, ExecutionRecord>, id: Uuid, record: ExecutionRecord)
    requires id !in executions
    ensures forall k :: HasKey(executions, k) ==> HasKey(executions[id := record], k)
  {
    forall k | HasKey(executions, k)
      ensures HasKey(executions[id := record], k)
    {
      var e :| e in executions && executions[e].key == k;
      assert e in executions[id := record] && executions[id := record][e].key == k;
    }
  }

  lemma OrderlyRecord(derive: Deriver, s: State, d: nat, ids: Ids, completedAt: Time, key: Key)
    requires Reachable(derive, s) && d in s.deliveries && OneCall(derive, s, key)
    ensures OneCall(derive, Stepped(derive, s, d, Record(ids, completedAt)), key)
  {
    DoAdvance(derive, s, d, Record(ids, completedAt));
    hide Reachable, Stepped, Do, StepRecord, Fresh, HasKey, OneCall;
    if s.deliveries[d].pc.Recording? && Fresh(s.store, ids) {
      RecordTakesKey(derive, s, d, ids, completedAt);
      MoveKeeps(derive, s, StepRecord(derive, s, d, ids, completedAt), d, key);
    }
  }

  /** How a delivery comes to be cleared, and how it stops recording, other than by its transaction. */
  lemma LocalStepTurns(derive: Deriver, s: State, d: nat, step: Step)
    requires d in s.deliveries && !step.Invoke? && !step.Record?
    ensures var t := Stepped(derive, s, d, step);
            t == s || (&& d in t.deliveries && t == s.(deliveries := s.deliveries[d := t.deliveries[d]])
                       && Turned(derive, s, s.deliveries[d].pc, step, t.deliveries[d].pc))
  {
    hide HasKey, Fresh, LoadInstruction, ValidIdentity, RefusalOutcome, RefusalDraft;
  }

  predicate Turned(derive: Deriver, s: State, was: Pc, step: Step, pc: Pc)
  {
    && (pc.Cleared? ==>
          && step.PreCheck? && was.Permitted?
          && pc.instruction == was.instruction && pc.binding == was.binding
          && (pc.binding.policy.DerivedKey? ==> !HasKey(s.store.executions, pc.instruction.Key(derive))))
    && (was.Recording? ==> step.Fault? || step.Crash?)
  }

  lemma OrderlyLocal(derive: Deriver, s: State, d: nat, step: Step, key: Key)
    requires d in s.deliveries && OneCall(derive, s, key)
    requires !step.Invoke? && !step.Record? && Orderly(derive, s, Advance(d, step), key)
    ensures OneCall(derive, Stepped(derive, s, d, step), key)
  {
    hide Stepped, HasKey, OneCall, Engaged;
    LocalStepTurns(derive, s, d, step);
    var t := Stepped(derive, s, d, step);
    if t != s {
      MoveKeeps(derive, s, t, d, key);
    }
  }

  lemma {:induction false} OrderlyRunInv(derive: Deriver, s: State, actions: seq<Action>, key: Key)
    requires Reachable(derive, s) && OneCall(derive, s, key) && OrderlyRun(derive, s, actions, key)
    ensures OneCall(derive, Run(derive, s, actions), key)
  {
    hide Reachable, OneCall, Orderly, Do;
    if actions == [] {
    } else {
      var before := actions[..|actions| - 1];
      OrderlyRunInv(derive, s, before, key);
      ReachableOnwards(derive, s, before);
      OrderlyStepPreserves(derive, Run(derive, s, before), actions[|actions| - 1], key);
    }
  }

  /**
   Any number of redeliveries, on any number of replicas and whatever other operations do, sends an
   operation's key at most once, as long as its own deliveries keep apart between looking for the key and
   recording, and none of them is lost between its call and its record; faults and crashes anywhere else,
   and every change of facts, are allowed.
   */
  lemma OrderlyRunsCallOnce(derive: Deriver, start: State, actions: seq<Action>, key: Key)
    requires Init(start) && OrderlyRun(derive, start, actions, key)
    ensures !SentTwice(Run(derive, start, actions).requests, key)
  {
    assert Run(derive, start, []) == start;
    assert Reachable(derive, start);
    assert OneCall(derive, start, key);
    hide Init, Reachable;
    OrderlyRunInv(derive, start, actions, key);
  }
}
