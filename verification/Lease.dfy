/**
 The end-to-end test lock (hack/e2e-runner/lock.go).

 Runners compete for one Lease object held by an API server.  The server offers Get, Create and Update;
 an Update carries the resource version its author read and is applied only when that version is still
 current.  A runner never sees its request being applied: a request is in flight from the moment it is sent
 until the server applies it, refuses it or it is lost, and its author may give up on it meanwhile.  Any
 number of runners interleave their reads, checks, stamps and requests with each other and with the clock.

 Times are microseconds, the precision at which a Lease stores them.
 */
module Lease {
  import opened Basics

  const TOKEN_KEY := "karpenter.k8s.gcp/runner-token"
  const LEASE_DURATION := 600
  const SECOND := 1_000_000

  datatype LeaseObject = LeaseObject(
    holder: Option<string>,
    durationSeconds: Option<int>,
    acquireTime: Option<int>,
    renewTime: Option<int>,
    annotations: map<string, string>)

  datatype Versioned = Versioned(version: nat, lease: LeaseObject)

  function TokenOf(lease: LeaseObject): string {
    if TOKEN_KEY in lease.annotations then lease.annotations[TOKEN_KEY] else ""
  }

  /** A lease with a holder blocks others until its last renewal (or acquisition) is a duration old. */
  predicate Active(lease: LeaseObject, now: int) {
    if lease.holder.None? || lease.holder.value == "" then false
    else if lease.durationSeconds.None? || lease.durationSeconds.value <= 0 then true
    else
      var last := if lease.renewTime.Some? then lease.renewTime else lease.acquireTime;
      last.None? || now < last.value + lease.durationSeconds.value * SECOND
  }

  /** A lease blocks never, always, or until one moment; always exactly if it is held and its end cannot be told. */
  lemma BlocksUntil(lease: LeaseObject)
    ensures (forall t :: !Active(lease, t)) <==> lease.holder == None || lease.holder == Some("")
    ensures (forall t :: Active(lease, t)) <==>
            && lease.holder.Some? && lease.holder != Some("")
            && ((forall d | lease.durationSeconds == Some(d) :: d <= 0) || lease.renewTime == lease.acquireTime == None)
    ensures forall d, t, now | lease.durationSeconds == Some(d) && d > 0
                               && Some(t) == (if lease.renewTime.Some? then lease.renewTime else lease.acquireTime) ::
              Active(lease, now) <==> lease.holder.Some? && lease.holder != Some("") && now < t + d * SECOND
  {
    var last := if lease.renewTime.Some? then lease.renewTime else lease.acquireTime;
    if last.Some? && lease.durationSeconds.Some? {
      var end := last.value + lease.durationSeconds.value * SECOND;
      assert Active(lease, end - 1) || !Active(lease, end - 1);
      assert Active(lease, end) || !Active(lease, end);
    } else {
      assert Active(lease, 0) || !Active(lease, 0);
    }
  }

  predicate Owned(runner: Runner, lease: LeaseObject) {
    lease.holder == Some(runner.holder) && TokenOf(lease) == runner.token
  }

  /** What acquiring writes over the lease it read, or over a new object when there was none. */
  function Claimed(seen: Option<Versioned>, runner: Runner, now: int): LeaseObject {
    LeaseObject(
      Some(runner.holder), Some(LEASE_DURATION), Some(now), Some(now),
      (if seen.Some? then seen.value.lease.annotations else map[])[TOKEN_KEY := runner.token])
  }

  function Renewed(lease: LeaseObject, now: int): LeaseObject {
    lease.(renewTime := Some(now))
  }

  function Released(lease: LeaseObject): LeaseObject {
    lease.(holder := None, renewTime := None, annotations := lease.annotations - {TOKEN_KEY})
  }

  // ---------------------------------------------------------------- the protocol

  /** Where one call of acquireLease, and the lock it returns, has got to. */
  datatype Phase =
    | Drawn                                                         // token drawn
    | Looked(seen: Option<Versioned>)                               // acquire has read the lease
    | Passed(seen: Option<Versioned>, checkedAt: int)               // and found it inactive
    | Waiting                                                       // and sent its request
    | Running                                                       // acquired
    | Renewing(read: Versioned)                                     // renew has read a lease it owns
    | Releasing(read: Versioned)                                    // release has read a lease it owns
    | Stopped

  datatype Runner = Runner(holder: string, token: string, phase: Phase)

  datatype Write =
    | Acquire(author: nat, base: Option<Versioned>, checkedAt: int, stamp: int, lease: LeaseObject)
    | Renew(author: nat, read: Versioned, stamp: int)
    | Release(author: nat, read: Versioned)
  {
    function Base(): Option<Versioned> {
      if Acquire? then base else Some(read)
    }

    function Content(): LeaseObject {
      match this
      case Acquire(_, _, _, _, lease) => lease
      case Renew(_, read, stamp) => Renewed(read.lease, stamp)
      case Release(_, read) => Released(read.lease)
    }
  }

  /** The last renew time a runner's applied writes left in the store, and at which version. */
  datatype Persisted = Persisted(renewTime: int, version: nat)

  datatype State = State(
    now: int,
    store: Option<Versioned>,
    lastVersion: nat,
    tokens: set<string>,
    runners: map<nat, Runner>,
    inflight: set<Write>,
    persisted: map<nat, Persisted>,
    released: set<nat>)
  {
    predicate Carries(r: nat)
      requires r in runners
    {
      store.Some? && TokenOf(store.value.lease) == runners[r].token
    }

    /** The runner has taken the lock, has not given it back, and its last persisted renewal is fresh. */
    predicate Holds(r: nat) {
      r in persisted && r !in released && now < persisted[r].renewTime + LEASE_DURATION * SECOND
    }
  }

  datatype Step =
    | Tick(elapsed: nat)
    | Draw(r: nat, holder: string, token: string)
    | Look(r: nat)
    | Check(r: nat)
    | Claim(r: nat)
    | Return(r: nat)
    | RenewLook(r: nat)
    | RenewSend(r: nat)
    | ReleaseLook(r: nat)
    | ReleaseSend(r: nat)
    | GiveUp(r: nat)
    | Deliver(w: Write)
    | Lose(w: Write)

  predicate Enabled(s: State, step: Step) {
    match step
    case Tick(_) => true
    case Draw(r, holder, token) => r !in s.runners && holder != "" && token != "" && token !in s.tokens
    case Look(r) => r in s.runners && s.runners[r].phase.Drawn?
    case Check(r) => r in s.runners && s.runners[r].phase.Looked?
    case Claim(r) => r in s.runners && s.runners[r].phase.Passed?
    case Return(r) => r in s.runners && s.runners[r].phase.Waiting? && r in s.persisted
    case RenewLook(r) => r in s.runners && s.runners[r].phase.Running?
    case RenewSend(r) => r in s.runners && s.runners[r].phase.Renewing?
    case ReleaseLook(r) => r in s.runners && s.runners[r].phase.Running?
    case ReleaseSend(r) => r in s.runners && s.runners[r].phase.Releasing?
    case GiveUp(r) => r in s.runners
    case Deliver(w) => w in s.inflight
    case Lose(w) => w in s.inflight
  }

  function Moved(s: State, r: nat, phase: Phase): State
    requires r in s.runners
  {
    s.(runners := s.runners[r := s.runners[r].(phase := phase)])
  }

  /** A write is applied only when the lease its author read is still the stored one. */
  predicate Current(s: State, w: Write) {
    match w.Base()
    case None => s.store.None?
    case Some(v) => s.store.Some? && s.store.value.version == v.version
  }

  function Served(s: State, w: Write): State {
    if !Current(s, w) then s.(inflight := s.inflight - {w})
    else
      var version := s.lastVersion + 1;
      s.(store := Some(Versioned(version, w.Content())),
         lastVersion := version,
         inflight := s.inflight - {w},
         persisted := if w.Release? then s.persisted else s.persisted[w.author := Persisted(w.stamp, version)],
         released := if w.Release? then s.released + {w.author} else s.released)
  }

  function Do(s: State, step: Step): State
    requires Enabled(s, step)
  {
    match step
    case Tick(elapsed) => s.(now := s.now + elapsed)
    case Draw(r, holder, token) =>
      s.(tokens := s.tokens + {token}, runners := s.runners[r := Runner(holder, token, Drawn)])
    case Look(r) => Moved(s, r, Looked(s.store))
    case Check(r) =>
      var seen := s.runners[r].phase.seen;
      if seen.Some? && Active(seen.value.lease, s.now) then Moved(s, r, Stopped)
      else Moved(s, r, Passed(seen, s.now))
    case Claim(r) =>
      var p := s.runners[r].phase;
      var w := Acquire(r, p.seen, p.checkedAt, s.now, Claimed(p.seen, s.runners[r], s.now));
      Moved(s, r, Waiting).(inflight := s.inflight + {w})
    case Return(r) => Moved(s, r, Running)
    case RenewLook(r) =>
      if s.store.Some? && Owned(s.runners[r], s.store.value.lease) then Moved(s, r, Renewing(s.store.value)) else s
    case RenewSend(r) =>
      Moved(s, r, Running).(inflight := s.inflight + {Renew(r, s.runners[r].phase.read, s.now)})
    case ReleaseLook(r) =>
      if s.store.Some? && Owned(s.runners[r], s.store.value.lease) then Moved(s, r, Releasing(s.store.value))
      else Moved(s, r, Stopped)
    case ReleaseSend(r) =>
      Moved(s, r, Stopped).(inflight := s.inflight + {Release(r, s.runners[r].phase.read)})
    case GiveUp(r) => Moved(s, r, if s.runners[r].phase.Renewing? then Running else Stopped)
    case Deliver(w) => Served(s, w)
    case Lose(w) => s.(inflight := s.inflight - {w})
  }

  /** Any lease at all may be stored beforehand; nobody has drawn the token it may carry. */
  predicate Init(s: State) {
    && s.runners == map[] && s.inflight == {} && s.persisted == map[] && s.released == {}
    && (s.store.Some? ==> s.store.value.version <= s.lastVersion && TokenOf(s.store.value.lease) in s.tokens)
  }

  /** The states a sequence of steps passes through. */
  predicate Run(states: seq<State>, steps: seq<Step>) {
    && |states| == |steps| + 1
    && forall i | 0 <= i < |steps| :: Enabled(states[i], steps[i]) && states[i + 1] == Do(states[i], steps[i])
  }

  predicate Reachable(states: seq<State>, steps: seq<Step>) {
    Run(states, steps) && Init(states[0])
  }

  // ---------------------------------------------------------------- what every step keeps

  /** A lease read earlier: its version is not newer than the store's, and equal versions mean equal contents. */
  ghost predicate Seen(s: State, v: Versioned) {
    && s.store.Some?
    && v.version <= s.store.value.version
    && (v.version == s.store.value.version ==> v == s.store.value)
  }

  ghost predicate SeenOption(s: State, o: Option<Versioned>) {
    o.Some? ==> Seen(s, o.value)
  }

  ghost predicate Inactive(o: Option<Versioned>, at: int) {
    o.Some? ==> !Active(o.value.lease, at)
  }

  ghost predicate RunnerOk(s: State, r: nat)
    requires r in s.runners
  {
    var q := s.runners[r];
    && q.holder != "" && q.token != "" && q.token in s.tokens
    && (q.phase.Drawn? || q.phase.Looked? || q.phase.Passed? ==> r !in s.persisted)
    && match q.phase
       case Looked(seen) => SeenOption(s, seen)
       case Passed(seen, at) => SeenOption(s, seen) && at <= s.now && Inactive(seen, at)
       case Renewing(read) => Seen(s, read) && Owned(q, read.lease)
       case Releasing(read) => Seen(s, read) && Owned(q, read.lease)
       case _ => true
  }

  ghost predicate WriteOk(s: State, w: Write) {
    && w.author in s.runners
    && var q := s.runners[w.author];
    && !q.phase.Drawn? && !q.phase.Looked? && !q.phase.Passed?
    && SeenOption(s, w.Base())
    && match w
       case Acquire(_, base, at, stamp, lease) =>
         && w.author !in s.persisted
         && at <= s.now && Inactive(base, at)
         && lease == Claimed(base, q, stamp)
       case Renew(_, read, stamp) => Owned(q, read.lease)
       case Release(_, read) => Owned(q, read.lease)
  }

  ghost predicate StoreOk(s: State) {
    && (s.store.Some? ==> s.store.value.version <= s.lastVersion && TokenOf(s.store.value.lease) in s.tokens + {""})
    && forall r | r in s.runners && s.Carries(r) ::
         && r in s.persisted && r !in s.released
         && s.store.value.version == s.persisted[r].version
         && s.store.value.lease.holder == Some(s.runners[r].holder)
         && s.store.value.lease.durationSeconds == Some(LEASE_DURATION)
         && s.store.value.lease.renewTime == Some(s.persisted[r].renewTime)
  }

  ghost predicate RunnersOk(s: State) {
    forall r | r in s.runners :: RunnerOk(s, r)
  }

  ghost predicate TokensDistinct(s: State) {
    forall r, q | r in s.runners && q in s.runners && s.runners[r].token == s.runners[q].token :: r == q
  }

  ghost predicate WritesOk(s: State) {
    forall w | w in s.inflight :: WriteOk(s, w)
  }

  ghost predicate AcquireOnce(s: State) {
    forall w, x | w in s.inflight && x in s.inflight && w.Acquire? && x.Acquire? && w.author == x.author :: w == x
  }

  ghost predicate HistoryOk(s: State) {
    s.persisted.Keys <= s.runners.Keys && s.released <= s.persisted.Keys
  }

  ghost predicate HoldersOk(s: State) {
    forall r | s.Holds(r) :: r in s.runners && s.Carries(r)
  }

  ghost predicate Inv(s: State) {
    RunnersOk(s) && TokensDistinct(s) && WritesOk(s) && AcquireOnce(s) && HistoryOk(s) && StoreOk(s) && HoldersOk(s)
  }

  /** The store and the history of applied writes are as they were; time may have passed, tokens been drawn. */
  ghost predicate Quiet(s: State, s': State) {
    && s'.store == s.store && s'.lastVersion == s.lastVersion && s.now <= s'.now && s.tokens <= s'.tokens
    && s'.persisted == s.persisted && s'.released == s.released
  }

  lemma RunnerFrame(s: State, s': State, r: nat)
    requires Quiet(s, s') && r in s.runners && r in s'.runners && s'.runners[r] == s.runners[r] && RunnerOk(s, r)
    ensures RunnerOk(s', r)
  {
  }

  lemma WriteFrame(s: State, s': State, w: Write)
    requires Quiet(s, s') && WriteOk(s, w)
    requires w.author in s'.runners
    requires s'.runners[w.author].(phase := Stopped) == s.runners[w.author].(phase := Stopped)
    requires var p := s'.runners[w.author].phase; !p.Drawn? && !p.Looked? && !p.Passed?
    ensures WriteOk(s', w)
  {
  }

  /** With the store untouched, holders and the stored lease's owner are judged as before. */
  lemma QuietKeepsStore(s: State, s': State)
    requires Quiet(s, s') && StoreOk(s) && HoldersOk(s) && HistoryOk(s)
    requires forall r | r in s.runners :: r in s'.runners && s'.runners[r].token == s.runners[r].token
                                          && s'.runners[r].holder == s.runners[r].holder
    requires forall r | r in s'.runners && s'.Carries(r) :: r in s.runners
    ensures StoreOk(s') && HoldersOk(s') && HistoryOk(s')
  {
    forall r | r in s'.runners && s'.Carries(r)
      ensures s.Carries(r)
    {
    }
    forall r | s'.Holds(r)
      ensures r in s'.runners && s'.Carries(r)
    {
      assert s.Holds(r);
    }
  }

  /** A step that moves one runner's phase and sends at most its own requests keeps the invariant. */
  lemma MovedKeepsInv(s: State, s': State, r: nat, phase: Phase, sent: set<Write>)
    requires Inv(s) && r in s.runners && s' == Moved(s, r, phase).(inflight := s.inflight + sent)
    requires !phase.Drawn?
    requires phase.Looked? || phase.Passed? ==> s.runners[r].phase.Drawn? || s.runners[r].phase.Looked?
    requires RunnerOk(s', r)
    requires forall w | w in sent :: WriteOk(s', w) && w.author == r
    requires forall w, x | w in sent && x in s'.inflight && w.Acquire? && x.Acquire? && x.author == r :: w == x
    ensures Inv(s')
  {
    forall q | q in s'.runners
      ensures RunnerOk(s', q)
    {
      if q != r { RunnerFrame(s, s', q); }
    }
    forall w | w in s'.inflight
      ensures WriteOk(s', w)
    {
      if w !in sent { WriteFrame(s, s', w); }
    }
    QuietKeepsStore(s, s');
  }

  lemma DrawKeepsInv(s: State, step: Step)
    requires Inv(s) && step.Draw? && Enabled(s, step)
    ensures Inv(Do(s, step))
  {
    var s' := Do(s, step);
    forall q | q in s'.runners
      ensures RunnerOk(s', q)
    {
      if q != step.r { RunnerFrame(s, s', q); }
    }
    forall q | q in s.runners
      ensures s.runners[q].token != step.token
    {
      assert RunnerOk(s, q);
    }
    forall w | w in s'.inflight
      ensures WriteOk(s', w)
    {
      WriteFrame(s, s', w);
    }
    QuietKeepsStore(s, s');
  }

  lemma TickKeepsInv(s: State, step: Step)
    requires Inv(s) && (step.Tick? || step.Lose?) && Enabled(s, step)
    ensures Inv(Do(s, step))
  {
    var s' := Do(s, step);
    forall q | q in s'.runners
      ensures RunnerOk(s', q)
    {
      RunnerFrame(s, s', q);
    }
    forall w | w in s'.inflight
      ensures WriteOk(s', w)
    {
      WriteFrame(s, s', w);
    }
    QuietKeepsStore(s, s');
  }

  lemma AcquirePhasesKeepInv(s: State, step: Step)
    requires Inv(s) && (step.Look? || step.Check? || step.Claim?) && Enabled(s, step)
    ensures Inv(Do(s, step))
  {
    var s' := Do(s, step);
    var r := step.r;
    assert RunnerOk(s, r);
    var sent := s'.inflight - s.inflight;
    forall w | w in s.inflight
      ensures w.author != r
    {
      assert WriteOk(s, w);
    }
    MovedKeepsInv(s, s', r, s'.runners[r].phase, sent);
  }

  lemma HeldLooksKeepInv(s: State, step: Step)
    requires Inv(s) && Enabled(s, step) && (step.Return? || step.RenewLook? || step.ReleaseLook? || step.GiveUp?)
    ensures Inv(Do(s, step))
  {
    var s' := Do(s, step);
    var r := step.r;
    assert RunnerOk(s, r);
    if s' != s {
      MovedKeepsInv(s, s', r, s'.runners[r].phase, {});
    }
  }

  lemma HeldSendsKeepInv(s: State, step: Step)
    requires Inv(s) && Enabled(s, step) && (step.RenewSend? || step.ReleaseSend?)
    ensures Inv(Do(s, step))
  {
    var s' := Do(s, step);
    var r := step.r;
    assert RunnerOk(s, r);
    MovedKeepsInv(s, s', r, s'.runners[r].phase, s'.inflight - s.inflight);
  }

  /** A current renew or release is based on the stored lease, which therefore carries its author's token. */
  lemma CurrentWriteIsByCarrier(s: State, w: Write)
    requires Inv(s) && w in s.inflight && Current(s, w)
    ensures w.author in s.runners && w.Base() == s.store
    ensures !w.Acquire? ==> s.Carries(w.author) && w.author in s.persisted && w.author !in s.released
  {
    assert WriteOk(s, w);
  }

  lemma AppliedRunners(s: State, w: Write)
    requires Inv(s) && w in s.inflight && Current(s, w)
    ensures RunnersOk(Served(s, w))
  {
    var s' := Served(s, w);
    assert WriteOk(s, w);
    forall q | q in s'.runners
      ensures RunnerOk(s', q)
    {
      assert RunnerOk(s, q);
    }
  }

  lemma AppliedWrites(s: State, w: Write)
    requires Inv(s) && w in s.inflight && Current(s, w)
    ensures WritesOk(Served(s, w)) && AcquireOnce(Served(s, w))
  {
    var s' := Served(s, w);
    CurrentWriteIsByCarrier(s, w);
    forall x | x in s'.inflight
      ensures WriteOk(s', x)
    {
      assert WriteOk(s, x);
    }
  }

  lemma AppliedStore(s: State, w: Write)
    requires Inv(s) && w in s.inflight && Current(s, w)
    ensures StoreOk(Served(s, w)) && HistoryOk(Served(s, w))
  {
    var s' := Served(s, w);
    CurrentWriteIsByCarrier(s, w);
    assert WriteOk(s, w) && RunnerOk(s, w.author);
    assert w.Release? ==> TokenOf(w.Content()) == "";
    assert !w.Release? ==> TokenOf(w.Content()) == s.runners[w.author].token;
    forall r | r in s'.runners && s'.Carries(r)
      ensures r == w.author && !w.Release?
    {
      assert RunnerOk(s, r);
    }
    if w.Acquire? { assert w.author !in s.released; }
  }

  /**
   The heart of mutual exclusion.  A write applied while r holds is r's own: an acquire was checked against the very
   lease being replaced, so at the check, and hence now, r's renewal was a duration old; a renew or release needs r's
   token.
   */
  lemma OnlyTheHolderWrites(s: State, w: Write, r: nat)
    requires Inv(s) && w in s.inflight && Current(s, w) && s.Holds(r)
    ensures w.author == r
  {
    assert WriteOk(s, w) && s.Carries(r) && RunnerOk(s, r);
    CurrentWriteIsByCarrier(s, w);
  }

  lemma DeliverKeepsInv(s: State, w: Write)
    requires Inv(s) && w in s.inflight
    ensures Inv(Served(s, w))
  {
    if Current(s, w) {
      var s' := Served(s, w);
      AppliedRunners(s, w);
      AppliedWrites(s, w);
      AppliedStore(s, w);
      CurrentWriteIsByCarrier(s, w);
      forall r | s'.Holds(r)
        ensures r in s'.runners && s'.Carries(r)
      {
        if r != w.author { OnlyTheHolderWrites(s, w, r); }
      }
    } else {
      TickKeepsInv(s, Lose(w));
    }
  }

  lemma StepKeepsInv(s: State, step: Step)
    requires Inv(s) && Enabled(s, step)
    ensures Inv(Do(s, step))
  {
    match step
    case Tick(_) => TickKeepsInv(s, step);
    case Lose(_) => TickKeepsInv(s, step);
    case Draw(_, _, _) => DrawKeepsInv(s, step);
    case Look(_) => AcquirePhasesKeepInv(s, step);
    case Check(_) => AcquirePhasesKeepInv(s, step);
    case Claim(_) => AcquirePhasesKeepInv(s, step);
    case Deliver(w) => DeliverKeepsInv(s, w);
    case RenewSend(_) => HeldSendsKeepInv(s, step);
    case ReleaseSend(_) => HeldSendsKeepInv(s, step);
    case _ => HeldLooksKeepInv(s, step);
  }

  lemma {:induction false} ReachableInv(states: seq<State>, steps: seq<Step>, i: nat)
    requires Reachable(states, steps) && i < |states|
    ensures Inv(states[i])
  {
    if i > 0 {
      ReachableInv(states, steps, i - 1);
      StepKeepsInv(states[i - 1], steps[i - 1]);
    }
  }

  // ---------------------------------------------------------------- main results

  /**
   In every interleaving, a runner whose last persisted renewal is under 600 seconds old and that has not released is
   the one named by the store; so two such runners never coexist.
   */
  lemma MutualExclusion(states: seq<State>, steps: seq<Step>, i: nat, r: nat, q: nat)
    requires Reachable(states, steps) && i < |states|
    requires states[i].Holds(r) && states[i].Holds(q)
    ensures r == q
    ensures r in states[i].runners && states[i].Carries(r) && Owned(states[i].runners[r], states[i].store.value.lease)
    ensures Active(states[i].store.value.lease, states[i].now)
  {
    ReachableInv(states, steps, i);
    var s := states[i];
    assert s.Carries(r) && s.Carries(q) && RunnerOk(s, r);
  }

  /** The runner acquired the lock once, and the store no longer carries its token. */
  predicate Ousted(s: State, r: nat) {
    r in s.persisted && r in s.runners && !s.Carries(r)
  }

  lemma OustedWritesNothing(s: State, w: Write)
    requires Inv(s) && w in s.inflight && Ousted(s, w.author)
    ensures !Current(s, w) && Served(s, w).store == s.store
  {
    assert WriteOk(s, w);
    if Current(s, w) {
      CurrentWriteIsByCarrier(s, w);
      assert false;
    }
  }

  lemma OustedStaysOusted(s: State, step: Step, r: nat)
    requires Inv(s) && Enabled(s, step) && Ousted(s, r)
    ensures Ousted(Do(s, step), r)
    ensures step.Deliver? && step.w.author == r ==> Do(s, step).store == s.store
  {
    assert RunnerOk(s, r);
    match step
    case Deliver(w) =>
      if w.author == r {
        OustedWritesNothing(s, w);
      } else if Current(s, w) {
        CurrentWriteIsByCarrier(s, w);
        assert WriteOk(s, w) && RunnerOk(s, w.author);
        assert TokenOf(w.Content()) in {"", s.runners[w.author].token};
      }
    case _ =>
  }

  /**
   Once another runner has taken over (or the lock was released), the store never carries the old runner's token again,
   and no request the old runner still has in flight or ever sends changes the store, whatever holder name it uses.
   */
  lemma {:induction false} TakeoverIsFinal(states: seq<State>, steps: seq<Step>, i: nat, j: nat, r: nat)
    requires Reachable(states, steps) && i <= j < |states| && Ousted(states[i], r)
    ensures Ousted(states[j], r)
    ensures j < |steps| && steps[j].Deliver? && steps[j].w.author == r ==> states[j + 1].store == states[j].store
    decreases j
  {
    if i < j {
      TakeoverIsFinal(states, steps, i, j - 1, r);
      ReachableInv(states, steps, j - 1);
      OustedStaysOusted(states[j - 1], steps[j - 1], r);
    }
    ReachableInv(states, steps, j);
    if j < |steps| { OustedStaysOusted(states[j], steps[j], r); }
  }

  predicate OwnWrite(step: Step, r: nat) {
    step.Deliver? && step.w.author == r
  }

  /**
   Since the store held v and r's last applied write was p, r has written nothing and the store has at most moved on.
   */
  predicate Since(s: State, r: nat, p: Persisted, v: Versioned) {
    && r in s.persisted && s.persisted[r] == p
    && s.store.Some? && (s.store.value == v || v.version < s.store.value.version)
  }

  lemma StepMovesForward(s: State, step: Step, s': State, r: nat, p: Persisted, v: Versioned)
    requires StoreOk(s) && Enabled(s, step) && s' == Do(s, step) && !OwnWrite(step, r) && Since(s, r, p, v)
    ensures Since(s', r, p, v)
  {
  }

  lemma {:induction false} StoreOnlyMovesForward(
    states: seq<State>, steps: seq<Step>, i: nat, j: nat, r: nat, p: Persisted, v: Versioned)
    requires Reachable(states, steps) && i <= j < |states| && Since(states[i], r, p, v)
    requires forall k | i <= k < j :: !OwnWrite(steps[k], r)
    ensures Since(states[j], r, p, v)
    decreases j
  {
    if i < j {
      StoreOnlyMovesForward(states, steps, i, j - 1, r, p, v);
      ReachableInv(states, steps, j - 1);
      StepMovesForward(states[j - 1], steps[j - 1], states[j], r, p, v);
    }
  }

  /**
   A renew or release never loses the version check to anyone while its author holds: whatever others did between the
   read at i and the arrival at j, the request read at i is still current at j unless another request of the author's
   own was served in between.
   */
  lemma HeldWriteIsCurrent(states: seq<State>, steps: seq<Step>, i: nat, j: nat, w: Write)
    requires Reachable(states, steps) && i <= j < |states|
    requires !w.Acquire? && states[i].store == Some(w.read)
    requires states[i].Holds(w.author) && states[j].Holds(w.author) && w in states[j].inflight
    requires forall k | i <= k < j :: !OwnWrite(steps[k], w.author)
    ensures Current(states[j], w) && states[j].store == states[i].store
  {
    ReachableInv(states, steps, i);
    ReachableInv(states, steps, j);
    StoreOnlyMovesForward(states, steps, i, j, w.author, states[i].persisted[w.author], w.read);
    assert states[i].Carries(w.author) && states[j].Carries(w.author);
  }

  // ---------------------------------------------------------------- what undisturbed calls achieve

  /** An acquire that nothing comes between: drawn, looked, checked. */
  function Checked(s: State, r: nat, holder: string, token: string): State
    requires Enabled(s, Draw(r, holder, token))
  {
    Do(Do(Do(s, Draw(r, holder, token)), Look(r)), Check(r))
  }

  /** Whatever is annotated besides the token. */
  function OtherNotes(lease: LeaseObject): map<string, string> {
    lease.annotations - {TOKEN_KEY}
  }

  /** The runner has just taken the lock: the store names it and blocks others from now on; other notes stay. */
  ghost predicate Acquired(s: State, s': State, r: nat) {
    && r in s'.runners && s'.Holds(r) && s'.Carries(r) && s'.now == s.now
    && var lease := s'.store.value.lease;
    && lease.holder == Some(s'.runners[r].holder) && lease.acquireTime == lease.renewTime == Some(s.now)
    && OtherNotes(lease) == (if s.store.Some? then OtherNotes(s.store.value.lease) else map[])
    && forall t :: Active(lease, t) <==> t < s.now + LEASE_DURATION * SECOND
  }

  lemma ClaimArrives(s: State, sent: State, r: nat, w: Write)
    requires r in sent.runners && sent.runners[r].holder != "" && r !in sent.released
    requires sent.store == s.store && sent.now == s.now && w in sent.inflight
    requires w == Acquire(r, s.store, s.now, s.now, Claimed(s.store, sent.runners[r], s.now))
    ensures Acquired(s, Do(sent, Deliver(w)), r)
  {
    assert Current(sent, w);
  }

  /** Acquiring with nothing else happening meanwhile takes the lock exactly when the stored lease is not active. */
  lemma SoloAcquire(s: State, r: nat, holder: string, token: string)
    requires Inv(s) && Enabled(s, Draw(r, holder, token))
    ensures
      var checked := Checked(s, r, holder, token);
      if s.store.Some? && Active(s.store.value.lease, s.now)
      then checked.runners[r].phase == Stopped && checked.store == s.store && checked.inflight == s.inflight
      else
        && Enabled(checked, Claim(r))
        && var sent := Do(checked, Claim(r));
        && exists w :: sent.inflight == s.inflight + {w} && Acquired(s, Do(sent, Deliver(w)), r)
  {
    var checked := Checked(s, r, holder, token);
    if !(s.store.Some? && Active(s.store.value.lease, s.now)) {
      var sent := Do(checked, Claim(r));
      var w := Acquire(r, s.store, s.now, s.now, Claimed(s.store, checked.runners[r], s.now));
      assert sent.inflight == s.inflight + {w};
      assert r !in s.persisted && r !in s.released;
      ClaimArrives(s, sent, r, w);
    }
  }

  /** A release that arrives in time leaves a lease that blocks nobody, ever, and that carries no token. */
  lemma ReleaseUnblocks(states: seq<State>, steps: seq<Step>, i: nat)
    requires Reachable(states, steps) && i < |steps| && steps[i].Deliver? && steps[i].w.Release?
    requires Current(states[i], steps[i].w)
    ensures states[i].store.Some? && states[i + 1].store.Some?
    ensures var lease := states[i + 1].store.value.lease;
            && (forall t :: !Active(lease, t))
            && TokenOf(lease) == ""
            && var was := states[i].store.value.lease;
            && lease == LeaseObject(None, was.durationSeconds, was.acquireTime, None, OtherNotes(was))
    ensures !states[i + 1].Holds(steps[i].w.author)
  {
    ReachableInv(states, steps, i);
    ReachableInv(states, steps, i + 1);
    assert WriteOk(states[i], steps[i].w);
  }

  /** After a release, as long as nothing else is written, whoever acquires undisturbed gets the lock. */
  lemma ReleasedCanBeAcquired(
    states: seq<State>, steps: seq<Step>, i: nat, j: nat, r: nat, holder: string, token: string)
    requires Reachable(states, steps) && i < j < |states| && steps[i].Deliver? && steps[i].w.Release?
    requires Current(states[i], steps[i].w) && states[j].store == states[i + 1].store
    requires Enabled(states[j], Draw(r, holder, token))
    ensures
      var checked := Checked(states[j], r, holder, token);
      && Enabled(checked, Claim(r))
      && var sent := Do(checked, Claim(r));
      && exists w :: sent.inflight == states[j].inflight + {w} && Acquired(states[j], Do(sent, Deliver(w)), r)
  {
    ReleaseUnblocks(states, steps, i);
    ReachableInv(states, steps, j);
    SoloAcquire(states[j], r, holder, token);
  }

  /** The runner still has the lock, which now runs from the present time; nothing else in the lease is changed. */
  ghost predicate Extends(s: State, s': State, r: nat) {
    && r in s'.runners && s'.Holds(r) && s'.Carries(r) && s'.runners[r].phase == Running
    && s.store.Some? && var was, lease := s.store.value.lease, s'.store.value.lease;
    && lease.(renewTime := was.renewTime) == was
    && forall t :: Active(lease, t) <==> t < s.now + LEASE_DURATION * SECOND
  }

  lemma RenewalArrives(s: State, sent: State, r: nat, w: Write)
    requires StoreOk(s) && r in s.runners && s.Carries(r) && s.runners[r].holder != ""
    requires sent == Moved(s, r, Running).(inflight := s.inflight + {w}) && w == Renew(r, s.store.value, s.now)
    ensures Extends(s, Do(sent, Deliver(w)), r)
  {
    assert Current(sent, w);
  }

  /** Renewing with nothing else happening meanwhile extends the lease. */
  lemma SoloRenew(s: State, r: nat)
    requires Inv(s) && r in s.runners && s.runners[r].phase.Running? && s.Carries(r)
    ensures
      var looked := Do(s, RenewLook(r));
      && Enabled(looked, RenewSend(r))
      && var sent := Do(looked, RenewSend(r));
      && exists w :: sent.inflight == s.inflight + {w} && Extends(s, Do(sent, Deliver(w)), r)
  {
    assert RunnerOk(s, r);
    var sent := Do(Do(s, RenewLook(r)), RenewSend(r));
    var w := Renew(r, s.store.value, s.now);
    assert sent.inflight == s.inflight + {w};
    RenewalArrives(s, sent, r, w);
  }

  /** Releasing with nothing else happening meanwhile sends a release that arrives in time. */
  lemma SoloRelease(s: State, r: nat)
    requires Inv(s) && r in s.runners && s.runners[r].phase.Running? && s.Carries(r)
    ensures
      var looked := Do(s, ReleaseLook(r));
      && Enabled(looked, ReleaseSend(r))
      && var sent := Do(looked, ReleaseSend(r));
      && exists w :: sent.inflight == s.inflight + {w} && w.Release? && Current(sent, w)
  {
    assert RunnerOk(s, r);
    var sent := Do(Do(s, ReleaseLook(r)), ReleaseSend(r));
    var w := Release(r, s.store.value);
    assert sent.inflight == s.inflight + {w} && Current(sent, w);
  }

  /** A runner whose token the store does not carry neither renews nor releases. */
  lemma DisownedSendsNothing(s: State, r: nat)
    requires Inv(s) && r in s.runners && s.runners[r].phase.Running? && !s.Carries(r)
    ensures !Enabled(Do(s, RenewLook(r)), RenewSend(r)) && !Enabled(Do(s, ReleaseLook(r)), ReleaseSend(r))
  {
  }
}
