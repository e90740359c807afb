/**
 Threads that ask one set of refreshable credentials for its tuple; every read or write of a shared field is a step.
 */
module RefreshThreads {
  import opened Outcomes
  import opened Refreshing

  type Thread = nat

  /** Data that came with one answer or at construction; the expiry time is None if it could not be parsed. */
  datatype Brought = Brought(fields: Frozen, expiry: Option<int>)

  /**
   The checks of one call: before the lock, twice under it, while it is taken elsewhere, behind it, after a refresh.
   */
  datatype Check = Before | Again | Mandatory | Elsewhere | Behind | After

  datatype Place =
    | Looking(check: Check)                      // about to read the tuple and the expiry time
    | Judging(check: Check, seen: Option<int>)   // about to read the clock
    | Locking                                    // about to try the lock
    | Blocking                                   // waiting for the lock
    | Fetching(isMandatory: bool)
    | Writing(next: nat, answer: Brought)        // about to write a field
    | Freezing(next: nat, got: Frozen)           // about to read a field into the tuple
    | Leaving                                    // about to read the tuple to return
    | Done(ending: Ending)

  /** log holds the initial credentials, if any, and then every answer with data, in the order in which they came. */
  datatype State = State(
    advisory: int, mandatory: int,
    fields: Frozen, expiry: Option<int>, frozen: Option<Frozen>,
    lock: Option<Thread>, calls: map<Thread, Place>, now: int,
    log: seq<Brought>, published: int, dated: int)

  function Init(fields: Frozen, expiry: Option<int>, advisory: int, mandatory: int): State {
    State(advisory, mandatory, fields, expiry, Some(fields), None, map[], 0, [Brought(fields, expiry)], 0, 0)
  }

  function InitDeferred(): State {
    var nothing := Frozen(None, None, None, None);
    State(900, 600, nothing, None, None, None, map[], 0, [Brought(nothing, None)], 0, 0)
  }

  datatype Event = Enter(t: Thread) | Go(t: Thread) | Fetched(t: Thread, answer: Answer) | Pass(seconds: int)

  function Part(f: Frozen, i: nat): Field {
    if i == 0 then f.access else if i == 1 then f.secret else if i == 2 then f.token else f.account
  }

  function WithPart(f: Frozen, i: nat, v: Field): Frozen {
    if i == 0 then f.(access := v)
    else if i == 1 then f.(secret := v)
    else if i == 2 then f.(token := v)
    else f.(account := v)
  }

  function At(s: State, t: Thread, p: Place): State {
    s.(calls := s.calls[t := p])
  }

  function Release(s: State, t: Thread, p: Place): State {
    At(s, t, p).(lock := None)
  }

  /** How a call goes on when a check is decided. */
  function Decide(s: State, t: Thread, check: Check, needed: bool): State {
    match check
    case Before => At(s, t, if needed then Locking else Leaving)
    case Again => if needed then At(s, t, Looking(Mandatory)) else Release(s, t, Leaving)
    case Mandatory => At(s, t, Fetching(needed))
    case Elsewhere => At(s, t, if needed then Blocking else Leaving)
    case Behind => if needed then At(s, t, Fetching(true)) else Release(s, t, Leaving)
    case After => Release(s, t, if needed then Done(Threw(StillExpired)) else Leaving)
  }

  function Window(s: State, check: Check): int {
    match check
    case Before => s.advisory
    case Again => s.advisory
    case After => 0
    case _ => s.mandatory
  }

  /** The fields are written in the order access key, secret key, token, expiry time, account. */
  function Write(s: State, t: Thread, next: nat, answer: Brought): State {
    if next < 3 then
      At(s, t, Writing(next + 1, answer)).(fields := WithPart(s.fields, next, Part(answer.fields, next)))
    else if next > 3 then
      At(s, t, Freezing(0, s.fields)).(fields := WithPart(s.fields, 3, answer.fields.account))
    else if answer.expiry.None? then
      Release(s, t, Done(Threw(BadExpiry)))
    else
      At(s, t, Writing(4, answer)).(expiry := answer.expiry, dated := |s.log| - 1)
  }

  function Freeze(s: State, t: Thread, next: nat, got: Frozen): State {
    if next < 4 then At(s, t, Freezing(next + 1, WithPart(got, next, Part(s.fields, next))))
    else At(s, t, Looking(After)).(frozen := Some(got), published := |s.log| - 1)
  }

  function Look(s: State, t: Thread, check: Check): State {
    if s.frozen.None? then Decide(s, t, check, true)
    else if s.expiry.None? then Decide(s, t, check, false)
    else At(s, t, Judging(check, s.expiry))
  }

  function Receive(s: State, t: Thread, isMandatory: bool, answer: Answer): State {
    match answer
    case Failed => Release(s, t, if isMandatory then Done(Threw(SourceFailed)) else Leaving)
    case Partial => Release(s, t, Done(Threw(KeysMissing)))
    case Data(fields, expiry) =>
      At(s, t, Writing(0, Brought(fields, expiry))).(log := s.log + [Brought(fields, expiry)])
  }

  function Advance(s: State, t: Thread, p: Place): Option<State> {
    match p
    case Looking(check) => Some(Look(s, t, check))
    case Judging(check, seen) => Some(Decide(s, t, check, Needed(seen, Window(s, check), s.now)))
    case Locking =>
      Some(if s.lock.None? then At(s, t, Looking(Again)).(lock := Some(t)) else At(s, t, Looking(Elsewhere)))
    case Blocking => if s.lock.None? then Some(At(s, t, Looking(Behind)).(lock := Some(t))) else None
    case Writing(next, answer) => Some(Write(s, t, next, answer))
    case Freezing(next, got) => Some(Freeze(s, t, next, got))
    case Leaving => Some(At(s, t, Done(Returned(s.frozen))))
    case Fetching(_) => None
    case Done(_) => None
  }

  function Step(s: State, e: Event): Option<State> {
    match e
    case Enter(t) => if t in s.calls && !s.calls[t].Done? then None else Some(At(s, t, Looking(Before)))
    case Go(t) => if t in s.calls then Advance(s, t, s.calls[t]) else None
    case Fetched(t, answer) =>
      if t in s.calls && s.calls[t].Fetching? then Some(Receive(s, t, s.calls[t].isMandatory, answer)) else None
    case Pass(seconds) => Some(s.(now := s.now + seconds))
  }

  function Run(s: State, es: seq<Event>): Option<State>
    decreases |es|
  {
    if es == [] then Some(s)
    else if Step(s, es[0]).None? then None
    else Run(Step(s, es[0]).value, es[1..])
  }

  // ----- the invariant --------------------------------------------------------------------------

  predicate UnderLock(check: Check) {
    check.Again? || check.Mandatory? || check.Behind? || check.After?
  }

  predicate Holds(p: Place) {
    match p
    case Looking(check) => UnderLock(check)
    case Judging(check, _) => UnderLock(check)
    case Fetching(_) => true
    case Writing(_, _) => true
    case Freezing(_, _) => true
    case _ => false
  }

  /** The lock is held exactly by the thread that is at a place under it. */
  ghost predicate LockOk(s: State) {
    && (forall t :: t in s.calls && Holds(s.calls[t]) ==> s.lock == Some(t))
    && (s.lock.Some? ==> s.lock.value in s.calls && Holds(s.calls[s.lock.value]))
  }

  /** Between the write of the expiry time and that of the tuple. */
  predicate Between(p: Place) {
    (p.Writing? && p.next >= 4) || p.Freezing?
  }

  predicate Storing(s: State) {
    s.lock.Some? && s.lock.value in s.calls && (s.calls[s.lock.value].Writing? || s.calls[s.lock.value].Freezing?)
  }

  /** The tuple is from one answer, the expiry time from one, and they differ only between the two writes. */
  ghost predicate LogOk(s: State) {
    && 0 <= s.published <= s.dated < |s.log|
    && (if s.frozen.Some? then s.frozen.value == s.log[s.published].fields else s.published == 0)
    && s.expiry == s.log[s.dated].expiry
    && (s.published < s.dated ==> s.lock.Some? && s.lock.value in s.calls && Between(s.calls[s.lock.value]))
    && (forall g :: s.published < g < |s.log| && s.log[g].expiry.Some? ==> g == |s.log| - 1 && Storing(s))
  }

  ghost predicate PlaceOk(s: State, p: Place)
    requires LogOk(s)
  {
    var last := s.log[|s.log| - 1];
    match p
    case Judging(_, _) => s.frozen.Some?
    case Fetching(isMandatory) => isMandatory || s.frozen.Some?
    case Leaving => s.frozen.Some?
    case Looking(check) => check.After? ==> s.frozen.Some?
    case Writing(next, answer) =>
      && answer == last && next <= 4
      && (forall i :: 0 <= i < next && i < 3 ==> Part(s.fields, i) == Part(last.fields, i))
      && (next == 4 ==> last.expiry.Some? && s.dated == |s.log| - 1)
    case Freezing(next, got) =>
      && next <= 4 && s.fields == last.fields && last.expiry.Some? && s.dated == |s.log| - 1
      && (forall i :: 0 <= i < next ==> Part(got, i) == Part(last.fields, i))
    case Done(ending) =>
      ending.Returned? ==> exists g :: 0 <= g <= s.published && ending.frozen == Some(s.log[g].fields)
    case _ => true
  }

  ghost predicate Inv(s: State) {
    && LockOk(s) && LogOk(s)
    && (forall t :: t in s.calls ==> PlaceOk(s, s.calls[t]))
  }

  lemma InitInv(fields: Frozen, expiry: Option<int>, advisory: int, mandatory: int)
    ensures Inv(Init(fields, expiry, advisory, mandatory)) && Inv(InitDeferred())
  {
  }

  /** A step of one thread leaves the places of the others in order; those not under the lock look at little. */
  lemma OthersKeep(s: State, s': State, t: Thread)
    requires Inv(s) && LogOk(s')
    requires forall u :: u in s'.calls && u != t ==> u in s.calls && s'.calls[u] == s.calls[u]
    requires s.published <= s'.published && (s.frozen.Some? ==> s'.frozen.Some?)
    requires forall g :: 0 <= g <= s.published ==> s'.log[g] == s.log[g]
    requires s.lock == Some(t) || (s'.fields == s.fields && s'.log == s.log && s'.dated == s.dated)
    ensures forall u :: u in s'.calls && u != t ==> PlaceOk(s', s'.calls[u])
  {
    forall u | u in s'.calls && u != t ensures PlaceOk(s', s'.calls[u]) {
      assert PlaceOk(s, s.calls[u]);
      if s.calls[u].Done? && s.calls[u].ending.Returned? {
        var g :| 0 <= g <= s.published && s.calls[u].ending.frozen == Some(s.log[g].fields);
        assert s'.log[g] == s.log[g];
      }
    }
  }

  lemma DecideInv(s: State, t: Thread, check: Check, needed: bool)
    requires Inv(s) && t in s.calls && Holds(s.calls[t]) == UnderLock(check)
    requires !s.calls[t].Writing? && !s.calls[t].Freezing?
    requires s.frozen.None? ==> needed && check != After
    ensures Inv(Decide(s, t, check, needed))
  {
    var s' := Decide(s, t, check, needed);
    DecideLock(s, t, check, needed);
    DecideLog(s, t, check, needed);
    OthersKeep(s, s', t);
    assert PlaceOk(s', s'.calls[t]);
  }

  lemma DecideLock(s: State, t: Thread, check: Check, needed: bool)
    requires LockOk(s) && t in s.calls && Holds(s.calls[t]) == UnderLock(check)
    ensures LockOk(Decide(s, t, check, needed))
  {
  }

  lemma DecideLog(s: State, t: Thread, check: Check, needed: bool)
    requires LockOk(s) && LogOk(s) && t in s.calls && Holds(s.calls[t]) == UnderLock(check)
    requires !s.calls[t].Writing? && !s.calls[t].Freezing?
    ensures LogOk(Decide(s, t, check, needed))
  {
  }

  lemma Whole(f: Frozen, g: Frozen)
    requires forall i :: 0 <= i < 4 ==> Part(f, i) == Part(g, i)
    ensures f == g
  {
    assert Part(f, 0) == Part(g, 0) && Part(f, 1) == Part(g, 1) && Part(f, 2) == Part(g, 2) && Part(f, 3) == Part(g, 3);
  }

  lemma LastPart(f: Frozen, g: Frozen)
    requires forall i :: 0 <= i < 3 ==> Part(f, i) == Part(g, i)
    ensures WithPart(f, 3, g.account) == g
  {
    assert Part(f, 0) == Part(g, 0) && Part(f, 1) == Part(g, 1) && Part(f, 2) == Part(g, 2);
  }

  lemma WriteInv(s: State, t: Thread)
    requires Inv(s) && t in s.calls && s.calls[t].Writing?
    ensures Inv(Write(s, t, s.calls[t].next, s.calls[t].answer))
  {
    var p := s.calls[t];
    var s' := Write(s, t, p.next, p.answer);
    WriteLog(s, t);
    OthersKeep(s, s', t);
    WritePlace(s, t);
  }

  lemma WriteLog(s: State, t: Thread)
    requires Inv(s) && t in s.calls && s.calls[t].Writing?
    ensures LogOk(Write(s, t, s.calls[t].next, s.calls[t].answer))
  {
    assert PlaceOk(s, s.calls[t]);
  }

  lemma WritePlace(s: State, t: Thread)
    requires Inv(s) && t in s.calls && s.calls[t].Writing?
    requires LogOk(Write(s, t, s.calls[t].next, s.calls[t].answer))
    ensures var s' := Write(s, t, s.calls[t].next, s.calls[t].answer); PlaceOk(s', s'.calls[t])
  {
    var p := s.calls[t];
    assert PlaceOk(s, p);
    if p.next == 4 { LastPart(s.fields, p.answer.fields); }
  }

  lemma FreezeInv(s: State, t: Thread)
    requires Inv(s) && t in s.calls && s.calls[t].Freezing?
    ensures Inv(Freeze(s, t, s.calls[t].next, s.calls[t].got))
  {
    var p := s.calls[t];
    var s' := Freeze(s, t, p.next, p.got);
    assert PlaceOk(s, p);
    if p.next == 4 { Whole(p.got, s.log[|s.log| - 1].fields); }
    assert LogOk(s');
    OthersKeep(s, s', t);
    assert PlaceOk(s', s'.calls[t]);
  }

  lemma ReceiveInv(s: State, t: Thread, answer: Answer)
    requires Inv(s) && t in s.calls && s.calls[t].Fetching?
    ensures Inv(Receive(s, t, s.calls[t].isMandatory, answer))
  {
    var s' := Receive(s, t, s.calls[t].isMandatory, answer);
    assert PlaceOk(s, s.calls[t]);
    assert LogOk(s');
    OthersKeep(s, s', t);
    assert PlaceOk(s', s'.calls[t]);
  }

  lemma LockInv(s: State, t: Thread)
    requires Inv(s) && t in s.calls && (s.calls[t].Locking? || s.calls[t].Blocking? || s.calls[t].Leaving?)
    requires Advance(s, t, s.calls[t]).Some?
    ensures Inv(Advance(s, t, s.calls[t]).value)
  {
    var s' := Advance(s, t, s.calls[t]).value;
    assert PlaceOk(s, s.calls[t]);
    assert LogOk(s');
    OthersKeep(s, s', t);
    if s.calls[t].Leaving? { assert 0 <= s.published && s'.calls[t].ending.frozen == Some(s.log[s.published].fields); }
    assert PlaceOk(s', s'.calls[t]);
  }

  lemma LookInv(s: State, t: Thread)
    requires Inv(s) && t in s.calls && s.calls[t].Looking?
    ensures Inv(Look(s, t, s.calls[t].check))
  {
    var check := s.calls[t].check;
    assert PlaceOk(s, s.calls[t]);
    if s.frozen.None? {
      DecideInv(s, t, check, true);
    } else if s.expiry.None? {
      DecideInv(s, t, check, false);
    } else {
      var s' := Look(s, t, check);
      assert LogOk(s');
      OthersKeep(s, s', t);
    }
  }

  lemma GoInv(s: State, t: Thread)
    requires Inv(s) && t in s.calls && Advance(s, t, s.calls[t]).Some?
    ensures Inv(Advance(s, t, s.calls[t]).value)
  {
    match s.calls[t]
    case Looking(check) => LookInv(s, t);
    case Judging(check, seen) =>
      assert PlaceOk(s, s.calls[t]);
      DecideInv(s, t, check, Needed(seen, Window(s, check), s.now));
    case Writing(_, _) => WriteInv(s, t);
    case Freezing(_, _) => FreezeInv(s, t);
    case _ => LockInv(s, t);
  }

  lemma EnterInv(s: State, t: Thread)
    requires Inv(s) && Step(s, Enter(t)).Some?
    ensures Inv(Step(s, Enter(t)).value)
  {
    var s' := Step(s, Enter(t)).value;
    assert LogOk(s');
    OthersKeep(s, s', t);
  }

  lemma StepInv(s: State, e: Event)
    requires Inv(s) && Step(s, e).Some?
    ensures Inv(Step(s, e).value)
  {
    match e
    case Go(t) => GoInv(s, t);
    case Fetched(t, answer) => ReceiveInv(s, t, answer);
    case Enter(t) => EnterInv(s, t);
    case Pass(seconds) => OthersKeep(s, Step(s, e).value, 0);
  }

  lemma {:induction false} RunInv(s: State, es: seq<Event>)
    requires Inv(s) && Run(s, es).Some?
    ensures Inv(Run(s, es).value)
    decreases |es|
  {
    if es != [] {
      StepInv(s, es[0]);
      RunInv(Step(s, es[0]).value, es[1..]);
    }
  }

  // ----- what holds in every interleaving -------------------------------------------------------

  ghost predicate Begun(s: State) {
    || s == InitDeferred()
    || exists fields, expiry, advisory, mandatory :: s == Init(fields, expiry, advisory, mandatory)
  }

  lemma Reached(s: State, es: seq<Event>)
    requires Begun(s) && Run(s, es).Some?
    ensures Inv(Run(s, es).value)
  {
    if s == InitDeferred() {
      InitInv(s.fields, s.expiry, 0, 0);
    } else {
      var fields, expiry, advisory, mandatory :| s == Init(fields, expiry, advisory, mandatory);
      InitInv(fields, expiry, advisory, mandatory);
    }
    RunInv(s, es);
  }

  /** No two threads are refreshing at the same time. */
  lemma OneRefresh(s: State, es: seq<Event>, t: Thread, t': Thread)
    requires Begun(s) && Run(s, es).Some?
    requires var c := Run(s, es).value.calls;
             t in c && t' in c && (c[t].Fetching? || c[t].Writing? || c[t].Freezing?)
             && (c[t'].Fetching? || c[t'].Writing? || c[t'].Freezing?)
    ensures t == t'
  {
    Reached(s, es);
  }

  /**
   Every tuple handed out, also in the deferred form, exists and has all its fields from one answer or from the start.
   */
  lemma WholeTuples(s: State, es: seq<Event>, t: Thread)
    requires Begun(s) && Run(s, es).Some?
    requires var c := Run(s, es).value.calls; t in c && c[t].Done? && c[t].ending.Returned?
    ensures var s' := Run(s, es).value;
            exists g :: 0 <= g < |s'.log| && s'.calls[t].ending.frozen == Some(s'.log[g].fields)
  {
    Reached(s, es);
    var s' := Run(s, es).value;
    assert PlaceOk(s', s'.calls[t]);
  }

  lemma StepLater(s: State, e: Event)
    requires Inv(s) && Step(s, e).Some?
    ensures var s' := Step(s, e).value;
            s.published <= s'.published && |s.log| <= |s'.log| && forall g :: 0 <= g < |s.log| ==> s'.log[g] == s.log[g]
  {
  }

  /** The published answer only moves forward, so a tuple read later is never from an earlier answer. */
  lemma {:induction false} NeverBack(s: State, es: seq<Event>)
    requires Inv(s) && Run(s, es).Some?
    ensures var s' := Run(s, es).value;
            s.published <= s'.published && |s.log| <= |s'.log| && forall g :: 0 <= g < |s.log| ==> s'.log[g] == s.log[g]
    decreases |es|
  {
    if es != [] {
      StepLater(s, es[0]);
      StepInv(s, es[0]);
      NeverBack(Step(s, es[0]).value, es[1..]);
    }
  }

  /**
   The tuple to hand out is that of the latest complete answer unless a thread is storing that answer right now, and
   tuple and expiry time belong to different answers only between their two writes.
   */
  lemma AtMostOneBehind(s: State, es: seq<Event>)
    requires Begun(s) && Run(s, es).Some?
    ensures var s' := Run(s, es).value;
            && 0 <= s'.published <= s'.dated < |s'.log|
            && (forall g :: s'.published < g < |s'.log| && s'.log[g].expiry.Some? ==> g == |s'.log| - 1 && Storing(s'))
            && (s'.frozen.Some? ==> s'.frozen.value == s'.log[s'.published].fields)
            && s'.expiry == s'.log[s'.dated].expiry
            && (s'.published != s'.dated ==>
                  s'.lock.Some? && s'.lock.value in s'.calls && Between(s'.calls[s'.lock.value]))
  {
    Reached(s, es);
  }
}
