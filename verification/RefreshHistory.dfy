/**
 Which tuple a call is handed in any interleaving: beside the threads' state it is noted which answer's expiry time a
 call judged, when it read the clock, which answer's tuple it read, and how many tuples were written in between.
 */
module RefreshHistory {
  import opened Outcomes
  import opened Refreshing
  import opened RefreshThreads

  /**
   judged and got are places in the log; late tells whether the expiry time was read before the tuple that came with it
   was written, between whether the tuple was read like that; at is the last clock read (0 before the first); count is
   the number of tuples written since the expiry time was read, when the call's own is read.
   */
  datatype Note = Note(judged: int, late: bool, since: nat, at: int, got: int, count: int, between: bool)

  datatype Tracked = Tracked(s: State, written: nat, notes: map<Thread, Note>)

  function Start(s: State): Tracked {
    Tracked(s, 0, map[])
  }

  function Noted(x: Tracked, t: Thread): Note {
    if t in x.notes then x.notes[t] else Note(0, false, 0, 0, 0, 0, false)
  }

  /** What a step of a thread at place p adds to its note. */
  function Remark(x: Tracked, n: Note, p: Place): Note {
    match p
    case Looking(_) =>
      if x.s.frozen.None? then n
      else n.(judged := x.s.dated, late := x.s.published < x.s.dated, since := x.written)
    case Judging(_, _) => n.(at := x.s.now)
    case Leaving => n.(got := x.s.published, count := x.written - n.since, between := x.s.published < x.s.dated)
    case _ => n
  }

  function Track(x: Tracked, e: Event): Option<Tracked> {
    match Step(x.s, e)
    case None => None
    case Some(s') =>
      match e
      case Enter(t) => Some(Tracked(s', x.written, x.notes[t := Note(0, false, 0, 0, 0, 0, false)]))
      case Go(t) =>
        Some(Tracked(s', if x.s.calls[t].Freezing? && x.s.calls[t].next >= 4 then x.written + 1 else x.written,
                     x.notes[t := Remark(x, Noted(x, t), x.s.calls[t])]))
      case _ => Some(x.(s := s'))
  }

  function TrackAll(x: Tracked, es: seq<Event>): Option<Tracked>
    decreases |es|
  {
    if es == [] then Some(x)
    else if Track(x, es[0]).None? then None
    else TrackAll(Track(x, es[0]).value, es[1..])
  }

  /** Taking notes changes nothing. */
  lemma {:induction false} NotesOnly(x: Tracked, es: seq<Event>)
    ensures match TrackAll(x, es) case None => Run(x.s, es).None? case Some(y) => Run(x.s, es) == Some(y.s)
    decreases |es|
  {
    if es != [] && Track(x, es[0]).Some? { NotesOnly(Track(x, es[0]).value, es[1..]); }
  }

  // ----- the invariant --------------------------------------------------------------------------

  /** How many tuples have to be written for the tuple to be the one whose expiry time was judged. */
  function Due(n: Note): int {
    if n.late then 1 else 0
  }

  ghost predicate Related(x: Tracked, n: Note) {
    && 0 <= n.judged <= x.s.dated && n.since <= x.written
    && (x.written - n.since == Due(n) ==> x.s.published == n.judged)
    && (x.written - n.since > Due(n) ==> x.s.published > n.judged)
    && (x.written - n.since < Due(n) ==> x.s.published < n.judged == x.s.dated)
  }

  predicate JudgedGood(s: State, n: Note) {
    0 <= n.judged < |s.log| && !Needed(s.log[n.judged].expiry, 0, n.at)
  }

  /** What is noted of a call that has returned. */
  predicate Handed(s: State, n: Note, frozen: Option<Frozen>) {
    && JudgedGood(s, n) && 0 <= n.got < |s.log| && frozen == Some(s.log[n.got].fields)
    && (n.got < n.judged <==> n.count < Due(n)) && (n.got > n.judged <==> n.count > Due(n))
    && (n.got < n.judged ==> n.between) && n.count >= 0
  }

  ghost predicate NoteOk(x: Tracked, n: Note, p: Place) {
    match p
    case Judging(_, seen) => Related(x, n) && n.judged < |x.s.log| && seen == x.s.log[n.judged].expiry
    case Leaving => Related(x, n) && JudgedGood(x.s, n)
    case Fetching(isMandatory) => isMandatory || (Related(x, n) && JudgedGood(x.s, n))
    case Writing(_, _) => x.s.published < |x.s.log| - 1
    case Freezing(_, _) => x.s.published < |x.s.log| - 1
    case Done(ending) => ending.Returned? ==> Handed(x.s, n, ending.frozen)
    case _ => true
  }

  ghost predicate Tracks(x: Tracked) {
    && Inv(x.s) && 0 <= x.s.mandatory <= x.s.advisory
    && (forall t :: t in x.s.calls ==> t in x.notes && NoteOk(x, x.notes[t], x.s.calls[t]))
  }

  /** A step either leaves tuple and expiry time alone, or a thread under the lock writes one of them. */
  ghost predicate Writes(x: Tracked, y: Tracked) {
    && |x.s.log| <= |y.s.log| && x.s.published <= x.s.dated && y.s.dated < |y.s.log|
    && (forall g :: 0 <= g < |x.s.log| ==> y.s.log[g] == x.s.log[g])
    && (|| (y.written == x.written && y.s.published == x.s.published && y.s.dated == x.s.dated)
        || (y.written == x.written && y.s.published == x.s.published == x.s.dated < y.s.dated)
        || (y.written == x.written + 1 && y.s.dated == x.s.dated && x.s.published < y.s.published == x.s.dated))
  }

  lemma RelatedKept(x: Tracked, y: Tracked, n: Note)
    requires Writes(x, y) && Related(x, n)
    ensures Related(y, n)
  {
  }

  /** Notes of the other threads stay right. */
  lemma OthersNoted(x: Tracked, y: Tracked, t: Thread)
    requires Tracks(x) && Writes(x, y) && x.s.dated < |x.s.log|
    requires forall u :: u in y.s.calls && u != t ==>
               u in x.s.calls && y.s.calls[u] == x.s.calls[u] && u in y.notes && y.notes[u] == x.notes[u]
    requires x.s.lock == Some(t) || (y.s.published == x.s.published && |y.s.log| == |x.s.log|)
    ensures forall u :: u in y.s.calls && u != t ==> u in y.notes && NoteOk(y, y.notes[u], y.s.calls[u])
  {
    forall u | u in y.s.calls && u != t ensures NoteOk(y, y.notes[u], y.s.calls[u]) {
      var n := x.notes[u];
      assert NoteOk(x, n, x.s.calls[u]);
      if Related(x, n) { RelatedKept(x, y, n); }
    }
  }

  lemma GoWrites(x: Tracked, t: Thread)
    requires Tracks(x) && Track(x, Go(t)).Some?
    ensures Writes(x, Track(x, Go(t)).value)
    ensures x.s.lock == Some(t)
            || (Track(x, Go(t)).value.s.published == x.s.published && Track(x, Go(t)).value.s.log == x.s.log)
  {
    match x.s.calls[t]
    case Writing(_, _) => GoWritesField(x, t);
    case Freezing(_, _) => GoWritesTuple(x, t);
    case _ => GoReads(x, t);
  }

  lemma GoWritesField(x: Tracked, t: Thread)
    requires Tracks(x) && t in x.s.calls && x.s.calls[t].Writing?
    ensures Writes(x, Track(x, Go(t)).value) && x.s.lock == Some(t)
  {
    assert PlaceOk(x.s, x.s.calls[t]) && NoteOk(x, x.notes[t], x.s.calls[t]);
  }

  lemma GoWritesTuple(x: Tracked, t: Thread)
    requires Tracks(x) && t in x.s.calls && x.s.calls[t].Freezing?
    ensures Writes(x, Track(x, Go(t)).value) && x.s.lock == Some(t)
  {
    assert PlaceOk(x.s, x.s.calls[t]) && NoteOk(x, x.notes[t], x.s.calls[t]);
  }

  lemma GoReads(x: Tracked, t: Thread)
    requires Tracks(x) && Track(x, Go(t)).Some? && !x.s.calls[t].Writing? && !x.s.calls[t].Freezing?
    ensures Writes(x, Track(x, Go(t)).value)
    ensures Track(x, Go(t)).value.s.published == x.s.published && Track(x, Go(t)).value.s.log == x.s.log
  {
    var p := x.s.calls[t];
    if p.Looking? {
      DecideReads(x.s, t, p.check, x.s.frozen.None?);
    } else if p.Judging? {
      DecideReads(x.s, t, p.check, Needed(p.seen, Window(x.s, p.check), x.s.now));
    }
  }

  lemma DecideReads(s: State, t: Thread, check: Check, needed: bool)
    ensures var s' := Decide(s, t, check, needed);
            s'.log == s.log && s'.published == s.published && s'.dated == s.dated
  {
  }

  /** A check that is decided, with the clock read or no expiry time to compare. */
  lemma DecisionNoted(x: Tracked, y: Tracked, n: Note, t: Thread, check: Check, needed: bool)
    requires Related(x, n) && n.judged < |x.s.log| && (needed || JudgedGood(x.s, n))
    requires y.s == Decide(x.s, t, check, needed) && y.written == x.written
    ensures NoteOk(y, n, y.s.calls[t])
  {
  }

  lemma LookNoted(x: Tracked, t: Thread)
    requires Tracks(x) && t in x.s.calls && x.s.calls[t].Looking?
    ensures var y := Track(x, Go(t)).value; t in y.s.calls && t in y.notes && NoteOk(y, y.notes[t], y.s.calls[t])
  {
    var n, check := Remark(x, x.notes[t], x.s.calls[t]), x.s.calls[t].check;
    var y := Track(x, Go(t)).value;
    assert PlaceOk(x.s, x.s.calls[t]) && y.notes[t] == n;
    if x.s.frozen.Some? {
      assert Related(x, n);
      if x.s.expiry.None? { DecisionNoted(x, y, n, t, check, false); }
    }
  }

  lemma JudgeNoted(x: Tracked, t: Thread)
    requires Tracks(x) && t in x.s.calls && x.s.calls[t].Judging?
    ensures var y := Track(x, Go(t)).value; t in y.s.calls && t in y.notes && NoteOk(y, y.notes[t], y.s.calls[t])
  {
    var p := x.s.calls[t];
    var n := x.notes[t].(at := x.s.now);
    assert NoteOk(x, x.notes[t], p);
    var y := Track(x, Go(t)).value;
    assert y.notes[t] == n;
    var needed := Needed(p.seen, Window(x.s, p.check), x.s.now);
    DecisionNoted(x, y, n, t, p.check, needed);
  }

  lemma OwnNote(x: Tracked, t: Thread)
    requires Tracks(x) && Track(x, Go(t)).Some?
    ensures var y := Track(x, Go(t)).value; t in y.s.calls && t in y.notes && NoteOk(y, y.notes[t], y.s.calls[t])
  {
    var p := x.s.calls[t];
    if p.Looking? {
      LookNoted(x, t);
    } else if p.Judging? {
      JudgeNoted(x, t);
    } else {
      OtherNoted(x, t);
    }
  }

  lemma OtherNoted(x: Tracked, t: Thread)
    requires Tracks(x) && Track(x, Go(t)).Some? && !x.s.calls[t].Looking? && !x.s.calls[t].Judging?
    ensures var y := Track(x, Go(t)).value; t in y.s.calls && t in y.notes && NoteOk(y, y.notes[t], y.s.calls[t])
  {
    var p, n := x.s.calls[t], x.notes[t];
    assert PlaceOk(x.s, p) && NoteOk(x, n, p);
    GoWrites(x, t);
  }

  lemma TracksIs(y: Tracked, t: Thread)
    requires Inv(y.s) && 0 <= y.s.mandatory <= y.s.advisory
    requires forall u :: u in y.s.calls && u != t ==> u in y.notes && NoteOk(y, y.notes[u], y.s.calls[u])
    requires t in y.s.calls ==> t in y.notes && NoteOk(y, y.notes[t], y.s.calls[t])
    ensures Tracks(y)
  {
  }

  lemma WindowsStay(s: State, e: Event)
    requires Step(s, e).Some?
    ensures Step(s, e).value.advisory == s.advisory && Step(s, e).value.mandatory == s.mandatory
  {
  }

  lemma GoInside(x: Tracked, t: Thread)
    requires Tracks(x) && Track(x, Go(t)).Some?
    ensures var y := Track(x, Go(t)).value; Inv(y.s) && 0 <= y.s.mandatory <= y.s.advisory
  {
    var s' := Step(x.s, Go(t)).value;
    assert Track(x, Go(t)).value.s == s';
    assert Inv(s') by { StepInv(x.s, Go(t)); }
    WindowsStay(x.s, Go(t));
  }

  lemma GoOthers(x: Tracked, t: Thread)
    requires Tracks(x) && Track(x, Go(t)).Some?
    ensures var y := Track(x, Go(t)).value;
            forall u :: u in y.s.calls && u != t ==> u in y.notes && NoteOk(y, y.notes[u], y.s.calls[u])
  {
    GoWrites(x, t);
    GoAside(x, t);
    OthersNoted(x, Track(x, Go(t)).value, t);
  }

  lemma GoAside(x: Tracked, t: Thread)
    requires Tracks(x) && Track(x, Go(t)).Some?
    ensures var y := Track(x, Go(t)).value;
            forall u :: u in y.s.calls && u != t ==>
              u in x.s.calls && y.s.calls[u] == x.s.calls[u] && u in y.notes && y.notes[u] == x.notes[u]
  {
    StepAside(x.s, t);
  }

  lemma StepAside(s: State, t: Thread)
    requires Step(s, Go(t)).Some?
    ensures var s' := Step(s, Go(t)).value;
            forall u :: u in s'.calls && u != t ==> u in s.calls && s'.calls[u] == s.calls[u]
  {
  }

  lemma GoNoted(x: Tracked, t: Thread)
    requires Tracks(x) && Track(x, Go(t)).Some?
    ensures Tracks(Track(x, Go(t)).value)
  {
    GoInside(x, t);
    GoOthers(x, t);
    OwnNote(x, t);
    TracksIs(Track(x, Go(t)).value, t);
  }

  lemma FetchedNoted(x: Tracked, t: Thread, answer: Answer)
    requires Tracks(x) && Track(x, Fetched(t, answer)).Some?
    ensures Tracks(Track(x, Fetched(t, answer)).value)
  {
    var y := Track(x, Fetched(t, answer)).value;
    assert Inv(y.s) by { StepInv(x.s, Fetched(t, answer)); }
    assert NoteOk(x, x.notes[t], x.s.calls[t]);
    OthersNoted(x, y, t);
    TracksIs(y, t);
  }

  lemma EnterNoted(x: Tracked, t: Thread)
    requires Tracks(x) && Track(x, Enter(t)).Some?
    ensures Tracks(Track(x, Enter(t)).value)
  {
    var y := Track(x, Enter(t)).value;
    assert Inv(y.s) by { StepInv(x.s, Enter(t)); }
    OthersNoted(x, y, t);
    TracksIs(y, t);
  }

  lemma PassNoted(x: Tracked, seconds: int)
    requires Tracks(x)
    ensures Tracks(Track(x, Pass(seconds)).value)
  {
    var y := Track(x, Pass(seconds)).value;
    assert Inv(y.s) by { StepInv(x.s, Pass(seconds)); }
    forall u | u in y.s.calls ensures u in y.notes && NoteOk(y, y.notes[u], y.s.calls[u]) {
      assert NoteOk(x, x.notes[u], x.s.calls[u]);
    }
  }

  lemma {:induction false} TrackAllKeeps(x: Tracked, es: seq<Event>)
    requires Tracks(x) && TrackAll(x, es).Some?
    ensures Tracks(TrackAll(x, es).value)
    decreases |es|
  {
    if es != [] {
      match es[0] {
        case Go(t) => GoNoted(x, t);
        case Fetched(t, answer) => FetchedNoted(x, t, answer);
        case Enter(t) => EnterNoted(x, t);
        case Pass(seconds) => PassNoted(x, seconds);
      }
      TrackAllKeeps(Track(x, es[0]).value, es[1..]);
    }
  }

  // ----- which tuple is handed out --------------------------------------------------------------

  function Tuple(name: string): Frozen {
    Frozen(Some(name), Some(name), Some(name), None)
  }

  /**
   A state of some run, with its notes; the windows are as the class has them by default or narrower in the same order.
   */
  ghost predicate Arrives(x: Tracked) {
    exists s, es :: Begun(s) && 0 <= s.mandatory <= s.advisory && TrackAll(Start(s), es) == Some(x)
  }

  lemma BegunTracks(s: State)
    requires Begun(s) && 0 <= s.mandatory <= s.advisory
    ensures Tracks(Start(s))
  {
    assert Run(s, []) == Some(s);
    Reached(s, []);
  }

  lemma ArrivesTracks(x: Tracked)
    requires Arrives(x)
    ensures Tracks(x)
  {
    var s, es :| Begun(s) && 0 <= s.mandatory <= s.advisory && TrackAll(Start(s), es) == Some(x);
    BegunTracks(s);
    TrackAllKeeps(Start(s), es);
  }

  predicate HasReturned(s: State, t: Thread) {
    t in s.calls && s.calls[t].Done? && s.calls[t].ending.Returned?
  }

  /** The expiry time that came with the tuple handed out had passed when the call last read the clock. */
  predicate HandedExpired(x: Tracked, t: Thread) {
    var n := Noted(x, t);
    0 <= n.got < |x.s.log| && Needed(x.s.log[n.got].expiry, 0, n.at)
  }

  /**
   In every interleaving a call that returns has judged an expiry time that had not passed at its last clock read, and
   is handed the tuple that came with it exactly if the number of tuples written meanwhile is one for an expiry time
   read before its tuple was written, and none otherwise. With fewer the tuple is an earlier one, and was read between
   the two writes; with more it is a later one. So only then can it have expired.
   */
  lemma ReturnedTuple(x: Tracked, t: Thread)
    requires Arrives(x) && HasReturned(x.s, t)
    ensures var n := Noted(x, t);
            && 0 <= n.judged < |x.s.log| && 0 <= n.got < |x.s.log|
            && x.s.calls[t].ending.frozen == Some(x.s.log[n.got].fields)
            && !Needed(x.s.log[n.judged].expiry, 0, n.at)
            && (n.got == n.judged <==> n.count == Due(n))
            && (n.got < n.judged <==> n.count < Due(n)) && (n.got < n.judged ==> n.between)
            && (n.got > n.judged <==> n.count > Due(n))
            && (HandedExpired(x, t) ==> n.count != Due(n))
  {
    ArrivesTracks(x);
    assert NoteOk(x, x.notes[t], x.s.calls[t]);
  }

  // ----- and when it can have expired -----------------------------------------------------------

  lemma {:induction false} TrackMore(x: Tracked, es: seq<Event>, e: Event)
    requires TrackAll(x, es).Some?
    ensures TrackAll(x, es + [e]) == Track(TrackAll(x, es).value, e)
    decreases |es|
  {
    if es == [] {
      assert [] + [e] == [e] && [e][1..] == [];
    } else {
      assert (es + [e])[1..] == es[1..] + [e];
      TrackMore(Track(x, es[0]).value, es[1..], e);
    }
  }

  lemma Then(x: Tracked, e: Event) returns (y: Tracked)
    requires Arrives(x) && Track(x, e).Some?
    ensures y == Track(x, e).value && Arrives(y)
  {
    var s, es :| Begun(s) && 0 <= s.mandatory <= s.advisory && TrackAll(Start(s), es) == Some(x);
    TrackMore(Start(s), es, e);
    y := Track(x, e).value;
  }

  /** Nothing that a caller sees has changed: what is shared, the time, and the place and note of the other threads. */
  ghost predicate Unseen(x: Tracked, y: Tracked, t: Thread) {
    && y.s.now == x.s.now && y.s.advisory == x.s.advisory && y.s.mandatory == x.s.mandatory
    && (forall u :: u != t && u in x.s.calls ==> u in y.s.calls && y.s.calls[u] == x.s.calls[u])
    && (forall u :: u != t && u in y.s.calls ==> u in x.s.calls)
    && (forall u :: u != t ==> Noted(y, u) == Noted(x, u))
  }

  ghost predicate SameShared(x: Tracked, y: Tracked) {
    && y.s.expiry == x.s.expiry && y.s.frozen == x.s.frozen && y.s.log == x.s.log
    && y.s.published == x.s.published && y.s.dated == x.s.dated && y.written == x.written
  }

  lemma UnseenTrans(x: Tracked, y: Tracked, z: Tracked, t: Thread)
    requires Unseen(x, y, t) && Unseen(y, z, t)
    ensures Unseen(x, z, t)
  {
  }

  lemma LookGoes(x: Tracked, t: Thread)
    requires t in x.s.calls && x.s.calls[t].Looking?
    ensures Track(x, Go(t)).Some?
    ensures var y := Track(x, Go(t)).value; Unseen(x, y, t) && SameShared(x, y)
  {
  }

  lemma JudgeGoes(x: Tracked, t: Thread)
    requires t in x.s.calls && x.s.calls[t].Judging?
    ensures Track(x, Go(t)).Some?
    ensures var y := Track(x, Go(t)).value; Unseen(x, y, t) && SameShared(x, y)
  {
  }

  lemma LockGoes(x: Tracked, t: Thread)
    requires t in x.s.calls && x.s.calls[t].Locking?
    ensures Track(x, Go(t)).Some?
    ensures var y := Track(x, Go(t)).value; Unseen(x, y, t) && SameShared(x, y)
  {
  }

  /** One step of a thread from a place that writes nothing shared. */
  lemma Goes(x: Tracked, t: Thread) returns (y: Tracked)
    requires Arrives(x) && t in x.s.calls && (x.s.calls[t].Looking? || x.s.calls[t].Judging? || x.s.calls[t].Locking?)
    ensures Arrives(y) && Unseen(x, y, t) && SameShared(x, y) && Track(x, Go(t)) == Some(y)
  {
    match x.s.calls[t] {
      case Looking(_) => LookGoes(x, t);
      case Judging(_, _) => JudgeGoes(x, t);
      case Locking => LockGoes(x, t);
    }
    y := Then(x, Go(t));
  }

  lemma EnterGoes(x: Tracked, t: Thread)
    requires t !in x.s.calls || x.s.calls[t].Done?
    ensures Track(x, Enter(t)).Some?
    ensures var y := Track(x, Enter(t)).value;
            Unseen(x, y, t) && SameShared(x, y) && y.s.lock == x.s.lock && y.s.calls == x.s.calls[t := Looking(Before)]
  {
  }

  lemma EnterSteps(x: Tracked, t: Thread) returns (y: Tracked)
    requires Arrives(x) && (t !in x.s.calls || x.s.calls[t].Done?)
    ensures Arrives(y) && Unseen(x, y, t) && SameShared(x, y) && y.s.lock == x.s.lock
    ensures t in y.s.calls && y.s.calls[t] == Looking(Before)
  {
    EnterGoes(x, t);
    y := Then(x, Enter(t));
  }

  /** The look that every check begins with, and what is noted of it. */
  lemma LookSteps(x: Tracked, t: Thread) returns (y: Tracked)
    requires Arrives(x) && t in x.s.calls && x.s.calls[t].Looking? && x.s.frozen.Some? && x.s.expiry.Some?
    ensures Arrives(y) && Unseen(x, y, t) && SameShared(x, y) && y.s.lock == x.s.lock
    ensures t in y.s.calls && y.s.calls[t] == Judging(x.s.calls[t].check, x.s.expiry)
    ensures var n := Noted(y, t);
            n.judged == x.s.dated && n.late == (x.s.published < x.s.dated) && n.since == x.written
  {
    y := Goes(x, t);
  }

  lemma JudgeSteps(x: Tracked, t: Thread) returns (y: Tracked)
    requires Arrives(x) && t in x.s.calls && x.s.calls[t].Judging? && x.s.calls[t].check == Before
    ensures Arrives(y) && Unseen(x, y, t) && SameShared(x, y) && y.s.lock == x.s.lock && t in y.s.calls
    ensures y.s.calls[t] == if Needed(x.s.calls[t].seen, x.s.advisory, x.s.now) then Locking else Leaving
    ensures Noted(y, t) == Noted(x, t).(at := x.s.now)
  {
    y := Goes(x, t);
  }

  /** A thread that calls for the tuple while the expiry time is far off is about to read the tuple. */
  lemma Judges(x: Tracked, t: Thread) returns (y: Tracked)
    requires Arrives(x) && (t !in x.s.calls || x.s.calls[t].Done?)
    requires x.s.frozen.Some? && x.s.expiry.Some? && x.s.expiry.value - x.s.now >= x.s.advisory
    ensures Arrives(y) && Unseen(x, y, t) && SameShared(x, y) && y.s.lock == x.s.lock
    ensures t in y.s.calls && y.s.calls[t] == Leaving
    ensures var n := Noted(y, t);
            n.judged == x.s.dated && n.late == (x.s.published < x.s.dated) && n.since == x.written && n.at == x.s.now
  {
    var a := EnterSteps(x, t);
    var b := LookSteps(a, t);
    y := JudgeSteps(b, t);
    UnseenTrans(x, a, b, t);
    UnseenTrans(x, b, y, t);
  }

  /** A thread that finds the credentials in the mandatory window is about to call the source. */
  lemma Fetches(x: Tracked, t: Thread) returns (y: Tracked)
    requires Arrives(x) && (t !in x.s.calls || x.s.calls[t].Done?) && x.s.lock.None?
    requires x.s.frozen.Some? && x.s.expiry.Some? && x.s.expiry.value - x.s.now < x.s.mandatory <= x.s.advisory
    ensures Arrives(y) && Unseen(x, y, t) && SameShared(x, y) && y.s.lock == Some(t)
    ensures t in y.s.calls && y.s.calls[t] == Fetching(true)
  {
    var a := EnterSteps(x, t);
    var b := LookSteps(a, t);
    var c := JudgeSteps(b, t);
    UnseenTrans(x, a, b, t);
    UnseenTrans(x, b, c, t);
    y := FetchesLocked(c, t);
    UnseenTrans(x, c, y, t);
  }

  lemma FetchesLocked(x: Tracked, t: Thread) returns (y: Tracked)
    requires Arrives(x) && t in x.s.calls && x.s.calls[t] == Locking && x.s.lock.None?
    requires x.s.frozen.Some? && x.s.expiry.Some? && x.s.expiry.value - x.s.now < x.s.mandatory <= x.s.advisory
    ensures Arrives(y) && Unseen(x, y, t) && SameShared(x, y) && y.s.lock == Some(t)
    ensures t in y.s.calls && y.s.calls[t] == Fetching(true)
  {
    var a := Goes(x, t);
    var b := Goes(a, t);
    var c := Goes(b, t);
    var d := Goes(c, t);
    y := Goes(d, t);
    UnseenTrans(x, a, b, t);
    UnseenTrans(x, b, c, t);
    UnseenTrans(x, c, d, t);
    UnseenTrans(x, d, y, t);
  }

  /** The answer arrives and is written up to the expiry time. */
  lemma WritesUpTo(x: Tracked, t: Thread, b: Brought, next: nat) returns (y: Tracked)
    requires Arrives(x) && t in x.s.calls && x.s.calls[t] == Fetching(true) && b.expiry.Some? && next <= 4
    ensures Arrives(y) && Unseen(x, y, t) && y.s.lock == x.s.lock
    ensures t in y.s.calls && y.s.calls[t] == Writing(next, b)
    ensures y.s.log == x.s.log + [b] && y.s.frozen == x.s.frozen && y.s.published == x.s.published
            && y.written == x.written
    ensures y.s.expiry == (if next == 4 then b.expiry else x.s.expiry)
            && y.s.dated == (if next == 4 then |x.s.log| else x.s.dated)
  {
    if next == 0 {
      y := Then(x, Fetched(t, Data(b.fields, b.expiry)));
    } else {
      var a := WritesUpTo(x, t, b, next - 1);
      y := WriteSteps(a, t, b, next - 1);
      UnseenTrans(x, a, y, t);
    }
  }

  lemma WriteSteps(x: Tracked, t: Thread, b: Brought, next: nat) returns (y: Tracked)
    requires Arrives(x) && t in x.s.calls && x.s.calls[t] == Writing(next, b) && b.expiry.Some? && next <= 3
    ensures Arrives(y) && Unseen(x, y, t) && y.s.lock == x.s.lock
    ensures t in y.s.calls && y.s.calls[t] == Writing(next + 1, b)
    ensures y.s.log == x.s.log && y.s.frozen == x.s.frozen && y.s.published == x.s.published && y.written == x.written
    ensures y.s.expiry == (if next == 3 then b.expiry else x.s.expiry)
    ensures y.s.dated == (if next == 3 then |x.s.log| - 1 else x.s.dated)
  {
    y := Then(x, Go(t));
  }

  /** The last field is written and the fields are read into the tuple. */
  lemma FreezesUpTo(x: Tracked, t: Thread, next: nat) returns (y: Tracked)
    requires Arrives(x) && t in x.s.calls && x.s.calls[t].Writing? && x.s.calls[t].next == 4 && next <= 4
    ensures Arrives(y) && Unseen(x, y, t) && SameShared(x, y) && y.s.lock == x.s.lock
    ensures t in y.s.calls && y.s.calls[t].Freezing? && y.s.calls[t].next == next
  {
    if next == 0 {
      y := Then(x, Go(t));
    } else {
      var a := FreezesUpTo(x, t, next - 1);
      y := Then(a, Go(t));
      UnseenTrans(x, a, y, t);
    }
  }

  lemma PublishesTuple(x: Tracked, t: Thread) returns (y: Tracked)
    requires Arrives(x) && t in x.s.calls && x.s.calls[t].Writing? && x.s.calls[t].next == 4
    ensures Arrives(y) && Unseen(x, y, t) && t in y.s.calls && y.s.calls[t] == Looking(After)
    ensures y.s.log == x.s.log && y.s.expiry == x.s.expiry && y.s.dated == x.s.dated && y.s.frozen.Some?
    ensures y.s.published == |x.s.log| - 1 && y.written == x.written + 1
  {
    var a := FreezesUpTo(x, t, 4);
    y := Then(a, Go(t));
    UnseenTrans(x, a, y, t);
  }

  lemma Finishes(x: Tracked, t: Thread) returns (y: Tracked)
    requires Arrives(x) && t in x.s.calls && x.s.calls[t] == Looking(After) && x.s.expiry.Some? && x.s.frozen.Some?
    ensures Arrives(y) && Unseen(x, y, t) && SameShared(x, y) && y.s.lock.None? && t in y.s.calls && y.s.calls[t].Done?
  {
    var c := Goes(x, t);
    y := Goes(c, t);
    UnseenTrans(x, c, y, t);
    if y.s.calls[t].Leaving? {
      var d := y;
      y := Then(d, Go(t));
      UnseenTrans(x, d, y, t);
    }
  }

  /** The tuple is written, and the call ends with it or with an error. */
  lemma Publishes(x: Tracked, t: Thread) returns (y: Tracked)
    requires Arrives(x) && t in x.s.calls && x.s.calls[t].Writing? && x.s.calls[t].next == 4 && x.s.expiry.Some?
    ensures Arrives(y) && Unseen(x, y, t) && y.s.lock.None? && t in y.s.calls && y.s.calls[t].Done?
    ensures y.s.log == x.s.log && y.s.expiry == x.s.expiry && y.s.dated == x.s.dated && y.s.frozen.Some?
    ensures y.s.published == |x.s.log| - 1 && y.written == x.written + 1
  {
    var b := PublishesTuple(x, t);
    y := Finishes(b, t);
    UnseenTrans(x, b, y, t);
  }

  /** Idle, with credentials that the next call has to refresh. */
  ghost predicate Stale(x: Tracked, t: Thread) {
    && (t !in x.s.calls || x.s.calls[t].Done?) && x.s.lock.None? && x.s.frozen.Some?
    && x.s.expiry.Some? && x.s.expiry.value - x.s.now < x.s.mandatory <= x.s.advisory
  }

  lemma RefreshesOnce(x: Tracked, t: Thread, b: Brought) returns (y: Tracked)
    requires Arrives(x) && Stale(x, t) && b.expiry.Some? && b.expiry.value - x.s.now < x.s.mandatory
    ensures Arrives(y) && Stale(y, t) && Unseen(x, y, t) && y.written == x.written + 1
    ensures y.s.published == |y.s.log| - 1 == |x.s.log| && y.s.log == x.s.log + [b]
  {
    var f := Fetches(x, t);
    var w := WritesUpTo(f, t, b, 4);
    y := Publishes(w, t);
    UnseenTrans(x, f, w, t);
    UnseenTrans(x, w, y, t);
  }

  /** Refreshes, as many as one likes, that bring credentials which have to be refreshed again. */
  lemma {:induction false} Refreshes(x: Tracked, t: Thread, b: Brought, times: nat) returns (y: Tracked)
    requires Arrives(x) && Stale(x, t) && b.expiry.Some? && b.expiry.value - x.s.now < x.s.mandatory
    ensures Arrives(y) && Stale(y, t) && Unseen(x, y, t) && y.written == x.written + times
    ensures times > 0 ==> 0 <= y.s.published < |y.s.log| && y.s.log[y.s.published] == b
    decreases times
  {
    y := x;
    if times > 0 {
      var c := Refreshes(x, t, b, times - 1);
      y := RefreshesOnce(c, t, b);
      UnseenTrans(x, c, y, t);
    }
  }

  lemma Leaves(x: Tracked, t: Thread) returns (y: Tracked)
    requires Arrives(x) && t in x.s.calls && x.s.calls[t] == Leaving
    ensures Arrives(y) && HasReturned(y.s, t) && y.s.log == x.s.log
    ensures Noted(y, t) == Noted(x, t).(got := x.s.published, count := x.written - Noted(x, t).since,
                                        between := x.s.published < x.s.dated)
  {
    y := Then(x, Go(t));
  }

  lemma Passes(x: Tracked, seconds: int) returns (y: Tracked)
    requires Arrives(x)
    ensures Arrives(y) && y == x.(s := x.s.(now := x.s.now + seconds))
  {
    y := Then(x, Pass(seconds));
  }

  lemma Begins(expiry: int) returns (x: Tracked)
    ensures Arrives(x) && x == Start(Init(Tuple("old"), Some(expiry), 900, 600))
  {
    x := Start(Init(Tuple("old"), Some(expiry), 900, 600));
    assert TrackAll(x, []) == Some(x);
  }

  /** Later tuples have taken the place of the judged one, and have expired. */
  lemma Overtaken(x: Tracked, times: nat) returns (y: Tracked)
    requires Arrives(x) && 1 in x.s.calls && x.s.calls[1] == Leaving && times > 0
    requires Stale(x, 0) && Noted(x, 1).at == 0 && x.s.now >= 0 && 0 < x.s.mandatory
    ensures Arrives(y) && HasReturned(y.s, 1) && HandedExpired(y, 1)
    ensures Noted(y, 1).late == Noted(x, 1).late && Noted(y, 1).count == x.written + times - Noted(x, 1).since
  {
    var r := Refreshes(x, 0, Brought(Tuple("new"), Some(-5)), times);
    y := Leaves(r, 1);
  }

  /** The caller finds the credentials good; then a refresh brings expired ones, perhaps more than once. */
  lemma OvertakenTuple(times: nat) returns (y: Tracked)
    requires times > 0
    ensures Arrives(y) && HasReturned(y.s, 1) && HandedExpired(y, 1)
    ensures !Noted(y, 1).late && Noted(y, 1).count == times
  {
    var x := Begins(1000);
    var j := Judges(x, 1);
    var p := Passes(j, 500);
    y := Overtaken(p, times);
  }

  /** The caller finds the credentials good by the expiry time of a refresh that is still writing. */
  lemma JudgesBetween() returns (y: Tracked)
    ensures Arrives(y) && 1 in y.s.calls && y.s.calls[1] == Leaving
    ensures 0 in y.s.calls && y.s.calls[0].Writing? && y.s.calls[0].next == 4 && y.s.expiry == Some(5000)
    ensures |y.s.log| == 2 && y.s.published == 0 < y.s.dated && y.s.log[0] == Brought(Tuple("old"), Some(-5))
    ensures y.s.now == 0 && y.s.advisory == 900 && y.s.mandatory == 600 && y.written == 0
    ensures Noted(y, 1).late && Noted(y, 1).since == 0 && Noted(y, 1).at == 0
  {
    var x := Begins(-5);
    var f := Fetches(x, 0);
    var w := WritesUpTo(f, 0, Brought(Tuple("new"), Some(5000)), 4);
    y := Judges(w, 1);
  }

  /** It is handed the tuple before it, which has expired. */
  lemma OldTupleHandedOut() returns (y: Tracked)
    ensures Arrives(y) && HasReturned(y.s, 1) && HandedExpired(y, 1)
    ensures Noted(y, 1).late && Noted(y, 1).count == 0 && Noted(y, 1).between
  {
    var x := JudgesBetween();
    y := Leaves(x, 1);
  }

  lemma OvertakenLater(times: nat) returns (y: Tracked)
    requires times > 1
    ensures Arrives(y) && HasReturned(y.s, 1) && HandedExpired(y, 1)
    ensures Noted(y, 1).late && Noted(y, 1).count == times
  {
    var x := JudgesBetween();
    var w := Publishes(x, 0);
    var p := Passes(w, 4500);
    y := Overtaken(p, times - 1);
  }

  /**
   So a normal return is sure to hand out a tuple that had not expired at the call's last clock read exactly in the
   interleavings where one tuple is written between its reads of expiry time and tuple, if the first falls between the
   two writes of a refresh, and none if it does not: in all others it can have expired.
   */
  lemma UnexpiredExactly(late: bool, count: nat)
    ensures (forall x, t ::
               Arrives(x) && HasReturned(x.s, t) && Noted(x, t).late == late && Noted(x, t).count == count ==>
                 !HandedExpired(x, t))
            <==> count == (if late then 1 else 0)
  {
    if count == (if late then 1 else 0) {
      forall x, t | Arrives(x) && HasReturned(x.s, t) && Noted(x, t).late == late && Noted(x, t).count == count
        ensures !HandedExpired(x, t)
      {
        ReturnedTuple(x, t);
      }
    } else if !late {
      var y := OvertakenTuple(count);
    } else if count == 0 {
      var y := OldTupleHandedOut();
    } else {
      var y := OvertakenLater(count);
    }
  }

  /**
   Reading the tuple between the two writes is not enough for it to be an earlier one: the judged one may be as early.
   */
  lemma CurrentBetween() returns (y: Tracked)
    ensures Arrives(y) && HasReturned(y.s, 1) && Noted(y, 1).between && Noted(y, 1).got == Noted(y, 1).judged
  {
    var x := Begins(1000);
    var j := Judges(x, 1);
    var p := Passes(j, 500);
    var f := Fetches(p, 0);
    var w := WritesUpTo(f, 0, Brought(Tuple("new"), Some(5000)), 4);
    y := Leaves(w, 1);
  }
}
