/**
 How much time is left, in any interleaving, when a call leaves with the tuple, waits for the lock or asks the source:
 beside the threads' state it is noted which expiry time a call judged, and how far it got.
 */
module RefreshWindows {
  import opened Outcomes
  import opened Refreshing
  import opened RefreshThreads

  /**
   A look at the expiry time: none yet, no tuple to look at, or that of a place in the log, and the clock read then.
   */
  datatype Look = NotYet | NoTuple | Saw(entry: int, at: int)

  /** Not to the lock; got it; found it taken; got it and asked the source; wrote the tuple that the source brought. */
  datatype Way = Straight | Locked | Taken | Asked | Wrote

  /**
   last is the last look of a call, early the one by which it decided to ask the source, brought what it got there.
   */
  datatype Mark = Mark(way: Way, last: Look, early: Look, brought: Option<Answer>)

  datatype Watched = Watched(s: State, marks: map<Thread, Mark>)

  function Fresh(): Mark {
    Mark(Straight, NotYet, NotYet, None)
  }

  function Looked(s: State, m: Mark, p: Place): Mark {
    match p
    case Looking(_) => m.(last := if s.frozen.None? then NoTuple else Saw(s.dated, 0))
    case Judging(_, _) => if m.last.Saw? then m.(last := m.last.(at := s.now)) else m
    case Locking => m.(way := if s.lock.None? then Locked else Taken)
    case Freezing(next, _) => if next >= 4 then m.(way := Wrote) else m
    case _ => m
  }

  predicate BeforeAsking(p: Place) {
    (p.Looking? || p.Judging?) && (p.check == Again || p.check == Behind)
  }

  /** What a step of a thread from place p to place q adds to its mark. */
  function Marked(s: State, m: Mark, p: Place, q: Place): Mark {
    var m1 := Looked(s, m, p);
    var m2 := if BeforeAsking(p) then m1.(early := m1.last) else m1;
    if q.Fetching? then m2.(way := Asked) else m2
  }

  function Watch(w: Watched, e: Event): Option<Watched> {
    match Step(w.s, e)
    case None => None
    case Some(s') =>
      match e
      case Enter(t) => Some(Watched(s', w.marks[t := Fresh()]))
      case Go(t) =>
        var m := if t in w.marks then w.marks[t] else Fresh();
        Some(Watched(s', w.marks[t := Marked(w.s, m, w.s.calls[t], s'.calls[t])]))
      case Fetched(t, answer) =>
        var m := if t in w.marks then w.marks[t] else Fresh();
        Some(Watched(s', w.marks[t := m.(brought := Some(answer))]))
      case Pass(_) => Some(w.(s := s'))
  }

  function WatchAll(w: Watched, es: seq<Event>): Option<Watched>
    decreases |es|
  {
    if es == [] then Some(w)
    else if Watch(w, es[0]).None? then None
    else WatchAll(Watch(w, es[0]).value, es[1..])
  }

  /** The marks change nothing. */
  lemma {:induction false} MarksOnly(w: Watched, es: seq<Event>)
    ensures match WatchAll(w, es) case None => Run(w.s, es).None? case Some(v) => Run(w.s, es) == Some(v.s)
    decreases |es|
  {
    if es != [] && Watch(w, es[0]).Some? { MarksOnly(Watch(w, es[0]).value, es[1..]); }
  }

  // ----- the invariant --------------------------------------------------------------------------

  /** At least that many seconds were left, or the credentials never expire. */
  predicate AtLeast(s: State, l: Look, seconds: int) {
    && l.Saw? && 0 <= l.entry < |s.log|
    && (s.log[l.entry].expiry.None? || s.log[l.entry].expiry.value - l.at >= seconds)
  }

  /** Fewer than that were left, or there was no tuple. */
  predicate Below(s: State, l: Look, seconds: int) {
    || l.NoTuple?
    || (l.Saw? && 0 <= l.entry < |s.log| && s.log[l.entry].expiry.Some? && s.log[l.entry].expiry.value - l.at < seconds)
  }

  predicate Brought(m: Mark) {
    m.brought.Some? && Usable(m.brought.value)
  }

  function WayOf(check: Check): Way {
    match check
    case Before => Straight
    case Again => Locked
    case Mandatory => Locked
    case Elsewhere => Taken
    case Behind => Taken
    case After => Wrote
  }

  /** What a call that leaves with the tuple has seen. */
  predicate InTime(s: State, m: Mark) {
    match m.way
    case Straight => AtLeast(s, m.last, s.advisory)
    case Locked => AtLeast(s, m.last, s.advisory)
    case Taken => AtLeast(s, m.last, s.mandatory)
    case Asked => AtLeast(s, m.last, s.mandatory) && m.brought == Some(Failed)
    case Wrote => AtLeast(s, m.last, 0) && Brought(m)
  }

  /** What a call that ends with an error has seen. */
  predicate ThrewFor(s: State, m: Mark, problem: Problem) {
    match problem
    case SourceFailed => m.way == Asked && Below(s, m.last, s.mandatory) && m.brought == Some(Failed)
    case StillExpired => m.way == Wrote && m.last.Saw? && Below(s, m.last, 0) && Brought(m)
    case KeysMissing => m.way == Asked && m.brought == Some(Partial)
    case BadExpiry => m.way == Asked && m.brought.Some? && m.brought.value.Data? && m.brought.value.expiry.None?
  }

  predicate Checking(s: State, m: Mark, check: Check) {
    && m.way == WayOf(check) && (check == Mandatory ==> Below(s, m.early, s.advisory))
    && (check == After ==> Brought(m))
  }

  predicate MarkOk(s: State, m: Mark, p: Place) {
    match p
    case Looking(check) => Checking(s, m, check)
    case Judging(check, seen) =>
      && Checking(s, m, check)
      && m.last.Saw? && 0 <= m.last.entry < |s.log| && seen.Some? && seen == s.log[m.last.entry].expiry
    case Locking => m.way == Straight && Below(s, m.last, s.advisory)
    case Blocking => m.way == Taken && Below(s, m.last, s.mandatory)
    case Fetching(isMandatory) =>
      && m.way == Asked && Below(s, m.early, s.advisory)
      && (if isMandatory then Below(s, m.last, s.mandatory) else AtLeast(s, m.last, s.mandatory))
    case Writing(_, answer) => m.way == Asked && m.brought == Some(Data(answer.fields, answer.expiry))
    case Freezing(_, _) => m.way == Asked && Brought(m)
    case Leaving => InTime(s, m)
    case Done(Returned(_)) => InTime(s, m)
    case Done(Threw(problem)) => ThrewFor(s, m, problem)
  }

  ghost predicate Marks(w: Watched) {
    && Inv(w.s) && 0 <= w.s.mandatory <= w.s.advisory
    && (forall t :: t in w.s.calls ==> t in w.marks && MarkOk(w.s, w.marks[t], w.s.calls[t]))
  }

  /** The windows stay, and the log only grows. */
  ghost predicate Later(s: State, s': State) {
    && s'.advisory == s.advisory && s'.mandatory == s.mandatory && |s.log| <= |s'.log|
    && (forall g :: 0 <= g < |s.log| ==> s'.log[g] == s.log[g])
  }

  lemma MarkKept(s: State, s': State, m: Mark, p: Place)
    requires Later(s, s') && MarkOk(s, m, p)
    ensures MarkOk(s', m, p)
  {
  }

  lemma StepsLater(s: State, e: Event)
    requires Inv(s) && Step(s, e).Some?
    ensures Later(s, Step(s, e).value)
  {
    StepLater(s, e);
  }

  /** A check that is decided by what the call has just seen. */
  lemma Decided(s: State, t: Thread, check: Check, needed: bool, m: Mark)
    requires Checking(s, m, check) && 0 <= s.mandatory <= s.advisory
    requires check == Again || check == Behind ==> m.early == m.last
    requires check == After ==> m.last.Saw?
    requires var seconds := match check
                            case Before => s.advisory
                            case Again => s.advisory
                            case After => 0
                            case _ => s.mandatory;
             if needed then Below(s, m.last, seconds) else AtLeast(s, m.last, seconds)
    ensures var p := Decide(s, t, check, needed).calls[t];
            MarkOk(s, if p.Fetching? then m.(way := Asked) else m, p)
  {
  }

  lemma LookMarked(w: Watched, t: Thread)
    requires Marks(w) && t in w.s.calls && w.s.calls[t].Looking?
    ensures var v := Watch(w, Go(t)).value; t in v.s.calls && t in v.marks && MarkOk(v.s, v.marks[t], v.s.calls[t])
  {
    var s, m, p := w.s, w.marks[t], w.s.calls[t];
    assert PlaceOk(s, p) && MarkOk(s, m, p);
    var v := Watch(w, Go(t)).value;
    var m1 := Looked(s, m, p);
    var m2 := if BeforeAsking(p) then m1.(early := m1.last) else m1;
    if s.frozen.None? {
      Decided(s, t, p.check, true, m2);
      MarkKept(s, v.s, v.marks[t], v.s.calls[t]);
    } else if s.expiry.None? {
      Decided(s, t, p.check, false, m2);
      MarkKept(s, v.s, v.marks[t], v.s.calls[t]);
    }
  }

  lemma JudgeMarked(w: Watched, t: Thread)
    requires Marks(w) && t in w.s.calls && w.s.calls[t].Judging?
    ensures var v := Watch(w, Go(t)).value; t in v.s.calls && t in v.marks && MarkOk(v.s, v.marks[t], v.s.calls[t])
  {
    var s, m, p := w.s, w.marks[t], w.s.calls[t];
    assert MarkOk(s, m, p);
    var v := Watch(w, Go(t)).value;
    var m1 := Looked(s, m, p);
    var m2 := if BeforeAsking(p) then m1.(early := m1.last) else m1;
    var needed := Needed(p.seen, Window(s, p.check), s.now);
    Decided(s, t, p.check, needed, m2);
    MarkKept(s, v.s, v.marks[t], v.s.calls[t]);
  }

  lemma OtherMarked(w: Watched, t: Thread)
    requires Marks(w) && t in w.s.calls && !w.s.calls[t].Looking? && !w.s.calls[t].Judging? && Watch(w, Go(t)).Some?
    ensures var v := Watch(w, Go(t)).value; t in v.s.calls && t in v.marks && MarkOk(v.s, v.marks[t], v.s.calls[t])
  {
    var p := w.s.calls[t];
    if p.Writing? { WriteMarked(w, t); } else if p.Freezing? { FreezeMarked(w, t); } else { WaitMarked(w, t); }
  }

  lemma WriteMarked(w: Watched, t: Thread)
    requires Marks(w) && t in w.s.calls && w.s.calls[t].Writing? && Watch(w, Go(t)).Some?
    ensures var v := Watch(w, Go(t)).value; t in v.s.calls && t in v.marks && MarkOk(v.s, v.marks[t], v.s.calls[t])
  {
    assert MarkOk(w.s, w.marks[t], w.s.calls[t]) && PlaceOk(w.s, w.s.calls[t]);
  }

  lemma FreezeMarked(w: Watched, t: Thread)
    requires Marks(w) && t in w.s.calls && w.s.calls[t].Freezing? && Watch(w, Go(t)).Some?
    ensures var v := Watch(w, Go(t)).value; t in v.s.calls && t in v.marks && MarkOk(v.s, v.marks[t], v.s.calls[t])
  {
    assert MarkOk(w.s, w.marks[t], w.s.calls[t]) && PlaceOk(w.s, w.s.calls[t]);
  }

  lemma WaitMarked(w: Watched, t: Thread)
    requires Marks(w) && t in w.s.calls && Watch(w, Go(t)).Some?
    requires w.s.calls[t].Locking? || w.s.calls[t].Blocking? || w.s.calls[t].Leaving?
    ensures var v := Watch(w, Go(t)).value; t in v.s.calls && t in v.marks && MarkOk(v.s, v.marks[t], v.s.calls[t])
  {
    assert MarkOk(w.s, w.marks[t], w.s.calls[t]);
  }

  lemma FetchedMarked(w: Watched, t: Thread, answer: Answer)
    requires Marks(w) && Watch(w, Fetched(t, answer)).Some?
    ensures var v := Watch(w, Fetched(t, answer)).value; MarkOk(v.s, v.marks[t], v.s.calls[t])
  {
    assert MarkOk(w.s, w.marks[t], w.s.calls[t]);
  }

  lemma GoAlone(s: State, e: Event, t: Thread)
    requires Step(s, e).Some? && (e == Go(t) || e == Enter(t) || (e.Fetched? && e.t == t))
    ensures forall u :: u != t ==> (u in Step(s, e).value.calls <==> u in s.calls)
    ensures forall u :: u != t && u in s.calls ==> Step(s, e).value.calls[u] == s.calls[u]
  {
  }

  lemma WatchKeeps(w: Watched, e: Event)
    requires Marks(w) && Watch(w, e).Some?
    ensures Marks(Watch(w, e).value)
  {
    var v := Watch(w, e).value;
    StepInv(w.s, e);
    StepsLater(w.s, e);
    if !e.Pass? {
      GoAlone(w.s, e, e.t);
      if e.Go? {
        var p := w.s.calls[e.t];
        if p.Looking? {
          LookMarked(w, e.t);
        } else if p.Judging? {
          JudgeMarked(w, e.t);
        } else {
          OtherMarked(w, e.t);
        }
      } else if e.Fetched? {
        FetchedMarked(w, e.t, e.answer);
      }
    }
    forall u | u in v.s.calls ensures u in v.marks && MarkOk(v.s, v.marks[u], v.s.calls[u]) {
      if e.Pass? || u != e.t { MarkKept(w.s, v.s, w.marks[u], w.s.calls[u]); }
    }
  }

  lemma {:induction false} WatchAllKeeps(w: Watched, es: seq<Event>)
    requires Marks(w) && WatchAll(w, es).Some?
    ensures Marks(WatchAll(w, es).value)
    decreases |es|
  {
    if es != [] {
      WatchKeeps(w, es[0]);
      WatchAllKeeps(Watch(w, es[0]).value, es[1..]);
    }
  }

  // ----- what holds in every interleaving -------------------------------------------------------

  /** A state of some run, with its marks, where the mandatory window is no longer than the advisory one. */
  ghost predicate Comes(w: Watched) {
    exists s, es :: Begun(s) && 0 <= s.mandatory <= s.advisory && WatchAll(Watched(s, map[]), es) == Some(w)
  }

  lemma ComesMarks(w: Watched)
    requires Comes(w)
    ensures Marks(w)
  {
    var s, es :| Begun(s) && 0 <= s.mandatory <= s.advisory && WatchAll(Watched(s, map[]), es) == Some(w);
    assert Run(s, []) == Some(s);
    Reached(s, []);
    WatchAllKeeps(Watched(s, map[]), es);
  }

  function Left(w: Watched, l: Look): int
    requires l.Saw? && 0 <= l.entry < |w.s.log| && w.s.log[l.entry].expiry.Some?
  {
    w.s.log[l.entry].expiry.value - l.at
  }

  /**
   A call that returns has judged the expiry time of an answer, if that has one: at least the advisory window was left
   if it never found the lock taken and did not ask the source, at least the mandatory one if it found it taken or its
   source failed, and some time if it wrote the tuple itself.
   */
  lemma LeavesInTime(w: Watched, t: Thread)
    requires Comes(w) && t in w.s.calls && w.s.calls[t].Done? && w.s.calls[t].ending.Returned?
    ensures t in w.marks
    ensures var (m, l) := (w.marks[t], w.marks[t].last);
            && l.Saw? && 0 <= l.entry < |w.s.log|
            && (m.way == Asked ==> m.brought == Some(Failed))
            && (m.way == Wrote ==> m.brought.Some? && m.brought.value.Data? && m.brought.value.expiry.Some?)
            && (w.s.log[l.entry].expiry.Some? ==>
                  && (m.way == Straight || m.way == Locked ==> Left(w, l) >= w.s.advisory)
                  && (m.way != Wrote ==> Left(w, l) >= w.s.mandatory)
                  && Left(w, l) >= 0)
  {
    ComesMarks(w);
    assert MarkOk(w.s, w.marks[t], w.s.calls[t]);
  }

  /**
   A call that asks the source has judged, under the lock, that less than the advisory window was left, or there was no
   tuple; then it has asked for it as mandatory exactly if less than the mandatory window was left at its last look.
   */
  lemma AsksInTime(w: Watched, t: Thread)
    requires Comes(w) && t in w.s.calls && w.s.calls[t].Fetching?
    ensures t in w.marks
    ensures var (early, last) := (w.marks[t].early, w.marks[t].last);
            && w.marks[t].way == Asked
            && (early.NoTuple? || (early.Saw? && 0 <= early.entry < |w.s.log| && w.s.log[early.entry].expiry.Some?
                                   && Left(w, early) < w.s.advisory))
            && (w.s.calls[t].isMandatory ==>
                  last.NoTuple? || (last.Saw? && 0 <= last.entry < |w.s.log| && w.s.log[last.entry].expiry.Some?
                                    && Left(w, last) < w.s.mandatory))
            && (!w.s.calls[t].isMandatory ==>
                  last.Saw? && 0 <= last.entry < |w.s.log|
                  && (w.s.log[last.entry].expiry.Some? ==> Left(w, last) >= w.s.mandatory))
  {
    ComesMarks(w);
    assert MarkOk(w.s, w.marks[t], w.s.calls[t]);
  }

  /** A call that waits for the lock has found it taken, and less than the mandatory window left or no tuple. */
  lemma WaitsInTime(w: Watched, t: Thread)
    requires Comes(w) && t in w.s.calls && w.s.calls[t].Blocking?
    ensures t in w.marks
    ensures var l := w.marks[t].last;
            && w.marks[t].way == Taken
            && (l.NoTuple? || (l.Saw? && 0 <= l.entry < |w.s.log| && w.s.log[l.entry].expiry.Some?
                               && Left(w, l) < w.s.mandatory))
  {
    ComesMarks(w);
    assert MarkOk(w.s, w.marks[t], w.s.calls[t]);
  }

  /**
   The source's error reaches the caller only if less than the mandatory window was left or there was no tuple, and a
   missing key or a bad expiry time exactly if the source brought that; the call complains of expired credentials only
   if it has just written them and their time was over.
   */
  lemma ThrowsForReason(w: Watched, t: Thread)
    requires Comes(w) && t in w.s.calls && w.s.calls[t].Done? && w.s.calls[t].ending.Threw?
    ensures t in w.marks
    ensures var (m, l) := (w.marks[t], w.marks[t].last);
            && (w.s.calls[t].ending.problem == SourceFailed ==>
                  && m.way == Asked
                  && (l.NoTuple? || (l.Saw? && 0 <= l.entry < |w.s.log| && w.s.log[l.entry].expiry.Some?
                                     && Left(w, l) < w.s.mandatory)))
            && (w.s.calls[t].ending.problem == SourceFailed <==> m.brought == Some(Failed))
            && (w.s.calls[t].ending.problem == KeysMissing <==> m.brought == Some(Partial))
            && (w.s.calls[t].ending.problem == BadExpiry <==>
                  m.brought.Some? && m.brought.value.Data? && m.brought.value.expiry.None?)
            && (w.s.calls[t].ending.problem == StillExpired ==>
                  && m.way == Wrote
                  && l.Saw? && 0 <= l.entry < |w.s.log| && w.s.log[l.entry].expiry.Some? && Left(w, l) < 0)
  {
    ComesMarks(w);
    assert MarkOk(w.s, w.marks[t], w.s.calls[t]);
  }
}
