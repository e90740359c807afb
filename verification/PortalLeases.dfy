/** A portal shared by threads: the first to enter starts it, the last to leave exits it. */
module PortalLeases {
  import opened Outcomes

  type Portal = nat
  type Use = nat

  /** The fields of the provider: portalCm is the context manager of the portal with the same number. */
  datatype Fields = Fields(leases: nat, portal: Option<Portal>, portalCm: Option<Portal>)

  /** The end of __enter__ when a context manager is stored: there may be no portal to return. */
  function Leased(f: Fields): Fields {
    f.(leases := f.leases + 1)
  }

  function Unleased(f: Fields): Fields
    requires f.leases > 0
  {
    if f.leases == 1 then Fields(0, None, None) else f.(leases := f.leases - 1)
  }

  /** __enter__ as a whole: next is the portal that a start makes, and starts tells whether the start succeeds. */
  function Entered(f: Fields, next: Portal, starts: bool): Fields {
    if f.portalCm.Some? then Leased(f)
    else if starts then Fields(f.leases + 1, Some(next), Some(next)) else f.(portalCm := Some(next))
  }

  /** What __enter__ returns: the portal stored now, or an error if the start failed or there is none. */
  function Entry(f: Fields, next: Portal, starts: bool): Outcome<Portal> {
    if f.portalCm.None? && !starts then Raised(PythonTypeError)
    else match Entered(f, next, starts).portal case Some(p) => Ok(p) case None => Raised(PythonTypeError)
  }

  /** __exit__, which changes nothing if one of its assertions fails. */
  function Exited(f: Fields): Fields {
    if f.portalCm.None? || f.leases == 0 then f else Unleased(f)
  }

  /** The context manager that __exit__ exits behind the lock. */
  function ToExit(f: Fields): Outcome<Option<Portal>> {
    if f.portalCm.None? || f.leases == 0 then Raised(PythonTypeError)
    else Ok(if f.leases == 1 then f.portalCm else None)
  }

  class Provider {
    var leases: nat
    var portal: Option<Portal>
    var portalCm: Option<Portal>

    function State(): Fields
      reads this
    {
      Fields(leases, portal, portalCm)
    }

    constructor ()
      ensures State() == Fields(0, None, None)
    {
      leases, portal, portalCm := 0, None, None;
    }

    /** __enter__ with the lock held. */
    method Enter(next: Portal, starts: bool) returns (entered: Outcome<Portal>)
      modifies this
      ensures State() == Entered(old(State()), next, starts)
      ensures entered == Entry(old(State()), next, starts)
    {
      if portalCm.None? {
        portalCm := Some(next);
        if !starts { return Raised(PythonTypeError); }
        portal := Some(next);
      }
      leases := leases + 1;
      entered := match portal case Some(p) => Ok(p) case None => Raised(PythonTypeError);
    }

    /** __exit__ with the lock held; the context manager to exit behind the lock, if the last lease is gone. */
    method Exit() returns (left: Outcome<Option<Portal>>)
      modifies this
      ensures State() == Exited(old(State()))
      ensures left == ToExit(old(State()))
    {
      if portalCm.None? || leases == 0 { return Raised(PythonTypeError); }
      leases := leases - 1;
      if leases == 0 {
        left := Ok(portalCm);
        portalCm, portal := None, None;
      } else {
        left := Ok(None);
      }
    }
  }

  // ----- threads --------------------------------------------------------------------------------

  /**
   One with block: starting the portal under the lock, inside, about to exit the portal, over, or ended by an error.
   */
  datatype Phase = Starting(portal: Portal) | Holding(portal: Portal) | Closing(portal: Portal) | Over | Broken

  datatype System = System(fields: Fields, lock: Option<Use>, uses: map<Use, Phase>, next: Portal, exited: seq<Portal>)

  function Init(): System {
    System(Fields(0, None, None), None, map[], 0, [])
  }

  datatype Event = Enter(u: Use) | Started(u: Use) | NotStarted(u: Use) | Leave(u: Use) | Close(u: Use)

  function At(s: System, u: Use, p: Phase): System {
    s.(uses := s.uses[u := p])
  }

  function Step(s: System, e: Event): Option<System> {
    match e
    case Enter(u) =>
      if u in s.uses || s.lock.Some? then None
      else if s.fields.portalCm.None? then
        Some(At(s, u, Starting(s.next)).(fields := s.fields.(portalCm := Some(s.next)), lock := Some(u),
                                         next := s.next + 1))
      else
        var held := if s.fields.portal.Some? then Holding(s.fields.portal.value) else Broken;
        Some(At(s, u, held).(fields := Leased(s.fields)))
    case Started(u) =>
      if u in s.uses && s.uses[u].Starting? then
        var p := s.uses[u].portal;
        Some(At(s, u, Holding(p)).(fields := Fields(s.fields.leases + 1, Some(p), s.fields.portalCm), lock := None))
      else None
    case NotStarted(u) =>
      if u in s.uses && s.uses[u].Starting? then Some(At(s, u, Broken).(lock := None)) else None
    case Leave(u) =>
      if u !in s.uses || !s.uses[u].Holding? || s.lock.Some? then None
      else if s.fields.portalCm.None? || s.fields.leases == 0 then Some(At(s, u, Broken))
      else
        var left := if s.fields.leases == 1 then Closing(s.fields.portalCm.value) else Over;
        Some(At(s, u, left).(fields := Unleased(s.fields)))
    case Close(u) =>
      if u in s.uses && s.uses[u].Closing? then Some(At(s, u, Over).(exited := s.exited + [s.uses[u].portal])) else None
  }

  /**
   The steps of a use that enters change the fields as the provider's method does, and the use gets what it returns.
   */
  lemma EntersAlike(s: System, u: Use, starts: bool)
    requires u !in s.uses && s.lock.None?
    ensures var s1 := Step(s, Enter(u)).value;
            var s2 := if s.fields.portalCm.Some? then Some(s1)
                      else Step(s1, if starts then Started(u) else NotStarted(u));
            s2.Some? && s2.value.fields == Entered(s.fields, s.next, starts) && s2.value.lock.None? &&
            s2.value.uses[u] == match Entry(s.fields, s.next, starts) case Ok(p) => Holding(p) case Raised(_) => Broken
  {
    assert s.fields.portalCm.None? ==> Step(s, Enter(u)).value.uses[u] == Starting(s.next);
  }

  /** So does the step of a use that leaves, and the use goes on to exit what the method returns. */
  lemma LeavesAlike(s: System, u: Use)
    requires Step(s, Leave(u)).Some?
    ensures var s1 := Step(s, Leave(u)).value;
            s1.fields == Exited(s.fields) &&
            s1.uses[u] == match ToExit(s.fields)
                          case Ok(Some(p)) => Closing(p)
                          case Ok(None) => Over
                          case Raised(_) => Broken
  {
  }

  function Run(s: System, es: seq<Event>): Option<System>
    decreases |es|
  {
    if es == [] then Some(s)
    else if Step(s, es[0]).None? then None
    else Run(Step(s, es[0]).value, es[1..])
  }

  function Holders(s: System): set<Use> {
    set u | u in s.uses && s.uses[u].Holding?
  }

  /** With the lock free: a portal is stored exactly while there are leases, one for each holder, and all share it. */
  ghost predicate LeasesOk(s: System) {
    && s.fields.leases == |Holders(s)|
    && (s.lock.None? ==> s.fields.portal == s.fields.portalCm)
    && (s.lock.None? ==> (s.fields.portalCm.Some? <==> s.fields.leases > 0))
    && (forall u :: u in s.uses && s.uses[u].Holding? ==> s.lock.None? && s.fields.portalCm == Some(s.uses[u].portal))
    && (forall u :: u in s.uses && s.uses[u].Starting? ==>
          s.lock == Some(u) && s.fields.portalCm == Some(s.uses[u].portal))
    && (s.lock.Some? ==> s.lock.value in s.uses && s.uses[s.lock.value].Starting?
                         && s.fields.leases == 0 && s.fields.portal.None?)
    && (forall u :: u in s.uses ==> !s.uses[u].Broken?)
  }

  ghost predicate ExitedOnce(s: System) {
    forall i, j :: 0 <= i < j < |s.exited| ==> s.exited[i] != s.exited[j]
  }

  /** Every portal ever started is the stored one, about to be exited by one use, or exited once. */
  ghost predicate ExitsOk(s: System) {
    && ExitedOnce(s)
    && (forall u, u' :: u in s.uses && u' in s.uses && s.uses[u].Closing? && s.uses[u'].Closing? && u != u' ==>
          s.uses[u].portal != s.uses[u'].portal)
    && (forall u :: u in s.uses && s.uses[u].Closing? ==>
          s.uses[u].portal !in s.exited && s.fields.portalCm != Some(s.uses[u].portal) && s.uses[u].portal < s.next)
    && (forall p :: p in s.exited ==> p < s.next && s.fields.portalCm != Some(p))
    && (s.fields.portalCm.Some? ==> s.fields.portalCm.value < s.next)
    && (forall p: Portal :: p < s.next ==>
          s.fields.portalCm == Some(p) || p in s.exited || exists u :: u in s.uses && s.uses[u] == Closing(p))
  }

  ghost predicate Inv(s: System) {
    LeasesOk(s) && ExitsOk(s)
  }

  lemma HoldersStep(s: System, u: Use, p: Phase)
    ensures Holders(At(s, u, p)) == if p.Holding? then Holders(s) + {u} else Holders(s) - {u}
  {
  }

  /** A portal that is stored, exited or about to be exited stays so, however one use goes on. */
  lemma Kept(s: System, s': System, u: Use)
    requires ExitsOk(s)
    requires u in s'.uses && s'.uses == s.uses[u := s'.uses[u]]
    requires forall p :: p in s.exited ==> p in s'.exited
    requires s.next <= s'.next <= s.next + 1 && (s.next < s'.next ==> s'.fields.portalCm == Some(s.next))
    requires s.fields.portalCm.Some? ==>
               s'.fields.portalCm == s.fields.portalCm || s'.uses[u] == Closing(s.fields.portalCm.value)
    requires u in s.uses && s.uses[u].Closing? ==> s.uses[u].portal in s'.exited
    ensures forall p: Portal :: p < s'.next ==>
              s'.fields.portalCm == Some(p) || p in s'.exited || exists v :: v in s'.uses && s'.uses[v] == Closing(p)
  {
    forall p: Portal | p < s'.next
      ensures s'.fields.portalCm == Some(p) || p in s'.exited || exists v :: v in s'.uses && s'.uses[v] == Closing(p)
    {
      if p < s.next && s.fields.portalCm != Some(p) && p !in s.exited {
        var v :| v in s.uses && s.uses[v] == Closing(p);
        assert v == u || s'.uses[v] == Closing(p);
      }
    }
  }

  lemma EnterLeases(s: System, u: Use)
    requires Inv(s) && Step(s, Enter(u)).Some?
    ensures LeasesOk(Step(s, Enter(u)).value)
  {
    var s' := Step(s, Enter(u)).value;
    HoldersStep(s, u, s'.uses[u]);
    assert Holders(s') == Holders(At(s, u, s'.uses[u]));
    assert u !in Holders(s);
  }

  lemma EnterExits(s: System, u: Use)
    requires Inv(s) && Step(s, Enter(u)).Some?
    ensures ExitsOk(Step(s, Enter(u)).value)
  {
    Kept(s, Step(s, Enter(u)).value, u);
  }

  lemma StartedLeases(s: System, u: Use)
    requires Inv(s) && Step(s, Started(u)).Some?
    ensures LeasesOk(Step(s, Started(u)).value)
  {
    var s' := Step(s, Started(u)).value;
    HoldersStep(s, u, s'.uses[u]);
    assert Holders(s') == Holders(At(s, u, s'.uses[u]));
    assert u in Holders(s) <==> u in s.uses && s.uses[u].Holding?;
  }

  lemma StartedExits(s: System, u: Use)
    requires Inv(s) && Step(s, Started(u)).Some?
    ensures ExitsOk(Step(s, Started(u)).value)
  {
    Kept(s, Step(s, Started(u)).value, u);
  }

  lemma LeaveLeases(s: System, u: Use)
    requires Inv(s) && Step(s, Leave(u)).Some?
    ensures LeasesOk(Step(s, Leave(u)).value)
  {
    var s' := Step(s, Leave(u)).value;
    HoldersStep(s, u, s'.uses[u]);
    assert Holders(s') == Holders(At(s, u, s'.uses[u]));
    assert u in Holders(s) <==> u in s.uses && s.uses[u].Holding?;
    if s.fields.leases == 1 {
      assert u in Holders(s) && |Holders(s) - {u}| == |Holders(s)| - 1 == 0;
      assert Holders(s) - {u} == {};
      assert forall v :: v in s'.uses && s'.uses[v].Holding? ==> v in Holders(s) - {u};
    }
  }

  lemma LeaveExits(s: System, u: Use)
    requires Inv(s) && Step(s, Leave(u)).Some?
    ensures ExitsOk(Step(s, Leave(u)).value)
  {
    Kept(s, Step(s, Leave(u)).value, u);
  }

  lemma CloseLeases(s: System, u: Use)
    requires Inv(s) && Step(s, Close(u)).Some?
    ensures LeasesOk(Step(s, Close(u)).value)
  {
    var s' := Step(s, Close(u)).value;
    HoldersStep(s, u, s'.uses[u]);
    assert Holders(s') == Holders(At(s, u, s'.uses[u]));
    assert u in Holders(s) <==> u in s.uses && s.uses[u].Holding?;
  }

  lemma CloseExits(s: System, u: Use)
    requires Inv(s) && Step(s, Close(u)).Some?
    ensures ExitsOk(Step(s, Close(u)).value)
  {
    Kept(s, Step(s, Close(u)).value, u);
  }

  lemma StepInv(s: System, e: Event)
    requires Inv(s) && Step(s, e).Some? && !e.NotStarted?
    ensures Inv(Step(s, e).value)
  {
    match e
    case Enter(u) => EnterLeases(s, u); EnterExits(s, u);
    case Started(u) => StartedLeases(s, u); StartedExits(s, u);
    case Leave(u) => LeaveLeases(s, u); LeaveExits(s, u);
    case Close(u) => CloseLeases(s, u); CloseExits(s, u);
  }

  ghost predicate AllStart(es: seq<Event>) {
    forall i :: 0 <= i < |es| ==> !es[i].NotStarted?
  }

  lemma {:induction false} RunInv(s: System, es: seq<Event>)
    requires Inv(s) && AllStart(es) && Run(s, es).Some?
    ensures Inv(Run(s, es).value)
    decreases |es|
  {
    if es != [] {
      StepInv(s, es[0]);
      RunInv(Step(s, es[0]).value, es[1..]);
    }
  }

  /** While somebody holds a portal nobody exits it or has exited it; no portal is exited twice. */
  lemma HeldPortalRuns(es: seq<Event>, u: Use)
    requires AllStart(es) && Run(Init(), es).Some?
    requires u in Holders(Run(Init(), es).value)
    ensures var s := Run(Init(), es).value;
            && s.uses[u].portal !in s.exited && forall v :: v in s.uses ==> s.uses[v] != Closing(s.uses[u].portal)
  {
    RunInv(Init(), es);
  }

  /** When every use is over, each portal ever started has been exited, and exited once. */
  lemma AllExitedOnce(es: seq<Event>, p: Portal)
    requires AllStart(es) && Run(Init(), es).Some?
    requires var s := Run(Init(), es).value; (forall u :: u in s.uses ==> s.uses[u].Over?) && p < s.next
    ensures var s := Run(Init(), es).value;
            && p in s.exited
            && (forall i, j ::
                  0 <= i < |s.exited| && 0 <= j < |s.exited| && s.exited[i] == p == s.exited[j] ==> i == j)
  {
    RunInv(Init(), es);
    var s := Run(Init(), es).value;
    assert Holders(s) == {};
    assert s.lock.None?;
  }

  // ----- a start that fails ---------------------------------------------------------------------

  /** A context manager is stored but no portal, and nobody is inside. */
  ghost predicate Stuck(s: System) {
    && s.lock.None? && s.fields.portalCm.Some? && s.fields.portal.None?
    && forall u :: u in s.uses ==> !s.uses[u].Starting? && !s.uses[u].Holding?
  }

  lemma {:induction false} StuckStays(s: System, es: seq<Event>)
    requires Stuck(s) && Run(s, es).Some?
    ensures Stuck(Run(s, es).value)
    decreases |es|
  {
    if es != [] { StuckStays(Step(s, es[0]).value, es[1..]); }
  }

  lemma {:induction false} FailureStays(s: System, es: seq<Event>)
    requires Inv(s) && Run(s, es).Some? && !AllStart(es)
    ensures Stuck(Run(s, es).value)
    decreases |es|
  {
    if es[0].NotStarted? {
      StuckStays(Step(s, es[0]).value, es[1..]);
    } else {
      StepInv(s, es[0]);
      FailureStays(Step(s, es[0]).value, es[1..]);
    }
  }

  /**
   The promise: a portal is stored exactly while somebody holds it, one lease for each holder, and no use meets an
   error.
   */
  ghost predicate Promised(s: System) {
    && s.fields.portal == s.fields.portalCm && (s.fields.portalCm.Some? <==> s.fields.leases > 0)
    && s.fields.leases == |Holders(s)| && (forall u :: u in Holders(s) ==> s.fields.portal == Some(s.uses[u].portal))
    && (forall u :: u in s.uses ==> !s.uses[u].Broken?)
  }

  /** Whenever the lock is free: the promise is kept exactly if no start has failed. */
  lemma OneLeaseEach(es: seq<Event>)
    requires Run(Init(), es).Some? && Run(Init(), es).value.lock.None?
    ensures Promised(Run(Init(), es).value) <==> AllStart(es)
  {
    if AllStart(es) { RunInv(Init(), es); } else { FailureStays(Init(), es); }
  }

  /** After one start that fails, whatever happens then, no use ever gets a portal again. */
  lemma NobodyEntersAgain(before: seq<Event>, u: Use, after: seq<Event>)
    requires AllStart(before) && Run(Init(), before).Some? && Step(Run(Init(), before).value, NotStarted(u)).Some?
    requires Run(Step(Run(Init(), before).value, NotStarted(u)).value, after).Some?
    ensures Holders(Run(Step(Run(Init(), before).value, NotStarted(u)).value, after).value) == {}
  {
    RunInv(Init(), before);
    StuckStays(Step(Run(Init(), before).value, NotStarted(u)).value, after);
  }
}
