/** Endpoint discovery: addresses are cached until they expire, and a failed request is not repeated for a minute. */
module Discovery {
  import opened Outcomes

  type Key = string

  /** A period of None stands for an endpoint of a response without CachePeriodInMinutes. */
  datatype Offer = Offer(address: string, period: Option<int>)

  datatype Endpoint = Endpoint(address: string, expiration: int)

  /** What a request brings; only a lost connection is caught. */
  datatype Answer = NoConnection | OtherError | Response(offers: seq<Offer>)

  /** What describe_endpoint ends with: an address, none, the refresh error, or an error from elsewhere. */
  datatype Ending = Address(address: string) | NoAddress | RefreshFailed | Failed

  /** begun is the last clock read before the request, at the one after; bare: there was no endpoint to fall back on. */
  datatype Request = Request(key: Key, required: bool, bare: bool, begun: int, at: int, answer: Answer)

  datatype World = World(clock: nat -> int, source: nat -> Answer)

  datatype State = State(cache: map<Key, seq<Endpoint>>, failed: map<Key, int>, ticks: nat, asked: seq<Request>)

  function LastRead(w: World, s: State): int {
    if s.ticks == 0 then w.clock(0) else w.clock(s.ticks - 1)
  }

  predicate Bare(s: State, key: Key) {
    key !in s.cache || s.cache[key] == []
  }

  predicate Parses(answer: Answer) {
    answer.Response? && forall i :: 0 <= i < |answer.offers| ==> answer.offers[i].period.Some?
  }

  function Parsed(answer: Answer, now: int): seq<Endpoint>
    requires Parses(answer)
  {
    seq(|answer.offers|, i requires 0 <= i < |answer.offers| =>
      Endpoint(answer.offers[i].address, now + answer.offers[i].period.value * 60))
  }

  function Unexpired(es: seq<Endpoint>, now: int): seq<Endpoint> {
    if es == [] then [] else (if now < es[0].expiration then [es[0]] else []) + Unexpired(es[1..], now)
  }

  lemma UnexpiredFrom(es: seq<Endpoint>, i: nat, now: int)
    requires i < |es|
    ensures Unexpired(es[i..], now) == (if now < es[i].expiration then [es[i]] else []) + Unexpired(es[i + 1..], now)
  {
    assert es[i..][0] == es[i] && es[i..][1..] == es[i + 1..];
  }

  // ----- one call -------------------------------------------------------------------------------

  /** A request, and the state it leaves; the clock is read after a response and after a lost connection. */
  function Ask(w: World, s: State, key: Key, required: bool): State {
    var answer := w.source(|s.asked|);
    var now := w.clock(s.ticks);
    var begun := LastRead(w, s);
    var asked := s.asked
                 + [Request(key, required, Bare(s, key), begun, if answer.OtherError? then begun else now, answer)];
    match answer
    case NoConnection => State(s.cache, s.failed[key := now + 60], s.ticks + 1, asked)
    case OtherError => s.(asked := asked)
    case Response(_) =>
      if Parses(answer) then State(s.cache[key := Parsed(answer, now)], s.failed - {key}, s.ticks + 1, asked)
      else s.(ticks := s.ticks + 1, asked := asked)
  }

  /** The answer to a request ends the call if it is an error that is not caught or if it has an endpoint. */
  function Got(answer: Answer): Option<Ending> {
    match answer
    case NoConnection => None
    case OtherError => Some(Failed)
    case Response(offers) =>
      if !Parses(answer) then Some(Failed) else if offers == [] then None else Some(Address(offers[0].address))
  }

  /** The endpoints of a key that have not expired; the clock is read only if there is an entry. */
  function Current(w: World, s: State, key: Key): seq<Endpoint> {
    if key in s.cache then Unexpired(s.cache[key], w.clock(s.ticks)) else []
  }

  function Looked(s: State, key: Key): State {
    if key in s.cache then s.(ticks := s.ticks + 1) else s
  }

  predicate Recently(w: World, s: State, key: Key) {
    key in s.failed && w.clock(s.ticks) < s.failed[key]
  }

  /** A failure that is no longer recent is forgotten. */
  function Checked(w: World, s: State, key: Key): State {
    if key !in s.failed then s
    else s.(ticks := s.ticks + 1, failed := if Recently(w, s, key) then s.failed else s.failed - {key})
  }

  function Describe(w: World, always: bool, s: State, key: Key, required: bool): (State, Ending) {
    if !always && !required then (s, NoAddress)
    else
      var s1 := Looked(s, key);
      if Current(w, s, key) != [] then (s1, Address(Current(w, s, key)[0].address))
      else
        var recently := Recently(w, s1, key);
        var s2 := Checked(w, s1, key);
        var s3 := if recently then s2 else Ask(w, s2, key, required);
        var got := if recently then None else Got(w.source(|s2.asked|));
        if got.Some? then (s3, got.value)
        else if !Bare(s3, key) then (s3, Address(s3.cache[key][0].address))
        else if !required then (s3, NoAddress)
        else if !recently then (s3, RefreshFailed)
        else
          var last := Got(w.source(|s3.asked|));
          (Ask(w, s3, key, required), if last.Some? then last.value else RefreshFailed)
  }

  // ----- the manager ----------------------------------------------------------------------------

  class Manager {
    const world: World
    const always: bool
    var cache: map<Key, seq<Endpoint>>
    var failed: map<Key, int>
    var ticks: nat
    var asked: seq<Request>

    function Now(): State
      reads this
    {
      State(cache, failed, ticks, asked)
    }

    constructor (world: World, always: bool)
      ensures Now() == State(map[], map[], 0, []) && this.world == world && this.always == always
    {
      this.world, this.always := world, always;
      cache, failed, ticks, asked := map[], map[], 0, [];
    }

    method DeleteEndpoints(key: Key)
      modifies this
      ensures Now() == old(Now()).(cache := old(cache) - {key})
    {
      if key in cache { cache := cache - {key}; }
    }

    method CurrentEndpoints(key: Key) returns (current: seq<Endpoint>)
      modifies this`ticks
      ensures current == if key in cache then Unexpired(cache[key], world.clock(old(ticks))) else []
      ensures ticks == if key in cache then old(ticks) + 1 else old(ticks)
    {
      if key !in cache { return []; }
      var es, now := cache[key], world.clock(ticks);
      ticks := ticks + 1;
      current := [];
      assert es[0..] == es && es[|es|..] == [];
      for i := 0 to |es|
        modifies {}
        invariant current + Unexpired(es[i..], now) == Unexpired(es, now)
      {
        UnexpiredFrom(es, i, now);
        assert current + ([es[i]] + Unexpired(es[i + 1..], now)) == current + [es[i]] + Unexpired(es[i + 1..], now);
        if now < es[i].expiration { current := current + [es[i]]; }
      }
    }

    method RecentlyFailed(key: Key) returns (recently: bool)
      modifies this`failed, this`ticks
      ensures recently == (key in old(failed) && world.clock(old(ticks)) < old(failed)[key])
      ensures failed == if key in old(failed) && !recently then old(failed) - {key} else old(failed)
      ensures ticks == if key in old(failed) then old(ticks) + 1 else old(ticks)
    {
      if key in failed {
        var now := world.clock(ticks);
        ticks := ticks + 1;
        if now < failed[key] { return true; }
        failed := failed - {key};
      }
      recently := false;
    }

    method RefreshEndpoints(key: Key, required: bool) returns (got: Option<Ending>)
      modifies this
      ensures Now() == Ask(world, old(Now()), key, required)
      ensures got == Got(world.source(old(|asked|)))
    {
      var answer := world.source(|asked|);
      var begun := LastRead(world, Now());
      var bare := key !in cache || cache[key] == [];
      if answer.OtherError? {
        asked := asked + [Request(key, required, bare, begun, begun, answer)];
        return Some(Failed);
      }
      var now := world.clock(ticks);
      ticks := ticks + 1;
      asked := asked + [Request(key, required, bare, begun, now, answer)];
      if answer.NoConnection? {
        failed := failed[key := now + 60];
        return None;
      }
      if !Parses(answer) { return Some(Failed); }
      cache, failed := cache[key := Parsed(answer, now)], failed - {key};
      got := if answer.offers == [] then None else Some(Address(answer.offers[0].address));
    }

    method DescribeEndpoint(key: Key, required: bool) returns (ending: Ending)
      modifies this
      ensures (Now(), ending) == Describe(world, always, old(Now()), key, required)
    {
      if !always && !required { return NoAddress; }
      var current := CurrentEndpoints(key);
      if current != [] { return Address(current[0].address); }
      var recently := RecentlyFailed(key);
      if !recently {
        var got := RefreshEndpoints(key, required);
        if got.Some? { return got.value; }
      }
      if key in cache && cache[key] != [] { return Address(cache[key][0].address); }
      if required {
        if recently {
          var got := RefreshEndpoints(key, required);
          if got.Some? { return got.value; }
        }
        return RefreshFailed;
      }
      ending := NoAddress;
    }
  }

  // ----- one call, whatever the state -----------------------------------------------------------

  /** A call makes at most one request. */
  lemma OneRequest(w: World, always: bool, s: State, key: Key, required: bool)
    ensures var s' := Describe(w, always, s, key, required).0;
            s'.asked == s.asked
            || (|s'.asked| == |s.asked| + 1 && s'.asked[..|s.asked|] == s.asked && s'.asked[|s.asked|].key == key)
  {
    DescribeForm(w, always, s, key, required);
  }

  /** A required operation never goes without an address, and an optional one never raises the refresh error. */
  lemma RequiredOrNot(w: World, always: bool, s: State, key: Key, required: bool)
    ensures var (s', ending) := Describe(w, always, s, key, required);
            && (ending == NoAddress ==> !required)
            && (ending == RefreshFailed ==> required && |s'.asked| > |s.asked| && Bare(s', key))
  {
  }

  lemma {:induction false} UnexpiredAre(es: seq<Endpoint>, now: int, i: nat)
    requires i < |es| && now < es[i].expiration
    requires forall j :: 0 <= j < i ==> es[j].expiration <= now
    ensures Unexpired(es, now) != [] && Unexpired(es, now)[0] == es[i]
  {
    if i > 0 { UnexpiredAre(es[1..], now, i - 1); }
  }

  /** An endpoint that has not expired is used without a request. */
  lemma UsesTheCache(w: World, s: State, key: Key, required: bool, i: nat)
    requires key in s.cache && i < |s.cache[key]| && w.clock(s.ticks) < s.cache[key][i].expiration
    requires forall j :: 0 <= j < i ==> s.cache[key][j].expiration <= w.clock(s.ticks)
    ensures Describe(w, true, s, key, required) == (s.(ticks := s.ticks + 1), Address(s.cache[key][i].address))
  {
    UnexpiredAre(s.cache[key], w.clock(s.ticks), i);
  }

  lemma {:induction false} UnexpiredIn(es: seq<Endpoint>, now: int)
    ensures forall e :: e in Unexpired(es, now) ==> e in es && now < e.expiration
  {
    if es != [] { UnexpiredIn(es[1..], now); }
  }

  /** An address handed out is one of those cached for the key when the call ends. */
  lemma AddressIsCached(w: World, always: bool, s: State, key: Key, required: bool)
    requires Describe(w, always, s, key, required).1.Address?
    ensures var (s', ending) := Describe(w, always, s, key, required);
            key in s'.cache && exists i :: 0 <= i < |s'.cache[key]| && s'.cache[key][i].address == ending.address
  {
    var (s', ending) := Describe(w, always, s, key, required);
    if key in s.cache { UnexpiredIn(s.cache[key], w.clock(s.ticks)); }
    var current := Current(w, s, key);
    if current != [] {
      assert current[0] in current;
      var i :| 0 <= i < |s.cache[key]| && s.cache[key][i] == current[0];
      assert s'.cache[key][i].address == ending.address;
    } else {
      assert s'.cache[key][0].address == ending.address;
    }
  }

  // ----- runs of calls --------------------------------------------------------------------------

  datatype Use = Look(key: Key, required: bool) | Forget(key: Key)

  function After(w: World, always: bool, s: State, u: Use): State {
    match u
    case Look(key, required) => Describe(w, always, s, key, required).0
    case Forget(key) => s.(cache := s.cache - {key})
  }

  function Uses(w: World, always: bool, us: seq<Use>): State {
    if us == [] then State(map[], map[], 0, [])
    else After(w, always, Uses(w, always, us[..|us| - 1]), us[|us| - 1])
  }

  /** The last request for a key that either lost the connection or brought endpoints. */
  function Settled(asked: seq<Request>, key: Key): Option<nat>
    ensures Settled(asked, key).Some? ==> Settled(asked, key).value < |asked|
  {
    if asked == [] then None
    else
      var r := asked[|asked| - 1];
      if r.key == key && (r.answer.NoConnection? || Parses(r.answer)) then Some(|asked| - 1)
      else Settled(asked[..|asked| - 1], key)
  }

  /** The last request for a key that brought endpoints. */
  function Latest(asked: seq<Request>, key: Key): Option<nat>
    ensures Latest(asked, key).Some? ==>
              Latest(asked, key).value < |asked| && Parses(asked[Latest(asked, key).value].answer)
  {
    if asked == [] then None
    else
      var r := asked[|asked| - 1];
      if r.key == key && Parses(r.answer) then Some(|asked| - 1) else Latest(asked[..|asked| - 1], key)
  }

  /** The time of the last failure for a key, if nothing has been settled for it since. */
  function FailedAt(asked: seq<Request>, key: Key): Option<int> {
    var i := Settled(asked, key);
    if i.Some? && asked[i.value].answer.NoConnection? then Some(asked[i.value].at) else None
  }

  ghost predicate CacheOk(s: State) {
    forall k :: k in s.cache ==>
      var i := Latest(s.asked, k);
      i.Some? && s.cache[k] == Parsed(s.asked[i.value].answer, s.asked[i.value].at)
  }

  ghost predicate Backed(w: World, s: State, k: Key) {
    FailedAt(s.asked, k).Some? ==>
      var until := FailedAt(s.asked, k).value + 60;
      (k in s.failed && s.failed[k] == until) || (s.ticks > 0 && until <= LastRead(w, s))
  }

  ghost predicate BackoffOk(w: World, s: State) {
    forall k :: FailedAt(s.asked, k).Some? ==> Backed(w, s, k)
  }

  /** A request within 60 seconds of a failure is for a required operation that has nothing cached. */
  predicate Patient(asked: seq<Request>, j: nat)
    requires j < |asked|
  {
    var f := FailedAt(asked[..j], asked[j].key);
    f.Some? && asked[j].begun < f.value + 60 ==> asked[j].required && asked[j].bare
  }

  ghost predicate AskedOk(asked: seq<Request>) {
    forall j :: 0 <= j < |asked| ==> Patient(asked, j)
  }

  ghost predicate Inv(w: World, s: State) {
    CacheOk(s) && BackoffOk(w, s) && AskedOk(s.asked)
  }

  ghost predicate Monotone(w: World) {
    forall i: nat, j: nat :: i <= j ==> w.clock(i) <= w.clock(j)
  }

  lemma LaterRead(w: World, s: State, ticks: nat)
    requires Monotone(w) && s.ticks <= ticks
    ensures LastRead(w, s) <= LastRead(w, s.(ticks := ticks))
  {
  }

  lemma ReadInv(w: World, s: State, failed: map<Key, int>, key: Key)
    requires Monotone(w) && Inv(w, s)
    requires failed == s.failed || (key in s.failed && failed == s.failed - {key} && s.failed[key] <= w.clock(s.ticks))
    ensures Inv(w, s.(ticks := s.ticks + 1, failed := failed))
  {
    LaterRead(w, s, s.ticks + 1);
  }

  lemma SettledMore(asked: seq<Request>, r: Request, key: Key)
    ensures Settled(asked + [r], key) ==
            if r.key == key && (r.answer.NoConnection? || Parses(r.answer)) then Some(|asked|) else Settled(asked, key)
    ensures Latest(asked + [r], key) == if r.key == key && Parses(r.answer) then Some(|asked|) else Latest(asked, key)
  {
    assert (asked + [r])[..|asked|] == asked;
  }

  lemma PatientMore(asked: seq<Request>, r: Request)
    requires AskedOk(asked)
    requires FailedAt(asked, r.key).Some? && r.begun < FailedAt(asked, r.key).value + 60 ==> r.required && r.bare
    ensures AskedOk(asked + [r])
  {
    forall j | 0 <= j < |asked| + 1 ensures Patient(asked + [r], j) {
      assert (asked + [r])[..j] == asked[..j];
      if j < |asked| { assert Patient(asked, j); } else { assert asked[..j] == asked; }
    }
  }

  lemma AskCache(w: World, s: State, key: Key, required: bool)
    requires CacheOk(s)
    ensures CacheOk(Ask(w, s, key, required))
  {
    var s' := Ask(w, s, key, required);
    var r := s'.asked[|s.asked|];
    assert s'.asked == s.asked + [r];
    forall k | k in s'.cache
      ensures var i := Latest(s'.asked, k);
              i.Some? && s'.cache[k] == Parsed(s'.asked[i.value].answer, s'.asked[i.value].at)
    {
      SettledMore(s.asked, r, k);
    }
  }

  lemma AskFailedAt(w: World, s: State, key: Key, required: bool, k: Key)
    ensures var answer := w.source(|s.asked|);
            FailedAt(Ask(w, s, key, required).asked, k) ==
            if k != key || !(answer.NoConnection? || Parses(answer)) then FailedAt(s.asked, k)
            else if answer.NoConnection? then Some(w.clock(s.ticks)) else None
  {
    var s' := Ask(w, s, key, required);
    assert s'.asked == s.asked + [s'.asked[|s.asked|]];
    SettledMore(s.asked, s'.asked[|s.asked|], k);
  }

  lemma AskBacked(w: World, s: State, key: Key, required: bool, k: Key)
    requires Monotone(w) && Backed(w, s, k)
    ensures Backed(w, Ask(w, s, key, required), k)
  {
    LaterRead(w, s, s.ticks + 1);
    AskFailedAt(w, s, key, required, k);
  }

  lemma AskBackoff(w: World, s: State, key: Key, required: bool)
    requires Monotone(w) && BackoffOk(w, s)
    ensures BackoffOk(w, Ask(w, s, key, required))
  {
    forall k | FailedAt(Ask(w, s, key, required).asked, k).Some? ensures Backed(w, Ask(w, s, key, required), k) {
      assert Backed(w, s, k);
      AskBacked(w, s, key, required, k);
    }
  }

  lemma AskInv(w: World, s: State, key: Key, required: bool)
    requires Monotone(w) && Inv(w, s)
    requires FailedAt(s.asked, key).Some? && LastRead(w, s) < FailedAt(s.asked, key).value + 60 ==>
               required && Bare(s, key)
    ensures Inv(w, Ask(w, s, key, required))
  {
    AskCache(w, s, key, required);
    AskBackoff(w, s, key, required);
    PatientMore(s.asked, Ask(w, s, key, required).asked[|s.asked|]);
  }

  lemma LookedInv(w: World, s: State, key: Key)
    requires Monotone(w) && Inv(w, s)
    ensures Inv(w, Looked(s, key))
  {
    if key in s.cache { ReadInv(w, s, s.failed, key); }
  }

  /** A key whose failure is not recent may be asked for again: a minute has passed. */
  lemma CheckedInv(w: World, s: State, key: Key)
    requires Monotone(w) && Inv(w, s)
    ensures var s' := Checked(w, s, key);
            Inv(w, s') && (!Recently(w, s, key) && FailedAt(s'.asked, key).Some? ==>
                             FailedAt(s'.asked, key).value + 60 <= LastRead(w, s'))
  {
    var s' := Checked(w, s, key);
    if key in s.failed {
      assert s' == s.(ticks := s.ticks + 1, failed := s'.failed);
      ReadInv(w, s, s'.failed, key);
    }
  }

  /** How a call leaves the state: it may read the clock, check for a failure, and ask if the check allows it. */
  lemma DescribeForm(w: World, always: bool, s: State, key: Key, required: bool)
    ensures var (s1, s') := (Looked(s, key), Describe(w, always, s, key, required).0);
            var s2 := Checked(w, s1, key);
            s' == s || s' == s1 || s' == s2
            || (s' == Ask(w, s2, key, required) && (!Recently(w, s1, key) || (required && Bare(s2, key))))
  {
  }

  lemma DescribeInv(w: World, always: bool, s: State, key: Key, required: bool)
    requires Monotone(w) && Inv(w, s)
    ensures Inv(w, Describe(w, always, s, key, required).0)
  {
    var s1, s' := Looked(s, key), Describe(w, always, s, key, required).0;
    DescribeForm(w, always, s, key, required);
    LookedInv(w, s, key);
    CheckedInv(w, s1, key);
    if s' != s && s' != s1 && s' != Checked(w, s1, key) {
      AskInv(w, Checked(w, s1, key), key, required);
    }
  }

  lemma {:induction false} UsesInv(w: World, always: bool, us: seq<Use>)
    requires Monotone(w)
    ensures Inv(w, Uses(w, always, us))
  {
    if us != [] {
      var before, u := us[..|us| - 1], us[|us| - 1];
      UsesInv(w, always, before);
      if u.Look? { DescribeInv(w, always, Uses(w, always, before), u.key, u.required); }
    }
  }

  /**
   Over any run with a clock that does not go back: within 60 seconds of a failure for a key, unless endpoints were got
   for it since, a request is made only for a required operation with nothing cached to fall back on.
   */
  lemma BacksOff(w: World, always: bool, us: seq<Use>, j: nat)
    requires Monotone(w) && j < |Uses(w, always, us).asked|
    ensures Patient(Uses(w, always, us).asked, j)
  {
    UsesInv(w, always, us);
  }

  /** An address handed out after any run was offered by the latest answer with endpoints for its key. */
  lemma FromLatestAnswer(w: World, always: bool, us: seq<Use>, key: Key, required: bool)
    requires Monotone(w) && Describe(w, always, Uses(w, always, us), key, required).1.Address?
    ensures var (s', ending) := Describe(w, always, Uses(w, always, us), key, required);
            var i := Latest(s'.asked, key);
            i.Some? && exists n :: 0 <= n < |s'.asked[i.value].answer.offers|
                         && s'.asked[i.value].answer.offers[n].address == ending.address
  {
    UsesInv(w, always, us);
    var s := Uses(w, always, us);
    DescribeInv(w, always, s, key, required);
    AddressIsCached(w, always, s, key, required);
    var (s', ending) := Describe(w, always, s, key, required);
    var i := Latest(s'.asked, key).value;
    var n :| 0 <= n < |s'.cache[key]| && s'.cache[key][n].address == ending.address;
    assert s'.asked[i].answer.offers[n].address == ending.address;
  }

  // ----- when an endpoint expires, and when a request is made -----------------------------------

  /** A failure that is remembered is the last thing settled for its key. */
  ghost predicate FailuresOk(s: State) {
    forall k :: k in s.failed ==> FailedAt(s.asked, k) == Some(s.failed[k] - 60)
  }

  lemma AskFailures(w: World, s: State, key: Key, required: bool)
    requires FailuresOk(s)
    ensures FailuresOk(Ask(w, s, key, required))
  {
    var s' := Ask(w, s, key, required);
    forall k | k in s'.failed ensures FailedAt(s'.asked, k) == Some(s'.failed[k] - 60) {
      AskFailedAt(w, s, key, required, k);
      AskFailed(w, s, key, required, k);
    }
  }

  lemma AskFailed(w: World, s: State, key: Key, required: bool, k: Key)
    ensures var (s', answer) := (Ask(w, s, key, required), w.source(|s.asked|));
            && (k != key || !(answer.NoConnection? || Parses(answer)) ==>
                  (k in s'.failed <==> k in s.failed) && (k in s.failed ==> s'.failed[k] == s.failed[k]))
            && (k == key && answer.NoConnection? ==> k in s'.failed && s'.failed[k] == w.clock(s.ticks) + 60)
            && (k == key && Parses(answer) ==> k !in s'.failed)
  {
  }

  lemma LooksKeep(w: World, s: State, key: Key)
    requires FailuresOk(s)
    ensures FailuresOk(Looked(s, key)) && FailuresOk(Checked(w, s, key))
  {
  }

  lemma DescribeKeeps(w: World, always: bool, s: State, key: Key, required: bool)
    requires FailuresOk(s)
    ensures FailuresOk(Describe(w, always, s, key, required).0)
  {
    var s1 := Looked(s, key);
    DescribeForm(w, always, s, key, required);
    LooksKeep(w, s, key);
    LooksKeep(w, s1, key);
    AskFailures(w, Checked(w, s1, key), key, required);
  }

  lemma {:induction false} UsesKeep(w: World, always: bool, us: seq<Use>)
    ensures FailuresOk(Uses(w, always, us))
  {
    if us != [] {
      var before, u := us[..|us| - 1], us[|us| - 1];
      UsesKeep(w, always, before);
      if u.Look? { DescribeKeeps(w, always, Uses(w, always, before), u.key, u.required); }
    }
  }

  /** The latest answer with endpoints for a key since they were last deleted. */
  function Standing(w: World, always: bool, us: seq<Use>, key: Key): (r: Option<Request>)
    ensures r.Some? ==> Parses(r.value.answer)
  {
    if us == [] then None
    else
      var before, u := us[..|us| - 1], us[|us| - 1];
      var was, asked := Uses(w, always, before).asked, Uses(w, always, us).asked;
      if u.key == key && u.Forget? then None
      else if u.key == key && |asked| > |was| && Parses(asked[|was|].answer) then Some(asked[|was|])
      else Standing(w, always, before, key)
  }

  /** The entry of a key is that answer's offers, each with the end of its period. */
  ghost predicate Stands(s: State, key: Key, r: Option<Request>)
    requires r.Some? ==> Parses(r.value.answer)
  {
    && (key in s.cache <==> r.Some?)
    && (r.Some? ==>
          var offers := r.value.answer.offers;
          && |s.cache[key]| == |offers|
          && forall j :: 0 <= j < |offers| ==>
               s.cache[key][j] == Endpoint(offers[j].address, r.value.at + 60 * offers[j].period.value))
  }

  lemma AskStands(w: World, s: State, key: Key, required: bool, k: Key, r: Option<Request>)
    requires (r.Some? ==> Parses(r.value.answer)) && Stands(s, k, r)
    ensures var (s', answer) := (Ask(w, s, key, required), w.source(|s.asked|));
            Stands(s', k, if k == key && Parses(answer) then Some(s'.asked[|s.asked|]) else r)
  {
  }

  lemma DescribeStands(w: World, always: bool, s: State, key: Key, required: bool, k: Key, r: Option<Request>)
    requires (r.Some? ==> Parses(r.value.answer)) && Stands(s, k, r)
    ensures var (asked, s') := (|s.asked|, Describe(w, always, s, key, required).0);
            var asks := |s'.asked| > asked && Parses(s'.asked[asked].answer);
            Stands(s', k, if k == key && asks then Some(s'.asked[asked]) else r)
  {
    var s2 := Checked(w, Looked(s, key), key);
    DescribeForm(w, always, s, key, required);
    AskStands(w, s2, key, required, k, r);
  }

  lemma {:induction false} UsesStand(w: World, always: bool, us: seq<Use>, key: Key)
    ensures Stands(Uses(w, always, us), key, Standing(w, always, us, key))
  {
    if us != [] {
      var before, u := us[..|us| - 1], us[|us| - 1];
      UsesStand(w, always, before, key);
      if u.Look? {
        DescribeStands(w, always, Uses(w, always, before), u.key, u.required, key, Standing(w, always, before, key));
      }
    }
  }

  /** The offer is good at that time: fewer minutes than its period have passed since it was answered. */
  predicate Fresh(r: Request, j: nat, now: int)
    requires Parses(r.answer) && j < |r.answer.offers|
  {
    now < r.at + 60 * r.answer.offers[j].period.value
  }

  predicate FirstFresh(r: Request, j: nat, now: int) {
    Parses(r.answer) && j < |r.answer.offers| && Fresh(r, j, now) && forall k :: 0 <= k < j ==> !Fresh(r, k, now)
  }

  predicate NoneFresh(r: Option<Request>, now: int)
    requires r.Some? ==> Parses(r.value.answer)
  {
    r.Some? ==> forall j :: 0 <= j < |r.value.answer.offers| ==> !Fresh(r.value, j, now)
  }

  lemma {:induction false} NoneUnexpired(es: seq<Endpoint>, now: int)
    ensures Unexpired(es, now) == [] <==> forall j :: 0 <= j < |es| ==> es[j].expiration <= now
  {
    if es != [] {
      NoneUnexpired(es[1..], now);
      assert forall j :: 0 < j < |es| ==> es[j] == es[1..][j - 1];
    }
  }

  lemma NoneCurrent(w: World, s: State, key: Key, r: Option<Request>)
    requires (r.Some? ==> Parses(r.value.answer)) && Stands(s, key, r)
    ensures Current(w, s, key) == [] <==> NoneFresh(r, w.clock(s.ticks))
  {
    if r.Some? {
      var now := w.clock(s.ticks);
      NoneUnexpired(s.cache[key], now);
      assert forall j :: 0 <= j < |s.cache[key]| ==> (Fresh(r.value, j, now) <==> now < s.cache[key][j].expiration);
    }
  }

  /**
   In every run an offer of the standing answer is used without a request as long as its period lasts, if the offers
   before it are over.
   */
  lemma {:induction false} UsedWhileFresh(w: World, always: bool, us: seq<Use>, key: Key, required: bool, r: Request,
                                          j: nat)
    requires (always || required) && Standing(w, always, us, key) == Some(r)
    requires FirstFresh(r, j, w.clock(Uses(w, always, us).ticks))
    ensures var s := Uses(w, always, us);
            Describe(w, always, s, key, required) == (s.(ticks := s.ticks + 1), Address(r.answer.offers[j].address))
  {
    UsesStand(w, always, us, key);
    UsedFor(w, always, Uses(w, always, us), key, required, r, j);
  }

  lemma UsedFor(w: World, always: bool, s: State, key: Key, required: bool, r: Request, j: nat)
    requires (always || required) && FirstFresh(r, j, w.clock(s.ticks)) && Stands(s, key, Some(r))
    ensures Describe(w, always, s, key, required) == (s.(ticks := s.ticks + 1), Address(r.answer.offers[j].address))
  {
    var es, now := s.cache[key], w.clock(s.ticks);
    forall k | 0 <= k < j ensures es[k].expiration <= now { assert !Fresh(r, k, now); }
    UnexpiredAre(es, now, j);
  }

  /** A lost connection for the key less than 60 seconds ago, with nothing settled for the key since. */
  predicate FailedLately(s: State, key: Key, now: int) {
    FailedAt(s.asked, key).Some? && now < FailedAt(s.asked, key).value + 60
  }

  /**
   Discovery is on for the operation, no offer is good, and either the last request did not fail lately or the operation
   requires an endpoint and no offer stands to fall back on.
   */
  predicate HasToAsk(w: World, always: bool, us: seq<Use>, key: Key, required: bool) {
    var (s, r) := (Uses(w, always, us), Standing(w, always, us, key));
    var later := w.clock(if r.Some? then s.ticks + 1 else s.ticks);
    && (always || required) && NoneFresh(r, w.clock(s.ticks))
    && (!FailedLately(s, key, later) || (required && (r.None? || r.value.answer.offers == [])))
  }

  /** In every run with a clock that does not go back a call makes a request exactly if it has to. */
  lemma {:induction false} AsksExactly(w: World, always: bool, us: seq<Use>, key: Key, required: bool)
    requires Monotone(w)
    ensures var s := Uses(w, always, us);
            |Describe(w, always, s, key, required).0.asked| > |s.asked| <==> HasToAsk(w, always, us, key, required)
  {
    var s, r := Uses(w, always, us), Standing(w, always, us, key);
    UsesStand(w, always, us, key);
    UsesKeep(w, always, us);
    UsesInv(w, always, us);
    NoneCurrent(w, s, key, r);
    LatelyIs(w, s, key);
    AsksIf(w, always, s, key, required);
  }

  lemma LatelyIs(w: World, s: State, key: Key)
    requires FailuresOk(s) && Monotone(w) && BackoffOk(w, s)
    ensures Recently(w, Looked(s, key), key) <==>
              FailedLately(s, key, w.clock(if key in s.cache then s.ticks + 1 else s.ticks))
  {
    if FailedAt(s.asked, key).Some? { assert Backed(w, s, key); }
  }

  lemma AsksIf(w: World, always: bool, s: State, key: Key, required: bool)
    ensures |Describe(w, always, s, key, required).0.asked| > |s.asked| <==>
              && (always || required) && Current(w, s, key) == []
              && (!Recently(w, Looked(s, key), key) || (required && Bare(s, key)))
  {
  }

  /** What a call ends with when no offer is good: standing is the answer before it, answer that to its own request. */
  function Expected(standing: Option<Request>, answer: Option<Answer>, required: bool): Ending {
    if answer.Some? && (answer.value.OtherError? || (answer.value.Response? && !Parses(answer.value))) then Failed
    else
      var offers := if answer.Some? && answer.value.Response? then answer.value.offers
                    else if standing.Some? && standing.value.answer.Response? then standing.value.answer.offers
                    else [];
      if offers != [] then Address(offers[0].address) else if required then RefreshFailed else NoAddress
  }

  /**
   In every run: a call for which no offer is good ends with the error of its request, or else with the first offer of
   the answer it got or, if the connection was lost or no request was made, of the one that stands, good or not; without
   any offer it ends with the refresh error or with no address.
   */
  lemma {:induction false} EndsExactly(w: World, always: bool, us: seq<Use>, key: Key, required: bool)
    requires (always || required) && NoneFresh(Standing(w, always, us, key), w.clock(Uses(w, always, us).ticks))
    ensures var (s, r) := (Uses(w, always, us), Standing(w, always, us, key));
            var (s', ending) := Describe(w, always, s, key, required);
            ending == Expected(r, if |s'.asked| > |s.asked| then Some(s'.asked[|s.asked|].answer) else None, required)
  {
    var s, r := Uses(w, always, us), Standing(w, always, us, key);
    UsesStand(w, always, us, key);
    NoneCurrent(w, s, key, r);
    EndsFor(w, always, s, key, required, r);
  }

  lemma EndsFor(w: World, always: bool, s: State, key: Key, required: bool, r: Option<Request>)
    requires (r.Some? ==> Parses(r.value.answer)) && Stands(s, key, r)
    requires (always || required) && Current(w, s, key) == []
    ensures var (s', ending) := Describe(w, always, s, key, required);
            ending == Expected(r, if |s'.asked| > |s.asked| then Some(s'.asked[|s.asked|].answer) else None, required)
  {
    var s2 := Checked(w, Looked(s, key), key);
    assert Stands(s2, key, r) && s2.asked == s.asked;
    AskSeen(w, s2, key, required, r);
    if Recently(w, Looked(s, key), key) { EndsWaiting(w, always, s, key, required); }
    else { EndsAsking(w, always, s, key, required); }
  }

  /** The request, and what there is to fall back on after it. */
  lemma AskSeen(w: World, s: State, key: Key, required: bool, r: Option<Request>)
    requires (r.Some? ==> Parses(r.value.answer)) && Stands(s, key, r)
    ensures var (s', answer) := (Ask(w, s, key, required), w.source(|s.asked|));
            && |s'.asked| == |s.asked| + 1 && s'.asked[|s.asked|].answer == answer
            && FallBack(s, key, required) == Expected(r, None, required)
            && (if Got(answer).Some? then Got(answer).value else FallBack(s', key, required)) ==
               Expected(r, Some(answer), required)
  {
  }

  /** The first endpoint cached for the key, whatever its time, and without any the error or no address. */
  function FallBack(s: State, key: Key, required: bool): Ending {
    if !Bare(s, key) then Address(s.cache[key][0].address) else if required then RefreshFailed else NoAddress
  }

  lemma EndsAsking(w: World, always: bool, s: State, key: Key, required: bool)
    requires (always || required) && Current(w, s, key) == [] && !Recently(w, Looked(s, key), key)
    ensures var s2 := Checked(w, Looked(s, key), key);
            var (s', answer) := (Ask(w, s2, key, required), w.source(|s2.asked|));
            Describe(w, always, s, key, required) ==
              (s', if Got(answer).Some? then Got(answer).value else FallBack(s', key, required))
  {
  }

  lemma EndsWaiting(w: World, always: bool, s: State, key: Key, required: bool)
    requires (always || required) && Current(w, s, key) == [] && Recently(w, Looked(s, key), key)
    ensures var s2 := Checked(w, Looked(s, key), key);
            var (s', answer) := (Ask(w, s2, key, required), w.source(|s2.asked|));
            Describe(w, always, s, key, required) ==
              if required && Bare(s2, key)
              then (s', if Got(answer).Some? then Got(answer).value else FallBack(s', key, required))
              else (s2, FallBack(s2, key, required))
  {
  }
}
