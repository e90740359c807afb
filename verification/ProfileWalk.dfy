/** Finding the credentials behind a profile that assumes a role: source profiles are followed until one has its own. */
module ProfileWalk {
  import opened Outcomes

  type Name = string

  /** The keys of a profile that matter here. */
  datatype Profile = Profile(
    roleArn: bool, webIdentity: bool, source: Option<Name>, credentialSource: Option<string>,
    accessKey: bool, secretKey: bool)

  /**
   What the provider was made with: sourcer tells for each credential source it supports whether it yields credentials,
   and chain is the profiles for which the providers that the builder makes find credentials.
   */
  datatype Config = Config(profiles: map<Name, Profile>, sourcer: Option<map<string, bool>>, builder: bool,
                           chain: set<Name>)

  datatype Problem = InvalidConfig | PartialCredentials | InfiniteLoop | NotRetrieved | NoBuilder

  datatype Source =
    | Static(profile: Name)
    | Provided(profile: Name)
    | Sourced(name: string)
    | Assumed(profile: Name, behind: Source)

  datatype Result = Found(source: Source) | Failed(problem: Problem)

  predicate HasRole(p: Profile) {
    p.roleArn && !p.webIdentity
  }

  predicate HasStatic(p: Profile) {
    p.accessKey || p.secretKey
  }

  /** What is wrong with the configuration of a profile that assumes a role, if anything. */
  function Validated(c: Config, visited: seq<Name>, name: Name): Option<Problem>
    requires name in c.profiles
  {
    var p := c.profiles[name];
    if p.credentialSource.Some? && p.source.Some? then Some(InvalidConfig)
    else if p.credentialSource.None? && p.source.None? then Some(PartialCredentials)
    else if p.credentialSource.Some? then
      if c.sourcer.None? || p.credentialSource.value !in c.sourcer.value then Some(InvalidConfig) else None
    else
      var source := p.source.value;
      if source !in c.profiles then Some(InvalidConfig)
      else if source !in visited then None
      else if source != name || !HasStatic(c.profiles[source]) then Some(InfiniteLoop)
      else None
  }

  /** The credentials of a source profile that has its own. */
  function OwnCredentials(c: Config, name: Name): Result
    requires name in c.profiles
  {
    var p := c.profiles[name];
    if HasStatic(p) && !c.builder then
      if p.accessKey && p.secretKey then Found(Static(name)) else Failed(PartialCredentials)
    else if !c.builder then Failed(NoBuilder)
    else if name in c.chain then Found(Provided(name)) else Failed(InvalidConfig)
  }

  function Through(name: Name, r: Result): Result {
    if r.Found? then Found(Assumed(name, r.source)) else r
  }

  function Unvisited(c: Config, visited: seq<Name>): set<Name> {
    set n | n in c.profiles && n !in visited
  }

  /** The result of the walk from a profile, and the profiles visited when it ends. */
  function Assume(c: Config, visited: seq<Name>, name: Name): (Result, seq<Name>)
    requires name in c.profiles
    decreases |Unvisited(c, visited)|
  {
    var p := c.profiles[name];
    var problem := Validated(c, visited, name);
    if problem.Some? then (Failed(problem.value), visited)
    else if p.credentialSource.Some? then
      (if c.sourcer.value[p.credentialSource.value] then Found(Assumed(name, Sourced(p.credentialSource.value)))
       else Failed(NotRetrieved), visited)
    else
      var source := p.source.value;
      var now := visited + [source];
      if HasStatic(c.profiles[source]) || !HasRole(c.profiles[source]) then
        (Through(name, OwnCredentials(c, source)), now)
      else
        FewerUnvisited(c, visited, source);
        var (r, after) := Assume(c, now, source);
        (Through(name, r), after)
  }

  lemma FewerUnvisited(c: Config, visited: seq<Name>, name: Name)
    requires name in c.profiles && name !in visited
    ensures |Unvisited(c, visited + [name])| < |Unvisited(c, visited)|
  {
    assert Unvisited(c, visited) == Unvisited(c, visited + [name]) + {name};
  }

  class Provider {
    const config: Config
    const start: Name
    var visited: seq<Name>

    constructor (config: Config, start: Name)
      ensures visited == [start] && this.config == config && this.start == start
    {
      this.config, this.start, visited := config, start, [start];
    }

    /** load: nothing for a profile that does not assume a role. The visited profiles stay for the next time. */
    method Load() returns (r: Option<Result>)
      modifies this
      ensures if start in config.profiles && HasRole(config.profiles[start])
              then (r, visited) == (Some(Assume(config, old(visited), start).0), Assume(config, old(visited), start).1)
              else r == None && visited == old(visited)
    {
      if start in config.profiles && HasRole(config.profiles[start]) {
        var found := LoadViaAssumeRole(start);
        return Some(found);
      }
      r := None;
    }

    method LoadViaAssumeRole(name: Name) returns (r: Result)
      requires name in config.profiles
      modifies this
      ensures (r, visited) == Assume(config, old(visited), name)
      decreases |Unvisited(config, visited)|, 1
    {
      var problem := Validated(config, visited, name);
      if problem.Some? { return Failed(problem.value); }
      var p := config.profiles[name];
      if p.credentialSource.Some? {
        var source := p.credentialSource.value;
        return if config.sourcer.value[source] then Found(Assumed(name, Sourced(source))) else Failed(NotRetrieved);
      }
      var source := p.source.value;
      if source in visited {
        assert Unvisited(config, visited + [source]) == Unvisited(config, visited);
      } else {
        FewerUnvisited(config, visited, source);
      }
      visited := visited + [source];
      r := ResolveFromProfile(source);
      r := Through(name, r);
    }

    method ResolveFromProfile(name: Name) returns (r: Result)
      requires name in config.profiles
      modifies this
      ensures var p := config.profiles[name];
              (r, visited) == if HasStatic(p) || !HasRole(p) then (OwnCredentials(config, name), old(visited))
                              else Assume(config, old(visited), name)
      decreases |Unvisited(config, visited)|,
                if HasStatic(config.profiles[name]) || !HasRole(config.profiles[name]) then 0 else 2
    {
      var p := config.profiles[name];
      if HasStatic(p) || !HasRole(p) {
        return OwnCredentials(config, name);
      }
      r := LoadViaAssumeRole(name);
    }
  }

  // ----- when the infinite-loop error is raised -------------------------------------------------

  predicate Refers(c: Config, name: Name, source: Name) {
    name in c.profiles && c.profiles[name].credentialSource.None? && c.profiles[name].source == Some(source)
  }

  /** Profiles each referring to the next; all assume a role, and only the first may have keys of its own. */
  ghost predicate Walk(c: Config, ps: seq<Name>) {
    && ps != []
    && (forall i :: 0 <= i < |ps| ==> ps[i] in c.profiles && HasRole(c.profiles[ps[i]]))
    && (forall i :: 0 < i < |ps| ==> !HasStatic(c.profiles[ps[i]]))
    && (forall i :: 0 <= i < |ps| - 1 ==> Refers(c, ps[i], ps[i + 1]))
    && (forall i, j :: 0 <= i < j < |ps| ==> ps[i] != ps[j])
  }

  /** The walk comes back to a profile other than the one referring to it, or refers to itself without static keys. */
  ghost predicate ComesBack(c: Config, ps: seq<Name>) {
    && Walk(c, ps)
    && (exists i :: 0 <= i < |ps| && Refers(c, ps[|ps| - 1], ps[i])
          && (i < |ps| - 1 || !HasStatic(c.profiles[ps[i]])))
  }

  ghost predicate Extends(qs: seq<Name>, ps: seq<Name>) {
    |ps| <= |qs| && qs[..|ps|] == ps
  }

  /** A longer walk that comes back goes on to the source of the last profile. */
  lemma GoesOn(c: Config, ps: seq<Name>, qs: seq<Name>)
    requires Walk(c, ps) && Walk(c, qs) && Extends(qs, ps) && qs != ps
    ensures |ps| < |qs| && Refers(c, ps[|ps| - 1], qs[|ps|])
    ensures qs[|ps|] !in ps && qs[|ps|] in c.profiles && HasRole(c.profiles[qs[|ps|]])
            && !HasStatic(c.profiles[qs[|ps|]])
    ensures Extends(qs, ps + [qs[|ps|]])
  {
    assert qs[..|ps|] == ps;
    assert qs[..|qs|] == qs;
    assert ps[|ps| - 1] == qs[|ps| - 1];
    forall i | 0 <= i < |ps| ensures ps[i] != qs[|ps|] { assert ps[i] == qs[i]; }
    assert qs[..|ps| + 1] == ps + [qs[|ps|]];
  }

  lemma WalkOn(c: Config, ps: seq<Name>, source: Name)
    requires Walk(c, ps) && Refers(c, ps[|ps| - 1], source) && source !in ps
    requires source in c.profiles && HasRole(c.profiles[source]) && !HasStatic(c.profiles[source])
    ensures Walk(c, ps + [source])
  {
  }

  lemma ProblemAtOnce(c: Config, ps: seq<Name>)
    requires Walk(c, ps)
    ensures Validated(c, ps, ps[|ps| - 1]) == Some(InfiniteLoop) <==> ComesBack(c, ps)
  {
    var name := ps[|ps| - 1];
    if Validated(c, ps, name) == Some(InfiniteLoop) {
      var source := c.profiles[name].source.value;
      var i :| 0 <= i < |ps| && ps[i] == source;
      assert Refers(c, name, ps[i]);
    }
  }

  lemma {:induction false} LoopsFrom(c: Config, ps: seq<Name>)
    requires Walk(c, ps)
    ensures Assume(c, ps, ps[|ps| - 1]).0 == Failed(InfiniteLoop) <==> exists qs :: Extends(qs, ps) && ComesBack(c, qs)
    decreases |Unvisited(c, ps)|
  {
    var name := ps[|ps| - 1];
    ProblemAtOnce(c, ps);
    if ComesBack(c, ps) {
      assert Extends(ps, ps);
    } else {
      forall qs | Extends(qs, ps) && ComesBack(c, qs) ensures qs != ps && Extends(qs, ps + [qs[|ps|]]) {
        GoesOn(c, ps, qs);
      }
      if Validated(c, ps, name).None? && c.profiles[name].credentialSource.None? {
        var source := c.profiles[name].source.value;
        if !HasStatic(c.profiles[source]) && HasRole(c.profiles[source]) {
          FewerUnvisited(c, ps, source);
          WalkOn(c, ps, source);
          LoopsFrom(c, ps + [source]);
          assert Assume(c, ps, name).0 == Failed(InfiniteLoop) <==>
                   Assume(c, ps + [source], source).0 == Failed(InfiniteLoop);
          forall qs | Extends(qs, ps + [source]) ensures Extends(qs, ps) {
            assert qs[..|ps|] == (ps + [source])[..|ps|];
          }
        }
      }
    }
  }

  /** load raises the infinite-loop error exactly when the walk from its profile comes back. */
  lemma LoopsExactly(c: Config, start: Name)
    requires start in c.profiles && HasRole(c.profiles[start])
    ensures Assume(c, [start], start).0 == Failed(InfiniteLoop) <==>
              exists qs :: qs != [] && qs[0] == start && ComesBack(c, qs)
  {
    LoopsFrom(c, [start]);
    forall qs: seq<Name> ensures Extends(qs, [start]) <==> qs != [] && qs[0] == start {
      if qs != [] { assert qs[..1] == [qs[0]]; }
    }
  }

  // ----- walks that never end -------------------------------------------------------------------

  /** The next profile that has to assume a role, with no regard to the profiles visited before. */
  function Onward(c: Config, name: Name): Option<Name> {
    if name in c.profiles && c.profiles[name].credentialSource.None? && c.profiles[name].source.Some?
       && c.profiles[name].source.value in c.profiles
       && HasRole(c.profiles[c.profiles[name].source.value]) && !HasStatic(c.profiles[c.profiles[name].source.value])
    then c.profiles[name].source else None
  }

  function Nth(c: Config, start: Name, n: nat): Option<Name> {
    if n == 0 then Some(start)
    else
      match Nth(c, start, n - 1)
      case None => None
      case Some(name) => Onward(c, name)
  }

  lemma {:induction false} WalkIsNth(c: Config, ps: seq<Name>, i: nat)
    requires Walk(c, ps) && i < |ps|
    ensures Nth(c, ps[0], i) == Some(ps[i])
  {
    if i > 0 { WalkIsNth(c, ps, i - 1); }
  }

  /** A walk that has come back stays on its profiles for ever. */
  lemma {:induction false} StaysOn(c: Config, ps: seq<Name>, n: nat)
    requires ComesBack(c, ps) && !HasStatic(c.profiles[ps[0]])
    ensures Nth(c, ps[0], n).Some? && Nth(c, ps[0], n).value in ps
  {
    if n > 0 {
      StaysOn(c, ps, n - 1);
      var i :| 0 <= i < |ps| && ps[i] == Nth(c, ps[0], n - 1).value;
      if i < |ps| - 1 {
        assert Refers(c, ps[i], ps[i + 1]);
      } else {
        var j :| 0 <= j < |ps| && Refers(c, ps[|ps| - 1], ps[j]);
      }
    }
  }

  /** A walk without the error ends after some number of profiles. */
  lemma {:induction false} Ends(c: Config, ps: seq<Name>) returns (n: nat)
    requires Walk(c, ps) && !HasStatic(c.profiles[ps[0]])
    requires Assume(c, ps, ps[|ps| - 1]).0 != Failed(InfiniteLoop)
    ensures Nth(c, ps[0], n).None?
    decreases |Unvisited(c, ps)|
  {
    var name := ps[|ps| - 1];
    WalkIsNth(c, ps, |ps| - 1);
    ProblemAtOnce(c, ps);
    n := |ps|;
    if Onward(c, name).Some? {
      var source := c.profiles[name].source.value;
      assert source !in ps;
      FewerUnvisited(c, ps, source);
      WalkOn(c, ps, source);
      n := Ends(c, ps + [source]);
    }
  }

  /**
   Without static keys in the first profile, the error is raised exactly when following the source profiles never ends.
   */
  lemma LoopsIfEndless(c: Config, start: Name)
    requires start in c.profiles && HasRole(c.profiles[start]) && !HasStatic(c.profiles[start])
    ensures Assume(c, [start], start).0 == Failed(InfiniteLoop) <==> forall n :: Nth(c, start, n).Some?
  {
    LoopsExactly(c, start);
    if Assume(c, [start], start).0 == Failed(InfiniteLoop) {
      var qs :| qs != [] && qs[0] == start && ComesBack(c, qs);
      forall n ensures Nth(c, start, n).Some? { StaysOn(c, qs, n); }
    } else {
      var n := Ends(c, [start]);
    }
  }

  // ----- what a walk ends with ------------------------------------------------------------------

  /** The role of each profile of the walk, assumed with the credentials of the next, the last one with these. */
  function Assumption(ps: seq<Name>, behind: Source): Source {
    if ps == [] then behind else Assumed(ps[0], Assumption(ps[1..], behind))
  }

  /** The last profile of the walk names a source profile, and is allowed to go to it. */
  ghost predicate GoesTo(c: Config, ps: seq<Name>, q: Name)
    requires ps != []
  {
    var z := ps[|ps| - 1];
    && Refers(c, z, q) && q in c.profiles && (q in ps ==> q == z && HasStatic(c.profiles[q]))
  }

  /** It names a credential source and no source profile. */
  ghost predicate Names(c: Config, ps: seq<Name>, source: string)
    requires ps != []
  {
    var z := ps[|ps| - 1];
    z in c.profiles && c.profiles[z].source.None? && c.profiles[z].credentialSource == Some(source)
  }

  predicate Supported(c: Config, source: string) {
    c.sourcer.Some? && source in c.sourcer.value
  }

  /** A profile that needs no role: it has static keys, or names none. */
  predicate StandsAlone(p: Profile) {
    p.accessKey || p.secretKey || !p.roleArn || p.webIdentity
  }

  /** The credentials at the end of a walk: those of its last profile's source. */
  ghost predicate EndsWith(c: Config, ps: seq<Name>, behind: Source)
    requires ps != []
  {
    match behind
    case Static(q) =>
      GoesTo(c, ps, q) && !c.builder && c.profiles[q].accessKey && c.profiles[q].secretKey
    case Provided(q) => GoesTo(c, ps, q) && c.builder && q in c.chain && StandsAlone(c.profiles[q])
    case Sourced(source) => Names(c, ps, source) && Supported(c, source) && c.sourcer.value[source]
    case Assumed(_, _) => false
  }

  /** What is wrong at the end of a walk. */
  ghost predicate FailsWith(c: Config, ps: seq<Name>, problem: Problem)
    requires ps != [] && ps[|ps| - 1] in c.profiles
  {
    var p := c.profiles[ps[|ps| - 1]];
    match problem
    case InvalidConfig =>
      || (p.source.Some? && p.credentialSource.Some?)
      || (exists source :: Names(c, ps, source) && !Supported(c, source))
      || (exists q :: Refers(c, ps[|ps| - 1], q) && q !in c.profiles)
      || (exists q :: GoesTo(c, ps, q) && c.builder && q !in c.chain && StandsAlone(c.profiles[q]))
    case PartialCredentials =>
      || (p.source.None? && p.credentialSource.None?)
      || (exists q :: GoesTo(c, ps, q) && !c.builder && c.profiles[q].accessKey != c.profiles[q].secretKey)
    case InfiniteLoop => ComesBack(c, ps)
    case NotRetrieved => exists source :: Names(c, ps, source) && Supported(c, source) && !c.sourcer.value[source]
    case NoBuilder =>
      exists q :: GoesTo(c, ps, q) && !c.builder
                  && StandsAlone(c.profiles[q]) && !c.profiles[q].accessKey && !c.profiles[q].secretKey
  }

  /** The result of a walk that ends here: its roles assumed, or its problem. */
  ghost predicate EndsIn(c: Config, ps: seq<Name>, from: nat, r: Result)
    requires from < |ps| && ps[|ps| - 1] in c.profiles
  {
    match r
    case Found(src) => exists behind :: src == Assumption(ps[from..], behind) && EndsWith(c, ps, behind)
    case Failed(problem) => FailsWith(c, ps, problem)
  }

  /** The walk goes on to q. */
  ghost predicate Continues(c: Config, ps: seq<Name>, q: Name)
    requires ps != []
  {
    Refers(c, ps[|ps| - 1], q) && q in c.profiles && q !in ps && !StandsAlone(c.profiles[q])
  }

  lemma OneRole(ps: seq<Name>, behind: Source)
    requires ps != []
    ensures Assumption(ps[|ps| - 1..], behind) == Assumed(ps[|ps| - 1], behind)
  {
    assert ps[|ps| - 1..] == [ps[|ps| - 1]];
    assert [ps[|ps| - 1]][1..] == [];
  }

  lemma OneMoreRole(ps: seq<Name>, n: nat, behind: Source)
    requires n < |ps|
    ensures Assumption(ps[n..], behind) == Assumed(ps[n], Assumption(ps[n + 1..], behind))
  {
    assert ps[n..][1..] == ps[n + 1..];
  }

  /** Where the walk does not go on it ends with the result. */
  lemma EndsHere(c: Config, ps: seq<Name>)
    requires Walk(c, ps) && forall q :: !Continues(c, ps, q)
    ensures EndsIn(c, ps, |ps| - 1, Assume(c, ps, ps[|ps| - 1]).0)
  {
    var z := ps[|ps| - 1];
    var p := c.profiles[z];
    ProblemAtOnce(c, ps);
    if p.credentialSource.Some? && p.source.None? {
      var source := p.credentialSource.value;
      assert Names(c, ps, source);
      OneRole(ps, Sourced(source));
    } else if p.credentialSource.None? && p.source.Some? {
      var q := p.source.value;
      assert Refers(c, z, q);
      if Validated(c, ps, z).None? {
        assert GoesTo(c, ps, q) && StandsAlone(c.profiles[q]) by { assert !Continues(c, ps, q); }
        OneRole(ps, Static(q));
        OneRole(ps, Provided(q));
      }
    }
  }

  /** And the other way round. */
  lemma HereIs(c: Config, ps: seq<Name>, r: Result)
    requires Walk(c, ps) && EndsIn(c, ps, |ps| - 1, r)
    ensures Assume(c, ps, ps[|ps| - 1]).0 == r
  {
    var z := ps[|ps| - 1];
    ProblemAtOnce(c, ps);
    match r
    case Found(src) =>
      var behind :| src == Assumption(ps[|ps| - 1..], behind) && EndsWith(c, ps, behind);
      OneRole(ps, behind);
    case Failed(_) =>
  }

  lemma GoesOnTo(c: Config, ps: seq<Name>, q: Name)
    requires Walk(c, ps) && Continues(c, ps, q)
    ensures Walk(c, ps + [q]) && |Unvisited(c, ps + [q])| < |Unvisited(c, ps)|
    ensures Assume(c, ps, ps[|ps| - 1]).0 == Through(ps[|ps| - 1], Assume(c, ps + [q], q).0)
  {
    FewerUnvisited(c, ps, q);
    WalkOn(c, ps, q);
  }

  lemma {:induction false} WalksTo(c: Config, ps: seq<Name>) returns (qs: seq<Name>)
    requires Walk(c, ps)
    ensures Walk(c, qs) && Extends(qs, ps) && EndsIn(c, qs, |ps| - 1, Assume(c, ps, ps[|ps| - 1]).0)
    decreases |Unvisited(c, ps)|
  {
    if q :| Continues(c, ps, q) {
      GoesOnTo(c, ps, q);
      qs := WalksTo(c, ps + [q]);
      assert qs[..|ps|] == (ps + [q])[..|ps|];
      var r := Assume(c, ps + [q], q).0;
      if r.Found? {
        var behind :| r.source == Assumption(qs[|ps|..], behind) && EndsWith(c, qs, behind);
        assert qs[|ps| - 1] == (ps + [q])[|ps| - 1] by { assert qs[..|ps| + 1] == ps + [q]; }
        OneMoreRole(qs, |ps| - 1, behind);
      }
    } else {
      qs := ps;
      EndsHere(c, ps);
    }
  }

  lemma {:induction false} WalkGives(c: Config, ps: seq<Name>, qs: seq<Name>, r: Result)
    requires Walk(c, ps) && Walk(c, qs) && Extends(qs, ps) && EndsIn(c, qs, |ps| - 1, r)
    ensures Assume(c, ps, ps[|ps| - 1]).0 == r
    decreases |qs| - |ps|
  {
    if qs == ps {
      HereIs(c, ps, r);
    } else {
      GoesOn(c, ps, qs);
      var q := qs[|ps|];
      GoesOnTo(c, ps, q);
      assert qs[..|ps|] == ps;
      if r.Found? {
        var behind :| r.source == Assumption(qs[|ps| - 1..], behind) && EndsWith(c, qs, behind);
        OneMoreRole(qs, |ps| - 1, behind);
        assert qs[|ps| - 1] == ps[|ps| - 1] by { assert qs[..|ps|] == ps; }
        WalkGives(c, ps + [q], qs, Found(Assumption(qs[|ps|..], behind)));
      } else {
        WalkGives(c, ps + [q], qs, r);
      }
    }
  }

  lemma StartsAt(start: Name, ps: seq<Name>)
    ensures Extends(ps, [start]) <==> ps != [] && ps[0] == start
  {
    if ps != [] { assert ps[..1] == [ps[0]]; }
  }

  /** The credentials found are the roles of a walk, each assumed with those of the next, and those at its end. */
  lemma FoundExactly(c: Config, start: Name, src: Source)
    requires start in c.profiles && HasRole(c.profiles[start])
    ensures Assume(c, [start], start).0 == Found(src) <==>
              exists ps, behind :: Walk(c, ps) && ps[0] == start && src == Assumption(ps, behind)
                                   && EndsWith(c, ps, behind)
  {
    if Assume(c, [start], start).0 == Found(src) {
      var ps := WalksTo(c, [start]);
      StartsAt(start, ps);
      assert ps[0..] == ps;
    }
    if ps, behind :| Walk(c, ps) && ps[0] == start && src == Assumption(ps, behind) && EndsWith(c, ps, behind) {
      StartsAt(start, ps);
      assert ps[0..] == ps;
      WalkGives(c, [start], ps, Found(src));
    }
  }

  /** A problem is raised exactly if it is what is wrong at the end of a walk. */
  lemma FailsExactly(c: Config, start: Name, problem: Problem)
    requires start in c.profiles && HasRole(c.profiles[start])
    ensures Assume(c, [start], start).0 == Failed(problem) <==>
              exists ps :: Walk(c, ps) && ps[0] == start && FailsWith(c, ps, problem)
  {
    if Assume(c, [start], start).0 == Failed(problem) {
      var ps := WalksTo(c, [start]);
      StartsAt(start, ps);
    }
    if ps :| Walk(c, ps) && ps[0] == start && FailsWith(c, ps, problem) {
      StartsAt(start, ps);
      WalkGives(c, [start], ps, Failed(problem));
    }
  }

  // ----- loading again --------------------------------------------------------------------------

  /** The second time the visited profiles are still there: another profile as the source is taken for a loop. */
  lemma LoadsOnce(c: Config, start: Name, q: Name)
    requires start in c.profiles && HasRole(c.profiles[start]) && Refers(c, start, q) && q != start
    requires Assume(c, [start], start).0.Found?
    ensures Assume(c, Assume(c, [start], start).1, start).0 == Failed(InfiniteLoop)
  {
    Kept(c, [start] + [q], q);
  }

  /** Profiles are only ever added to the visited ones. */
  lemma {:induction false} Kept(c: Config, visited: seq<Name>, name: Name)
    requires name in c.profiles
    ensures forall n :: n in visited ==> n in Assume(c, visited, name).1
    decreases |Unvisited(c, visited)|
  {
    var p := c.profiles[name];
    if Validated(c, visited, name).None? && p.credentialSource.None? {
      var source := p.source.value;
      if !HasStatic(c.profiles[source]) && HasRole(c.profiles[source]) {
        FewerUnvisited(c, visited, source);
        Kept(c, visited + [source], source);
      }
    }
  }
}
