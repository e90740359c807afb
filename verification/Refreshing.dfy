/** Credentials that refresh themselves before they expire, as one thread at a time uses them. */
module Refreshing {
  import opened Outcomes

  type Field = Option<string>

  /** The read-only tuple handed to callers. */
  datatype Frozen = Frozen(access: Field, secret: Field, token: Field, account: Field)

  /**
   What a refresh brings: an exception, a response with a key missing, or data; expiry is None if it cannot be parsed.
   */
  datatype Answer = Failed | Partial | Data(fields: Frozen, expiry: Option<int>)

  datatype Problem = SourceFailed | KeysMissing | BadExpiry | StillExpired

  datatype Ending = Returned(frozen: Option<Frozen>) | Threw(problem: Problem)

  /** Whether less than refreshIn seconds are left; credentials without an expiry time never need a refresh. */
  predicate Needed(expiry: Option<int>, refreshIn: int, now: int) {
    expiry.Some? && expiry.value - now < refreshIn
  }

  predicate Usable(answer: Answer) {
    answer.Data? && answer.expiry.Some?
  }

  class Credentials {
    const advisory: int
    const mandatory: int
    const clock: nat -> int
    const source: nat -> Answer
    var ticks: nat
    var fetches: nat
    var access: Field
    var secret: Field
    var token: Field
    var account: Field
    var expiry: Option<int>
    var frozen: Option<Frozen>
    ghost var first: (Option<Frozen>, Option<int>)
    ghost var origin: Option<nat>

    /** The tuple and the expiry time are both those of construction, or both from one and the same refresh. */
    ghost predicate Valid()
      reads this
    {
      && (frozen.None? ==> expiry.None? && first.0.None?)
      && match origin
         case None => (frozen, expiry) == first
         case Some(g) =>
           g < fetches && Usable(source(g)) && frozen == Some(source(g).fields) && expiry == source(g).expiry
    }

    ghost function LastRead(): int
      reads this
    {
      if ticks == 0 then 0 else clock(ticks - 1)
    }

    constructor (fields: Frozen, expiry: Option<int>, clock: nat -> int, source: nat -> Answer, advisory: int,
                 mandatory: int)
      ensures Valid() && frozen == Some(fields) && this.expiry == expiry && origin == None
      ensures this.clock == clock && this.source == source && this.advisory == advisory && this.mandatory == mandatory
      ensures ticks == 0 && fetches == 0
    {
      this.advisory, this.mandatory, this.clock, this.source := advisory, mandatory, clock, source;
      ticks, fetches := 0, 0;
      access, secret, token, account := fields.access, fields.secret, fields.token, fields.account;
      this.expiry, frozen := expiry, Some(fields);
      first, origin := (Some(fields), expiry), None;
    }

    /** The form without initial credentials: the first use refreshes. */
    constructor Deferred(clock: nat -> int, source: nat -> Answer)
      ensures Valid() && frozen == None && origin == None
      ensures this.clock == clock && this.source == source && advisory == 900 && mandatory == 600
      ensures ticks == 0 && fetches == 0
    {
      advisory, mandatory, this.clock, this.source := 900, 600, clock, source;
      ticks, fetches := 0, 0;
      access, secret, token, account := None, None, None, None;
      expiry, frozen := None, None;
      first, origin := (None, None), None;
    }

    method RefreshNeeded(refreshIn: int) returns (needed: bool)
      modifies this`ticks
      ensures needed == (frozen.None? || Needed(expiry, refreshIn, clock(old(ticks))))
      ensures ticks == old(ticks) + (if frozen.Some? && expiry.Some? then 1 else 0)
    {
      if frozen.None? { return true; }
      if expiry.None? { return false; }
      needed := expiry.value - clock(ticks) < refreshIn;
      ticks := ticks + 1;
    }

    /** Store the data field by field; a response that lacks a key is refused first, a bad expiry time halfway. */
    method SetFromData(answer: Answer) returns (problem: Option<Problem>)
      requires !answer.Failed?
      modifies this`access, this`secret, this`token, this`account, this`expiry
      ensures problem ==
                if answer.Partial? then Some(KeysMissing) else if answer.expiry.None? then Some(BadExpiry) else None
      ensures problem.None? ==> Frozen(access, secret, token, account) == answer.fields && expiry == answer.expiry
      ensures problem.Some? ==> expiry == old(expiry) && account == old(account)
    {
      if answer.Partial? { return Some(KeysMissing); }
      access := answer.fields.access;
      secret := answer.fields.secret;
      token := answer.fields.token;
      if answer.expiry.None? { return Some(BadExpiry); }
      expiry := answer.expiry;
      account := answer.fields.account;
      problem := None;
    }

    /**
     One refresh. A failed source is an error only in the mandatory window; everything else that goes wrong always is.
     */
    method ProtectedRefresh(isMandatory: bool) returns (problem: Option<Problem>)
      requires Valid()
      modifies this
      ensures Valid() && first == old(first)
      ensures fetches == old(fetches) + 1
      ensures var answer := source(old(fetches));
              && (Usable(answer) ==>
                    && ticks == old(ticks) + 1 && frozen == Some(answer.fields) && expiry == answer.expiry
                    && origin == Some(old(fetches))
                    && problem == if Needed(answer.expiry, 0, clock(old(ticks))) then Some(StillExpired) else None)
              && (!Usable(answer) ==>
                    && ticks == old(ticks) && frozen == old(frozen) && expiry == old(expiry) && origin == old(origin)
                    && problem == (match answer
                                   case Failed => if isMandatory then Some(SourceFailed) else None
                                   case Partial => Some(KeysMissing)
                                   case Data(_, _) => Some(BadExpiry)))
    {
      var answer := source(fetches);
      fetches := fetches + 1;
      if answer.Failed? {
        return if isMandatory then Some(SourceFailed) else None;
      }
      problem := SetFromData(answer);
      if problem.Some? { return; }
      frozen := Some(Frozen(access, secret, token, account));
      origin := Some(fetches - 1);
      var expired := RefreshNeeded(0);
      if expired { return Some(StillExpired); }
    }

    /** The lock is free whenever a single thread gets here, so the blocking branch is not taken. */
    method Refresh() returns (problem: Option<Problem>)
      requires Valid()
      modifies this
      ensures Valid() && first == old(first)
      ensures fetches == old(fetches) || fetches == old(fetches) + 1
      ensures fetches == old(fetches) ==> problem == None && frozen == old(frozen) && expiry == old(expiry)
      ensures fetches > old(fetches) <==>
                old(frozen).None? ||
                (Needed(old(expiry), advisory, clock(old(ticks)))
                 && Needed(old(expiry), advisory, clock(old(ticks) + 1)))
      ensures fetches > old(fetches) && Usable(source(old(fetches))) ==>
                && frozen == Some(source(old(fetches)).fields) && expiry == source(old(fetches)).expiry
                && (problem.None? <==> !Needed(expiry, 0, LastRead()))
      ensures fetches > old(fetches) && !Usable(source(old(fetches))) ==>
                && frozen == old(frozen) && expiry == old(expiry)
                && (problem.None? <==>
                      source(old(fetches)).Failed? && old(frozen).Some?
                      && !Needed(old(expiry), mandatory, clock(old(ticks) + 2)))
      ensures problem.None? && 0 <= mandatory <= advisory ==> frozen.Some?
      ensures problem.None? && 0 <= mandatory <= advisory ==> !Needed(expiry, 0, LastRead())
      ensures ticks >= old(ticks) && (problem.None? && expiry.Some? ==> ticks > old(ticks))
    {
      var needed := RefreshNeeded(advisory);
      if !needed { return None; }
      needed := RefreshNeeded(advisory);
      if !needed { return None; }
      var isMandatory := RefreshNeeded(mandatory);
      problem := ProtectedRefresh(isMandatory);
    }

    /**
     A normal return hands out a tuple whose own expiry time had not passed at the last clock read, and never None,
     also in the deferred form.
     */
    method GetFrozen() returns (ending: Ending)
      requires Valid()
      modifies this
      ensures Valid() && first == old(first)
      ensures ending.Returned? && 0 <= mandatory <= advisory ==>
                ending.frozen.Some? && Fresh(ending.frozen.value, LastRead())
      ensures ending.Threw? ==> fetches == old(fetches) + 1
    {
      var problem := Refresh();
      if problem.Some? { return Threw(problem.value); }
      return Returned(frozen);
    }

    /** The tuple is from construction or from one refresh, and the expiry time that came with it has not passed. */
    ghost predicate Fresh(tuple: Frozen, now: int)
      reads this
    {
      || (first.0 == Some(tuple) && !Needed(first.1, 0, now))
      || (exists g: nat ::
            g < fetches && Usable(source(g)) && source(g).fields == tuple && !Needed(source(g).expiry, 0, now))
    }
  }
}
