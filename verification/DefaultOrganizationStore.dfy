/** The flag helpers as they run inside the transaction that holds the lock. */
module DefaultOrganizationStore {
  import opened Wrappers
  import opened Tenancy
  import opened DefaultOrganization

  function WithFlag(org: Org, flagged: bool): Org { org.(flagged := flagged) }

  class Store {
    var orgs: Orgs

    /** The oldest flagged organization, or none when none is flagged. */
    method GetDefault() returns (found: Option<Id>)
      ensures found.Some? ==> IsDefault(orgs, found.value)
      ensures found.None? <==> Flagged(orgs) == {}
      ensures found.Some? ==>
                && found.value in orgs && orgs[found.value].flagged
                && forall id | id in orgs && orgs[id].flagged && id != found.value ::
                     || orgs[found.value].created < orgs[id].created
                     || (orgs[found.value].created == orgs[id].created && found.value < id)
      ensures found.None? <==> forall id | id in orgs :: !orgs[id].flagged
    {
      found := Oldest();
      DefaultReads(orgs, found.GetOr(0));
    }

    method Oldest() returns (found: Option<Id>)
      ensures found.Some? ==> IsDefault(orgs, found.value)
      ensures found.None? <==> Flagged(orgs) == {}
    {
      var left := Flagged(orgs);
      found := None;
      while left != {}
        invariant left <= Flagged(orgs)
        invariant found.None? <==> left == Flagged(orgs)
        invariant found.Some? ==> found.value in Flagged(orgs) - left
        invariant found.Some? ==> forall other | other in Flagged(orgs) - left :: Before(orgs, found.value, other)
        decreases |left|
      {
        var id :| id in left;
        if found.None? || Before(orgs, id, found.value) {
          found := Some(id);
        }
        assert Flagged(orgs) - (left - {id}) == (Flagged(orgs) - left) + {id};
        left := left - {id};
      }
    }

    /** Clears the flag on every other organization and sets it on this one, or changes nothing when it is gone. */
    method Move(target: Id) returns (moved: Option<set<Id>>)
      modifies this
      ensures moved.None? <==> target !in old(orgs)
      ensures moved.None? ==> orgs == old(orgs)
      ensures moved.Some? ==> moved.value == old(Flagged(orgs)) - {target} && Flagged(orgs) == {target}
      ensures orgs.Keys == old(orgs.Keys) && forall id | id in orgs :: orgs[id].created == old(orgs)[id].created
    {
      if target !in orgs {
        return None;
      }
      var cleared := Flagged(orgs) - {target};
      orgs := map id | id in orgs :: WithFlag(orgs[id], orgs[id].flagged && id !in cleared);
      assert Flagged(orgs) <= {target};
      orgs := orgs[target := WithFlag(orgs[target], true)];
      moved := Some(cleared);
    }

    /** Refused for the default, else takes an extra flag off: the default is the same, and the flags fewer by it. */
    method Clear(target: Id) returns (outcome: Outcome)
      modifies this
      ensures outcome == DefaultRequired <==> IsDefault(old(orgs), target)
      ensures outcome == Cleared <==> target in old(Flagged(orgs)) && !IsDefault(old(orgs), target)
      ensures outcome == Unchanged <==> target !in old(Flagged(orgs))
      ensures Flagged(orgs) == if outcome == Cleared then old(Flagged(orgs)) - {target} else old(Flagged(orgs))
      ensures forall id: Id :: IsDefault(old(orgs), id) ==> IsDefault(orgs, id)
      ensures orgs.Keys == old(orgs.Keys) && forall id | id in orgs :: orgs[id].created == old(orgs)[id].created
    {
      var resolved := GetDefault();
      forall id: Id | IsDefault(orgs, id) ensures resolved == Some(id) {
        OneDefault(orgs, id, resolved.value);
      }
      if resolved == Some(target) {
        return DefaultRequired;
      }
      if target in orgs && orgs[target].flagged {
        orgs := orgs[target := WithFlag(orgs[target], false)];
        return Cleared;
      }
      outcome := Unchanged;
    }

    /** Deletes an organization that is not flagged; a flagged one, the default or an extra, stays. */
    method Delete(target: Id) returns (outcome: Outcome)
      modifies this
      ensures outcome == IsTheDefault <==> target in old(Flagged(orgs))
      ensures outcome == IsTheDefault || outcome == Deleted
      ensures orgs == if outcome == Deleted then old(orgs) - {target} else old(orgs)
      ensures Flagged(orgs) == old(Flagged(orgs))
    {
      if target in orgs && orgs[target].flagged {
        return IsTheDefault;
      }
      orgs := orgs - {target};
      outcome := Deleted;
    }
  }
}
