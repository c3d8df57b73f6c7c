/** Dropping the rotated logins a deployment no longer uses. */
module RetireLogins {
  import opened Wrappers
  import opened LoginNames

  /** A role of the cluster; `member` of the runtime role, with its open sessions. */
  datatype Role = Role(canLogin: bool, member: bool, sessions: nat)

  type Roles = map<string, Role>

  /** A rotated login of the runtime role, but the one to keep and the session's own. */
  predicate Doomed(roles: Roles, schema: string, keep: Option<string>, self: string, name: string) {
    && name in roles && roles[name].member && roles[name].canLogin
    && IsRotatedLoginName(schema, name) && Some(name) != keep && name != self
  }

  function DoomedIn(roles: Roles, schema: string, keep: Option<string>, self: string, listed: seq<string>)
    : seq<string>
  {
    if listed == [] then []
    else
      (if Doomed(roles, schema, keep, self, listed[0]) then [listed[0]] else [])
      + DoomedIn(roles, schema, keep, self, listed[1..])
  }

  /** In use and not forced, or a drop that fails. */
  predicate Stays(role: Role, name: string, force: bool, failing: set<string>) {
    (role.sessions > 0 && !force) || name in failing
  }

  predicate StaysIn(roles: Roles, name: string, force: bool, failing: set<string>) {
    name in roles && Stays(roles[name], name, force, failing)
  }

  function KeptOf(roles: Roles, doomed: seq<string>, force: bool, failing: set<string>): seq<string> {
    if doomed == [] then []
    else
      (if StaysIn(roles, doomed[0], force, failing) then [doomed[0]] else [])
      + KeptOf(roles, doomed[1..], force, failing)
  }

  function Remaining(roles: Roles, doomed: seq<string>, force: bool, failing: set<string>): Roles {
    map name | name in roles && (name in doomed ==> StaysIn(roles, name, force, failing)) :: roles[name]
  }

  lemma RemainingStep(roles: Roles, doomed: seq<string>, name: string, force: bool, failing: set<string>)
    requires name in roles
    ensures Stays(roles[name], name, force, failing) ==>
              Remaining(roles, doomed + [name], force, failing) == Remaining(roles, doomed, force, failing)
    ensures !Stays(roles[name], name, force, failing) ==>
              Remaining(roles, doomed + [name], force, failing) == Remaining(roles, doomed, force, failing) - {name}
  {
  }

  class Cluster {
    var roles: Roles

    /**
      * Drops each doomed login on its own; one in use, or whose drop fails, does not stop the others. `listed` is the
      * order the catalog lists its roles in.
      */
    method Retire(schema: string, keep: Option<string>, self: string, force: bool, failing: set<string>,
                  listed: seq<string>)
      returns (code: nat, kept: seq<string>)
      modifies this
      ensures keep.Some? && (keep.value !in old(roles) || !old(roles)[keep.value].canLogin) ==>
                code == 1 && roles == old(roles) && kept == []
      ensures keep.None? || (keep.value in old(roles) && old(roles)[keep.value].canLogin) ==>
                && kept == KeptOf(old(roles), DoomedIn(old(roles), schema, keep, self, listed), force, failing)
                && roles == Remaining(old(roles), DoomedIn(old(roles), schema, keep, self, listed), force, failing)
                && code == if kept == [] then 0 else 1
    {
      if keep.Some? && (keep.value !in roles || !roles[keep.value].canLogin) {
        return 1, [];
      }
      var doomed := DoomedIn(roles, schema, keep, self, listed);
      DoomedInAre(roles, schema, keep, self, listed);
      kept := DropEach(doomed, force, failing);
      code := if kept == [] then 0 else 1;
    }

    method DropEach(doomed: seq<string>, force: bool, failing: set<string>) returns (kept: seq<string>)
      requires forall name | name in doomed :: name in roles
      modifies this
      ensures kept == KeptOf(old(roles), doomed, force, failing)
      ensures roles == Remaining(old(roles), doomed, force, failing)
    {
      hide Stays, Remaining, KeptOf;
      ghost var before := roles;
      kept := [];
      NothingDropped(before, force, failing);
      for k := 0 to |doomed|
        invariant KeptOf(before, doomed, force, failing) == kept + KeptOf(before, doomed[k..], force, failing)
        invariant roles == Remaining(before, doomed[..k], force, failing)
      {
        var name := doomed[k];
        assert name in before;
        assert doomed[..k + 1] == doomed[..k] + [name];
        RemainingStep(before, doomed[..k], name, force, failing);
        StillThere(before, doomed[..k], name, force, failing);
        KeptStep(before, doomed, k, force, failing);
        if name in roles && Stays(roles[name], name, force, failing) {
          kept := kept + [name];
        } else {
          roles := roles - {name};
        }
      }
      assert doomed[..|doomed|] == doomed && doomed[|doomed|..] == [] && doomed[0..] == doomed;
      NoneKept(before, force, failing);
    }
  }

  lemma KeptStep(roles: Roles, doomed: seq<string>, k: nat, force: bool, failing: set<string>)
    requires k < |doomed| && doomed[k] in roles
    ensures KeptOf(roles, doomed[k..], force, failing)
         == (if Stays(roles[doomed[k]], doomed[k], force, failing) then [doomed[k]] else [])
            + KeptOf(roles, doomed[k + 1..], force, failing)
  {
    hide Stays;
    assert doomed[k..][0] == doomed[k] && doomed[k..][1..] == doomed[k + 1..];
  }

  lemma NoneKept(roles: Roles, force: bool, failing: set<string>)
    ensures KeptOf(roles, [], force, failing) == []
  {
  }

  lemma NothingDropped(roles: Roles, force: bool, failing: set<string>)
    ensures Remaining(roles, [], force, failing) == roles
  {
  }

  lemma StillThere(roles: Roles, doomed: seq<string>, name: string, force: bool, failing: set<string>)
    requires name in roles
    ensures var left := Remaining(roles, doomed, force, failing);
            && (name in left ==> left[name] == roles[name])
            && (Stays(roles[name], name, force, failing) ==> name in left)
  {
  }

  lemma {:induction false} DoomedInAre(roles: Roles, schema: string, keep: Option<string>, self: string,
                                       listed: seq<string>)
    ensures forall name :: name in DoomedIn(roles, schema, keep, self, listed) <==>
                             name in listed && Doomed(roles, schema, keep, self, name)
  {
    hide Doomed;
    if listed != [] {
      assert listed == [listed[0]] + listed[1..];
      DoomedInAre(roles, schema, keep, self, listed[1..]);
    }
    assert forall name :: Doomed(roles, schema, keep, self, name) ==> name in roles by {
      DoomedIsRole(roles, schema, keep, self);
    }
  }

  lemma DoomedIsRole(roles: Roles, schema: string, keep: Option<string>, self: string)
    ensures forall name :: Doomed(roles, schema, keep, self, name) ==> name in roles
  {
  }

  lemma {:induction false} KeptAre(roles: Roles, doomed: seq<string>, force: bool, failing: set<string>)
    ensures forall name ::
              name in KeptOf(roles, doomed, force, failing) <==> name in doomed && StaysIn(roles, name, force, failing)
  {
    hide StaysIn;
    if doomed != [] {
      assert doomed == [doomed[0]] + doomed[1..];
      KeptAre(roles, doomed[1..], force, failing);
    }
  }

  /**
    * After a run over every role the catalog lists: a role is gone exactly when it was doomed and neither in use,
    * unforced, nor failed to drop; a run that keeps none leaves no login doomed.
    */
  lemma RetiredExactly(roles: Roles, schema: string, keep: Option<string>, self: string, force: bool,
                       failing: set<string>, listed: seq<string>, name: string)
    requires name in roles && name in listed
    ensures var doomed := DoomedIn(roles, schema, keep, self, listed);
            var after := Remaining(roles, doomed, force, failing);
            && (name !in after
                <==> Doomed(roles, schema, keep, self, name) && !Stays(roles[name], name, force, failing))
            && (KeptOf(roles, doomed, force, failing) == [] ==> !Doomed(after, schema, keep, self, name))
  {
    hide Stays;
    var doomed := DoomedIn(roles, schema, keep, self, listed);
    DoomedInAre(roles, schema, keep, self, listed);
    KeptAre(roles, doomed, force, failing);
  }

  /** The default login, the one to keep and the session's own survive every run, and so does what is no kit login. */
  lemma NeverRetired(roles: Roles, schema: string, keep: Option<string>, self: string, force: bool,
                     failing: set<string>, listed: seq<string>, name: string)
    requires name in roles
    requires name == DefaultLoginName(schema) || Some(name) == keep || name == self || !IsKitLoginName(schema, name)
    ensures name in Remaining(roles, DoomedIn(roles, schema, keep, self, listed), force, failing)
  {
  }

  /** Gone after a run, in the rows: a rotated login of the runtime role, kept by nothing, unused or forced, dropped. */
  lemma {:induction false} RetiredReads(roles: Roles, schema: string, keep: Option<string>, self: string, force: bool,
                                        failing: set<string>, listed: seq<string>, name: string)
    requires name in roles && name in listed
    ensures name !in Remaining(roles, DoomedIn(roles, schema, keep, self, listed), force, failing)
       <==> && roles[name].member && roles[name].canLogin
            && (exists stamp: string ::
                  && name == schema + "_app_" + stamp && |stamp| == 12
                  && (forall c | c in stamp :: '0' <= c <= '9') && |Utf8(name)| <= 63)
            && keep != Some(name) && self != name
            && (roles[name].sessions == 0 || force) && name !in failing
  {
    hide Remaining, DoomedIn, IsRotatedLoginName, Utf8;
    RetiredExactly(roles, schema, keep, self, force, failing, listed, name);
    NamesAre(schema, name);
  }
}
