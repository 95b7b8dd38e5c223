/** Creating and revising a draft as ordered calls on one database session. */
module DraftService {
  import opened Basics
  import opened Canonical
  import opened Preflight
  import opened Drafting

  datatype Reply = Done(rule: RuleId, version: VersionId, number: nat) | Refused(verdict: Verdict) | Raised

  /**
   "committed" is the database, "session" what this session's open transaction has made of it.
   "fault" is the number of database calls that succeed before one raises.
   */
  class DraftService {
    var committed: Store
    var session: Store
    const rt: Runtime

    ghost predicate NoTransaction()
      reads this
    {
      session == committed
    }

    constructor (store: Store, rt: Runtime)
      ensures NoTransaction() && committed == store && this.rt == rt
    {
      committed, session, this.rt := store, store, rt;
    }

    method Commit()
      modifies this
      ensures NoTransaction() && committed == old(session)
    {
      committed := session;
    }

    method Rollback()
      modifies this
      ensures NoTransaction() && committed == old(committed)
    {
      session := committed;
    }

    // A rule and its version 1 appear together or not at all, whichever call raises.
    method CreateRuleDraft(d: Draft, owner: OwnerId, rule: RuleId, version: VersionId, fault: nat) returns (r: Reply)
      requires NoTransaction()
      modifies this
      ensures NoTransaction()
      ensures r == Raised || r == Done(rule, version, 1)
      ensures committed == if r == Raised then old(committed)
                           else Created(old(committed), rule, version, owner, d, rt)
      ensures r == Raised <==> fault < 3 || rule in old(committed).rules || version in old(committed).versions
                               || Taken(old(committed), rule, 1)
    {
      if fault == 0 || rule in session.rules {
        Rollback();
        return Raised;
      }
      var row := Rule(owner, d.title, DraftStatus, LogSourceOf(d.logsource), None);
      session := session.(rules := session.rules[rule := row]);
      if fault == 1 || version in session.versions || Taken(session, rule, 1) {
        Rollback();
        return Raised;
      }
      session := session.(versions := session.versions[version := Version(rule, 1, rt.write(d), owner)]);
      session := session.(rules := session.rules[rule := row.(current := Some(version))]);
      if fault == 2 {
        Rollback();
        return Raised;
      }
      assert session.rules == committed.rules[rule := row.(current := Some(version))];
      Commit();
      return Done(rule, version, 1);
    }

    // A revision is refused with nothing written, or appends one version and makes it current, the
    // title and the log source with it.
    method ReviseOwnedRuleDraft(
      rule: RuleId, owner: OwnerId, expected: int, d: Draft, version: VersionId, fault: nat) returns (r: Reply)
      requires NoTransaction()
      modifies this
      ensures NoTransaction()
      ensures var verdict := Judge(old(committed), rule, owner, expected, d, rt);
              && (r.Refused? ==> r.verdict == verdict != Proceed)
              && (r.Done? ==> verdict == Proceed && expected >= 0 && r == Done(rule, version, expected + 1))
      ensures committed == if r.Done? then Appended(old(committed), rule, version, r.number, owner, d, rt)
                           else old(committed)
      ensures fault >= 4 && version !in old(committed).versions && !Taken(old(committed), rule, expected + 1) ==>
                r != Raised
      // In terms of the stored rows: what each answer says of the rule and of its current version.
      ensures rule !in old(committed).rules || old(committed).rules[rule].owner != owner ==>
                r == Raised || r == Refused(NotFoundError)
      ensures rule in old(committed).rules && old(committed).rules[rule].owner == owner ==>
                var row, versions := old(committed).rules[rule], old(committed).versions;
                var found := && row.current.Some? && row.current.value in versions
                             && versions[row.current.value].rule == rule;
                && (r.Refused? ==> (r.verdict == NotEditable <==> row.status != DraftStatus))
                && (r == Refused(VersionConflict) ==> found && versions[row.current.value].number != expected)
                && (r == Refused(NotFoundError) ==> !found || rt.read(versions[row.current.value].text).NotFound?)
                && (r.Done? ==> row.status == DraftStatus)
                && (r == Refused(Unchanged) || r.Done? ==>
                      && found && versions[row.current.value].number == expected
                      && rt.read(versions[row.current.value].text).Snapshot?
                      && (r.Done? <==> !PyEq(Dump(d), rt.read(versions[row.current.value].text).value)))
    {
      if fault == 0 {
        return Raised;
      }
      if rule !in session.rules || session.rules[rule].owner != owner {
        return Refused(NotFoundError);
      }
      var row := session.rules[rule];
      if row.status != DraftStatus {
        return Refused(NotEditable);
      }
      if row.current == None {
        return Refused(NotFoundError);
      }
      if fault == 1 {
        return Raised;
      }
      if row.current.value !in session.versions || session.versions[row.current.value].rule != rule {
        return Refused(NotFoundError);
      }
      var previous := session.versions[row.current.value];
      if previous.number != expected {
        return Refused(VersionConflict);
      }
      var decoded := rt.read(previous.text);
      if decoded.NotFound? {
        return Refused(NotFoundError);
      }
      if PyEq(Dump(d), decoded.value) {
        return Refused(Unchanged);
      }
      r := AppendVersion(rule, row, previous.number + 1, owner, d, version, fault);
    }

    method AppendVersion(
      rule: RuleId, row: Rule, number: nat, owner: OwnerId, d: Draft, version: VersionId, fault: nat) returns (r: Reply)
      requires NoTransaction() && rule in committed.rules && committed.rules[rule] == row
      modifies this
      ensures NoTransaction()
      ensures r == Raised || r == Done(rule, version, number)
      ensures committed == if r == Raised then old(committed)
                           else Appended(old(committed), rule, version, number, owner, d, rt)
      ensures r == Raised <==> fault < 4 || version in old(committed).versions || Taken(old(committed), rule, number)
    {
      if fault <= 2 || version in session.versions || Taken(session, rule, number) {
        Rollback();
        return Raised;
      }
      session := session.(versions := session.versions[version := Version(rule, number, rt.write(d), owner)]);
      var shown := row.(title := d.title, logSource := LogSourceOf(d.logsource), current := Some(version));
      session := session.(rules := session.rules[rule := shown]);
      if fault == 3 {
        Rollback();
        return Raised;
      }
      Commit();
      return Done(rule, version, number);
    }
  }
}
