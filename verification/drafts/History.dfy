/**
 What every serial history of draft creations and revisions keeps: gap-free version
 numbers, versions that never change, a rule row that mirrors its newest version,
 and neighbours that differ.
 */
module History {
  import opened Basics
  import opened Json
  import opened Canonical
  import opened Preflight
  import opened Snapshots
  import opened Conditions
  import opened Diff
  import opened Drafting

  const EMPTY: Store := Store(map[], map[])

  ghost function Replay(log: seq<Op>, rt: Runtime): Store {
    if log == [] then EMPTY else Perform(Replay(log[..|log| - 1], rt), log[|log| - 1], rt)
  }

  ghost predicate Serial(log: seq<Op>, rt: Runtime) {
    log == [] ||
    (Serial(log[..|log| - 1], rt) && Answers(Replay(log[..|log| - 1], rt), log[|log| - 1], rt))
  }

  // The drafts of a rule in the order they were stored, each with its version's id.
  datatype Link = Link(version: VersionId, draft: Draft)

  type Chains = map<RuleId, seq<Link>>

  function ChainsOf(log: seq<Op>): Chains {
    if log == [] then map[] else ChainsAfter(ChainsOf(log[..|log| - 1]), log[|log| - 1])
  }

  function ChainsAfter(chains: Chains, op: Op): Chains {
    if op.Create? then chains[op.rule := [Link(op.version, op.draft)]]
    else if Appends(op) && op.rule in chains then
      chains[op.rule := chains[op.rule] + [Link(op.version, op.draft)]]
    else chains
  }

  // The i-th draft of the chain is version i + 1.
  ghost predicate LinkStored(store: Store, rule: RuleId, link: Link, i: nat, rt: Runtime) {
    && rt.accepts(link.draft)
    && rule in store.rules && link.version in store.versions
    && store.versions[link.version] == Version(rule, i + 1, rt.write(link.draft), store.rules[rule].owner)
  }

  ghost predicate NeighboursDiffer(chain: seq<Link>) {
    forall i :: 0 < i < |chain| ==> !PyEq(Dump(chain[i - 1].draft), Dump(chain[i].draft))
  }

  ghost predicate ChainKept(store: Store, rule: RuleId, chain: seq<Link>, rt: Runtime) {
    && chain != [] && rule in store.rules && store.rules[rule].status == DraftStatus
    && var newest := chain[|chain| - 1];
    && store.rules[rule] == WithDraft(store.rules[rule], newest.draft, newest.version)
    && (forall i :: 0 <= i < |chain| ==> LinkStored(store, rule, chain[i], i, rt))
  }

  ghost predicate VersionChained(chains: Chains, v: VersionId, row: Version) {
    && row.rule in chains && 1 <= row.number <= |chains[row.rule]|
    && chains[row.rule][row.number - 1].version == v
  }

  ghost predicate Kept(store: Store, chains: Chains, rt: Runtime) {
    && store.rules.Keys == chains.Keys
    && (forall r :: r in chains ==> ChainKept(store, r, chains[r], rt))
    && (forall v :: v in store.versions ==> VersionChained(chains, v, store.versions[v]))
  }

  // What another rule's operation leaves alone.
  lemma OtherChainKept(store: Store, store': Store, r: RuleId, chain: seq<Link>, rt: Runtime)
    requires ChainKept(store, r, chain, rt)
    requires r in store'.rules && store'.rules[r] == store.rules[r]
    requires forall v :: v in store.versions ==> v in store'.versions && store'.versions[v] == store.versions[v]
    ensures ChainKept(store', r, chain, rt)
  {
    forall i | 0 <= i < |chain| ensures LinkStored(store', r, chain[i], i, rt) {
      assert LinkStored(store, r, chain[i], i, rt);
    }
  }

  lemma ShownAsStored(d: Draft, rt: Runtime)
    requires Faithful(rt) && rt.accepts(d)
    ensures var w := Canon(Dump(d));
            && rt.read(rt.write(d)) == Snapshot(w) && HasDraftShape(w)
            && DraftOf(w).title == d.title && LogSourceOf(DraftOf(w).logsource) == LogSourceOf(d.logsource)
            && LogSourceOf(d.logsource).String? && 1 <= |LogSourceOf(d.logsource).s| <= 100
  {
    assert ReadsBack(rt, d);
  }

  lemma CanBeRead(d: Draft, rt: Runtime)
    requires Faithful(rt) && rt.accepts(d)
    ensures rt.read(rt.write(d)).Snapshot?
  {
    assert ReadsBack(rt, d);
  }

  // The current version of a kept rule is the newest link, and reads back as its draft.
  lemma CurrentReadsBack(store: Store, r: RuleId, chain: seq<Link>, rt: Runtime)
    requires Faithful(rt) && ChainKept(store, r, chain, rt)
    ensures var newest := chain[|chain| - 1];
            && store.rules[r].current == Some(newest.version) && newest.version in store.versions
            && store.versions[newest.version].number == |chain| && store.versions[newest.version].rule == r
            && rt.read(store.versions[newest.version].text)
               == Snapshot(Canon(Dump(newest.draft)))
  {
    var newest := chain[|chain| - 1];
    assert LinkStored(store, r, newest, |chain| - 1, rt);
    ShownAsStored(newest.draft, rt);
  }

  // Comparing with what was read back is comparing with the draft itself.
  lemma EqualToReadBack(d: Draft, v: Value, w: Value)
    requires PyEq(v, w) && PyEq(w, v)
    ensures PyEq(Dump(d), w) <==> PyEq(v, Dump(d))
  {
    if PyEq(Dump(d), w) {
      EqTransitive(Dump(d), w, v);
      EqSymmetric(Dump(d), v);
    }
    if PyEq(v, Dump(d)) {
      EqSymmetric(v, Dump(d));
      EqTransitive(Dump(d), v, w);
    }
  }

  lemma UnchangedMeansEqual(d: Draft, e: Draft, rt: Runtime)
    requires Faithful(rt) && rt.accepts(d)
    ensures rt.read(rt.write(d)).Snapshot?
    ensures PyEq(Dump(e), rt.read(rt.write(d)).value) <==> PyEq(Dump(d), Dump(e))
  {
    assert ReadsBack(rt, d);
    EqualToReadBack(e, Dump(d), Canon(Dump(d)));
  }

  lemma JudgedByTheChain(
    store: Store, rule: RuleId, chain: seq<Link>, owner: OwnerId, expected: int, d: Draft, rt: Runtime)
    requires Faithful(rt) && ChainKept(store, rule, chain, rt) && store.rules[rule].owner == owner
    ensures Judge(store, rule, owner, expected, d, rt) ==
            if expected != |chain| then VersionConflict
            else if PyEq(Dump(chain[|chain| - 1].draft), Dump(d)) then Unchanged
            else Proceed
  {
    var newest := chain[|chain| - 1];
    assert LinkStored(store, rule, newest, |chain| - 1, rt);
    UnchangedMeansEqual(newest.draft, d, rt);
  }

  // What a revision is told, in terms of the rule's history: the only refusals are for a rule that is
  // not the caller's, a version that is not the newest, and a draft equal to the newest.
  lemma JudgedByTheHistory(
    store: Store, chains: Chains, rule: RuleId, owner: OwnerId, expected: int, d: Draft, rt: Runtime)
    requires Faithful(rt) && Kept(store, chains, rt)
    ensures Judge(store, rule, owner, expected, d, rt) ==
            if !Owned(store, rule, owner) then NotFoundError
            else if expected != |chains[rule]| then VersionConflict
            else if PyEq(Dump(chains[rule][|chains[rule]| - 1].draft), Dump(d)) then Unchanged
            else Proceed
    ensures rt.accepts(d) && Owned(store, rule, owner) && expected == |chains[rule]| ==>
              (Judge(store, rule, owner, expected, d, rt) == Unchanged <==>
                 MeaningOf(Dump(chains[rule][|chains[rule]| - 1].draft)) == MeaningOf(Dump(d)))
  {
    if Owned(store, rule, owner) {
      JudgedByTheChain(store, rule, chains[rule], owner, expected, d, rt);
      LinkOfKept(store, rule, chains[rule], |chains[rule]| - 1, rt);
      if rt.accepts(d) {
        AcceptedMeanings(chains[rule][|chains[rule]| - 1].draft, d, rt);
      }
    }
  }

  lemma AcceptedMeanings(d: Draft, e: Draft, rt: Runtime)
    requires Faithful(rt) && rt.accepts(d) && rt.accepts(e)
    ensures PyEq(Dump(d), Dump(e)) <==> MeaningOf(Dump(d)) == MeaningOf(Dump(e))
  {
    assert ReadsBack(rt, d) && ReadsBack(rt, e);
    EqComparesMeanings(Dump(d), Dump(e));
  }

  lemma AppendsToTheNewest(store: Store, chains: Chains, op: Op, rt: Runtime)
    requires Faithful(rt) && Kept(store, chains, rt) && Answers(store, op, rt) && Appends(op)
    ensures Owned(store, op.rule, op.owner) && op.rule in chains && op.expected == |chains[op.rule]|
  {
    JudgedByTheHistory(store, chains, op.rule, op.owner, op.expected, op.draft, rt);
  }

  lemma ProceedMeansDifferent(
    store: Store, rule: RuleId, chain: seq<Link>, owner: OwnerId, expected: int, d: Draft, rt: Runtime)
    requires Faithful(rt) && ChainKept(store, rule, chain, rt)
    requires Judge(store, rule, owner, expected, d, rt) == Proceed
    ensures !PyEq(Dump(chain[|chain| - 1].draft), Dump(d))
  {
    JudgedByTheChain(store, rule, chain, owner, expected, d, rt);
  }

  lemma CreateKeeps(store: Store, chains: Chains, op: Op, rt: Runtime)
    requires Kept(store, chains, rt) && op.Create? && rt.accepts(op.draft)
    requires op.rule !in store.rules && op.version !in store.versions
    ensures Kept(Perform(store, op, rt), ChainsAfter(chains, op), rt)
  {
    CreateKeepsVersions(store, chains, op, rt);
    CreateKeepsChains(store, chains, op, rt);
  }

  lemma CreateKeepsChains(store: Store, chains: Chains, op: Op, rt: Runtime)
    requires op.Create? && rt.accepts(op.draft) && op.rule !in store.rules && op.version !in store.versions
    requires forall r :: r in chains ==> ChainKept(store, r, chains[r], rt)
    ensures forall r :: r in ChainsAfter(chains, op) ==>
                          ChainKept(Perform(store, op, rt), r, ChainsAfter(chains, op)[r], rt)
  {
    forall r | r in ChainsAfter(chains, op)
      ensures ChainKept(Perform(store, op, rt), r, ChainsAfter(chains, op)[r], rt)
    {
      if r == op.rule {
        FirstChainKept(store, op, rt);
      } else {
        OtherChainKept(store, Perform(store, op, rt), r, chains[r], rt);
      }
    }
  }

  lemma FirstChainKept(store: Store, op: Op, rt: Runtime)
    requires op.Create? && rt.accepts(op.draft)
    ensures ChainKept(Perform(store, op, rt), op.rule, [Link(op.version, op.draft)], rt)
  {
    assert LinkStored(Perform(store, op, rt), op.rule, Link(op.version, op.draft), 0, rt);
  }

  lemma CreateKeepsVersions(store: Store, chains: Chains, op: Op, rt: Runtime)
    requires op.Create? && op.rule !in chains
    requires forall v :: v in store.versions ==> VersionChained(chains, v, store.versions[v])
    ensures var store', chains' := Perform(store, op, rt), ChainsAfter(chains, op);
            forall v :: v in store'.versions ==> VersionChained(chains', v, store'.versions[v])
  {
    var store', chains' := Perform(store, op, rt), ChainsAfter(chains, op);
    forall v | v in store'.versions ensures VersionChained(chains', v, store'.versions[v]) {
      assert v != op.version ==> VersionChained(chains, v, store.versions[v]);
    }
  }

  lemma GrownChainKept(store: Store, chain: seq<Link>, op: Op, rt: Runtime)
    requires Faithful(rt) && ChainKept(store, op.rule, chain, rt) && Appends(op)
    requires rt.accepts(op.draft) && op.version !in store.versions
    requires op.owner == store.rules[op.rule].owner && op.expected == |chain|
    ensures ChainKept(Perform(store, op, rt), op.rule, chain + [Link(op.version, op.draft)], rt)
  {
    var store', chain' := Perform(store, op, rt), chain + [Link(op.version, op.draft)];
    forall i | 0 <= i < |chain'| ensures LinkStored(store', op.rule, chain'[i], i, rt) {
      if i < |chain| {
        assert LinkStored(store, op.rule, chain[i], i, rt);
      }
    }
  }

  lemma GrowthKeeps(store: Store, chains: Chains, op: Op, rt: Runtime)
    requires Faithful(rt) && Kept(store, chains, rt) && Appends(op) && rt.accepts(op.draft)
    requires Owned(store, op.rule, op.owner) && op.rule in chains && op.expected == |chains[op.rule]|
    requires op.version !in store.versions
    ensures Kept(Perform(store, op, rt), ChainsAfter(chains, op), rt)
  {
    GrowthKeepsVersions(store, chains, op, rt);
    GrowthKeepsChains(store, chains, op, rt);
  }

  lemma GrowthKeepsChains(store: Store, chains: Chains, op: Op, rt: Runtime)
    requires Faithful(rt) && Appends(op) && rt.accepts(op.draft) && op.version !in store.versions
    requires Owned(store, op.rule, op.owner) && op.rule in chains && op.expected == |chains[op.rule]|
    requires forall r :: r in chains ==> ChainKept(store, r, chains[r], rt)
    ensures forall r :: r in ChainsAfter(chains, op) ==>
                          ChainKept(Perform(store, op, rt), r, ChainsAfter(chains, op)[r], rt)
  {
    forall r | r in ChainsAfter(chains, op)
      ensures ChainKept(Perform(store, op, rt), r, ChainsAfter(chains, op)[r], rt)
    {
      if r == op.rule {
        GrownChainKept(store, chains[r], op, rt);
      } else {
        OtherChainKept(store, Perform(store, op, rt), r, chains[r], rt);
      }
    }
  }

  lemma GrowthKeepsVersions(store: Store, chains: Chains, op: Op, rt: Runtime)
    requires Appends(op) && op.rule in store.rules && op.rule in chains && op.expected == |chains[op.rule]|
    requires forall v :: v in store.versions ==> VersionChained(chains, v, store.versions[v])
    ensures var store', chains' := Perform(store, op, rt), ChainsAfter(chains, op);
            forall v :: v in store'.versions ==> VersionChained(chains', v, store'.versions[v])
  {
    var store', chains' := Perform(store, op, rt), ChainsAfter(chains, op);
    forall v | v in store'.versions ensures VersionChained(chains', v, store'.versions[v]) {
      assert v != op.version ==> VersionChained(chains, v, store.versions[v]);
    }
  }

  lemma AppendKeeps(store: Store, chains: Chains, op: Op, rt: Runtime)
    requires Faithful(rt) && Kept(store, chains, rt) && Answers(store, op, rt) && Appends(op)
    ensures Kept(Perform(store, op, rt), ChainsAfter(chains, op), rt)
  {
    AppendsToTheNewest(store, chains, op, rt);
    GrowthKeeps(store, chains, op, rt);
  }

  lemma {:induction false} HistoryKeepsVersions(log: seq<Op>, rt: Runtime)
    requires Faithful(rt) && Serial(log, rt)
    ensures Kept(Replay(log, rt), ChainsOf(log), rt)
  {
    if log != [] {
      var before, op := log[..|log| - 1], log[|log| - 1];
      HistoryKeepsVersions(before, rt);
      if op.Create? {
        CreateKeeps(Replay(before, rt), ChainsOf(before), op, rt);
      } else if Appends(op) {
        AppendKeeps(Replay(before, rt), ChainsOf(before), op, rt);
      }
    }
  }

  lemma StepKeepsDifferent(store: Store, chains: Chains, op: Op, rule: RuleId, rt: Runtime)
    requires Faithful(rt) && Kept(store, chains, rt) && Answers(store, op, rt) && rule in ChainsAfter(chains, op)
    requires rule in chains ==> NeighboursDiffer(chains[rule])
    ensures NeighboursDiffer(ChainsAfter(chains, op)[rule])
  {
    if Appends(op) && op.rule == rule && rule in chains {
      ProceedMeansDifferent(store, rule, chains[rule], op.owner, op.expected, op.draft, rt);
      LongerDiffers(chains[rule], Link(op.version, op.draft));
    }
  }

  lemma LongerDiffers(chain: seq<Link>, link: Link)
    requires NeighboursDiffer(chain) && chain != []
    requires !PyEq(Dump(chain[|chain| - 1].draft), Dump(link.draft))
    ensures NeighboursDiffer(chain + [link])
  {
  }

  lemma {:induction false} NeighboursAlwaysDiffer(log: seq<Op>, rule: RuleId, rt: Runtime)
    requires Faithful(rt) && Serial(log, rt) && rule in ChainsOf(log)
    ensures NeighboursDiffer(ChainsOf(log)[rule])
  {
    if log != [] {
      var before, op := log[..|log| - 1], log[|log| - 1];
      HistoryKeepsVersions(before, rt);
      if rule in ChainsOf(before) {
        NeighboursAlwaysDiffer(before, rule, rt);
      }
      StepKeepsDifferent(Replay(before, rt), ChainsOf(before), op, rule, rt);
    }
  }

  // Each rule's versions are numbered exactly 1 to k, each number once, and the current version is
  // version k of that rule.
  lemma NumberedWithoutGaps(log: seq<Op>, rule: RuleId, number: int, rt: Runtime)
    requires Faithful(rt) && Serial(log, rt) && rule in Replay(log, rt).rules
    ensures rule in ChainsOf(log)
    ensures var store, k := Replay(log, rt), |ChainsOf(log)[rule]|;
            && (Taken(store, rule, number) <==> 1 <= number <= k)
            && store.rules[rule].current.Some? && store.rules[rule].current.value in store.versions
            && store.versions[store.rules[rule].current.value].rule == rule
            && store.versions[store.rules[rule].current.value].number == k
  {
    HistoryKeepsVersions(log, rt);
    var store, chain := Replay(log, rt), ChainsOf(log)[rule];
    CurrentReadsBack(store, rule, chain, rt);
    if 1 <= number <= |chain| {
      assert LinkStored(store, rule, chain[number - 1], number - 1, rt);
    }
    if v :| v in store.versions && store.versions[v].rule == rule && store.versions[v].number == number {
      assert VersionChained(ChainsOf(log), v, store.versions[v]);
    }
  }

  // UNIQUE (rule_id, version_number) holds without being enforced.
  lemma NumbersAreUnique(log: seq<Op>, v: VersionId, w: VersionId, rt: Runtime)
    requires Faithful(rt) && Serial(log, rt)
    requires var versions := Replay(log, rt).versions;
             v in versions && w in versions
             && versions[v].rule == versions[w].rule && versions[v].number == versions[w].number
    ensures v == w
  {
    HistoryKeepsVersions(log, rt);
    ChainedRowsDiffer(Replay(log, rt).versions, ChainsOf(log), v, w);
  }

  lemma ChainedRowsDiffer(versions: map<VersionId, Version>, chains: Chains, v: VersionId, w: VersionId)
    requires forall x :: x in versions ==> VersionChained(chains, x, versions[x])
    requires v in versions && w in versions
    requires versions[v].rule == versions[w].rule && versions[v].number == versions[w].number
    ensures v == w
  {
    assert VersionChained(chains, v, versions[v]) && VersionChained(chains, w, versions[w]);
  }

  // The rule row shows the title and the log source of its newest version, and the log source column
  // is never null nor longer than its 100 characters.
  lemma RuleMirrorsItsSnapshot(log: seq<Op>, rule: RuleId, rt: Runtime)
    requires Faithful(rt) && Serial(log, rt) && rule in Replay(log, rt).rules
    ensures Mirrors(Replay(log, rt), rule, rt)
  {
    HistoryKeepsVersions(log, rt);
    var chain := ChainsOf(log)[rule];
    NewestIsMirrored(Replay(log, rt), rule, chain, rt);
  }

  ghost predicate Mirrors(store: Store, rule: RuleId, rt: Runtime)
    requires rule in store.rules
  {
    var row := store.rules[rule];
    && row.current.Some? && row.current.value in store.versions
    && var sigma := rt.read(store.versions[row.current.value].text);
    && sigma.Snapshot? && HasDraftShape(sigma.value)
    && row.title == DraftOf(sigma.value).title
    && row.logSource == LogSourceOf(DraftOf(sigma.value).logsource)
    && row.logSource.String? && 1 <= |row.logSource.s| <= 100
  }

  lemma NewestIsMirrored(store: Store, rule: RuleId, chain: seq<Link>, rt: Runtime)
    requires Faithful(rt) && ChainKept(store, rule, chain, rt)
    ensures Mirrors(store, rule, rt)
  {
    var newest := chain[|chain| - 1];
    assert LinkStored(store, rule, newest, |chain| - 1, rt);
    ShownAsStored(newest.draft, rt);
  }

  // A version once stored stays as it is.
  lemma {:induction false} VersionsNeverChange(log: seq<Op>, n: nat, v: VersionId, rt: Runtime)
    requires Serial(log, rt) && n <= |log| && v in Replay(log[..n], rt).versions
    ensures v in Replay(log, rt).versions && Replay(log, rt).versions[v] == Replay(log[..n], rt).versions[v]
    decreases |log|
  {
    if n == |log| {
      assert log[..n] == log;
    } else {
      assert log[..|log| - 1][..n] == log[..n];
      VersionsNeverChange(log[..|log| - 1], n, v, rt);
    }
  }

  // A rule belongs to whoever created it, in every later state.
  lemma {:induction false} OwnerIsTheCreator(log: seq<Op>, i: nat, rt: Runtime)
    requires Serial(log, rt) && i < |log| && log[i].Create?
    ensures Owned(Replay(log, rt), log[i].rule, log[i].owner)
    decreases |log|
  {
    if i < |log| - 1 {
      OwnerIsTheCreator(log[..|log| - 1], i, rt);
    }
  }

  // Optimistic concurrency: of all revisions of a rule that expected the same version, one commits.

  lemma {:induction false} SerialPrefix(log: seq<Op>, n: nat, rt: Runtime)
    requires Serial(log, rt) && n <= |log|
    ensures Serial(log[..n], rt)
    decreases |log|
  {
    if n == |log| {
      assert log[..n] == log;
    } else {
      SerialPrefix(log[..|log| - 1], n, rt);
      assert log[..|log| - 1][..n] == log[..n];
    }
  }

  lemma AnsweredInItsPlace(log: seq<Op>, i: nat, rt: Runtime)
    requires Serial(log, rt) && i < |log|
    ensures Serial(log[..i], rt) && Answers(Replay(log[..i], rt), log[i], rt)
  {
    SerialPrefix(log, i, rt);
    SerialPrefix(log, i + 1, rt);
    assert log[..i + 1][..i] == log[..i];
  }

  // An appended version stays taken, so its number is never expected as a current one's successor again.
  lemma RevisedOnce(log: seq<Op>, i: nat, j: nat, rt: Runtime)
    requires Faithful(rt) && Serial(log, rt) && i < |log| && j < |log|
    requires Appends(log[i]) && Appends(log[j]) && log[i].rule == log[j].rule && log[i].expected == log[j].expected
    ensures i == j
  {
    if i < j {
      RevisedBefore(log, i, j, rt);
    } else if j < i {
      RevisedBefore(log, j, i, rt);
    }
  }

  lemma RevisedBefore(log: seq<Op>, i: nat, j: nat, rt: Runtime)
    requires Faithful(rt) && Serial(log, rt) && i < j < |log|
    requires Appends(log[i]) && Appends(log[j]) && log[i].rule == log[j].rule
    ensures log[i].expected < log[j].expected
  {
    AnsweredInItsPlace(log, i, rt);
    AnsweredInItsPlace(log, j, rt);
    ExpectsTheNewest(log, i, rt);
    ExpectsTheNewest(log, j, rt);
    assert log[..j][..i + 1] == log[..i + 1] && log[..i + 1][..i] == log[..i];
    ChainGrows(log[..j], i + 1, log[i].rule, rt);
  }

  lemma ExpectsTheNewest(log: seq<Op>, i: nat, rt: Runtime)
    requires Faithful(rt) && Serial(log, rt) && i < |log| && Appends(log[i])
    ensures var chains := ChainsOf(log[..i]); log[i].rule in chains && log[i].expected == |chains[log[i].rule]|
  {
    AnsweredInItsPlace(log, i, rt);
    HistoryKeepsVersions(log[..i], rt);
    AppendsToTheNewest(Replay(log[..i], rt), ChainsOf(log[..i]), log[i], rt);
  }

  // A rule's chain only grows.
  lemma {:induction false} ChainGrows(log: seq<Op>, n: nat, rule: RuleId, rt: Runtime)
    requires Faithful(rt) && Serial(log, rt) && n <= |log| && rule in ChainsOf(log[..n])
    ensures rule in ChainsOf(log) && ChainsOf(log[..n])[rule] <= ChainsOf(log)[rule]
    decreases |log|
  {
    if n == |log| {
      assert log[..n] == log;
    } else {
      var before, op := log[..|log| - 1], log[|log| - 1];
      assert before[..n] == log[..n];
      ChainGrows(before, n, rule, rt);
      HistoryKeepsVersions(before, rt);
      ChainGrowsStep(Replay(before, rt).rules.Keys, ChainsOf(before), op, rule);
    }
  }

  lemma ChainGrowsStep(rules: set<RuleId>, chains: Chains, op: Op, rule: RuleId)
    requires rules == chains.Keys && rule in chains && (op.Create? ==> op.rule !in rules)
    ensures rule in ChainsAfter(chains, op) && chains[rule] <= ChainsAfter(chains, op)[rule]
  {
  }

  // What the page of a version shows.
  ghost predicate Shows(page: Page, chain: seq<Link>, number: int, rt: Runtime) {
    && page.Shown? && page.number == number && 1 <= number <= |chain|
    && page.version == chain[number - 1].version
    && (page.isCurrent <==> number == |chain|)
    && rt.read(rt.write(chain[number - 1].draft)) == Snapshot(page.sigma)
  }

  lemma EveryVersionIsShown(log: seq<Op>, rule: RuleId, owner: OwnerId, number: int, rt: Runtime)
    requires Faithful(rt) && Serial(log, rt)
    ensures var store, chains := Replay(log, rt), ChainsOf(log);
            var page := ReadVersion(store, rule, owner, number, rt);
            if Owned(store, rule, owner) && rule in chains && 1 <= number <= |chains[rule]|
            then Shows(page, chains[rule], number, rt) else page == Missing
  {
    var store, chains := Replay(log, rt), ChainsOf(log);
    if Owned(store, rule, owner) {
      NumberedWithoutGaps(log, rule, number, rt);
      if Taken(store, rule, number) {
        HistoryKeepsVersions(log, rt);
        NumberNamesItsLink(store, chains, rule, number, rt);
        LinkIsShown(store, rule, chains[rule], number, rt);
      }
    }
  }

  lemma NumberNamesItsLink(store: Store, chains: Chains, rule: RuleId, number: int, rt: Runtime)
    requires Taken(store, rule, number)
    requires forall v :: v in store.versions ==> VersionChained(chains, v, store.versions[v])
    ensures rule in chains && 1 <= number <= |chains[rule]|
    ensures RowOf(store, rule, number) == chains[rule][number - 1].version
  {
    var v := RowOf(store, rule, number);
    assert VersionChained(chains, v, store.versions[v]);
  }

  // Every version of every rule can be read by its owner, and by nobody else, as the draft that was
  // stored, with conditions that mean something.
  lemma EveryVersionReadsBack(log: seq<Op>, rule: RuleId, owner: OwnerId, number: int, rt: Runtime)
    requires Faithful(rt) && Serial(log, rt)
    ensures var store, chains := Replay(log, rt), ChainsOf(log);
            var page := ReadVersion(store, rule, owner, number, rt);
            && (page.Shown? <==> Owned(store, rule, owner) && rule in chains && 1 <= number <= |chains[rule]|)
            && (page.Shown? ==>
                  && page.number == number && (page.isCurrent <==> number == |chains[rule]|)
                  && page.version == chains[rule][number - 1].version
                  && page.sigma == Canon(Dump(chains[rule][number - 1].draft))
                  && HasDraftShape(page.sigma) && ConditionsMean(DraftOf(page.sigma)))
  {
    EveryVersionIsShown(log, rule, owner, number, rt);
    if ReadVersion(Replay(log, rt), rule, owner, number, rt).Shown? {
      HistoryKeepsVersions(log, rt);
      LinkOfKept(Replay(log, rt), rule, ChainsOf(log)[rule], number - 1, rt);
      ShownAsStored(ChainsOf(log)[rule][number - 1].draft, rt);
      ShownConditionsMean(ChainsOf(log)[rule][number - 1].draft, rt);
    }
  }

  lemma ShownConditionsMean(d: Draft, rt: Runtime)
    requires Faithful(rt) && rt.accepts(d)
    ensures HasDraftShape(Canon(Dump(d))) && ConditionsMean(DraftOf(Canon(Dump(d))))
  {
    assert ReadsBack(rt, d);
  }

  lemma LinkIsShown(store: Store, rule: RuleId, chain: seq<Link>, number: nat, rt: Runtime)
    requires Faithful(rt) && ChainKept(store, rule, chain, rt) && 1 <= number <= |chain|
    ensures chain[number - 1].version in store.versions
    ensures Shows(ShowRow(store, rule, chain[number - 1].version, rt), chain, number, rt)
  {
    LinkOfKept(store, rule, chain, number - 1, rt);
    CanBeRead(chain[number - 1].draft, rt);
    NewestIsLast(store, rule, chain, number, rt);
  }

  lemma OneRowForANumber(store: Store, chains: Chains, v: VersionId, rt: Runtime)
    requires Kept(store, chains, rt) && v in store.versions
    ensures var row := store.versions[v];
            && row.rule in chains && 1 <= row.number <= |chains[row.rule]|
            && v == chains[row.rule][row.number - 1].version
            && LinkStored(store, row.rule, chains[row.rule][row.number - 1], row.number - 1, rt)
  {
    var row := store.versions[v];
    assert VersionChained(chains, v, row);
    LinkOfKept(store, row.rule, chains[row.rule], row.number - 1, rt);
  }

  lemma LinkOfKept(store: Store, rule: RuleId, chain: seq<Link>, i: nat, rt: Runtime)
    requires ChainKept(store, rule, chain, rt) && i < |chain|
    ensures LinkStored(store, rule, chain[i], i, rt)
  {
  }

  lemma NewestIsLast(store: Store, rule: RuleId, chain: seq<Link>, number: nat, rt: Runtime)
    requires ChainKept(store, rule, chain, rt) && 1 <= number <= |chain|
    ensures Some(chain[number - 1].version) == store.rules[rule].current <==> number == |chain|
  {
    assert LinkStored(store, rule, chain[number - 1], number - 1, rt);
    assert LinkStored(store, rule, chain[|chain| - 1], |chain| - 1, rt);
  }

  // The diff of a version with the one before exists for every version but the first, and always
  // reports a change.
  lemma EveryDiffReportsAChange(log: seq<Op>, rule: RuleId, owner: OwnerId, number: int, rt: Runtime)
    requires Faithful(rt) && Serial(log, rt)
    ensures var diff := DiffVersion(Replay(log, rt), rule, owner, number, rt);
            && (diff.Some? <==> Owned(Replay(log, rt), rule, owner) && rule in ChainsOf(log)
                                && 2 <= number <= |ChainsOf(log)[rule]|)
            && (diff.Some? ==> ReportsAChange(diff) && ComparesNeighbours(diff, ChainsOf(log)[rule], number))
  {
    EveryVersionIsShown(log, rule, owner, number, rt);
    EveryVersionIsShown(log, rule, owner, number - 1, rt);
    if Owned(Replay(log, rt), rule, owner) && rule in ChainsOf(log) && 2 <= number <= |ChainsOf(log)[rule]| {
      NeighbouringPagesDiffer(log, rule, owner, number, rt);
      NeighbouringPagesCompared(log, rule, owner, number, rt);
    }
  }

  lemma PageIsTheDraft(log: seq<Op>, rule: RuleId, owner: OwnerId, number: int, rt: Runtime)
    requires Faithful(rt) && Serial(log, rt) && Owned(Replay(log, rt), rule, owner)
    requires rule in ChainsOf(log) && 1 <= number <= |ChainsOf(log)[rule]|
    ensures var page := ReadVersion(Replay(log, rt), rule, owner, number, rt);
            page.Shown? && page.sigma == Canon(Dump(ChainsOf(log)[rule][number - 1].draft)) && HasDraftShape(page.sigma)
  {
    EveryVersionReadsBack(log, rule, owner, number, rt);
  }

  lemma NeighbouringPagesCompared(log: seq<Op>, rule: RuleId, owner: OwnerId, number: int, rt: Runtime)
    requires Faithful(rt) && Serial(log, rt) && Owned(Replay(log, rt), rule, owner)
    requires rule in ChainsOf(log) && 2 <= number <= |ChainsOf(log)[rule]|
    ensures ComparesNeighbours(DiffVersion(Replay(log, rt), rule, owner, number, rt), ChainsOf(log)[rule], number)
  {
    PageIsTheDraft(log, rule, owner, number - 1, rt);
    PageIsTheDraft(log, rule, owner, number, rt);
  }

  // The summary compares version "number" with the one before it, in this order.
  ghost predicate ComparesNeighbours(diff: Option<Summary>, chain: seq<Link>, number: int)
    requires 2 <= number <= |chain|
  {
    var before, after := Canon(Dump(chain[number - 2].draft)), Canon(Dump(chain[number - 1].draft));
    diff.Some? && HasDraftShape(before) && HasDraftShape(after) && diff.value == Summarize(before, after)
  }

  ghost predicate ReportsAChange(diff: Option<Summary>) {
    diff.Some? && diff.value.hasChanges
  }

  lemma NeighbouringPagesDiffer(log: seq<Op>, rule: RuleId, owner: OwnerId, number: int, rt: Runtime)
    requires Faithful(rt) && Serial(log, rt) && Owned(Replay(log, rt), rule, owner)
    requires rule in ChainsOf(log) && 2 <= number <= |ChainsOf(log)[rule]|
    ensures var store := Replay(log, rt);
            ReportsAChange(
              DiffPages(ReadVersion(store, rule, owner, number - 1, rt), ReadVersion(store, rule, owner, number, rt)))
  {
    EveryVersionIsShown(log, rule, owner, number, rt);
    EveryVersionIsShown(log, rule, owner, number - 1, rt);
    var store := Replay(log, rt);
    var previous := ReadVersion(store, rule, owner, number - 1, rt);
    var current := ReadVersion(store, rule, owner, number, rt);
    NeighboursReadBackDifferent(log, rule, number, previous.sigma, current.sigma, rt);
  }

  lemma NeighboursReadBackDifferent(log: seq<Op>, rule: RuleId, number: int, v: Value, w: Value, rt: Runtime)
    requires Faithful(rt) && Serial(log, rt) && rule in ChainsOf(log) && 2 <= number <= |ChainsOf(log)[rule]|
    requires rt.read(rt.write(ChainsOf(log)[rule][number - 2].draft)) == Snapshot(v)
    requires rt.read(rt.write(ChainsOf(log)[rule][number - 1].draft)) == Snapshot(w)
    ensures HasDraftShape(v) && HasDraftShape(w) && Summarize(v, w).hasChanges
  {
    HistoryKeepsVersions(log, rt);
    NeighboursAlwaysDiffer(log, rule, rt);
    var store, chain := Replay(log, rt), ChainsOf(log)[rule];
    LinkOfKept(store, rule, chain, number - 2, rt);
    LinkOfKept(store, rule, chain, number - 1, rt);
    StoredDraftsDiffer(chain[number - 2].draft, chain[number - 1].draft, v, w, rt);
  }

  lemma StoredDraftsDiffer(d: Draft, e: Draft, v: Value, w: Value, rt: Runtime)
    requires Faithful(rt) && rt.accepts(d) && rt.accepts(e) && !PyEq(Dump(d), Dump(e))
    requires rt.read(rt.write(d)) == Snapshot(v) && rt.read(rt.write(e)) == Snapshot(w)
    ensures HasDraftShape(v) && HasDraftShape(w) && Summarize(v, w).hasChanges
  {
    assert ReadsBack(rt, d) && ReadsBack(rt, e);
    ChangesAreInequality(v, w);
    if PyEq(v, w) {
      EqTransitive(Dump(d), v, w);
      EqTransitive(Dump(d), w, Dump(e));
    }
  }
}
