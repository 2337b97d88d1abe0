/**
  Publishing secret revisions (harness/secret-provider.ts,
  harness/infisical-config.ts).

  A refresh creates a revision on disk, fills it step by step and activates it;
  every step may fail, and a failing write may leave a file that cannot be read
  back. A process that dies at a step is that failure followed by a restart.
 */
module Revisions {
  import opened Common
  import opened Sorting

  type RevisionId = nat

  datatype Meta = Meta(createdAt: nat, validated: bool)

  datatype Snapshot = Snapshot(revisionId: RevisionId, secrets: map<string, string>)

  /** A revision directory; `None` is a file that is missing or cannot be read back. */
  datatype Revision = Revision(meta: Option<Meta>, schema: bool, snapshot: Option<Snapshot>)

  datatype Config = Config(enabled: bool, activeRevision: Option<RevisionId>)

  /** `config` is what `loadConfig` returns. */
  datatype Disk = Disk(config: Option<Config>, revisions: map<RevisionId, Revision>)

  datatype Status = Unconfigured | Validating | Active | Degraded

  datatype ErrorCode = NoError | ValidationError | ResolveError | CancelledError | UnknownError

  datatype ProviderState = ProviderState(
    status: Status, currentSnapshot: Option<Snapshot>, activeRevision: Option<RevisionId>, errorCode: ErrorCode)

  const UNINITIALISED := ProviderState(Unconfigured, None, None, NoError)

  // ---- What the outside decides ----

  datatype Step =
    | MakeDirectory | WriteMeta | WriteSchema | RestrictSchema | ValidateSchema | ResolveSecrets
    | WriteSnapshot | RestrictSnapshot | WriteValidated
    | ReadRevision | WriteTempConfig | WriteConfig | RemoveTempConfig

  /** The step that throws, if any; `torn` says whether a failing write left an unreadable file. */
  datatype Fault = NoFault | Fault(step: Step, torn: bool, aborted: bool)

  predicate Succeeds(fault: Fault, step: Step) {
    !(fault.Fault? && fault.step == step)
  }

  predicate Tears(fault: Fault, step: Step) {
    fault.Fault? && fault.step == step && fault.torn
  }

  /** The refresh of one revision: its fresh id, its time, and the answers of the schema check and the resolver. */
  datatype Refresh = Refresh(id: RevisionId, createdAt: nat, schemaValid: bool, resolved: Option<map<string, string>>)

  // ---- The invariant of the disk ----

  /** A revision that may be active: it exists, it is validated, and its own snapshot can be read back. */
  predicate IsPublished(d: Disk, id: RevisionId) {
    && id in d.revisions
    && d.revisions[id].meta.Some? && d.revisions[id].meta.value.validated
    && d.revisions[id].snapshot.Some? && d.revisions[id].snapshot.value.revisionId == id
  }

  function SecretIn(snapshot: Option<Snapshot>, key: string): Option<string> {
    if snapshot.Some? && key in snapshot.value.secrets then Some(snapshot.value.secrets[key]) else None
  }

  predicate Trustworthy(d: Disk) {
    d.config.Some? && d.config.value.activeRevision.Some? ==> IsPublished(d, d.config.value.activeRevision.value)
  }

  // ---- The outcome of a refresh ----

  datatype Outcome =
    | Completed      // the revision is active on disk and in memory
    | OnDiskOnly     // the config names the revision, but the refresh failed after that
    | ConfigLost     // the config itself became unreadable
    | NotActivated

  function OutcomeOf(d: Disk, r: Refresh, fault: Fault): Outcome {
    if d.config.None? || r.id in d.revisions || !r.schemaValid || r.resolved.None? then NotActivated
    else
      match fault
      case NoFault => Completed
      case Fault(step, torn, _) =>
        if step == RemoveTempConfig then OnDiskOnly
        else if step == WriteConfig && torn then ConfigLost
        else NotActivated
  }

  function CaughtError(fault: Fault): ErrorCode {
    if fault.Fault? && fault.aborted then CancelledError else UnknownError
  }

  /** Why a refresh that does not complete ended: the first thing that went wrong. */
  function ErrorOf(d: Disk, r: Refresh, fault: Fault): ErrorCode {
    if r.id in d.revisions then UnknownError
    else if fault.Fault? && fault.step in {MakeDirectory, WriteMeta, WriteSchema, RestrictSchema, ValidateSchema} then CaughtError(fault)
    else if !r.schemaValid then ValidationError
    else if !Succeeds(fault, ResolveSecrets) then CaughtError(fault)
    else if r.resolved.None? then ResolveError
    else if fault.Fault? && fault.step in {WriteSnapshot, RestrictSnapshot, WriteValidated} then CaughtError(fault)
    else if d.config.None? then UnknownError
    else CaughtError(fault)
  }

  /** When a refresh comes to which end: everything has to be in place, and then the first failing step decides. */
  lemma OutcomesAre(d: Disk, r: Refresh, fault: Fault)
    ensures var ready := d.config.Some? && r.id !in d.revisions && r.schemaValid && r.resolved.Some?;
            && (OutcomeOf(d, r, fault) == Completed <==> ready && fault == NoFault)
            && (OutcomeOf(d, r, fault) == OnDiskOnly <==> ready && fault.Fault? && fault.step == RemoveTempConfig)
            && (OutcomeOf(d, r, fault) == ConfigLost <==> ready && fault.Fault? && fault.step == WriteConfig && fault.torn)
  {
  }

  /** Whether a failing step is come to at all: nothing before it ended the refresh. */
  predicate IsReached(d: Disk, r: Refresh, step: Step) {
    match step
    case MakeDirectory => r.id !in d.revisions
    case WriteMeta => r.id !in d.revisions
    case WriteSchema => r.id !in d.revisions
    case RestrictSchema => r.id !in d.revisions
    case ValidateSchema => r.id !in d.revisions
    case ResolveSecrets => r.id !in d.revisions && r.schemaValid
    case WriteSnapshot => r.id !in d.revisions && r.schemaValid && r.resolved.Some?
    case RestrictSnapshot => r.id !in d.revisions && r.schemaValid && r.resolved.Some?
    case WriteValidated => r.id !in d.revisions && r.schemaValid && r.resolved.Some?
    case _ => r.id !in d.revisions && r.schemaValid && r.resolved.Some? && d.config.Some?
  }

  /** The error of a refresh that did not complete: "cancelled" exactly for an aborted step that was come to, "validation" and
      "resolve" exactly for a refused schema and an unanswered resolver that were, "unknown" for everything else. */
  lemma ErrorsAre(d: Disk, r: Refresh, fault: Fault)
    requires OutcomeOf(d, r, fault) != Completed
    ensures var failed := fault.Fault? && IsReached(d, r, fault.step);
            var early := failed && fault.step in {MakeDirectory, WriteMeta, WriteSchema, RestrictSchema, ValidateSchema};
            && ErrorOf(d, r, fault) != NoError
            && (ErrorOf(d, r, fault) == CancelledError <==> failed && fault.aborted)
            && (ErrorOf(d, r, fault) == ValidationError <==> r.id !in d.revisions && !r.schemaValid && !early)
            && (ErrorOf(d, r, fault) == ResolveError <==>
                  r.id !in d.revisions && r.schemaValid && r.resolved.None? && !early && !(failed && fault.step == ResolveSecrets))
  {
  }

  function FullRevision(r: Refresh): Revision
    requires r.resolved.Some?
  {
    Revision(Some(Meta(r.createdAt, true)), true, Some(Snapshot(r.id, r.resolved.value)))
  }

  /** What a refresh leaves on the disk: all other revisions as they were, and the config as its outcome says. */
  predicate Refreshed(before: Disk, after: Disk, r: Refresh, fault: Fault) {
    var outcome := OutcomeOf(before, r, fault);
    && after.revisions - {r.id} == before.revisions - {r.id}
    && (r.id in before.revisions ==> after == before)
    && (outcome != NotActivated ==> r.id in after.revisions && after.revisions[r.id] == FullRevision(r))
    && after.config ==
         match outcome
         case NotActivated => before.config
         case ConfigLost => None
         case _ => Some(before.config.value.(activeRevision := Some(r.id)))
  }

  // ---- Cleanup ----

  function ActiveOf(d: Disk): Option<RevisionId> {
    if d.config.Some? then d.config.value.activeRevision else None
  }

  /** The creation time; a revision without readable metadata counts as the oldest. */
  function AgeOf(revisions: map<RevisionId, Revision>, id: RevisionId): int {
    if id in revisions && revisions[id].meta.Some? then revisions[id].meta.value.createdAt else -1
  }

  function AgeKey(revisions: map<RevisionId, Revision>): RevisionId -> int {
    (id: RevisionId) => AgeOf(revisions, id)
  }

  predicate IsListing(listing: seq<RevisionId>, revisions: map<RevisionId, Revision>) {
    && (forall i, j | 0 <= i < j < |listing| :: listing[i] != listing[j])
    && (set id | id in listing) == revisions.Keys
  }

  /** `slice(0, max(0, length - keepCount))` */
  function DoomedCount(length: nat, keepCount: int): nat {
    Min(length, Max(0, length - keepCount))
  }

  function Candidates(d: Disk, ids: seq<RevisionId>): set<RevisionId> {
    set id | id in ids && ActiveOf(d) != Some(id)
  }

  function Removed(d: Disk, keepCount: int, listing: seq<RevisionId>): set<RevisionId> {
    var ages := SortBy(listing, AgeKey(d.revisions));
    Candidates(d, ages[..DoomedCount(|ages|, keepCount)])
  }

  function AfterRemoval(revisions: map<RevisionId, Revision>, removed: set<RevisionId>, leftovers: map<RevisionId, Revision>)
    : map<RevisionId, Revision>
  {
    map id | id in revisions && (id !in removed || id in leftovers) ::
      if id in removed then leftovers[id] else revisions[id]
  }

  function WithoutDirectory(revisions: map<RevisionId, Revision>, id: RevisionId, leftovers: map<RevisionId, Revision>)
    : map<RevisionId, Revision>
  {
    if id !in leftovers then revisions - {id}
    else if id in revisions then revisions[id := leftovers[id]]
    else revisions
  }

  lemma RemovingOneMore(d: Disk, ids: seq<RevisionId>, rev: RevisionId, leftovers: map<RevisionId, Revision>)
    ensures var before := AfterRemoval(d.revisions, Candidates(d, ids), leftovers);
            AfterRemoval(d.revisions, Candidates(d, ids + [rev]), leftovers)
              == if ActiveOf(d) == Some(rev) then before else WithoutDirectory(before, rev, leftovers)
    ensures AfterRemoval(d.revisions, {}, leftovers) == d.revisions
  {
    if ActiveOf(d) == Some(rev) {
      assert Candidates(d, ids + [rev]) == Candidates(d, ids);
    } else {
      assert Candidates(d, ids + [rev]) == Candidates(d, ids) + {rev};
    }
  }

  lemma CleanupKeepsPublished(d: Disk, removed: set<RevisionId>, leftovers: map<RevisionId, Revision>)
    requires Trustworthy(d) && (ActiveOf(d).Some? ==> ActiveOf(d).value !in removed)
    ensures Trustworthy(d.(revisions := AfterRemoval(d.revisions, removed, leftovers)))
  {
  }

  /** Cleanup touches nothing but what it removes, and of that leaves exactly what a failing removal leaves. */
  lemma CleanupTouchesOnlyRemoved(d: Disk, keepCount: int, listing: seq<RevisionId>, leftovers: map<RevisionId, Revision>, id: RevisionId)
    ensures var removed := Removed(d, keepCount, listing);
            var after := AfterRemoval(d.revisions, removed, leftovers);
            && (id in after ==> id in d.revisions)
            && (id in d.revisions && id !in removed ==> id in after && after[id] == d.revisions[id])
            && (id in d.revisions && id in removed && id in leftovers ==> id in after && after[id] == leftovers[id])
            && (id in removed && id !in leftovers ==> id !in after)
            && (ActiveOf(d) == Some(id) ==> id !in removed)
  {
  }

  function NewestOf(d: Disk, keepCount: int, listing: seq<RevisionId>): seq<RevisionId> {
    SortBy(listing, AgeKey(d.revisions))[DoomedCount(|listing|, keepCount)..]
  }

  /** With all removals succeeding, exactly the newest `keepCount` revisions and the active one are left, unchanged. */
  lemma CleanupKeepsNewestAndActive(d: Disk, keepCount: int, listing: seq<RevisionId>)
    requires IsListing(listing, d.revisions)
    ensures var left := AfterRemoval(d.revisions, Removed(d, keepCount, listing), map[]);
            var newest := NewestOf(d, keepCount, listing);
            && |newest| == Min(|listing|, Max(0, keepCount))
            && left.Keys == (set id | id in newest) + (set id | id in d.revisions && ActiveOf(d) == Some(id))
            && (forall id | id in left :: left[id] == d.revisions[id])
  {
    var key := AgeKey(d.revisions);
    var ages, n := SortBy(listing, key), DoomedCount(|listing|, keepCount);
    SortKeepsElements(listing, key);
    SortedListingIsListing(listing, ages, d.revisions);
    var left := AfterRemoval(d.revisions, Removed(d, keepCount, listing), map[]);
    forall id
      ensures id in left <==> id in ages[n..] || (id in d.revisions && ActiveOf(d) == Some(id))
    {
      SplitMembership(ages, n, id);
    }
  }

  lemma SplitMembership(ids: seq<RevisionId>, n: nat, id: RevisionId)
    requires n <= |ids| && forall i, j | 0 <= i < j < |ids| :: ids[i] != ids[j]
    ensures id in ids <==> id in ids[..n] || id in ids[n..]
    ensures !(id in ids[..n] && id in ids[n..])
  {
    assert ids == ids[..n] + ids[n..];
  }

  /** The revisions cleanup keeps for their age are at least as new as every revision it removes. */
  lemma RemovedAreOldest(d: Disk, keepCount: int, listing: seq<RevisionId>, kept: RevisionId, gone: RevisionId)
    requires IsListing(listing, d.revisions)
    requires kept in NewestOf(d, keepCount, listing) && gone in Removed(d, keepCount, listing)
    ensures AgeOf(d.revisions, gone) <= AgeOf(d.revisions, kept)
    ensures kept in d.revisions && gone in d.revisions
    ensures d.revisions[gone].meta.Some? ==>
              d.revisions[kept].meta.Some? && d.revisions[gone].meta.value.createdAt <= d.revisions[kept].meta.value.createdAt
  {
    var key := AgeKey(d.revisions);
    var ages, n := SortBy(listing, key), DoomedCount(|listing|, keepCount);
    SortSorts(listing, key);
    SortKeepsElements(listing, key);
    SortedListingIsListing(listing, ages, d.revisions);
    var i :| 0 <= i < n && ages[..n][i] == gone;
    var j :| 0 <= j < |ages[n..]| && ages[n..][j] == kept;
    assert key(ages[i]) <= key(ages[n + j]);
    assert ages[i] in (set id | id in ages) && ages[n + j] in (set id | id in ages);
  }

  lemma SortedListingIsListing(listing: seq<RevisionId>, ages: seq<RevisionId>, revisions: map<RevisionId, Revision>)
    requires IsListing(listing, revisions) && multiset(ages) == multiset(listing)
    ensures IsListing(ages, revisions)
  {
    forall i, j | 0 <= i < j < |ages|
      ensures ages[i] != ages[j]
    {
      if ages[i] == ages[j] {
        TwiceInMultiset(ages, i, j);
        NoRepeatsOnceInMultiset(listing, ages[i]);
      }
    }
    forall id
      ensures id in ages <==> id in listing
    {
      assert id in multiset(ages) <==> id in multiset(listing);
    }
  }

  lemma TwiceInMultiset(s: seq<RevisionId>, i: nat, j: nat)
    requires i < j < |s| && s[i] == s[j]
    ensures 2 <= multiset(s)[s[i]]
  {
    assert s == s[..i] + [s[i]] + s[i + 1..j] + [s[j]] + s[j + 1..];
  }

  lemma NoRepeatsOnceInMultiset(s: seq<RevisionId>, x: RevisionId)
    requires forall i, j | 0 <= i < j < |s| :: s[i] != s[j]
    ensures multiset(s)[x] <= 1
  {
    if s != [] {
      NoRepeatsOnceInMultiset(s[1..], x);
      assert s == [s[0]] + s[1..];
      if s[0] == x {
        assert x !in s[1..];
      }
    }
  }

  /** Work on a revision that is not the active one cannot make the active one untrustworthy. */
  lemma KeepsPublished(before: Disk, after: Disk, id: RevisionId)
    requires Trustworthy(before) && after.config == before.config
    requires after.revisions - {id} == before.revisions - {id}
    requires id in before.revisions ==> after == before
    ensures Trustworthy(after)
  {
    if after.config.Some? && after.config.value.activeRevision.Some? {
      var active := after.config.value.activeRevision.value;
      if active != id {
        assert active in before.revisions - {id};
        assert (before.revisions - {id})[active] == before.revisions[active];
        assert (after.revisions - {id})[active] == after.revisions[active];
      }
    }
  }

  class SecretProvider {
    var disk: Disk
    var state: ProviderState

    constructor (disk: Disk)
      ensures this.disk == disk && state == UNINITIALISED
    {
      this.disk, state := disk, UNINITIALISED;
    }

    /** A process start: memory is rebuilt from the stored config and snapshot. */
    method Initialize()
      modifies `state
      ensures disk.config.None? || !disk.config.value.enabled ==> state == old(state).(status := Unconfigured)
      ensures disk.config.Some? && disk.config.value.enabled ==>
                var active := disk.config.value.activeRevision;
                state == if active.Some? && active.value in disk.revisions && disk.revisions[active.value].snapshot.Some?
                         then old(state).(activeRevision := active, status := Active,
                                          currentSnapshot := disk.revisions[active.value].snapshot)
                         else old(state).(activeRevision := active)
    {
      if disk.config.None? || !disk.config.value.enabled {
        state := state.(status := Unconfigured);
        return;
      }
      var active := disk.config.value.activeRevision;
      state := state.(activeRevision := active);
      if active.Some? && active.value in disk.revisions && disk.revisions[active.value].snapshot.Some? {
        state := state.(currentSnapshot := disk.revisions[active.value].snapshot, status := Active);
      }
    }

    function Get(key: string): Option<string>
      reads this
    {
      SecretIn(state.currentSnapshot, key)
    }

    /** The process ends at any moment and starts again. */
    method Restart()
      requires Trustworthy(disk)
      modifies `state
      ensures var ready := disk.config.Some? && disk.config.value.enabled && disk.config.value.activeRevision.Some?;
              && (ready <==> state.status == Active && state.currentSnapshot.Some?)
              && (ready ==> state.currentSnapshot == disk.revisions[disk.config.value.activeRevision.value].snapshot)
              && (ready ==> state.activeRevision == disk.config.value.activeRevision)
              && (disk.config.None? || !disk.config.value.enabled ==> state == UNINITIALISED)
    {
      state := UNINITIALISED;
      Initialize();
    }

    method Fail(code: ErrorCode)
      modifies `state
      ensures state == old(state).(status := Degraded, errorCode := code)
    {
      state := state.(status := Degraded, errorCode := code);
    }

    /** `createRevision`: the directory must be new. */
    method CreateRevision(r: Refresh, fault: Fault) returns (ok: bool)
      modifies `disk
      ensures disk.config == old(disk).config
      ensures disk.revisions - {r.id} == old(disk).revisions - {r.id}
      ensures r.id in old(disk).revisions ==> disk == old(disk)
      ensures ok <==> r.id !in old(disk).revisions && Succeeds(fault, MakeDirectory) && Succeeds(fault, WriteMeta)
      ensures ok ==> r.id in disk.revisions && disk.revisions[r.id] == Revision(Some(Meta(r.createdAt, false)), false, None)
    {
      if r.id in disk.revisions || !Succeeds(fault, MakeDirectory) { return false; }
      Put(r.id, Revision(None, false, None));
      if !Succeeds(fault, WriteMeta) { return false; }
      Put(r.id, Revision(Some(Meta(r.createdAt, false)), false, None));
      return true;
    }

    /** Rewrites one revision that exists. */
    method Put(id: RevisionId, revision: Revision)
      modifies `disk
      ensures disk == old(disk).(revisions := old(disk).revisions[id := revision])
      ensures disk.revisions - {id} == old(disk).revisions - {id}
    {
      assert disk.revisions[id := revision] - {id} == disk.revisions - {id};
      disk := disk.(revisions := disk.revisions[id := revision]);
    }

    /** `saveSnapshot`, then `markRevisionValidated`. */
    method SaveSnapshotAndValidate(id: RevisionId, snapshot: Snapshot, fault: Fault) returns (ok: bool)
      requires id in disk.revisions
      modifies `disk
      ensures disk.config == old(disk).config && disk.revisions - {id} == old(disk).revisions - {id} && id in disk.revisions
      ensures ok <==>
                && Succeeds(fault, WriteSnapshot) && Succeeds(fault, RestrictSnapshot)
                && old(disk).revisions[id].meta.Some? && Succeeds(fault, WriteValidated)
      ensures ok ==>
                var before := old(disk).revisions[id];
                disk.revisions[id] == before.(snapshot := Some(snapshot), meta := Some(before.meta.value.(validated := true)))
    {
      if !Succeeds(fault, WriteSnapshot) { return false; }
      Put(id, disk.revisions[id].(snapshot := Some(snapshot)));
      if !Succeeds(fault, RestrictSnapshot) { return false; }
      var meta := disk.revisions[id].meta;
      if meta.None? { return false; }
      if !Succeeds(fault, WriteValidated) {
        if Tears(fault, WriteValidated) { Put(id, disk.revisions[id].(meta := None)); }
        return false;
      }
      Put(id, disk.revisions[id].(meta := Some(meta.value.(validated := true))));
      return true;
    }

    /** `activateRevision`: the guards, then `saveConfig` through a temporary file. */
    method ActivateRevision(id: RevisionId, fault: Fault) returns (ok: bool)
      modifies `disk
      ensures disk.revisions == old(disk).revisions
      ensures var guarded := && old(disk).config.Some? && Succeeds(fault, ReadRevision)
                             && id in old(disk).revisions && old(disk).revisions[id].meta.Some?
                             && old(disk).revisions[id].meta.value.validated;
              var written := guarded && Succeeds(fault, WriteTempConfig) && Succeeds(fault, WriteConfig);
              && (ok <==> written && Succeeds(fault, RemoveTempConfig))
              && disk.config ==
                   if written then Some(old(disk).config.value.(activeRevision := Some(id)))
                   else if guarded && Succeeds(fault, WriteTempConfig) && Tears(fault, WriteConfig) then None
                   else old(disk).config
    {
      if disk.config.None? || !Succeeds(fault, ReadRevision) { return false; }
      if id !in disk.revisions || disk.revisions[id].meta.None? { return false; }
      if !disk.revisions[id].meta.value.validated { return false; }
      if !Succeeds(fault, WriteTempConfig) { return false; }
      if !Succeeds(fault, WriteConfig) {
        if Tears(fault, WriteConfig) { disk := disk.(config := None); }
        return false;
      }
      disk := disk.(config := Some(disk.config.value.(activeRevision := Some(id))));
      return Succeeds(fault, RemoveTempConfig);
    }

    /** The steps up to the answer of the resolver. */
    method PrepareRevision(r: Refresh, fault: Fault) returns (ok: bool)
      modifies this
      ensures disk.config == old(disk).config && disk.revisions - {r.id} == old(disk).revisions - {r.id}
      ensures r.id in old(disk).revisions ==> disk == old(disk)
      ensures !ok ==> state == old(state).(status := Degraded, errorCode := ErrorOf(old(disk), r, fault))
      ensures ok ==> state == old(state)
      ensures ok <==>
                && r.id !in old(disk).revisions && r.schemaValid && r.resolved.Some?
                && (fault.Fault? ==> fault.step !in {MakeDirectory, WriteMeta, WriteSchema, RestrictSchema, ValidateSchema, ResolveSecrets})
      ensures ok ==> r.id in disk.revisions && disk.revisions[r.id] == Revision(Some(Meta(r.createdAt, false)), true, None)
    {
      var taken := r.id in disk.revisions;
      ok := CreateRevision(r, fault);
      if !ok { Fail(if taken then UnknownError else CaughtError(fault)); return; }
      if !Succeeds(fault, WriteSchema) { Fail(CaughtError(fault)); return false; }
      Put(r.id, disk.revisions[r.id].(schema := true));
      if !Succeeds(fault, RestrictSchema) || !Succeeds(fault, ValidateSchema) { Fail(CaughtError(fault)); return false; }
      if !r.schemaValid { Fail(ValidationError); return false; }
      if !Succeeds(fault, ResolveSecrets) { Fail(CaughtError(fault)); return false; }
      if r.resolved.None? { Fail(ResolveError); return false; }
      return true;
    }

    /** `doRefresh`: what is stored and what is in memory after any failure. */
    method DoRefresh(r: Refresh, fault: Fault)
      requires Trustworthy(disk)
      modifies this
      ensures Trustworthy(disk)
      ensures Refreshed(old(disk), disk, r, fault)
      ensures state == if OutcomeOf(old(disk), r, fault) == Completed
                       then ProviderState(Active, Some(Snapshot(r.id, r.resolved.value)), Some(r.id), NoError)
                       else old(state).(status := Degraded, errorCode := ErrorOf(old(disk), r, fault))
    {
      var ok := PrepareRevision(r, fault);
      if !ok { KeepsPublished(old(disk), disk, r.id); return; }
      var snapshot := Snapshot(r.id, r.resolved.value);
      ok := SaveSnapshotAndValidate(r.id, snapshot, fault);
      KeepsPublished(old(disk), disk, r.id);
      if !ok { Fail(CaughtError(fault)); return; }
      var loadable := disk.config.Some?;
      ok := ActivateRevision(r.id, fault);
      if !ok { Fail(if !loadable then UnknownError else CaughtError(fault)); return; }
      state := ProviderState(Active, Some(snapshot), Some(r.id), NoError);
    }

    /** `refresh`: it answers "success" whenever it could start, because `doRefresh` swallows its failures. */
    method RefreshSecrets(r: Refresh, fault: Fault) returns (success: bool)
      requires Trustworthy(disk)
      modifies this
      ensures Trustworthy(disk)
      ensures success <==> old(disk).config.Some? && old(disk).config.value.enabled
      ensures !success ==> disk == old(disk) && state == old(state)
      ensures success ==> Refreshed(old(disk), disk, r, fault)
      // The answer hides a failure exactly when the refresh does not complete.
      ensures success ==> (state.status == Degraded <==> OutcomeOf(old(disk), r, fault) != Completed)
      ensures success && OutcomeOf(old(disk), r, fault) != Completed ==>
                state == old(state).(status := Degraded, errorCode := ErrorOf(old(disk), r, fault))
      ensures success && OutcomeOf(old(disk), r, fault) == Completed ==>
                state == ProviderState(Active, Some(Snapshot(r.id, r.resolved.value)), Some(r.id), NoError)
    {
      if disk.config.None? || !disk.config.value.enabled { return false; }
      state := state.(status := Validating);
      DoRefresh(r, fault);
      return true;
    }

    /** A refresh cut at any step, then a process start: the secrets served afterwards are all new or all old. */
    method RefreshCutAndRestart(r: Refresh, fault: Fault)
      requires Trustworthy(disk) && ActiveOf(disk).Some? && disk.config.value.enabled
      modifies this
      ensures Trustworthy(disk)
      ensures var outcome := OutcomeOf(old(disk), r, fault);
              && (outcome == Completed || outcome == OnDiskOnly ==>
                    forall key :: Get(key) == if key in r.resolved.value then Some(r.resolved.value[key]) else None)
              && (outcome == NotActivated ==>
                    var secrets := old(disk).revisions[old(disk).config.value.activeRevision.value].snapshot.value.secrets;
                    forall key :: Get(key) == if key in secrets then Some(secrets[key]) else None)
              && (outcome == ConfigLost ==> forall key :: Get(key) == None)
              && (outcome != ConfigLost ==> state.status == Active && state.activeRevision == ActiveOf(disk))
    {
      DoRefresh(r, fault);
      assert OutcomeOf(old(disk), r, fault) == NotActivated ==>
               disk.revisions[ActiveOf(old(disk)).value] == old(disk).revisions[ActiveOf(old(disk)).value] by {
        var active := ActiveOf(old(disk)).value;
        if active != r.id {
          assert (disk.revisions - {r.id})[active] == (old(disk).revisions - {r.id})[active];
        }
      }
      state := UNINITIALISED;
      Initialize();
    }

    /** `cleanupOldRevisions`. `listing` is what readdir returns; a removal that fails leaves `leftovers` behind. */
    method CleanupOldRevisions(keepCount: int, listing: seq<RevisionId>, leftovers: map<RevisionId, Revision>)
      requires Trustworthy(disk)
      requires IsListing(listing, disk.revisions)
      modifies `disk
      ensures Trustworthy(disk)
      ensures disk.config == old(disk).config
      ensures disk.revisions == AfterRemoval(old(disk).revisions, Removed(old(disk), keepCount, listing), leftovers)
    {
      var ages := SortBy(listing, AgeKey(disk.revisions));
      var count := DoomedCount(|ages|, keepCount);
      ghost var before := disk;
      for i := 0 to count
        invariant disk == before.(revisions := AfterRemoval(before.revisions, Candidates(before, ages[..i]), leftovers))
      {
        var rev := ages[i];
        assert ages[..i + 1] == ages[..i] + [rev];
        RemovingOneMore(before, ages[..i], rev, leftovers);
        if ActiveOf(disk) != Some(rev) {
          RemoveDirectory(rev, leftovers);
        }
      }
      CleanupKeepsPublished(before, Candidates(before, ages[..count]), leftovers);
    }

    /** `rmSync`, whose errors are ignored. */
    method RemoveDirectory(id: RevisionId, leftovers: map<RevisionId, Revision>)
      modifies `disk
      ensures disk == old(disk).(revisions := WithoutDirectory(old(disk).revisions, id, leftovers))
    {
      if id in leftovers {
        if id in disk.revisions { disk := disk.(revisions := disk.revisions[id := leftovers[id]]); }
      } else {
        disk := disk.(revisions := disk.revisions - {id});
      }
    }
  }

  // ---- Runs ----

  datatype Op =
    | Refreshing(refresh: Refresh, fault: Fault)
    | CleaningUp(keepCount: int, listing: seq<RevisionId>, leftovers: map<RevisionId, Revision>)
    | Restarting

  /** Refreshes cut at any step, cleanups and restarts in any order, from a config without an active revision: the stored
      active revision is none, or it exists, is validated and has its own snapshot. */
  method Operate(disk: Disk, ops: seq<Op>) returns (provider: SecretProvider)
    requires ActiveOf(disk).None?
    ensures Trustworthy(provider.disk)
    ensures provider.disk.config.Some? && provider.disk.config.value.activeRevision.Some? ==>
              var id, revisions := provider.disk.config.value.activeRevision.value, provider.disk.revisions;
              && id in revisions
              && revisions[id].meta.Some? && revisions[id].meta.value.validated
              && revisions[id].snapshot.Some? && revisions[id].snapshot.value.revisionId == id
  {
    provider := new SecretProvider(disk);
    provider.Restart();
    for i := 0 to |ops|
      invariant fresh(provider) && Trustworthy(provider.disk)
    {
      match ops[i]
      case Refreshing(refresh, fault) => var _ := provider.RefreshSecrets(refresh, fault);
      case CleaningUp(keepCount, listing, leftovers) =>
        if IsListing(listing, provider.disk.revisions) {
          provider.CleanupOldRevisions(keepCount, listing, leftovers);
        }
      case Restarting => provider.Restart();
    }
  }

  const ENABLED := Disk(Some(Config(true, None)), map[])

  /** A refresh whose schema is refused: it answers success, and nothing is served. */
  method SuccessWithoutSecrets() returns (provider: SecretProvider, success: bool)
    ensures success && provider.state.status == Degraded && provider.state.errorCode == ValidationError
    ensures provider.disk.config == ENABLED.config && provider.Get("token") == None
  {
    provider := new SecretProvider(ENABLED);
    success := provider.RefreshSecrets(Refresh(1, 0, false, None), NoFault);
  }

  /** A refresh whose write of the config is torn: it answers success, the config is lost, and no restart serves the new
      revision, although it is complete on the disk. */
  method TornConfigIsLost() returns (provider: SecretProvider, success: bool)
    ensures success && provider.disk.config == None
    ensures IsPublished(provider.disk, 1) && provider.state == UNINITIALISED
  {
    provider := new SecretProvider(ENABLED);
    var r := Refresh(1, 0, true, Some(map["token" := "t"]));
    success := provider.RefreshSecrets(r, Fault(WriteConfig, true, false));
    assert OutcomeOf(ENABLED, r, Fault(WriteConfig, true, false)) == ConfigLost;
    provider.Restart();
  }
}
