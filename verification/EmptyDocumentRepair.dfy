/** The repair of empty documents (backend/alembic/versions/20261001_0027_empty_documents_skipped.py).

    `Repaired` gives the resulting tables in closed form. The program itself visits runs, progress entries
    and affected folders in an arbitrary order; it is proved to end in `Repaired` whatever the order.
    Job ids and their texts, which the program compares, are one type here.
  */
module EmptyDocumentRepair {
  import opened Common

  type Id = nat

  /** A key of a JSON object: missing, null, or a value. */
  datatype Field<T> = Absent | Null | Value(value: T)

  datatype FileOutcome = FileOutcome(errorCode: Field<string>, status: Field<string>, reason: Field<string>,
                                     rest: string)

  /** The progress of one job in a run; `rest` is what the repair does not read. */
  datatype Entry = Entry(status: Field<string>, errorCode: Field<string>, failed: Field<int>, skipped: Field<int>,
                         outcomes: Option<seq<FileOutcome>>, rest: string)

  datatype Document = Document(folder: Id, indexStatus: string, errorCode: Option<string>)

  datatype Run = Run(organization: Id, scopeKind: string, scopeId: Option<Id>, status: string, progress: map<Id, Entry>)

  datatype Job = Job(organization: Id, folder: Id, status: string, errorCode: Option<string>, createdAt: int,
                     manualRun: Option<Id>)

  /** The four tables; of a folder only the status matters. */
  datatype Tables = Tables(documents: map<Id, Document>, runs: map<Id, Run>, jobs: map<Id, Job>,
                           folders: map<Id, string>)

  /** ->> : the text of a field, or NULL. */
  function Text(field: Field<string>): Option<string> {
    if field.Value? then Some(field.value) else None
  }

  predicate IsEmptyCode(code: Option<string>) {
    code == Some("empty_document") || code == Some("empty_content")
  }

  predicate IsBlank(code: Option<string>) {
    code == None || code == Some("")
  }

  predicate IsFailure(status: Option<string>) {
    status == Some("failed") || status == Some("partial_failure")
  }

  // ---------------------------------------------------------------- one progress entry

  function OutcomesOf(e: Entry): seq<FileOutcome> {
    if e.outcomes.Some? then e.outcomes.value else []
  }

  predicate IsEmptyOutcome(o: FileOutcome) {
    IsEmptyCode(Text(o.errorCode))
  }

  predicate IsFailedOutcome(o: FileOutcome) {
    !IsBlank(Text(o.errorCode))
  }

  predicate IsSkippedOutcome(o: FileOutcome) {
    Text(o.status) == Some("skipped") && IsBlank(Text(o.errorCode))
  }

  function Count(outcomes: seq<FileOutcome>, which: FileOutcome -> bool): nat {
    if outcomes == [] then 0 else (if which(outcomes[0]) then 1 else 0) + Count(outcomes[1..], which)
  }

  function RepairOutcome(o: FileOutcome): FileOutcome {
    if IsEmptyOutcome(o) then o.(errorCode := Null, status := Value("skipped"), reason := Value("empty_content")) else o
  }

  function RepairOutcomes(outcomes: seq<FileOutcome>): seq<FileOutcome> {
    if outcomes == [] then [] else [RepairOutcome(outcomes[0])] + RepairOutcomes(outcomes[1..])
  }

  function Converted(e: Entry): nat {
    Count(OutcomesOf(e), IsEmptyOutcome)
  }

  /** The failures an entry reports, or else those among its outcomes. */
  function Failures(e: Entry): int {
    if e.failed.Value? then e.failed.value else Count(OutcomesOf(e), IsFailedOutcome)
  }

  function Skips(e: Entry): int {
    if e.skipped.Value? then e.skipped.value else Count(OutcomesOf(e), IsSkippedOutcome)
  }

  function RepairEntry(e: Entry): Entry {
    var failures := Max(0, Failures(e) - Converted(e));
    var code := if IsEmptyCode(Text(e.errorCode)) then Null else e.errorCode;
    var cleared := (Converted(e) > 0 || IsEmptyCode(Text(e.errorCode)))
                   && IsFailure(Text(e.status)) && failures == 0 && IsBlank(Text(code));
    Entry(if cleared then Value("ready") else e.status, code, Value(failures), Value(Skips(e) + Converted(e)),
          Some(RepairOutcomes(OutcomesOf(e))), e.rest)
  }

  /** The status of the entry changes, which can only be to "ready". */
  predicate Improves(e: Entry) {
    Text(RepairEntry(e).status) != Text(e.status)
  }

  lemma {:induction false} RepairedOutcomes(outcomes: seq<FileOutcome>)
    ensures |RepairOutcomes(outcomes)| == |outcomes|
            && RepairOutcomes(RepairOutcomes(outcomes)) == RepairOutcomes(outcomes)
    ensures Count(RepairOutcomes(outcomes), IsEmptyOutcome) == 0
    ensures Count(outcomes, IsEmptyOutcome) <= Count(outcomes, IsFailedOutcome)
    ensures Count(RepairOutcomes(outcomes), IsFailedOutcome) ==
            Count(outcomes, IsFailedOutcome) - Count(outcomes, IsEmptyOutcome)
    ensures Count(RepairOutcomes(outcomes), IsSkippedOutcome) ==
            Count(outcomes, IsSkippedOutcome) + Count(outcomes, IsEmptyOutcome)
    decreases |outcomes|
  {
    if outcomes == [] {
    } else {
      RepairedOutcomes(outcomes[1..]);
      var o := RepairOutcome(outcomes[0]);
      assert ([o] + RepairOutcomes(outcomes[1..]))[1..] == RepairOutcomes(outcomes[1..]);
    }
  }

  lemma EntryIsRepairedOnce(e: Entry)
    ensures RepairEntry(RepairEntry(e)) == RepairEntry(e) && !Improves(RepairEntry(e))
  {
    RepairedOutcomes(OutcomesOf(e));
  }

  /** What the repair of an entry keeps: no negative count, and the sum of failed and skipped exactly when the
      failures it started from were at least those converted; that is so whenever the entry reported no count. */
  lemma EntryKeepsCounts(e: Entry)
    ensures var r := RepairEntry(e);
            && Failures(r) >= 0 && Converted(r) == 0 && |OutcomesOf(r)| == |OutcomesOf(e)|
            && (Failures(r) + Skips(r) == Failures(e) + Skips(e) <==> Failures(e) >= Converted(e))
            && (!e.failed.Value? ==> Failures(e) >= Converted(e))
            && (!e.failed.Value? && !e.skipped.Value? ==>
                  Failures(r) == Count(OutcomesOf(r), IsFailedOutcome)
                  && Skips(r) == Count(OutcomesOf(r), IsSkippedOutcome))
  {
    RepairedOutcomes(OutcomesOf(e));
  }

  /** An entry is only ever moved from a failure to "ready", and then has no failure left. */
  lemma ImprovedEntryHasNoFailure(e: Entry)
    requires Improves(e)
    ensures IsFailure(Text(e.status)) && RepairEntry(e).status == Value("ready")
    ensures Failures(RepairEntry(e)) == 0 && IsBlank(Text(RepairEntry(e).errorCode))
  {}

  // ---------------------------------------------------------------- one run

  function RepairProgress(progress: map<Id, Entry>): map<Id, Entry> {
    map key | key in progress :: RepairEntry(progress[key])
  }

  /** The status of a run from those of its entries. */
  function RunStatus(statuses: set<Option<string>>): string {
    if Some("syncing") in statuses then "syncing"
    else if Some("queued") in statuses then "queued"
    else if statuses == {Some("failed")} then "failed"
    else if Some("failed") in statuses || Some("partial_failure") in statuses then "partial_failure"
    else "ready"
  }

  function Statuses(progress: map<Id, Entry>): set<Option<string>> {
    set key | key in progress :: Text(progress[key].status)
  }

  function RepairRun(r: Run): Run {
    var next := RepairProgress(r.progress);
    if next != r.progress then r.(progress := next, status := RunStatus(Statuses(next))) else r
  }

  /** An entry is left alone exactly when it holds no empty code and already has its outcomes and both counts. */
  predicate IsSettledEntry(e: Entry) {
    && Converted(e) == 0 && !IsEmptyCode(Text(e.errorCode)) && e.outcomes.Some?
    && e.failed.Value? && e.failed.value >= 0 && e.skipped.Value?
  }

  lemma {:induction false} NothingConverted(outcomes: seq<FileOutcome>)
    ensures RepairOutcomes(outcomes) == outcomes <==> Count(outcomes, IsEmptyOutcome) == 0
    decreases |outcomes|
  {
    if outcomes == [] {
    } else {
      NothingConverted(outcomes[1..]);
      assert outcomes == [outcomes[0]] + outcomes[1..];
      assert RepairOutcomes(outcomes)[1..] == RepairOutcomes(outcomes[1..]);
    }
  }

  lemma EntryIsLeftAlone(e: Entry)
    ensures RepairEntry(e) == e <==> IsSettledEntry(e)
  {
    NothingConverted(OutcomesOf(e));
  }

  /** A run is left alone exactly when each of its entries is. */
  lemma RunIsLeftAlone(r: Run)
    ensures RepairRun(r) == r <==> forall key :: key in r.progress ==> IsSettledEntry(r.progress[key])
  {
    var next := RepairProgress(r.progress);
    forall key | key in r.progress
      ensures next[key] == r.progress[key] <==> IsSettledEntry(r.progress[key])
    {
      EntryIsLeftAlone(r.progress[key]);
    }
  }

  /** So a run without any empty document can have its status rewritten, because an entry lacks its counts. */
  lemma RunWithoutEmptyDocumentsIsRewritten()
    ensures exists r: Run :: (forall key :: key in r.progress ==>
                                Converted(r.progress[key]) == 0 && !IsEmptyCode(Text(r.progress[key].errorCode)))
                             && r.status == "failed" && RepairRun(r).status == "ready"
  {
    var e := Entry(Value("ready"), Absent, Absent, Absent, None, "");
    var r := Run(0, "sync", None, "failed", map[0 := e]);
    assert RepairProgress(r.progress)[0] != e;
    assert Statuses(RepairProgress(r.progress)) == {Some("ready")} by {
      assert RepairProgress(r.progress)[0].status == Value("ready");
    }
    assert RepairRun(r).status == "ready";
  }

  lemma RunIsRepairedOnce(r: Run)
    ensures RepairRun(RepairRun(r)) == RepairRun(r)
    ensures forall key :: key in RepairRun(r).progress ==> key in r.progress && !Improves(RepairRun(r).progress[key])
  {
    forall key | key in r.progress
      ensures RepairEntry(RepairEntry(r.progress[key])) == RepairEntry(r.progress[key])
      ensures !Improves(RepairEntry(r.progress[key]))
    {
      EntryIsRepairedOnce(r.progress[key]);
    }
    assert RepairProgress(RepairProgress(r.progress)) == RepairProgress(r.progress);
    if RepairProgress(r.progress) == r.progress {
      forall key | key in r.progress
        ensures RepairEntry(r.progress[key]) == r.progress[key]
      {
        assert RepairProgress(r.progress)[key] == r.progress[key];
      }
    }
  }

  // ---------------------------------------------------------------- the closed form

  predicate IsEmptyDocument(d: Document) {
    d.indexStatus == "failed" && IsEmptyCode(d.errorCode)
  }

  function RepairDocuments(documents: map<Id, Document>): map<Id, Document> {
    map id | id in documents ::
      if IsEmptyDocument(documents[id]) then
        documents[id].(indexStatus := "skipped", errorCode := Some("empty_content"))
      else documents[id]
  }

  function RepairRuns(runs: map<Id, Run>): map<Id, Run> {
    map id | id in runs :: RepairRun(runs[id])
  }

  /** A failed job that an empty document may explain. */
  predicate IsClearable(job: Job) {
    IsFailure(Some(job.status)) && (job.errorCode == None || IsEmptyCode(job.errorCode))
  }

  /** The snapshot of this very job, in a run of its own tenant, improves. */
  predicate SnapshotProves(runs: map<Id, Run>, id: Id, job: Job) {
    exists r :: r in runs && Proves(runs[r], id, job)
  }

  predicate Proves(run: Run, id: Id, job: Job) {
    run.organization == job.organization && id in run.progress && Improves(run.progress[id])
  }

  function ProvenJobs(t: Tables): set<Id> {
    set id | id in t.jobs && (SnapshotProves(t.runs, id, t.jobs[id]) || IsEmptyCode(t.jobs[id].errorCode))
  }

  /** The clearable ones among the given jobs become ready. */
  function ClearJobs(jobs: map<Id, Job>, ids: set<Id>): map<Id, Job> {
    map id | id in jobs ::
      if id in ids && IsClearable(jobs[id]) then jobs[id].(status := "ready", errorCode := None) else jobs[id]
  }

  function ClearedFolders(jobs: map<Id, Job>, ids: set<Id>): set<Id> {
    set id | id in ids && id in jobs && IsClearable(jobs[id]) :: jobs[id].folder
  }

  function EmptiedFolders(documents: map<Id, Document>): set<Id> {
    set id | id in documents && IsEmptyDocument(documents[id]) :: documents[id].folder
  }

  function Affected(t: Tables): set<Id> {
    EmptiedFolders(t.documents) + ClearedFolders(t.jobs, ProvenJobs(t))
  }

  /** The tables when the folders are about to be settled. */
  function BeforeFolders(t: Tables): Tables {
    Tables(RepairDocuments(t.documents), RepairRuns(t.runs), ClearJobs(t.jobs, ProvenJobs(t)), t.folders)
  }

  predicate HasFailedDocument(t: Tables, folder: Id) {
    exists id :: id in t.documents && t.documents[id].folder == folder && t.documents[id].indexStatus == "failed"
  }

  predicate HasActiveJob(t: Tables, folder: Id) {
    exists id :: id in t.jobs && t.jobs[id].folder == folder && t.jobs[id].status in {"queued", "syncing"}
  }

  predicate IsQuiet(t: Tables, folder: Id) {
    !HasFailedDocument(t, folder) && !HasActiveJob(t, folder)
  }

  /** ORDER BY created_at DESC, id DESC LIMIT 1 */
  predicate IsNewest(jobs: map<Id, Job>, folder: Id, id: Id) {
    && id in jobs && jobs[id].folder == folder
    && forall k :: k in jobs && jobs[k].folder == folder ==>
         jobs[k].createdAt < jobs[id].createdAt || (jobs[k].createdAt == jobs[id].createdAt && k <= id)
  }

  predicate CoveredByRun(t: Tables, id: Id)
    requires id in t.jobs
  {
    exists r :: r in t.runs && CoversJob(t.runs[r], r, id, t.jobs[id])
  }

  predicate CoversJob(run: Run, runId: Id, id: Id, job: Job) {
    run.organization == job.organization
    && (job.manualRun == Some(runId) || (run.scopeKind == "sync" && run.scopeId == Some(id)))
  }

  /** A partial job from before the snapshots. */
  predicate IsPreHistory(t: Tables, id: Id)
    requires id in t.jobs
  {
    t.jobs[id].status == "partial_failure" && t.jobs[id].errorCode == None && !CoveredByRun(t, id)
  }

  /** Settling the given folders: their newest jobs first, then the folders whose newest job is ready. */
  function SettledJobs(t: Tables, settled: set<Id>): map<Id, Job> {
    map id | id in t.jobs ::
      var f := t.jobs[id].folder;
      if f in settled && IsQuiet(t, f) && IsNewest(t.jobs, f, id) && IsPreHistory(t, id) then
        t.jobs[id].(status := "ready")
      else t.jobs[id]
  }

  predicate NewestIsReady(jobs: map<Id, Job>, folder: Id) {
    exists id :: id in jobs && IsNewest(jobs, folder, id) && jobs[id].status == "ready"
  }

  function SettledFolders(t: Tables, settled: set<Id>): map<Id, string> {
    map f | f in t.folders ::
      if f in settled && IsQuiet(t, f) && NewestIsReady(SettledJobs(t, settled), f)
        && IsFailure(Some(t.folders[f])) then "ready"
      else t.folders[f]
  }

  function Settle(t: Tables, settled: set<Id>): Tables {
    t.(jobs := SettledJobs(t, settled), folders := SettledFolders(t, settled))
  }

  function Repaired(t: Tables): Tables {
    Settle(BeforeFolders(t), Affected(t))
  }

  // ---------------------------------------------------------------- idempotence

  lemma NoDocumentIsEmptied(documents: map<Id, Document>)
    ensures RepairDocuments(RepairDocuments(documents)) == RepairDocuments(documents)
    ensures EmptiedFolders(RepairDocuments(documents)) == {}
  {}

  lemma NoSnapshotProves(runs: map<Id, Run>)
    ensures RepairRuns(RepairRuns(runs)) == RepairRuns(runs)
    ensures forall id, job :: !SnapshotProves(RepairRuns(runs), id, job)
  {
    forall r | r in runs
      ensures RepairRun(RepairRun(runs[r])) == RepairRun(runs[r])
      ensures forall id, job :: !Proves(RepairRuns(runs)[r], id, job)
    {
      RunIsRepairedOnce(runs[r]);
    }
  }

  lemma NoJobIsCleared(t: Tables, id: Id)
    requires id in t.jobs
    ensures var job := Repaired(t).jobs[id]; IsEmptyCode(job.errorCode) ==> !IsClearable(job)
  {}

  lemma SettlingNothing(t: Tables)
    ensures Settle(t, {}) == t
  {
    assert SettledJobs(t, {}) == t.jobs;
    assert SettledFolders(t, {}) == t.folders;
  }

  /** Running the repair twice equals running it once, on every state of the tables; the second run finds no
      empty code, no changed progress and no affected folder. */
  lemma RepairIsIdempotent(t: Tables)
    ensures Repaired(Repaired(t)) == Repaired(t)
    ensures Affected(Repaired(t)) == {} && BeforeFolders(Repaired(t)) == Repaired(t)
  {
    var r := Repaired(t);
    NoDocumentIsEmptied(t.documents);
    NoSnapshotProves(t.runs);
    forall id | id in r.jobs && id in ProvenJobs(r)
      ensures !IsClearable(r.jobs[id])
    {
      NoJobIsCleared(t, id);
    }
    assert ClearJobs(r.jobs, ProvenJobs(r)) == r.jobs;
    assert ClearedFolders(r.jobs, ProvenJobs(r)) == {};
    assert Affected(r) == {};
    SettlingNothing(r);
  }

  // ---------------------------------------------------------------- what the repair keeps

  lemma JobsOnlyMoveToReady(t: Tables)
    ensures var jobs := Repaired(t).jobs;
            && jobs.Keys == t.jobs.Keys
            && (forall id :: id in t.jobs && jobs[id] != t.jobs[id] ==>
                  IsClearable(t.jobs[id]) && jobs[id] == t.jobs[id].(status := "ready", errorCode := None))
  {}

  /** Job and folder rows only move from a failure to ready, and nothing is added or removed. */
  lemma RowsOnlyMoveToReady(t: Tables)
    ensures var r := Repaired(t);
            && r.documents.Keys == t.documents.Keys && r.runs.Keys == t.runs.Keys
            && r.jobs.Keys == t.jobs.Keys && r.folders.Keys == t.folders.Keys
            && (forall id :: id in t.jobs && r.jobs[id] != t.jobs[id] ==>
                  IsClearable(t.jobs[id]) && r.jobs[id] == t.jobs[id].(status := "ready", errorCode := None))
            && (forall f :: f in t.folders && r.folders[f] != t.folders[f] ==>
                  IsFailure(Some(t.folders[f])) && r.folders[f] == "ready")
  {
    JobsOnlyMoveToReady(t);
  }

  /** The newest job of a folder does not depend on statuses. */
  lemma SameNewest(jobs: map<Id, Job>, jobs': map<Id, Job>, folder: Id, id: Id)
    requires jobs.Keys == jobs'.Keys
    requires forall k :: k in jobs ==> jobs[k].folder == jobs'[k].folder && jobs[k].createdAt == jobs'[k].createdAt
    ensures IsNewest(jobs, folder, id) <==> IsNewest(jobs', folder, id)
  {}

  // ---------------------------------------------------------------- settling folder by folder

  /** Other folders' jobs do not decide whether a folder's newest job is ready. */
  lemma NewestOfOtherFolder(jobs: map<Id, Job>, jobs': map<Id, Job>, folder: Id)
    requires jobs.Keys == jobs'.Keys
    requires forall k :: k in jobs ==> jobs[k].folder == jobs'[k].folder && jobs[k].createdAt == jobs'[k].createdAt
    requires forall k :: k in jobs && jobs[k].folder == folder ==> jobs[k] == jobs'[k]
    ensures NewestIsReady(jobs, folder) <==> NewestIsReady(jobs', folder)
  {
    forall id
      ensures IsNewest(jobs, folder, id) <==> IsNewest(jobs', folder, id)
    {
      SameNewest(jobs, jobs', folder, id);
    }
  }

  /** Runs may differ, but not those of the tenant. */
  predicate SameRunsOf(runs: map<Id, Run>, other: map<Id, Run>, organization: Id) {
    && (forall r :: r in runs && runs[r].organization == organization ==> r in other && other[r] == runs[r])
    && (forall r :: r in other && other[r].organization == organization ==> r in runs && runs[r] == other[r])
  }

  predicate FolderOf(jobs: map<Id, Job>, folder: Id, organization: Id) {
    forall id :: id in jobs && jobs[id].folder == folder ==> jobs[id].organization == organization
  }

  lemma SameProof(runs: map<Id, Run>, other: map<Id, Run>, id: Id, job: Job)
    requires SameRunsOf(runs, other, job.organization) && SnapshotProves(runs, id, job)
    ensures SnapshotProves(other, id, job)
  {
    var r :| r in runs && Proves(runs[r], id, job);
    assert Proves(other[r], id, job);
  }

  lemma SameClearing(t: Tables, other: map<Id, Run>, id: Id)
    requires id in t.jobs && SameRunsOf(t.runs, other, t.jobs[id].organization)
    ensures id in ProvenJobs(t) <==> id in ProvenJobs(t.(runs := other))
    ensures BeforeFolders(t).jobs[id] == BeforeFolders(t.(runs := other)).jobs[id]
  {
    if SnapshotProves(t.runs, id, t.jobs[id]) {
      SameProof(t.runs, other, id, t.jobs[id]);
    }
    if SnapshotProves(other, id, t.jobs[id]) {
      SameProof(other, t.runs, id, t.jobs[id]);
    }
  }

  lemma SameCovering(t: Tables, t': Tables, id: Id)
    requires id in t.jobs && id in t'.jobs && t.jobs[id] == t'.jobs[id] && CoveredByRun(t, id)
    requires forall r :: r in t.runs && t.runs[r].organization == t.jobs[id].organization ==>
               r in t'.runs && SameScope(t.runs[r], t'.runs[r])
    ensures CoveredByRun(t', id)
  {
    var r :| r in t.runs && CoversJob(t.runs[r], r, id, t.jobs[id]);
    assert CoversJob(t'.runs[r], r, id, t'.jobs[id]);
  }

  predicate SameScope(run: Run, run': Run) {
    run.organization == run'.organization && run.scopeKind == run'.scopeKind && run.scopeId == run'.scopeId
  }

  lemma SameAffected(t: Tables, other: map<Id, Run>, folder: Id, organization: Id)
    requires SameRunsOf(t.runs, other, organization) && FolderOf(t.jobs, folder, organization)
    requires folder in Affected(t)
    ensures folder in Affected(t.(runs := other))
  {
    var t' := t.(runs := other);
    if folder !in EmptiedFolders(t.documents) {
      var id :| id in ProvenJobs(t) && id in t.jobs && IsClearable(t.jobs[id]) && t.jobs[id].folder == folder;
      SameClearing(t, other, id);
      assert folder in ClearedFolders(t'.jobs, ProvenJobs(t'));
    }
  }

  /** In the folder the jobs and what decides about them are the same in both tables. */
  ghost predicate SameFolder(b: Tables, b': Tables, folder: Id) {
    && b.documents == b'.documents && b.jobs.Keys == b'.jobs.Keys
    && (forall id :: id in b.jobs ==>
          b.jobs[id].folder == b'.jobs[id].folder && b.jobs[id].createdAt == b'.jobs[id].createdAt)
    && (forall id :: id in b.jobs && b.jobs[id].folder == folder ==>
          b.jobs[id] == b'.jobs[id] && (IsPreHistory(b, id) <==> IsPreHistory(b', id)))
  }

  lemma SameFolderIsQuiet(b: Tables, b': Tables, folder: Id)
    requires SameFolder(b, b', folder)
    ensures IsQuiet(b, folder) <==> IsQuiet(b', folder)
  {}

  lemma SameFolderSettles(b: Tables, b': Tables, settled: set<Id>, settled': set<Id>, id: Id)
    requires id in b.jobs && SameFolder(b, b', b.jobs[id].folder)
    requires b.jobs[id].folder in settled <==> b.jobs[id].folder in settled'
    ensures SettledJobs(b, settled)[id] == SettledJobs(b', settled')[id]
  {
    SameFolderIsQuiet(b, b', b.jobs[id].folder);
    SameNewest(b.jobs, b'.jobs, b.jobs[id].folder, id);
  }

  lemma SameScopes(t: Tables, other: map<Id, Run>, organization: Id, r: Id)
    requires SameRunsOf(t.runs, other, organization) && r in t.runs && t.runs[r].organization == organization
    ensures r in other && SameScope(BeforeFolders(t).runs[r], BeforeFolders(t.(runs := other)).runs[r])
  {}

  lemma TenantKeepsJob(t: Tables, other: map<Id, Run>, id: Id)
    requires id in t.jobs && SameRunsOf(t.runs, other, t.jobs[id].organization)
    ensures BeforeFolders(t).jobs[id] == BeforeFolders(t.(runs := other)).jobs[id]
    ensures CoveredByRun(BeforeFolders(t), id) ==> CoveredByRun(BeforeFolders(t.(runs := other)), id)
  {
    var b, b' := BeforeFolders(t), BeforeFolders(t.(runs := other));
    SameClearing(t, other, id);
    if CoveredByRun(b, id) {
      forall r | r in b.runs && b.runs[r].organization == b.jobs[id].organization
        ensures r in b'.runs && SameScope(b.runs[r], b'.runs[r])
      {
        SameScopes(t, other, t.jobs[id].organization, r);
      }
      SameCovering(b, b', id);
    }
  }

  lemma TenantKeepsFolder(t: Tables, other: map<Id, Run>, folder: Id, organization: Id)
    requires SameRunsOf(t.runs, other, organization) && FolderOf(t.jobs, folder, organization)
    ensures SameFolder(BeforeFolders(t), BeforeFolders(t.(runs := other)), folder)
  {
    var t' := t.(runs := other);
    assert t'.(runs := t.runs) == t;
    forall id | id in t.jobs && t.jobs[id].folder == folder
      ensures BeforeFolders(t).jobs[id] == BeforeFolders(t').jobs[id]
      ensures CoveredByRun(BeforeFolders(t), id) <==> CoveredByRun(BeforeFolders(t'), id)
    {
      TenantKeepsJob(t, other, id);
      TenantKeepsJob(t', t.runs, id);
    }
  }

  /** Two tables that agree on a folder settle it the same. */
  lemma SameFolderComesOutSame(b: Tables, b': Tables, settled: set<Id>, settled': set<Id>, folder: Id)
    requires SameFolder(b, b', folder) && b.folders == b'.folders && (folder in settled <==> folder in settled')
    ensures forall id :: id in b.jobs && b.jobs[id].folder == folder ==>
              SettledJobs(b, settled)[id] == SettledJobs(b', settled')[id]
    ensures folder in b.folders ==> SettledFolders(b, settled)[folder] == SettledFolders(b', settled')[folder]
  {
    forall id | id in b.jobs && b.jobs[id].folder == folder
      ensures SettledJobs(b, settled)[id] == SettledJobs(b', settled')[id]
    {
      SameFolderSettles(b, b', settled, settled', id);
    }
    SameFolderIsQuiet(b, b', folder);
    NewestOfOtherFolder(SettledJobs(b, settled), SettledJobs(b', settled'), folder);
  }

  /** Runs of other tenants have no say: where a folder's jobs belong to one tenant, they and the folder come out of the
      whole repair the same when only other tenants' runs differ. */
  lemma OtherTenantsHaveNoSay(t: Tables, other: map<Id, Run>, organization: Id, folder: Id)
    requires SameRunsOf(t.runs, other, organization) && FolderOf(t.jobs, folder, organization)
    ensures forall id :: id in t.jobs && t.jobs[id].folder == folder ==>
              Repaired(t).jobs[id] == Repaired(t.(runs := other)).jobs[id]
    ensures folder in t.folders ==> Repaired(t).folders[folder] == Repaired(t.(runs := other)).folders[folder]
  {
    var t' := t.(runs := other);
    assert t'.(runs := t.runs) == t;
    TenantKeepsFolder(t, other, folder, organization);
    if folder in Affected(t) {
      SameAffected(t, other, folder, organization);
    } else if folder in Affected(t') {
      SameAffected(t', t.runs, folder, organization);
    }
    JobsKeepFolders(t);
    SameFolderComesOutSame(BeforeFolders(t), BeforeFolders(t'), Affected(t), Affected(t'), folder);
  }

  lemma JobsKeepFolders(t: Tables)
    ensures BeforeFolders(t).jobs.Keys == t.jobs.Keys
    ensures forall id :: id in t.jobs ==> BeforeFolders(t).jobs[id].folder == t.jobs[id].folder
  {}

  /** Settling one more folder, after any others, is settling them all at once. */
  lemma SettleOneMore(t: Tables, settled: set<Id>, f: Id)
    ensures Settle(Settle(t, settled), {f}) == Settle(t, settled + {f})
  {
    var done := Settle(t, settled);
    SettledJobsOneMore(t, settled, f);
    SettledFoldersOneMore(t, settled, f);
  }

  lemma SameQuiet(t: Tables, settled: set<Id>, f: Id)
    ensures IsQuiet(Settle(t, settled), f) <==> IsQuiet(t, f)
  {
    var done := Settle(t, settled);
    if id :| id in t.jobs && t.jobs[id].folder == f && t.jobs[id].status in {"queued", "syncing"} {
      assert done.jobs[id] == t.jobs[id];
    }
    if id :| id in done.jobs && done.jobs[id].folder == f && done.jobs[id].status in {"queued", "syncing"} {
      assert t.jobs[id] == done.jobs[id];
    }
  }

  lemma SameCover(t: Tables, settled: set<Id>, id: Id)
    requires id in t.jobs
    ensures CoveredByRun(Settle(t, settled), id) <==> CoveredByRun(t, id)
  {
    var done := Settle(t, settled);
    forall r | r in t.runs
      ensures CoversJob(t.runs[r], r, id, t.jobs[id]) <==> CoversJob(done.runs[r], r, id, done.jobs[id])
    {}
  }

  lemma SameHistory(t: Tables, id: Id)
    requires id in t.jobs && BeforeFolders(t).jobs[id] == t.jobs[id]
    ensures IsPreHistory(BeforeFolders(t), id) <==> IsPreHistory(t, id)
  {
    var b := BeforeFolders(t);
    forall r | r in t.runs
      ensures CoversJob(b.runs[r], r, id, b.jobs[id]) <==> CoversJob(t.runs[r], r, id, t.jobs[id])
    {}
  }

  /** The job is cleared: a failure that an empty code, or the snapshot of this very job, explains. */
  predicate IsCleared(t: Tables, id: Id)
    requires id in t.jobs
  {
    IsClearable(t.jobs[id]) && (SnapshotProves(t.runs, id, t.jobs[id]) || IsEmptyCode(t.jobs[id].errorCode))
  }

  /** The newest job, from before the snapshots, of an affected folder that ends with no failed document and no active
      job. */
  predicate IsSettledJob(t: Tables, id: Id)
    requires id in t.jobs
  {
    var f := t.jobs[id].folder;
    IsPreHistory(t, id) && f in Affected(t) && IsNewest(t.jobs, f, id) && IsQuiet(Repaired(t), f)
  }

  lemma JobIsSettled(t: Tables, id: Id)
    requires id in t.jobs && BeforeFolders(t).jobs[id] == t.jobs[id]
    ensures Repaired(t).jobs[id] != t.jobs[id] <==> IsSettledJob(t, id)
  {
    var b := BeforeFolders(t);
    SameQuiet(b, Affected(t), t.jobs[id].folder);
    SameNewest(t.jobs, b.jobs, t.jobs[id].folder, id);
    SameHistory(t, id);
  }

  /** A job becomes ready exactly when it failed and reports an empty code, or the snapshot of this job improves in a
      run of its own tenant, or it is settled with its folder. */
  lemma JobIsProven(t: Tables, id: Id)
    requires id in t.jobs
    ensures Repaired(t).jobs[id] != t.jobs[id] <==> IsCleared(t, id) || IsSettledJob(t, id)
  {
    var b := BeforeFolders(t);
    if IsCleared(t, id) {
      assert id in ProvenJobs(t) && b.jobs[id].status == "ready";
    } else {
      assert b.jobs[id] == t.jobs[id];
      JobIsSettled(t, id);
    }
  }

  /** A failed folder becomes ready exactly when it is affected and ends with no failed document, no queued or syncing
      job, and a ready newest job. */
  lemma ReadyFolderIsClean(t: Tables, f: Id)
    requires f in t.folders
    ensures var r := Repaired(t);
            r.folders[f] != t.folders[f] <==>
            f in Affected(t) && IsFailure(Some(t.folders[f])) && IsQuiet(r, f) && NewestIsReady(r.jobs, f)
  {
    var b := BeforeFolders(t);
    SameQuiet(b, Affected(t), f);
    assert SettledJobs(b, Affected(t)) == Repaired(t).jobs;
  }

  lemma SettledJobsOneMore(t: Tables, settled: set<Id>, f: Id)
    ensures SettledJobs(Settle(t, settled), {f}) == SettledJobs(t, settled + {f})
  {
    var done := Settle(t, settled);
    SameQuiet(t, settled, f);
    forall id | id in t.jobs
      ensures SettledJobs(done, {f})[id] == SettledJobs(t, settled + {f})[id]
    {
      SameNewest(t.jobs, done.jobs, f, id);
      SameCover(t, settled, id);
    }
  }

  lemma SettledFolderOneMore(t: Tables, settled: set<Id>, f: Id, g: Id)
    requires g in t.folders && g != f
    ensures SettledFolders(t, settled + {f})[g] == SettledFolders(t, settled)[g]
  {
    NewestOfOtherFolder(SettledJobs(t, settled), SettledJobs(t, settled + {f}), g);
  }

  lemma SettledFolderAgain(t: Tables, settled: set<Id>, f: Id)
    requires f in t.folders
    ensures SettledFolders(Settle(t, settled), {f})[f] == SettledFolders(t, settled + {f})[f]
  {
    SettledJobsOneMore(t, settled, f);
    SameQuiet(t, settled, f);
    var ready := NewestIsReady(SettledJobs(t, settled + {f}), f);
    if f in settled {
      assert settled + {f} == settled;
    }
  }

  lemma SettledFoldersOneMore(t: Tables, settled: set<Id>, f: Id)
    ensures SettledFolders(Settle(t, settled), {f}) == SettledFolders(t, settled + {f})
  {
    var done := Settle(t, settled);
    forall g | g in t.folders
      ensures SettledFolders(done, {f})[g] == SettledFolders(t, settled + {f})[g]
    {
      if g == f {
        SettledFolderAgain(t, settled, f);
      } else {
        SettledFolderOneMore(t, settled, f, g);
        assert SettledFolders(done, {f})[g] == done.folders[g];
      }
    }
  }

  // ---------------------------------------------------------------- the program

  lemma SomeIn<T>(s: set<T>)
    requires s != {}
    ensures exists x :: x in s
  {}

  lemma OneNewest(jobs: map<Id, Job>, folder: Id, i: Id, k: Id)
    requires IsNewest(jobs, folder, i) && IsNewest(jobs, folder, k)
    ensures i == k
  {}

  lemma ClearOneMore(jobs: map<Id, Job>, cleared: set<Id>, id: Id)
    requires id in jobs
    ensures ClearJobs(ClearJobs(jobs, cleared), {id}) == ClearJobs(jobs, cleared + {id})
    ensures ClearedFolders(jobs, cleared + {id}) ==
            ClearedFolders(jobs, cleared)
            + if IsClearable(ClearJobs(jobs, cleared)[id]) then {ClearJobs(jobs, cleared)[id].folder} else {}
  {
    var now := ClearJobs(jobs, cleared);
    if id in cleared {
      assert cleared + {id} == cleared;
    }
    forall f | f in ClearedFolders(jobs, cleared + {id})
      ensures f in ClearedFolders(jobs, cleared) || (IsClearable(now[id]) && f == now[id].folder)
    {
      var k :| k in cleared + {id} && k in jobs && IsClearable(jobs[k]) && jobs[k].folder == f;
    }
  }

  /** The jobs that the snapshots of one run prove. */
  function ProvenByRun(run: Run, jobs: map<Id, Job>): set<Id> {
    set id | id in jobs && Proves(run, id, jobs[id])
  }

  lemma EmptyCodesToo(jobs: map<Id, Job>, proven: set<Id>, coded: set<Id>)
    requires coded == set id | id in jobs && IsClearable(ClearJobs(jobs, proven)[id])
                               && IsEmptyCode(ClearJobs(jobs, proven)[id].errorCode)
    ensures var all := proven + set id | id in jobs && IsEmptyCode(jobs[id].errorCode);
            && ClearJobs(jobs, proven + coded) == ClearJobs(jobs, all)
            && ClearedFolders(jobs, proven + coded) == ClearedFolders(jobs, all)
  {
    var all := proven + set id | id in jobs && IsEmptyCode(jobs[id].errorCode);
    assert forall id :: id in jobs && IsClearable(jobs[id]) ==> (id in proven + coded <==> id in all);
  }

  class Program {
    var documents: map<Id, Document>
    var runs: map<Id, Run>
    var jobs: map<Id, Job>
    var folders: map<Id, string>
    /** The folders to look at again, in the order in which they were noted. */
    var affected: seq<Id>

    ghost function View(): Tables
      reads this
    {
      Tables(documents, runs, jobs, folders)
    }

    constructor (t: Tables)
      ensures View() == t
    {
      documents, runs, jobs, folders := t.documents, t.runs, t.jobs, t.folders;
      affected := [];
    }

    method SkipEmptyDocuments()
      modifies this`documents, this`affected
      ensures documents == RepairDocuments(old(documents))
      ensures forall f :: f in affected <==> f in EmptiedFolders(old(documents))
    {
      var emptied := set id | id in documents && IsEmptyDocument(documents[id]) :: documents[id].folder;
      documents := map id | id in documents ::
        if IsEmptyDocument(documents[id]) then
          documents[id].(indexStatus := "skipped", errorCode := Some("empty_content"))
        else documents[id];
      affected := [];
      var left := emptied;
      while left != {}
        invariant documents == RepairDocuments(old(documents))
        invariant left <= emptied && forall f :: f in affected <==> f in emptied - left
        decreases left
      {
        SomeIn(left);
        var f :| f in left;
        affected := affected + [f];
        left := left - {f};
      }
    }

    /** The loop over the outcomes of an entry and the counters it aggregates. */
    static method AggregateOutcomes(e: Entry)
      returns (converted: nat, oldFailures: nat, oldIgnored: nat, outcomes: seq<FileOutcome>)
      ensures converted == Converted(e) && outcomes == RepairOutcomes(OutcomesOf(e))
      ensures oldFailures == Count(OutcomesOf(e), IsFailedOutcome)
              && oldIgnored == Count(OutcomesOf(e), IsSkippedOutcome)
    {
      var all := OutcomesOf(e);
      converted, oldFailures, oldIgnored, outcomes := 0, 0, 0, [];
      var k := |all|;
      while k > 0
        invariant 0 <= k <= |all| && outcomes == RepairOutcomes(all[k..])
        invariant converted == Count(all[k..], IsEmptyOutcome)
        invariant oldFailures == Count(all[k..], IsFailedOutcome) && oldIgnored == Count(all[k..], IsSkippedOutcome)
      {
        k := k - 1;
        assert all[k..][0] == all[k] && all[k..][1..] == all[k + 1..];
        converted := converted + if IsEmptyOutcome(all[k]) then 1 else 0;
        oldFailures := oldFailures + if IsFailedOutcome(all[k]) then 1 else 0;
        oldIgnored := oldIgnored + if IsSkippedOutcome(all[k]) then 1 else 0;
        outcomes := [RepairOutcome(all[k])] + outcomes;
      }
    }

    /** The new value of one progress entry. */
    static method NextEntry(e: Entry) returns (value: Entry)
      ensures value == RepairEntry(e)
    {
      var converted, oldFailures, oldIgnored, outcomes := AggregateOutcomes(e);
      var failures := Max(0, (if e.failed.Value? then e.failed.value else oldFailures) - converted);
      var ignored := (if e.skipped.Value? then e.skipped.value else oldIgnored) + converted;
      value := e.(outcomes := Some(outcomes), failed := Value(failures), skipped := Value(ignored));
      if IsEmptyCode(Text(value.errorCode)) {
        value := value.(errorCode := Null);
      }
      if (converted > 0 || IsEmptyCode(Text(e.errorCode))) && IsFailure(Text(value.status))
         && failures == 0 && IsBlank(Text(value.errorCode)) {
        value := value.(status := Value("ready"));
      }
    }

    /** UPDATE processing_jobs of one job, if it is clearable; its folder is noted. */
    method ClearJob(id: Id)
      requires id in jobs
      modifies this`jobs, this`affected
      ensures jobs == ClearJobs(old(jobs), {id})
      ensures affected == old(affected) + if IsClearable(old(jobs)[id]) then [old(jobs)[id].folder] else []
    {
      if IsClearable(jobs[id]) {
        affected := affected + [jobs[id].folder];
        jobs := jobs[id := jobs[id].(status := "ready", errorCode := None)];
      }
    }

    /** The folders noted so far. */
    ghost predicate Notes(base: set<Id>, jobs0: map<Id, Job>, cleared: set<Id>)
      reads this
    {
      jobs == ClearJobs(jobs0, cleared) && forall f :: f in affected <==> f in base + ClearedFolders(jobs0, cleared)
    }

    method ClearAndNote(id: Id, ghost base: set<Id>, ghost jobs0: map<Id, Job>, ghost cleared: set<Id>)
      requires id in jobs0 && Notes(base, jobs0, cleared)
      modifies this`jobs, this`affected
      ensures Notes(base, jobs0, cleared + {id})
    {
      ClearOneMore(jobs0, cleared, id);
      ClearJob(id);
    }

    /** One progress entry, and the job it is the snapshot of. */
    method RepairEntryOf(r: Run, key: Id, ghost base: set<Id>, ghost jobs0: map<Id, Job>, ghost cleared: set<Id>)
      returns (value: Entry)
      requires key in r.progress && Notes(base, jobs0, cleared)
      modifies this`jobs, this`affected
      ensures value == RepairEntry(r.progress[key])
      ensures Notes(base, jobs0, cleared + (ProvenByRun(r, jobs0) * {key}))
    {
      var e := r.progress[key];
      value := NextEntry(e);
      if Text(e.status) != Text(value.status) && key in jobs && jobs[key].organization == r.organization {
        ClearAndNote(key, base, jobs0, cleared);
        assert ProvenByRun(r, jobs0) * {key} == {key};
      } else {
        assert cleared + (ProvenByRun(r, jobs0) * {key}) == cleared;
      }
    }

    /** The loop over the progress entries of one run. */
    method RepairEntries(r: Run, ghost base: set<Id>, ghost jobs0: map<Id, Job>, ghost cleared: set<Id>)
      returns (next: map<Id, Entry>, statuses: seq<Option<string>>)
      requires Notes(base, jobs0, cleared)
      modifies this`jobs, this`affected
      ensures next == RepairProgress(r.progress) && (set s | s in statuses) == Statuses(next)
      ensures Notes(base, jobs0, cleared + ProvenByRun(r, jobs0))
    {
      next, statuses := map[], [];
      var left := r.progress.Keys;
      ghost var proven, now := ProvenByRun(r, jobs0), cleared;
      while left != {}
        invariant left <= r.progress.Keys && next.Keys == r.progress.Keys - left
        invariant forall key :: key in next ==> next[key] == RepairEntry(r.progress[key])
        invariant forall s :: s in statuses <==> s in Statuses(next)
        invariant Notes(base, jobs0, now) && now == cleared + (proven - left)
        decreases left
      {
        SomeIn(left);
        var key :| key in left;
        var value := RepairEntryOf(r, key, base, jobs0, now);
        NextStatuses(next, key, value);
        next := next[key := value];
        statuses := statuses + [Text(value.status)];
        now := now + (proven * {key});
        left := left - {key};
      }
      assert proven - left == proven;
    }

    /** The update of one run. */
    method RepairRunRow(id: Id, ghost base: set<Id>, ghost jobs0: map<Id, Job>, ghost cleared: set<Id>)
      requires id in runs && Notes(base, jobs0, cleared)
      modifies this`runs, this`jobs, this`affected
      ensures runs == old(runs)[id := RepairRun(old(runs)[id])]
      ensures Notes(base, jobs0, cleared + ProvenByRun(old(runs)[id], jobs0))
    {
      var r := runs[id];
      var next, statuses := RepairEntries(r, base, jobs0, cleared);
      if next != r.progress {
        runs := runs[id := r.(progress := next, status := RunStatus(set s | s in statuses))];
      }
    }

    method RepairAllRuns(ghost base: set<Id>)
      requires forall f :: f in affected <==> f in base
      modifies this`runs, this`jobs, this`affected
      ensures runs == RepairRuns(old(runs))
      ensures Notes(base, old(jobs), set id | id in old(jobs) && SnapshotProves(old(runs), id, old(jobs)[id]))
    {
      ghost var runs0, jobs0 := runs, jobs;
      assert ClearJobs(jobs0, {}) == jobs0;
      var left := runs.Keys;
      ghost var cleared: set<Id> := {};
      assert RepairedOutside(runs0, left) == runs0 && ProvedJobs(runs0, left, jobs0) == {};
      while left != {}
        invariant left <= runs0.Keys && runs == RepairedOutside(runs0, left)
        invariant cleared == ProvedJobs(runs0, left, jobs0) && Notes(base, jobs0, cleared)
        decreases left
      {
        SomeIn(left);
        var id :| id in left;
        RepairRunRow(id, base, jobs0, cleared);
        ProvedOneMore(runs0, left, id, jobs0);
        cleared := cleared + ProvenByRun(runs0[id], jobs0);
        left := left - {id};
      }
      assert RepairedOutside(runs0, {}) == RepairRuns(runs0);
      assert ProvedJobs(runs0, {}, jobs0) == set id | id in jobs0 && SnapshotProves(runs0, id, jobs0[id]);
    }

    /** Jobs without snapshots: the update of every failed job with an empty code. */
    method ClearEmptyJobs(ghost base: set<Id>, ghost jobs0: map<Id, Job>, ghost proven: set<Id>)
      requires Notes(base, jobs0, proven)
      modifies this`jobs, this`affected
      ensures Notes(base, jobs0, proven + set id | id in jobs0 && IsEmptyCode(jobs0[id].errorCode))
    {
      var coded := set id | id in jobs && IsClearable(jobs[id]) && IsEmptyCode(jobs[id].errorCode);
      EmptyCodesToo(jobs0, proven, coded);
      var left := coded;
      ghost var now := proven;
      while left != {}
        invariant left <= coded && Notes(base, jobs0, now) && now == proven + (coded - left)
        decreases left
      {
        SomeIn(left);
        var id :| id in left;
        ClearAndNote(id, base, jobs0, now);
        now := now + {id};
        left := left - {id};
      }
      assert now == proven + coded;
    }

    method FindNewest(folder: Id) returns (newest: Option<Id>)
      ensures newest.Some? ==> IsNewest(jobs, folder, newest.value)
      ensures newest.None? ==> forall id :: !IsNewest(jobs, folder, id)
    {
      newest := None;
      var all := set id | id in jobs && jobs[id].folder == folder;
      var left := all;
      while left != {}
        invariant left <= all && (newest.None? ==> left == all)
        invariant newest.Some? ==> newest.value in all
        invariant newest.Some? ==> forall k :: k in all && k !in left ==> NotNewer(jobs, k, newest.value)
        decreases left
      {
        SomeIn(left);
        var id :| id in left;
        if newest.None? || !NotNewer(jobs, id, newest.value) {
          newest := Some(id);
        }
        left := left - {id};
      }
      if newest.Some? {
        assert forall k :: k in jobs && jobs[k].folder == folder ==> k in all && NotNewer(jobs, k, newest.value);
      } else {
        assert forall id :: IsNewest(jobs, folder, id) ==> id in all;
      }
    }

    method SettleFolder(folder: Id)
      modifies this`jobs, this`folders
      ensures View() == Settle(old(View()), {folder})
    {
      var t := Tables(documents, runs, jobs, folders);
      if HasFailedDocument(t, folder) || HasActiveJob(t, folder) {
        SettleBusy(t, folder);
        return;
      }
      var newest := FindNewest(folder);
      if newest.None? {
        SettleNoJobs(t, folder);
        return;
      }
      SettleQuietJobs(t, folder, newest.value);
      SettleQuietFolder(t, folder, newest.value);
      if IsPreHistory(t, newest.value) {
        jobs := jobs[newest.value := jobs[newest.value].(status := "ready")];
      }
      if jobs[newest.value].status == "ready" && folder in folders && IsFailure(Some(folders[folder])) {
        folders := folders[folder := "ready"];
      }
    }

    /** Documents, runs and jobs. */
    method RepairRows()
      modifies this
      ensures View() == BeforeFolders(old(View()))
      ensures forall f :: f in affected <==> f in Affected(old(View()))
    {
      ghost var t := View();
      ghost var base := EmptiedFolders(documents);
      SkipEmptyDocuments();
      RepairAllRuns(base);
      ghost var proven := set id | id in t.jobs && SnapshotProves(t.runs, id, t.jobs[id]);
      ClearEmptyJobs(base, t.jobs, proven);
      assert proven + (set id | id in t.jobs && IsEmptyCode(t.jobs[id].errorCode)) == ProvenJobs(t);
    }

    /** The whole program. */
    method Repair()
      modifies this
      ensures View() == Repaired(old(View()))
    {
      ghost var t := View();
      RepairRows();
      ghost var b := View();
      SettlingNothing(b);
      ghost var settled: set<Id> := {};
      var noted := affected;
      for k := 0 to |noted|
        invariant View() == Settle(b, settled) && settled == set i | 0 <= i < k :: noted[i]
      {
        SettleOneMore(b, settled, noted[k]);
        SettleFolder(noted[k]);
        settled := settled + {noted[k]};
      }
      assert settled == Affected(t);
    }
  }

  predicate NotNewer(jobs: map<Id, Job>, k: Id, id: Id) {
    k in jobs && id in jobs
    && (jobs[k].createdAt < jobs[id].createdAt || (jobs[k].createdAt == jobs[id].createdAt && k <= id))
  }

  /** A run that is not left to do proves the job. */
  predicate ProvedOutside(runs: map<Id, Run>, left: set<Id>, id: Id, job: Job) {
    exists r :: r in runs && r !in left && Proves(runs[r], id, job)
  }

  function ProvedJobs(runs: map<Id, Run>, left: set<Id>, jobs: map<Id, Job>): set<Id> {
    set id | id in jobs && ProvedOutside(runs, left, id, jobs[id])
  }

  function RepairedOutside(runs: map<Id, Run>, left: set<Id>): map<Id, Run> {
    map r | r in runs :: if r in left then runs[r] else RepairRun(runs[r])
  }

  lemma ProvedOneMore(runs: map<Id, Run>, left: set<Id>, r: Id, jobs: map<Id, Job>)
    requires r in left && r in runs
    ensures ProvedJobs(runs, left - {r}, jobs) == ProvedJobs(runs, left, jobs) + ProvenByRun(runs[r], jobs)
    ensures RepairedOutside(runs, left - {r}) == RepairedOutside(runs, left)[r := RepairRun(runs[r])]
  {
    forall id | id in jobs && id in ProvenByRun(runs[r], jobs)
      ensures ProvedOutside(runs, left - {r}, id, jobs[id])
    {
      assert Proves(runs[r], id, jobs[id]);
    }
  }

  lemma NextStatuses(progress: map<Id, Entry>, key: Id, value: Entry)
    requires key !in progress
    ensures Statuses(progress[key := value]) == Statuses(progress) + {Text(value.status)}
  {
    var longer := progress[key := value];
    forall s | s in Statuses(progress)
      ensures s in Statuses(longer)
    {
      var k :| k in progress && Text(progress[k].status) == s;
      assert Text(longer[k].status) == s;
    }
    assert Text(longer[key].status) in Statuses(longer);
  }

  lemma SettleBusy(t: Tables, folder: Id)
    requires !IsQuiet(t, folder)
    ensures Settle(t, {folder}) == t
  {
    assert SettledJobs(t, {folder}) == t.jobs;
    assert SettledFolders(t, {folder}) == t.folders;
  }

  lemma SettleQuietJobs(t: Tables, folder: Id, newest: Id)
    requires IsQuiet(t, folder) && IsNewest(t.jobs, folder, newest)
    ensures SettledJobs(t, {folder}) ==
            if IsPreHistory(t, newest) then t.jobs[newest := t.jobs[newest].(status := "ready")] else t.jobs
  {
    forall id | IsNewest(t.jobs, folder, id)
      ensures id == newest
    {
      OneNewest(t.jobs, folder, id, newest);
    }
  }

  lemma NewestDecides(jobs: map<Id, Job>, folder: Id, newest: Id)
    requires IsNewest(jobs, folder, newest)
    ensures NewestIsReady(jobs, folder) <==> jobs[newest].status == "ready"
  {
    forall id | IsNewest(jobs, folder, id)
      ensures id == newest
    {
      OneNewest(jobs, folder, id, newest);
    }
  }

  lemma SettleNoJobs(t: Tables, folder: Id)
    requires forall id :: !IsNewest(t.jobs, folder, id)
    ensures Settle(t, {folder}) == t
  {
    assert SettledJobs(t, {folder}) == t.jobs;
    assert SettledFolders(t, {folder}) == t.folders;
  }

  lemma SettleQuietFolder(t: Tables, folder: Id, newest: Id)
    requires IsQuiet(t, folder) && IsNewest(t.jobs, folder, newest)
    ensures SettledFolders(t, {folder}) ==
            if SettledJobs(t, {folder})[newest].status == "ready" && folder in t.folders
              && IsFailure(Some(t.folders[folder]))
            then t.folders[folder := "ready"] else t.folders
  {
    SameNewest(t.jobs, SettledJobs(t, {folder}), folder, newest);
    NewestDecides(SettledJobs(t, {folder}), folder, newest);
  }
}
