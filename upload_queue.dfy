/**
 * The background upload queue (src/lib/firebase/uploadQueue.ts): a persistent
 * table of pending-upload records, a fixed backoff table, a single-flight drain
 * that publishes each eligible pending record, and a once-a-day resurrection of
 * records that ran out of attempts.
 *
 * Time is a natural number of milliseconds passed in by the caller; the publish
 * operation is an oracle from artifact id to how the call ended.
 */
module UploadQueue {
  import opened Wrappers
  import opened Thrown
  import UploadStore

  // ---------------------------------------------------------------------------
  // Constants
  // ---------------------------------------------------------------------------

  /** Minimum wait before attempt number `attempts`, indexed by min(attempts, 4). */
  const RetryDelays: seq<nat> := [0, 5000, 15000, 45000, 120000]
  const MaxAttempts: nat := 5
  const StartupRetryIntervalMs: nat := 24 * 60 * 60 * 1000

  // ---------------------------------------------------------------------------
  // Records
  // ---------------------------------------------------------------------------

  datatype QueueStatus = Pending | Uploading | Failed

  datatype PendingUpload = PendingUpload(
    id: string,
    artifactId: string,
    status: QueueStatus,
    attempts: nat,
    lastAttempt: Option<nat>,
    error: Option<string>,
    createdAt: nat)

  type Table = map<string, PendingUpload>

  /** How one call of the publish operation ended. */
  datatype PublishOutcome = Published | Threw(thrown: Thrown)

  // ---------------------------------------------------------------------------
  // Backoff rule
  // ---------------------------------------------------------------------------

  function RetryDelay(attempts: nat): nat
  {
    RetryDelays[Min(attempts, |RetryDelays| - 1)]
  }

  /**
   * A record may be attempted at `now` when it was never attempted, or when at
   * least the backoff for its attempt count has passed since its last attempt.
   */
  predicate IsEligible(u: PendingUpload, now: nat)
  {
    match u.lastAttempt
    case None => true
    case Some(last) => !(now - last < RetryDelay(u.attempts))
  }

  /** The backoff table, entry by entry, and its clamping beyond the last entry. */
  lemma BackoffTable(attempts: nat)
    ensures RetryDelay(0) == 0 && RetryDelay(1) == 5000 && RetryDelay(2) == 15000
    ensures RetryDelay(3) == 45000 && RetryDelay(4) == 120000
    ensures attempts >= 4 ==> RetryDelay(attempts) == 120000
    ensures RetryDelay(attempts) <= 120000
  {
  }

  /** More failed attempts never mean a shorter wait. */
  lemma BackoffMonotonic(a: nat, b: nat)
    requires a <= b
    ensures RetryDelay(a) <= RetryDelay(b)
  {
  }

  /**
   * Eligibility, stated against the table: a never-attempted record is always
   * eligible; an attempted one exactly when the elapsed time reaches its delay.
   */
  lemma EligibilityRule(u: PendingUpload, now: nat)
    ensures u.lastAttempt.None? ==> IsEligible(u, now)
    ensures u.lastAttempt.Some? ==>
      (IsEligible(u, now) <==> now - u.lastAttempt.value >= RetryDelays[Min(u.attempts, 4)])
  {
  }

  /** Once a record is eligible it stays eligible as time goes on. */
  lemma EligibilityPersists(u: PendingUpload, now: nat, later: nat)
    requires IsEligible(u, now) && now <= later
    ensures IsEligible(u, later)
  {
  }

  /** Two minutes after its last attempt every record is eligible again. */
  lemma EligibleAfterLongestDelay(u: PendingUpload, now: nat)
    requires u.lastAttempt.Some? && now >= u.lastAttempt.value + 120000
    ensures IsEligible(u, now)
  {
    BackoffTable(u.attempts);
  }

  // ---------------------------------------------------------------------------
  // The table invariant
  // ---------------------------------------------------------------------------

  /** Attempt counts: pending and uploading records are under the ceiling, failed ones at it. */
  predicate AttemptsInRange(u: PendingUpload)
  {
    && u.attempts <= MaxAttempts
    && (u.status == Pending ==> u.attempts < MaxAttempts)
    && (u.status == Uploading ==> u.attempts < MaxAttempts)
    && (u.status == Failed ==> u.attempts == MaxAttempts)
  }

  predicate KeyedById(m: Table)
  {
    forall k :: k in m ==> m[k].id == k
  }

  /** At most one record per artifact. */
  predicate UniqueArtifacts(m: Table)
  {
    forall k1, k2 :: k1 in m && k2 in m && m[k1].artifactId == m[k2].artifactId ==> k1 == k2
  }

  predicate TableInvariant(m: Table)
  {
    && KeyedById(m)
    && UniqueArtifacts(m)
    && (forall k :: k in m ==> AttemptsInRange(m[k]))
  }

  // ---------------------------------------------------------------------------
  // Enqueue
  // ---------------------------------------------------------------------------

  predicate HasArtifact(m: Table, artifactId: string)
  {
    exists k :: k in m && m[k].artifactId == artifactId
  }

  /** The table after `enqueueUpload(artifactId)` with the fresh id `newId`. */
  function Enqueued(m: Table, artifactId: string, newId: string, now: nat): Table
  {
    if HasArtifact(m, artifactId) then m
    else m[newId := PendingUpload(newId, artifactId, Pending, 0, None, None, now)]
  }

  /**
   * Enqueue either changes nothing (the artifact is already queued) or adds
   * exactly one fresh pending record with no attempts, keeping all others.
   */
  lemma EnqueueEffect(m: Table, artifactId: string, newId: string, now: nat)
    requires newId !in m
    ensures HasArtifact(m, artifactId) ==> Enqueued(m, artifactId, newId, now) == m
    ensures !HasArtifact(m, artifactId) ==>
      var m' := Enqueued(m, artifactId, newId, now);
      && m'.Keys == m.Keys + {newId}
      && |m'| == |m| + 1
      && m'[newId].artifactId == artifactId && m'[newId].status == Pending
      && m'[newId].attempts == 0 && m'[newId].lastAttempt.None? && m'[newId].error.None?
      && (forall k :: k in m ==> m'[k] == m[k])
  {
  }

  /** Enqueueing the same artifact twice leaves the table as one enqueue did. */
  lemma EnqueueIdempotent(m: Table, artifactId: string, id1: string, t1: nat, id2: string, t2: nat)
    requires id1 !in m
    ensures var once := Enqueued(m, artifactId, id1, t1);
      Enqueued(once, artifactId, id2, t2) == once
  {
    var once := Enqueued(m, artifactId, id1, t1);
    if !HasArtifact(m, artifactId) {
      assert once[id1].artifactId == artifactId;
    }
    assert HasArtifact(once, artifactId);
  }

  /** After an enqueue the artifact has exactly one record. */
  lemma EnqueueLeavesOneRecord(m: Table, artifactId: string, newId: string, now: nat)
    requires TableInvariant(m) && newId !in m
    ensures var m' := Enqueued(m, artifactId, newId, now);
      exists k :: k in m' && m'[k].artifactId == artifactId &&
        forall k' :: k' in m' && m'[k'].artifactId == artifactId ==> k' == k
  {
    var m' := Enqueued(m, artifactId, newId, now);
    if HasArtifact(m, artifactId) {
      var k :| k in m && m[k].artifactId == artifactId;
      assert k in m' && m'[k].artifactId == artifactId;
    } else {
      assert newId in m' && m'[newId].artifactId == artifactId;
    }
  }

  lemma EnqueuePreservesInvariant(m: Table, artifactId: string, newId: string, now: nat)
    requires TableInvariant(m) && newId !in m
    ensures TableInvariant(Enqueued(m, artifactId, newId, now))
  {
  }

  // ---------------------------------------------------------------------------
  // One attempt (processUpload)
  // ---------------------------------------------------------------------------

  /**
   * The record while its publish call is in flight: uploading, stamped with
   * `now`. The previous error message is NOT cleared.
   */
  function Started(u: PendingUpload, now: nat): (s: PendingUpload)
    ensures s.status == Uploading && s.lastAttempt == Some(now)
    ensures s.error == u.error && s.attempts == u.attempts
    ensures s.id == u.id && s.artifactId == u.artifactId && s.createdAt == u.createdAt
  {
    u.(status := Uploading, lastAttempt := Some(now))
  }

  /** The record once its publish call has ended; `None` when it was deleted. */
  function Finished(s: PendingUpload, outcome: PublishOutcome): Option<PendingUpload>
  {
    match outcome
    case Published => None
    case Threw(t) =>
      var newAttempts := s.attempts + 1;
      if newAttempts >= MaxAttempts then
        Some(s.(status := Failed, attempts := newAttempts, error := Some(MessageOf(t))))
      else
        Some(s.(status := Pending, attempts := newAttempts, error := Some(MessageOf(t))))
  }

  /** processUpload's effect on its record: untouched when not yet eligible. */
  function Attempt(u: PendingUpload, now: nat, outcome: PublishOutcome): Option<PendingUpload>
  {
    if !IsEligible(u, now) then Some(u) else Finished(Started(u, now), outcome)
  }

  /** What processUpload leaves in the broadcast slot after an attempt. */
  function EndBroadcast(u: PendingUpload, outcome: PublishOutcome): Option<UploadStore.CurrentUpload>
  {
    match outcome
    case Published => Some(UploadStore.CurrentUpload(u.artifactId, UploadStore.Success, None))
    case Threw(t) =>
      if u.attempts + 1 >= MaxAttempts then
        Some(UploadStore.CurrentUpload(u.artifactId, UploadStore.Error, Some(MessageOf(t))))
      else
        None
  }

  /**
   * The outcomes of one attempt: an ineligible record is untouched; a
   * successful publish deletes it; a failed one adds exactly one attempt,
   * stores the message, stamps `now`, and fails the record at the ceiling.
   */
  lemma AttemptOutcomes(u: PendingUpload, now: nat, outcome: PublishOutcome)
    ensures !IsEligible(u, now) ==> Attempt(u, now, outcome) == Some(u)
    ensures IsEligible(u, now) && outcome.Published? ==> Attempt(u, now, outcome).None?
    ensures IsEligible(u, now) && outcome.Threw? ==>
      var r := Attempt(u, now, outcome);
      && r.Some?
      && r.value.attempts == u.attempts + 1
      && r.value.error == Some(MessageOf(outcome.thrown))
      && r.value.lastAttempt == Some(now)
      && r.value.id == u.id && r.value.artifactId == u.artifactId && r.value.createdAt == u.createdAt
      && (r.value.status == Failed <==> u.attempts + 1 >= MaxAttempts)
      && (r.value.status == Pending <==> u.attempts + 1 < MaxAttempts)
  {
  }

  /** A pending record under the ceiling stays within range after an attempt. */
  lemma AttemptKeepsRange(u: PendingUpload, now: nat, outcome: PublishOutcome)
    requires u.status == Pending && AttemptsInRange(u)
    ensures Attempt(u, now, outcome).Some? ==> AttemptsInRange(Attempt(u, now, outcome).value)
  {
  }

  /** The error banner is raised exactly when the attempt failed the record for good. */
  lemma BroadcastMatchesOutcome(u: PendingUpload, now: nat, outcome: PublishOutcome)
    requires IsEligible(u, now)
    ensures var b := EndBroadcast(u, outcome);
      var r := Attempt(u, now, outcome);
      && (b.Some? && b.value.status == UploadStore.Success <==> r.None?)
      && (b.Some? && b.value.status == UploadStore.Error <==> r.Some? && r.value.status == Failed)
      && (b.None? <==> r.Some? && r.value.status == Pending)
      && (b.Some? ==> b.value.artifactId == u.artifactId)
  {
  }

  // ---------------------------------------------------------------------------
  // A drain (processQueue)
  // ---------------------------------------------------------------------------

  function PendingIds(m: Table): set<string>
  {
    set k | k in m && m[k].status == Pending
  }

  /** The table after the records whose ids are in `done` were each attempted once. */
  function DrainedOn(m: Table, done: set<string>, now: nat, publish: string -> PublishOutcome): Table
  {
    map k | k in m && (k !in done || Attempt(m[k], now, publish(m[k].artifactId)).Some?) ::
      if k in done then Attempt(m[k], now, publish(m[k].artifactId)).value else m[k]
  }

  /** The table after one full drain: every pending record attempted once. */
  function Drained(m: Table, now: nat, publish: string -> PublishOutcome): Table
  {
    DrainedOn(m, PendingIds(m), now, publish)
  }

  /**
   * A drain touches only pending records; each one independently follows
   * Attempt, so one record's failure does not affect another's outcome.
   */
  lemma DrainIsPerRecord(m: Table, now: nat, publish: string -> PublishOutcome, k: string)
    requires k in m
    ensures m[k].status != Pending ==> k in Drained(m, now, publish) && Drained(m, now, publish)[k] == m[k]
    ensures m[k].status == Pending ==>
      var r := Attempt(m[k], now, publish(m[k].artifactId));
      && (k in Drained(m, now, publish) <==> r.Some?)
      && (r.Some? ==> Drained(m, now, publish)[k] == r.value)
    ensures Drained(m, now, publish).Keys <= m.Keys
  {
  }

  /** The isolation scenario: one success and one failure in the same drain. */
  lemma DrainIsolation(m: Table, now: nat, publish: string -> PublishOutcome, ok: string, bad: string)
    requires TableInvariant(m) && ok in m && bad in m
    requires m[ok].status == Pending && m[ok].lastAttempt.None? && publish(m[ok].artifactId).Published?
    requires m[bad].status == Pending && m[bad].lastAttempt.None? && publish(m[bad].artifactId).Threw?
    ensures ok !in Drained(m, now, publish)
    ensures bad in Drained(m, now, publish)
    ensures Drained(m, now, publish)[bad].attempts == m[bad].attempts + 1
  {
    DrainIsPerRecord(m, now, publish, ok);
    DrainIsPerRecord(m, now, publish, bad);
  }

  lemma DrainPreservesInvariant(m: Table, now: nat, publish: string -> PublishOutcome)
    requires TableInvariant(m)
    ensures TableInvariant(Drained(m, now, publish))
  {
    var d := Drained(m, now, publish);
    forall k | k in d
      ensures d[k].id == k && d[k].artifactId == m[k].artifactId && AttemptsInRange(d[k])
    {
      if m[k].status == Pending {
        AttemptKeepsRange(m[k], now, publish(m[k].artifactId));
      }
    }
  }

  lemma DrainedOnEmpty(m: Table, now: nat, publish: string -> PublishOutcome)
    ensures DrainedOn(m, {}, now, publish) == m
  {
  }

  /** Attempting one more record extends the drained set by that record. */
  lemma DrainedOnStep(m: Table, done: set<string>, k: string, now: nat, publish: string -> PublishOutcome)
    requires k in m && k !in done
    ensures var before := DrainedOn(m, done, now, publish);
      k in before && before[k] == m[k] &&
      Replaced(before, k, Attempt(m[k], now, publish(m[k].artifactId))) == DrainedOn(m, done + {k}, now, publish)
  {
    var before := DrainedOn(m, done, now, publish);
    var after := DrainedOn(m, done + {k}, now, publish);
    var r := Replaced(before, k, Attempt(m[k], now, publish(m[k].artifactId)));
    assert r.Keys == after.Keys;
  }

  /** Puts `v` under `k`, or removes `k` when `v` is `None`. */
  function Replaced(m: Table, k: string, v: Option<PendingUpload>): Table
  {
    match v
    case None => m - {k}
    case Some(u) => m[k := u]
  }

  // ---------------------------------------------------------------------------
  // Repeated failure and the ceiling
  // ---------------------------------------------------------------------------

  /** The record after `n` consecutive eligible attempts that all threw `t`. */
  function FailedAttempts(u: PendingUpload, n: nat, now: nat, t: Thrown): PendingUpload
    requires u.attempts + n <= MaxAttempts
    decreases n
  {
    if n == 0 then u
    else FailedAttempts(Finished(Started(u, now), Threw(t)).value, n - 1, now, t)
  }

  /**
   * A pending record that fails every attempt is pending after fewer than
   * (5 - attempts) failures and failed, with 5 attempts and the last error,
   * after exactly that many.
   */
  lemma {:induction false} CeilingAfterRepeatedFailure(u: PendingUpload, n: nat, now: nat, t: Thrown)
    requires u.status == Pending && u.attempts + n <= MaxAttempts
    ensures var r := FailedAttempts(u, n, now, t);
      && r.attempts == u.attempts + n
      && r.id == u.id && r.artifactId == u.artifactId
      && (u.attempts + n < MaxAttempts ==> r.status == Pending)
      && (u.attempts + n == MaxAttempts && n > 0 ==> r.status == Failed && r.error == Some(MessageOf(t)))
    decreases n
  {
    if n > 0 {
      var next := Finished(Started(u, now), Threw(t)).value;
      if u.attempts + 1 < MaxAttempts {
        CeilingAfterRepeatedFailure(next, n - 1, now, t);
      } else {
        assert n == 1;
      }
    }
  }

  // ---------------------------------------------------------------------------
  // Startup resurrection
  // ---------------------------------------------------------------------------

  /** A failed record given another life: pending, one attempt fewer (not below 0), error cleared. */
  function Revived(u: PendingUpload): PendingUpload
  {
    u.(status := Pending, attempts := Max(0, u.attempts - 1) as nat, error := None)
  }

  function FailedIds(m: Table): set<string>
  {
    set k | k in m && m[k].status == Failed
  }

  function RevivedOn(m: Table, done: set<string>): Table
  {
    map k | k in m :: if k in done then Revived(m[k]) else m[k]
  }

  lemma RevivedOnEmpty(m: Table)
    ensures RevivedOn(m, {}) == m
  {
  }

  lemma RevivedOnStep(m: Table, done: set<string>, k: string)
    requires k in m && k !in done
    ensures var before := RevivedOn(m, done);
      k in before && before[k] == m[k] &&
      before[k := Revived(m[k])] == RevivedOn(m, done + {k})
  {
    var before := RevivedOn(m, done);
    assert before[k := Revived(m[k])].Keys == RevivedOn(m, done + {k}).Keys;
  }

  /** The table after resurrection: every failed record revived, all others kept. */
  function Resurrected(m: Table): Table
  {
    RevivedOn(m, FailedIds(m))
  }

  /** Whether the once-a-day resurrection runs at `now`. */
  predicate ResurrectionDue(lastRetry: Option<nat>, now: nat)
  {
    match lastRetry
    case None => true
    case Some(t) => !(now - t < StartupRetryIntervalMs)
  }

  lemma ResurrectionEffect(m: Table, k: string)
    requires TableInvariant(m) && k in m
    ensures k in Resurrected(m)
    ensures m[k].status != Failed ==> Resurrected(m)[k] == m[k]
    ensures m[k].status == Failed ==>
      && Resurrected(m)[k].status == Pending
      && Resurrected(m)[k].attempts == MaxAttempts - 1
      && Resurrected(m)[k].error.None?
      && Resurrected(m)[k].artifactId == m[k].artifactId
    ensures m[k].status == Failed ==>
      Resurrected(m)[k].(status := m[k].status, attempts := m[k].attempts, error := m[k].error) == m[k]
  {
  }

  lemma ResurrectionPreservesInvariant(m: Table)
    requires TableInvariant(m)
    ensures TableInvariant(Resurrected(m))
  {
  }

  /** A revived record is eligible again right away if its last attempt is two minutes old. */
  lemma RevivedIsRetried(m: Table, k: string, now: nat, publish: string -> PublishOutcome)
    requires TableInvariant(m) && k in m && m[k].status == Failed
    requires m[k].lastAttempt.Some? && now >= m[k].lastAttempt.value + 120000
    ensures var r := Resurrected(m);
      k in PendingIds(r) && IsEligible(r[k], now)
  {
    var r := Resurrected(m);
    ResurrectionEffect(m, k);
    EligibleAfterLongestDelay(r[k], now);
  }

  // ---------------------------------------------------------------------------
  // The stuck `uploading` record
  // ---------------------------------------------------------------------------

  /**
   * A record left `uploading` (the process ended during its publish call) is
   * never revisited: a drain, a resurrection and a new enqueue of its artifact
   * all leave the table's entry for it as it is.
   */
  lemma StuckUploadingIsPermanent(m: Table, k: string, now: nat, publish: string -> PublishOutcome, newId: string)
    requires TableInvariant(m) && k in m && m[k].status == Uploading && newId !in m
    ensures k in Drained(m, now, publish) && Drained(m, now, publish)[k] == m[k]
    ensures k in Resurrected(m) && Resurrected(m)[k] == m[k]
    ensures Enqueued(m, m[k].artifactId, newId, now) == m
  {
    DrainIsPerRecord(m, now, publish, k);
  }

  // ---------------------------------------------------------------------------
  // The queue service
  // ---------------------------------------------------------------------------

  /**
   * The module-level state of uploadQueue.ts: the persistent table, the
   * single-flight guard, the connectivity flag, the stored time of the last
   * resurrection, and the periodic-timer slot. `liveTimers` are the interval
   * handles the runtime will still fire; `onlineListeners` counts the
   * registered 'online' handlers.
   */
  class UploadQueueService {
    var uploads: Table
    var isProcessing: bool
    var online: bool
    var lastStartupRetry: Option<nat>
    var periodicTimer: Option<nat>
    var liveTimers: set<nat>
    var onlineListeners: nat
    const broadcast: UploadStore.UploadStore

    ghost predicate Valid()
      reads this
    {
      && TableInvariant(uploads)
      && liveTimers == (if periodicTimer.Some? then {periodicTimer.value} else {})
    }

    /** The state at process start: the table and resurrection time as stored. */
    constructor (stored: Table, storedLastRetry: Option<nat>, isOnline: bool, store: UploadStore.UploadStore)
      requires TableInvariant(stored)
      ensures Valid()
      ensures uploads == stored && lastStartupRetry == storedLastRetry && online == isOnline
      ensures !isProcessing && periodicTimer.None? && onlineListeners == 0 && broadcast == store
    {
      uploads := stored;
      isProcessing := false;
      online := isOnline;
      lastStartupRetry := storedLastRetry;
      periodicTimer := None;
      liveTimers := {};
      onlineListeners := 0;
      broadcast := store;
    }

    /** The runtime's connectivity changed. */
    method SetOnline(isOnline: bool)
      modifies this`online
      ensures online == isOnline
    {
      online := isOnline;
    }

    /** enqueueUpload: lookup-before-insert, with a fresh record id from the caller. */
    method EnqueueUpload(artifactId: string, newId: string, now: nat)
      requires Valid() && newId !in uploads
      modifies this`uploads
      ensures Valid()
      ensures uploads == Enqueued(old(uploads), artifactId, newId, now)
    {
      var existing := exists k :: k in uploads && uploads[k].artifactId == artifactId;
      if existing {
        return;
      }
      var upload := PendingUpload(newId, artifactId, Pending, 0, None, None, now);
      uploads := uploads[newId := upload];
      EnqueuePreservesInvariant(old(uploads), artifactId, newId, now);
    }

    /** processUpload for the snapshot record `upload`. */
    method ProcessUpload(upload: PendingUpload, now: nat, publish: string -> PublishOutcome)
      requires upload.id in uploads && uploads[upload.id] == upload
      modifies this`uploads, broadcast
      ensures uploads == Replaced(old(uploads), upload.id, Attempt(upload, now, publish(upload.artifactId)))
      ensures broadcast.currentUpload ==
        if IsEligible(upload, now) then EndBroadcast(upload, publish(upload.artifactId))
        else old(broadcast.currentUpload)
      ensures broadcast.history == old(broadcast.history) +
        if IsEligible(upload, now)
        then [Some(UploadStore.CurrentUpload(upload.artifactId, UploadStore.Uploading, None)),
              EndBroadcast(upload, publish(upload.artifactId))]
        else []
    {
      var retryDelay := RetryDelays[Min(upload.attempts, |RetryDelays| - 1)];
      if upload.lastAttempt.Some? {
        var timeSinceLastAttempt := now - upload.lastAttempt.value;
        if timeSinceLastAttempt < retryDelay {
          return;
        }
      }

      broadcast.SetCurrentUpload(Some(UploadStore.CurrentUpload(upload.artifactId, UploadStore.Uploading, None)));
      uploads := uploads[upload.id := upload.(status := Uploading, lastAttempt := Some(now))];
      var started := uploads[upload.id];

      match publish(upload.artifactId)
      case Published =>
        uploads := uploads - {upload.id};
        broadcast.SetCurrentUpload(Some(UploadStore.CurrentUpload(upload.artifactId, UploadStore.Success, None)));
      case Threw(t) =>
        var errorMessage := MessageOf(t);
        var newAttempts := upload.attempts + 1;
        if newAttempts >= MaxAttempts {
          uploads := uploads[upload.id := started.(status := Failed, attempts := newAttempts, error := Some(errorMessage))];
          broadcast.SetCurrentUpload(Some(UploadStore.CurrentUpload(upload.artifactId, UploadStore.Error, Some(errorMessage))));
        } else {
          uploads := uploads[upload.id := started.(status := Pending, attempts := newAttempts, error := Some(errorMessage))];
          broadcast.SetCurrentUpload(None);
        }
    }

    /**
     * processQueue: does nothing while a drain is running or offline; otherwise
     * attempts every record that was pending when the drain began, once each,
     * then releases the guard. The slot ends with the broadcast of the last
     * record attempted, in whatever order the snapshot was walked.
     */
    method ProcessQueue(now: nat, publish: string -> PublishOutcome)
      requires Valid()
      modifies this`uploads, this`isProcessing, broadcast
      ensures Valid()
      ensures old(isProcessing) || !online ==>
        uploads == old(uploads) && isProcessing == old(isProcessing) &&
        broadcast.currentUpload == old(broadcast.currentUpload)
      ensures !old(isProcessing) && online ==>
        uploads == Drained(old(uploads), now, publish) && !isProcessing
      ensures !old(isProcessing) && online ==>
        if exists k :: k in PendingIds(old(uploads)) && IsEligible(old(uploads)[k], now) then
          exists k :: k in PendingIds(old(uploads)) && IsEligible(old(uploads)[k], now) &&
            broadcast.currentUpload == EndBroadcast(old(uploads)[k], publish(old(uploads)[k].artifactId))
        else
          broadcast.currentUpload == old(broadcast.currentUpload)
    {
      if isProcessing {
        return;
      }
      if !online {
        return;
      }
      isProcessing := true;

      var pending := set k | k in uploads && uploads[k].status == Pending;
      var lastAttempted := DrainSnapshot(pending, now, publish);
      DrainPreservesInvariant(old(uploads), now, publish);

      isProcessing := false;
    }

    /**
     * The loop of processQueue over the snapshot `pending`. Returns, for the
     * proof, the record attempted last (if any).
     */
    method DrainSnapshot(pending: set<string>, now: nat, publish: string -> PublishOutcome)
      returns (ghost lastAttempted: Option<string>)
      requires pending == PendingIds(uploads) && KeyedById(uploads)
      modifies this`uploads, broadcast
      ensures uploads == Drained(old(uploads), now, publish)
      ensures lastAttempted.None? ==>
        (forall k :: k in pending ==> !IsEligible(old(uploads)[k], now)) &&
        broadcast.currentUpload == old(broadcast.currentUpload)
      ensures lastAttempted.Some? ==>
        var k := lastAttempted.value;
        k in pending && IsEligible(old(uploads)[k], now) &&
        broadcast.currentUpload == EndBroadcast(old(uploads)[k], publish(old(uploads)[k].artifactId))
    {
      ghost var m := uploads;
      var todo := pending;
      lastAttempted := None;
      DrainedOnEmpty(m, now, publish);
      while todo != {}
        invariant todo <= pending
        invariant uploads == DrainedOn(m, pending - todo, now, publish)
        invariant lastAttempted.None? ==>
          (forall k :: k in pending - todo ==> !IsEligible(m[k], now)) &&
          broadcast.currentUpload == old(broadcast.currentUpload)
        invariant lastAttempted.Some? ==>
          var k := lastAttempted.value;
          k in pending && IsEligible(m[k], now) &&
          broadcast.currentUpload == EndBroadcast(m[k], publish(m[k].artifactId))
        decreases todo
      {
        var k :| k in todo;
        DrainedOnStep(m, pending - todo, k, now, publish);
        assert (pending - todo) + {k} == pending - (todo - {k});
        ProcessUpload(uploads[k], now, publish);
        if IsEligible(m[k], now) {
          lastAttempted := Some(k);
        }
        todo := todo - {k};
      }
    }

    /**
     * retryFailedUploadsOnStartup: at most once a day, and only when there are
     * failed records, revives every failed record and stores the time.
     */
    method RetryFailedUploadsOnStartup(now: nat)
      requires Valid()
      modifies this`uploads, this`lastStartupRetry
      ensures Valid()
      ensures ResurrectionDue(old(lastStartupRetry), now) && FailedIds(old(uploads)) != {} ==>
        uploads == Resurrected(old(uploads)) && lastStartupRetry == Some(now)
      ensures !(ResurrectionDue(old(lastStartupRetry), now) && FailedIds(old(uploads)) != {}) ==>
        uploads == old(uploads) && lastStartupRetry == old(lastStartupRetry)
    {
      if lastStartupRetry.Some? {
        var lastRetryTime := lastStartupRetry.value;
        if now - lastRetryTime < StartupRetryIntervalMs {
          return;
        }
      }

      var failedUploads := set k | k in uploads && uploads[k].status == Failed;
      if failedUploads == {} {
        return;
      }

      lastStartupRetry := Some(now);
      ReviveAll(failedUploads);
      ResurrectionPreservesInvariant(old(uploads));
    }

    /** The loop of retryFailedUploadsOnStartup over the failed snapshot. */
    method ReviveAll(failedUploads: set<string>)
      requires failedUploads == FailedIds(uploads)
      modifies this`uploads
      ensures uploads == Resurrected(old(uploads))
    {
      ghost var m := uploads;
      var todo := failedUploads;
      RevivedOnEmpty(m);
      while todo != {}
        invariant todo <= failedUploads
        invariant uploads == RevivedOn(m, failedUploads - todo)
        decreases todo
      {
        var k :| k in todo;
        RevivedOnStep(m, failedUploads - todo, k);
        assert (failedUploads - todo) + {k} == failedUploads - (todo - {k});
        var upload := uploads[k];
        uploads := uploads[k := upload.(status := Pending, attempts := Max(0, upload.attempts - 1) as nat, error := None)];
        todo := todo - {k};
      }
    }

    /**
     * initializeUploadQueue's timer handling: registers one more 'online'
     * listener, cancels the previous periodic timer if any, and keeps the new one.
     */
    method InitializeUploadQueue(timerId: nat)
      requires Valid() && timerId !in liveTimers
      modifies this`onlineListeners, this`liveTimers, this`periodicTimer
      ensures Valid()
      ensures periodicTimer == Some(timerId) && liveTimers == {timerId}
      ensures onlineListeners == old(onlineListeners) + 1
    {
      onlineListeners := onlineListeners + 1;
      if periodicTimer.Some? {
        liveTimers := liveTimers - {periodicTimer.value};
      }
      liveTimers := liveTimers + {timerId};
      periodicTimer := Some(timerId);
    }

    /** cleanupUploadQueue: cancels the periodic timer and empties the slot. */
    method CleanupUploadQueue()
      requires Valid()
      modifies this`liveTimers, this`periodicTimer
      ensures Valid()
      ensures periodicTimer.None? && liveTimers == {}
    {
      if periodicTimer.Some? {
        liveTimers := liveTimers - {periodicTimer.value};
        periodicTimer := None;
      }
    }
  }
}
