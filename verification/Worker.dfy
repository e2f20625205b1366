/** One transfer job from start to end: the resumable copy, its verification, the conflict policy, the
    commit, and the retries around it all. */
module Worker {
  import opened Prelude
  import opened Files
  import opened Commit
  import opened Queue
  import Names

  const CHUNK_SIZE: nat := 4 * 1024 * 1024
  const MAX_SHA256_VERIFICATION_BYTES: nat := 64 * 1024 * 1024

  /** An eight-bit counter. */
  type Small = n: nat | n < 256

  /** What the user may do to the job between any two steps of its worker. */
  datatype Control = NoAction | Pause | Cancel | Choose(policy: ConflictPolicy)

  function Controlled(s: TransferState, c: Control): TransferState {
    match c
    case Pause => if IsValidTransition(s, Paused) then Paused else s
    case Cancel => if IsValidTransition(s, Cancelled) then Cancelled else s
    case _ => s
  }

  /** Pausing and cancelling do so where the job's state allows for it, and nothing else. */
  lemma ControlledByTheUser(s: TransferState)
    ensures Controlled(s, Pause) == if s == Queued || s == Running then Paused else s
    ensures Controlled(s, Cancel)
         == if s == Queued || s == Running || s == Paused || s == Interrupted then Cancelled else s
    ensures Controlled(s, NoAction) == s && forall policy :: Controlled(s, Choose(policy)) == s
  {
  }

  /** The user's actions alone never bring a job anywhere but to Paused or Cancelled, and a completed job
      nowhere at all. */
  predicate Nudged(before: TransferState, after: TransferState) {
    after == before || (before != Completed && (after == Paused || after == Cancelled))
  }

  /** A copy is faithful when verification could not tell it from the source. */
  predicate Faithful(copy: Bytes, source: Bytes, digest: Bytes -> int) {
    |copy| == |source| && (|source| <= MAX_SHA256_VERIFICATION_BYTES ==> digest(copy) == digest(source))
  }

  function VerificationFor(size: nat): (v: Verification)
    ensures v == if size <= 67_108_864 then Sha256Verified else SizeVerified
  {
    if size <= MAX_SHA256_VERIFICATION_BYTES then Sha256Verified else SizeVerified
  }

  datatype Direction = Upload | Download | RemoteToRemote

  class ActiveJob {
    const id: Id
    const direction: Direction
    const source: Path
    const control: nat -> Control
    /** Failures of the job store, the session and the metadata calls. */
    const mishap: nat -> Option<AppError>
    const retryLimit: nat -> Small

    var state: TransferState
    var policy: ConflictPolicy
    var destination: Path
    var partial: Path
    var total: Option<nat>
    var transferred: nat
    var verification: Verification
    var retryCount: Small
    var clock: nat
    /** How many steps have failed. */
    ghost var failures: nat
    /** The policy that the latest conflict check acted on. */
    ghost var decided: ConflictPolicy

    constructor (id: string, direction: Direction, source: Path, destination: Path, policy: ConflictPolicy,
                 control: nat -> Control, mishap: nat -> Option<AppError>, retryLimit: nat -> Small)
      ensures Valid() && state == Queued && retryCount == 0 && verification == Pending
      ensures this.destination == destination && this.policy == policy
      ensures this.id == id && this.source == source && this.direction == direction
    {
      this.direction := direction;
      this.id, this.source, this.destination, this.policy := id, source, destination, policy;
      this.control, this.mishap, this.retryLimit := control, mishap, retryLimit;
      partial := Names.PartialName(destination, id);
      state, total, transferred, verification, retryCount, clock := Queued, None, 0, Pending, 0, 0;
      decided, failures := policy, 0;
    }

    ghost predicate Valid()
      reads this`destination, this`partial
    {
      partial == Names.PartialName(destination, id)
    }

    /** Its entry in the queue, as far as its worker has to do with it. */
    function Entry(): Job
      reads this`state, this`policy, this`destination, this`partial, this`total, this`transferred, this`retryCount
      reads this`verification
    {
      Job(id, None, state, Normal, policy, destination, partial, total, transferred, retryCount, verification)
    }

    function Backup(): Path
      reads this`destination
    {
      Names.BackupName(destination, id)
    }

    /** From now on the user stays away and nothing outside the file copy fails. */
    ghost predicate Undisturbed()
      reads this`clock
    {
      forall n :: n >= clock ==> control(n) == NoAction && mishap(n) == None
    }

    method Interfere()
      modifies this`state, this`policy, this`clock
      ensures clock == old(clock) + 1 && Nudged(old(state), state)
      ensures state == Controlled(old(state), control(old(clock)))
      ensures policy == if control(old(clock)).Choose? then control(old(clock)).policy else old(policy)
      ensures old(Undisturbed()) ==> state == old(state) && policy == old(policy)
    {
      state := Controlled(state, control(clock));
      if control(clock).Choose? {
        policy := control(clock).policy;
      }
      clock := clock + 1;
    }

    method EnsureRunning() returns (r: Result<()>)
      modifies this`state, this`policy, this`clock
      ensures clock > old(clock) && Nudged(old(state), state)
      ensures r.Ok? <==> state == Running
      ensures old(Undisturbed()) ==> state == old(state) && policy == old(policy)
    {
      Interfere();
      r := if state == Running then Ok(()) else Err(Failure(Conflict));
    }

    /** Any step that can fail for a reason outside this model, such as writing the job store. */
    method Attempt() returns (r: Result<()>)
      modifies this`clock, this`failures
      ensures clock == old(clock) + 1
      ensures r == if mishap(old(clock)).Some? then Err(mishap(old(clock)).value) else Ok(())
      ensures failures == old(failures) + if r.Err? then 1 else 0
    {
      r := if mishap(clock).Some? then Err(mishap(clock).value) else Ok(());
      failures := failures + if r.Err? then 1 else 0;
      clock := clock + 1;
    }

    method Transition(next: TransferState) returns (r: Result<()>)
      modifies this`state, this`policy, this`clock, this`failures
      ensures clock > old(clock) && (r.Ok? ==> state == next && clock == old(clock) + 2)
      ensures state == next || Nudged(old(state), state)
      ensures state == Completed && old(state) != Completed ==> next == Completed && old(state) == Running
      ensures old(Undisturbed()) ==> policy == old(policy) && (IsValidTransition(old(state), next) ==> r.Ok?)
      // Unless the user comes between, the entry changes as it does in the queue.
      ensures old(Undisturbed()) && Moved(old(Entry()), next).Ok? ==> Ok(Entry()) == Moved(old(Entry()), next)
      ensures old(Undisturbed()) && Moved(old(Entry()), next).Err? ==>
        r == Err(Moved(old(Entry()), next).error) && Entry() == old(Entry())
      ensures r.Ok? ==> unchanged(this`failures)
    {
      Interfere();
      var moved := Moved(Entry(), next);
      if moved.Err? {
        return Err(moved.error);
      }
      state := moved.value.state;
      r := Attempt();
    }

    method SetTotal(size: nat) returns (r: Result<()>)
      modifies this`total, this`clock, this`failures
      ensures clock > old(clock) && total == Some(size) && Entry() == WithTotal(old(Entry()), size)
      ensures old(Undisturbed()) ==> r.Ok?
      ensures r.Ok? ==> unchanged(this`failures)
    {
      total := Some(size);
      r := Attempt();
    }

    method RecordProgress(bytes: nat) returns (r: Result<()>)
      modifies this`state, this`policy, this`clock, this`failures, this`transferred
      ensures clock > old(clock) && Nudged(old(state), state)
      ensures old(Undisturbed()) ==> state == old(state) && policy == old(policy)
      ensures old(Undisturbed()) && old(state) == Running && (total.Some? ==> bytes <= total.value) ==> r.Ok?
      ensures r.Ok? ==> transferred == bytes && (total.Some? ==> bytes <= total.value)
      ensures old(Undisturbed()) && Progressed(old(Entry()), bytes).Ok? ==>
                Ok(Entry()) == Progressed(old(Entry()), bytes)
      ensures old(Undisturbed()) && Progressed(old(Entry()), bytes).Err? ==>
        r == Err(Progressed(old(Entry()), bytes).error) && Entry() == old(Entry())
      ensures r.Ok? ==> unchanged(this`failures)
    {
      Interfere();
      var progressed := Progressed(Entry(), bytes);
      if progressed.Err? {
        return Err(progressed.error);
      }
      transferred := progressed.value.bytesTransferred;
      r := Attempt();
    }

    method SetVerification(v: Verification) returns (r: Result<()>)
      modifies this`verification, this`clock, this`failures
      ensures clock > old(clock) && verification == v
      ensures old(Undisturbed()) ==> r.Ok?
      ensures r.Ok? ==> unchanged(this`failures)
    {
      verification := v;
      r := Attempt();
    }

    method UpdateDestination(path: Path) returns (r: Result<()>)
      modifies this`destination, this`partial, this`clock, this`failures
      ensures clock > old(clock) && Valid() && destination == path && Entry() == Redirected(old(Entry()), path)
      ensures old(Undisturbed()) ==> r.Ok?
      ensures r.Ok? ==> unchanged(this`failures)
    {
      destination, partial := path, Names.PartialName(path, id);
      r := Attempt();
    }
  }

  // ---------------------------------------------------------------------------------------------
  // The conflict policy

  /** Position n on, nothing changed. */
  ghost predicate StillSince(trace: seq<Tree>, n: nat, files: Tree) {
    forall i :: n <= i < |trace| ==> trace[i] == files
  }

  /** The copy with the least free number. */
  predicate IsLeastFree(files: Tree, destination: Path, copy: Path, index: nat) {
    && 2 <= index <= 10_000
    && copy == Names.NumberedDestination(destination, index)
    && copy !in files
    && forall j :: 2 <= j < index ==> Names.NumberedDestination(destination, j) in files
  }

  /** The new destination is the least-numbered free name beside an existing one. */
  ghost predicate Renumbered(files: Tree, from: Path, to: Path) {
    from in files && exists index :: IsLeastFree(files, from, to, index)
  }

  method NextAvailable(dst: Filesystem, destination: Path) returns (r: Result<Path>)
    modifies dst`clock, dst`trace, dst`failures
    ensures old(dst.trace) <= dst.trace && StillSince(dst.trace, |old(dst.trace)|, dst.files)
    ensures dst.clock >= old(dst.clock)
    ensures r.Ok? ==> exists index :: IsLeastFree(dst.files, destination, r.value, index)
    ensures old(dst.Healthy()) && r.Err? ==>
      forall index :: 2 <= index <= 10_000 ==> Names.NumberedDestination(destination, index) in dst.files
    ensures old(dst.Healthy()) && r.Err? ==> IsOwn(r.error)
    ensures r.Ok? ==> unchanged(dst`failures)
  {
    for index := 2 to 10_001
      invariant old(dst.trace) <= dst.trace && StillSince(dst.trace, |old(dst.trace)|, dst.files)
      invariant dst.clock >= old(dst.clock)
      invariant forall j :: 2 <= j < index ==> Names.NumberedDestination(destination, j) in dst.files
      invariant unchanged(dst`failures)
    {
      var candidate := Names.NumberedDestination(destination, index);
      var found := dst.Metadata(candidate);
      if found.Err? {
        return Err(found.error);
      }
      if found.value.None? {
        assert IsLeastFree(dst.files, destination, candidate, index);
        return Ok(candidate);
      }
    }
    r := Err(Failure(Conflict));
  }

  /** No copy of the destination can be made. */
  ghost predicate AllTaken(files: Tree, destination: Path) {
    forall index :: 2 <= index <= 10_000 ==> Names.NumberedDestination(destination, index) in files
  }

  /** Moving the job to a free name beside its destination. */
  method KeepBothFiles(dst: Filesystem, job: ActiveJob) returns (r: Result<bool>)
    requires job.Valid()
    modifies dst`clock, dst`trace, dst`failures, job`clock, job`failures, job`destination, job`partial
    ensures job.Valid() && job.clock >= old(job.clock) && dst.clock >= old(dst.clock)
    ensures old(dst.trace) <= dst.trace && StillSince(dst.trace, |old(dst.trace)|, dst.files)
    ensures r.Ok? ==> !r.value && exists index :: IsLeastFree(dst.files, old(job.destination), job.destination, index)
    ensures job.destination == old(job.destination)
            || exists index :: IsLeastFree(dst.files, old(job.destination), job.destination, index)
    ensures old(job.Undisturbed() && dst.Healthy()) && r.Err? ==>
      AllTaken(dst.files, job.destination) && job.destination == old(job.destination) && IsOwn(r.error)
    ensures r.Ok? ==> unchanged(dst`failures, job`failures)
  {
    var free := NextAvailable(dst, job.destination);
    if free.Err? {
      return Err(free.error);
    }
    var updated := job.UpdateDestination(free.value);
    r := if updated.Err? then Err(updated.error) else Ok(false);
  }

  /** Ending the run at a conflict. */
  method EndRun(job: ActiveJob, next: TransferState) returns (r: Result<bool>)
    modifies job`state, job`policy, job`clock, job`failures
    ensures job.clock > old(job.clock)
    ensures r.Ok? ==> r.value && job.state == next
    ensures job.state == next || Nudged(old(job.state), job.state)
    ensures job.state == Completed && old(job.state) != Completed ==> next == Completed && old(job.state) == Running
    ensures old(job.Undisturbed()) && IsValidTransition(old(job.state), next) ==> r == Ok(true)
    ensures r.Ok? ==> unchanged(job`failures)
  {
    var moved := job.Transition(next);
    r := if moved.Err? then Err(moved.error) else Ok(true);
  }

  /** Decides what to do about an existing destination; true ends the run. */
  method HandleConflict(dst: Filesystem, job: ActiveJob) returns (r: Result<bool>)
    requires job.Valid()
    modifies dst`clock, dst`trace, dst`failures
    modifies job`state, job`policy, job`clock, job`failures, job`destination, job`partial, job`decided
    ensures job.Valid() && job.clock > old(job.clock) && dst.clock >= old(dst.clock)
    ensures old(dst.trace) <= dst.trace && StillSince(dst.trace, |old(dst.trace)|, dst.files)
    // The job finishes here only by skipping an existing destination.
    ensures job.state == Completed && old(job.state) != Completed ==>
      job.decided == Skip && job.destination == old(job.destination) && job.destination in dst.files
    ensures r == Ok(true) ==>
      && job.destination in dst.files && job.destination == old(job.destination)
      && ((job.decided == Ask && job.state == WaitingForConflict) || (job.decided == Skip && job.state == Completed))
    ensures r == Ok(false) ==>
      && Nudged(old(job.state), job.state)
      && (job.destination in dst.files ==> job.decided == Overwrite)
    ensures Nudged(old(job.state), job.state) || job.state == Completed || job.state == WaitingForConflict
    // Keeping both files takes the least free number.
    ensures job.destination == old(job.destination) || Renumbered(dst.files, old(job.destination), job.destination)
    ensures r == Ok(false) && job.decided == KeepBoth && old(job.destination) in dst.files ==>
      Renumbered(dst.files, old(job.destination), job.destination)
    ensures old(job.Undisturbed()) && old(dst.Healthy())
            && (old(job.policy) == Overwrite || old(job.destination) !in dst.files) ==>
      r == Ok(false) && job.state == old(job.state) && job.destination == old(job.destination)
    // What each policy does to an existing destination, unless somebody or something comes between.
    ensures (&& old(job.Undisturbed() && dst.Healthy()) && old(job.state) == Running
             && old(job.destination) in dst.files) ==>
      && job.decided == old(job.policy)
      && (old(job.policy) == Ask ==> r == Ok(true) && job.state == WaitingForConflict)
      && (old(job.policy) == Skip ==> r == Ok(true) && job.state == Completed)
      && (old(job.policy) == KeepBoth ==>
            && job.state == Running && (r == Ok(false) || (r.Err? && IsOwn(r.error)))
            && (if r.Err? then AllTaken(dst.files, old(job.destination)) && job.destination == old(job.destination)
                else Renumbered(dst.files, old(job.destination), job.destination)))
    ensures r.Ok? ==> unchanged(dst`failures, job`failures)
  {
    job.Interfere();
    var policy := job.policy;
    job.decided := policy;
    var found := dst.Metadata(job.destination);
    if found.Err? {
      return Err(found.error);
    }
    if found.value.None? {
      return Ok(false);
    }
    match policy
    case Ask => r := EndRun(job, WaitingForConflict);
    case Skip => r := EndRun(job, Completed);
    case Overwrite => r := Ok(false);
    case KeepBoth => r := KeepBothFiles(dst, job);
  }

  // ---------------------------------------------------------------------------------------------
  // The resumable copy

  /** The longer trace ends with the later tree. */
  predicate LeadsTo(was: seq<Tree>, now: seq<Tree>, base: Tree, files: Tree) {
    if |now| <= |was| then files == base else now[|now| - 1] == files
  }

  /** What a copy keeps, whatever fails: it touches the partial file alone, and if that held a prefix of
      the source it holds one at every moment. */
  ghost predicate CopyKept(was: seq<Tree>, now: seq<Tree>, base: Tree, files: Tree, partial: Path, source: Bytes) {
    && was <= now && LeadsTo(was, now, base, files)
    && OnlyTouches(base, files, {partial})
    && (partial in base ==> partial in files)
    && TouchOnly(now, |was|, base, {partial})
    && (PrefixOrAbsent(base, partial, source) ==>
          PrefixOrAbsent(files, partial, source) && PrefixSince(now, |was|, partial, source))
  }

  lemma CopyStep(was: seq<Tree>, now: seq<Tree>, base: Tree, files: Tree, files': Tree, partial: Path, source: Bytes)
    requires CopyKept(was, now, base, files, partial, source)
    requires OnlyTouches(files, files', {partial}) && (partial in files ==> partial in files')
    requires PrefixOrAbsent(files, partial, source) ==> PrefixOrAbsent(files', partial, source)
    ensures CopyKept(was, now + [files'], base, files', partial, source)
  {
    TouchTransitive(base, files, files', {partial}, {partial});
    assert {partial} + {partial} == {partial};
  }

  lemma OverlayKeepsPrefix(content: Bytes, offset: nat, data: Bytes, source: Bytes)
    requires offset <= |content| && offset + |data| <= |source| && data == source[offset..offset + |data|]
    ensures content <= source ==> Overlay(content, offset, data) <= source
    ensures |Overlay(content, offset, data)| >= |content| && |Overlay(content, offset, data)| >= offset + |data|
    ensures offset == |content| ==> Overlay(content, offset, data) == content + data
  {
  }

  /** Writing one chunk of the source. On servers that report sizes it lands exactly at the partial's end. */
  method WriteChunk(dst: Filesystem, partial: Path, offset: nat, data: Bytes, ghost source: Bytes)
    returns (r: Result<()>)
    requires offset <= SizeOrZero(dst.files, partial)
    requires dst.reportsSize ==> offset == SizeOrZero(dst.files, partial)
    requires offset + |data| <= |source| && data == source[offset..offset + |data|]
    modifies dst
    ensures dst.clock == old(dst.clock) + 1 && dst.trace == old(dst.trace) + [dst.files]
    ensures OnlyTouches(old(dst.files), dst.files, {partial}) && (partial in old(dst.files) ==> partial in dst.files)
    ensures PrefixOrAbsent(old(dst.files), partial, source) ==> PrefixOrAbsent(dst.files, partial, source)
    ensures r.Ok? ==> partial in dst.files && offset + |data| <= SizeOrZero(dst.files, partial)
    ensures r.Ok? && dst.reportsSize ==> SizeOrZero(dst.files, partial) == offset + |data|
    ensures old(dst.Healthy()) ==> r.Ok?
    ensures r.Ok? ==> unchanged(dst`failures)
  {
    var content := if partial in dst.files then dst.files[partial] else [];
    OverlayKeepsPrefix(content, offset, data, source);
    if dst.fault(dst.clock).Cut? {
      var some := data[..Min(dst.fault(dst.clock).n, |data|)];
      assert some == source[offset..offset + |some|];
      OverlayKeepsPrefix(content, offset, some, source);
    }
    r := dst.Write(partial, offset, data);
  }

  function StrictestLimit(first: Option<nat>, second: Option<nat>): Option<nat> {
    var a := if first.Some? && first.value > 0 then first else None;
    var b := if second.Some? && second.value > 0 then second else None;
    if a.Some? && b.Some? then Some(Min(a.value, b.value)) else if a.Some? then a else b
  }

  const MIN_THROTTLED_CHUNK_SIZE: nat := 1024

  predicate IsLimit(limit: Option<nat>) {
    limit.Some? && limit.value > 0
  }

  /** A quarter of a second's worth of the strictest limit, within bounds: unless it is the smallest one, a chunk takes
      at most that long under either limit, and no smaller chunk is chosen than the limits ask for. */
  function ChunkSize(global: Option<nat>, profile: Option<nat>): (size: nat)
    ensures 1_024 <= size <= 4_194_304
    ensures IsLimit(global) ==> size == 1_024 || 4 * size <= global.value
    ensures IsLimit(profile) ==> size == 1_024 || 4 * size <= profile.value
    ensures size < 4_194_304 ==> (IsLimit(global) && 4 * (size + 1) > global.value)
                                  || (IsLimit(profile) && 4 * (size + 1) > profile.value)
  {
    var limit := StrictestLimit(global, profile);
    if limit.None? then CHUNK_SIZE
    else if limit.value / 4 < MIN_THROTTLED_CHUNK_SIZE then MIN_THROTTLED_CHUNK_SIZE
    else Min(limit.value / 4, CHUNK_SIZE)
  }

  function SourceOf(files: Tree, job: ActiveJob): Bytes {
    if job.source in files then files[job.source] else []
  }

  /** Nothing fails from now on and the job runs. */
  ghost predicate Smooth(src: Filesystem, dst: Filesystem, job: ActiveJob)
    reads src, dst, job
  {
    IsCalm(src, dst, job) && job.state == Running
  }

  /** From now on nothing fails, and the user stays away. */
  ghost predicate IsCalm(src: Filesystem, dst: Filesystem, job: ActiveJob)
    reads src, dst, job
  {
    src.Healthy() && dst.Healthy() && job.Undisturbed()
  }

  /** Where to resume: what the server says is there, but no more than the source has. */
  method ResumeOffset(dst: Filesystem, job: ActiveJob, total: nat) returns (r: Result<nat>)
    modifies dst`clock, dst`trace, dst`failures
    ensures dst.clock > old(dst.clock) && dst.trace == old(dst.trace) + [dst.files]
    ensures r.Ok? ==> r.value <= total && r.value <= SizeOrZero(dst.files, job.partial)
    ensures r.Ok? && dst.reportsSize ==> r.value == Min(SizeOrZero(dst.files, job.partial), total)
    ensures old(dst.Healthy()) ==> r.Ok?
    ensures r.Ok? ==> unchanged(dst`failures)
  {
    var found := dst.Metadata(job.partial);
    if found.Err? {
      return Err(found.error);
    }
    var size := if found.value.Some? && found.value.value.size.Some? then found.value.value.size.value else 0;
    r := Ok(Min(size, total));
  }

  /** Throttling reserves the bytes, which takes time, and then checks the job again. */
  method Throttle(job: ActiveJob, bytes: nat) returns (r: Result<()>, ghost granted: nat)
    modifies job`state, job`policy, job`clock
    ensures job.clock > old(job.clock) && Nudged(old(job.state), job.state)
    ensures r.Ok? ==> granted == bytes && job.state == Running
    ensures old(job.Undisturbed()) ==> job.state == old(job.state)
    ensures old(job.Undisturbed()) && old(job.state) == Running ==> r.Ok?
  {
    granted := bytes;
    r := job.EnsureRunning();
  }

  /** Two stretches of one copy. */
  lemma CopyInTurn(t0: seq<Tree>, t1: seq<Tree>, t2: seq<Tree>, f0: Tree, f1: Tree, f2: Tree, partial: Path,
                   source: Bytes)
    requires CopyKept(t0, t1, f0, f1, partial, source) && CopyKept(t1, t2, f1, f2, partial, source)
    ensures CopyKept(t0, t2, f0, f2, partial, source)
  {
    TouchTransitive(f0, f1, f2, {partial}, {partial});
    TouchInTurn(t1, t2, |t0|, f0, f1, {partial}, {partial});
    assert {partial} + {partial} == {partial};
    if PrefixOrAbsent(f0, partial, source) {
      forall i | |t0| <= i < |t2| ensures PrefixOrAbsent(t2[i], partial, source) {
        assert i < |t1| ==> t2[i] == t1[i];
      }
    }
  }

  /** The copy may go on at this offset: at most what the partial holds, and exactly that much on a server
      that reports sizes. */
  predicate MayGoOn(files: Tree, partial: Path, reportsSize: bool, offset: nat) {
    offset <= SizeOrZero(files, partial) && (reportsSize ==> offset == SizeOrZero(files, partial))
  }

  /** One round of the upload loop: the new offset. A local read comes back empty only at the end of the source,
      so there is always something to send. */
  method UploadChunk(src: Filesystem, dst: Filesystem, job: ActiveJob, offset: nat, limits: (Option<nat>, Option<nat>))
    returns (r: Result<nat>)
    requires src != dst && job.source in src.files && offset < |src.files[job.source]|
    requires MayGoOn(dst.files, job.partial, dst.reportsSize, offset)
    modifies src`clock, src`trace, src`failures, dst, job`state, job`policy, job`clock, job`failures, job`transferred
    ensures src.clock >= old(src.clock) && dst.clock >= old(dst.clock) && job.clock >= old(job.clock)
    ensures CopyKept(old(dst.trace), dst.trace, old(dst.files), dst.files, job.partial, src.files[job.source])
    ensures Nudged(old(job.state), job.state)
    ensures r.Ok? ==> offset < r.value <= |src.files[job.source]| && job.partial in dst.files
                      && MayGoOn(dst.files, job.partial, dst.reportsSize, r.value)
    ensures r.Ok? ==> r.value <= offset + ChunkSize(limits.0, limits.1)
    // A job that is not running reads and writes nothing.
    ensures old(job.state) != Running ==> r.Err? && dst.files == old(dst.files) && src.clock == old(src.clock)
    ensures old(Smooth(src, dst, job)) && job.total == Some(|src.files[job.source]|) ==>
      r.Ok? && job.state == Running
    ensures r.Ok? ==> unchanged(src`failures, dst`failures, job`failures)
  {
    var running := job.EnsureRunning();
    if running.Err? {
      return Err(running.error);
    }
    LocalReadIsASlice(src.files, job.source, offset, ChunkSize(limits.0, limits.1), src.fault(src.clock));
    var chunk := src.ReadLocal(job.source, offset, ChunkSize(limits.0, limits.1));
    if chunk.Err? {
      return Err(chunk.error);
    }
    if chunk.value == [] {
      assert false;
    }
    ghost var granted;
    running, granted := Throttle(job, |chunk.value|);
    if running.Err? {
      return Err(running.error);
    }
    r := StoreChunk(dst, job, offset, chunk.value, granted, src.files[job.source]);
  }

  /** The end of every round: the chunk is written and the progress recorded. It is written for a running job only, and
      no more of it than was reserved. */
  method StoreChunk(dst: Filesystem, job: ActiveJob, offset: nat, data: Bytes, ghost granted: nat, ghost source: Bytes)
    returns (r: Result<nat>)
    requires job.state == Running && |data| <= granted
    requires MayGoOn(dst.files, job.partial, dst.reportsSize, offset)
    requires offset + |data| <= |source| && data == source[offset..offset + |data|]
    modifies dst, job`state, job`policy, job`clock, job`failures, job`transferred
    ensures dst.clock >= old(dst.clock) && job.clock >= old(job.clock)
    ensures CopyKept(old(dst.trace), dst.trace, old(dst.files), dst.files, job.partial, source)
    ensures Nudged(old(job.state), job.state)
    ensures r.Ok? ==> r.value == offset + |data| && MayGoOn(dst.files, job.partial, dst.reportsSize, r.value)
                      && job.partial in dst.files
    ensures old(dst.Healthy() && job.Undisturbed()) && old(job.state) == Running && job.total == Some(|source|) ==>
      r.Ok? && job.state == Running
    ensures r.Ok? ==> unchanged(dst`failures, job`failures)
  {
    CopyStepStart(dst.trace, dst.files, job.partial, source);
    ghost var trace, before := dst.trace, dst.files;
    var written := WriteChunk(dst, job.partial, offset, data, source);
    CopyStep(trace, trace, before, before, dst.files, job.partial, source);
    if written.Err? {
      return Err(written.error);
    }
    var recorded := job.RecordProgress(offset + |data|);
    r := if recorded.Err? then Err(recorded.error) else Ok(offset + |data|);
  }

  lemma CopyStepStart(trace: seq<Tree>, files: Tree, partial: Path, source: Bytes)
    ensures CopyKept(trace, trace, files, files, partial, source)
  {
  }

  /** A prefix that is as long as the source is the source. */
  lemma WholePrefix(files: Tree, partial: Path, source: Bytes)
    ensures (&& PrefixOrAbsent(files, partial, source) && |source| <= SizeOrZero(files, partial)
             && (source != [] || partial in files)) ==>
      At(files, partial) == Some(source)
  {
    if PrefixOrAbsent(files, partial, source) && partial in files && |source| <= |files[partial]| {
      assert files[partial] == source[..|files[partial]|] == source;
    }
  }

  /** The upload loop. */
  method CopyUpload(src: Filesystem, dst: Filesystem, job: ActiveJob, total: nat,
                    limits: nat -> (Option<nat>, Option<nat>))
    returns (r: Result<()>)
    requires src != dst && job.source in src.files && total == |src.files[job.source]|
    modifies src`clock, src`trace, src`failures, dst, job`state, job`policy, job`clock, job`failures, job`transferred
    ensures src.clock >= old(src.clock) && dst.clock >= old(dst.clock) && job.clock >= old(job.clock)
    ensures CopyKept(old(dst.trace), dst.trace, old(dst.files), dst.files, job.partial, src.files[job.source])
    ensures Nudged(old(job.state), job.state)
    ensures r.Ok? ==> total <= SizeOrZero(dst.files, job.partial)
    ensures r.Ok? && PrefixOrAbsent(old(dst.files), job.partial, src.files[job.source]) && total > 0 ==>
      At(dst.files, job.partial) == Some(src.files[job.source])
    ensures total == 0 || old(job.state) != Running ==> dst.files == old(dst.files)
    ensures old(Smooth(src, dst, job)) && job.total == Some(total) ==> r.Ok? && job.state == Running
    ensures r.Ok? ==> unchanged(src`failures, dst`failures, job`failures)
  {
    ghost var source := src.files[job.source];
    CopyStepStart(dst.trace, dst.files, job.partial, source);
    ghost var trace0 := dst.trace;
    var resumed := ResumeOffset(dst, job, total);
    CopyStep(trace0, trace0, dst.files, dst.files, dst.files, job.partial, source);
    if resumed.Err? {
      return Err(resumed.error);
    }
    var offset := resumed.value;
    while offset < total
      invariant offset <= total && offset <= SizeOrZero(dst.files, job.partial)
      invariant offset < total ==> MayGoOn(dst.files, job.partial, dst.reportsSize, offset)
      invariant total == 0 || old(job.state) != Running ==> dst.files == old(dst.files)
      invariant CopyKept(old(dst.trace), dst.trace, old(dst.files), dst.files, job.partial, source)
      invariant Nudged(old(job.state), job.state)
      invariant src.clock >= old(src.clock) && dst.clock >= old(dst.clock) && job.clock >= old(job.clock)
      invariant unchanged(src`failures, dst`failures, job`failures)
      invariant old(Smooth(src, dst, job)) && job.total == Some(total) ==> job.state == Running
    {
      ghost var trace, files := dst.trace, dst.files;
      var next := UploadChunk(src, dst, job, offset, limits(job.clock));
      CopyInTurn(old(dst.trace), trace, dst.trace, old(dst.files), files, dst.files, job.partial, source);
      if next.Err? {
        return Err(next.error);
      }
      offset := next.value;
    }
    WholePrefix(dst.files, job.partial, source);
    r := Ok(());
  }

  /** One round of the download and the remote copy: throttle first, then read and store. A server never
      returns more than was asked for here; the remote copy checks for it all the same. */
  method PullChunk(src: Filesystem, dst: Filesystem, job: ActiveJob, offset: nat, limits: (Option<nat>, Option<nat>))
    returns (r: Result<nat>)
    requires src != dst && job.source in src.files && offset < |src.files[job.source]|
    requires MayGoOn(dst.files, job.partial, dst.reportsSize, offset)
    modifies src`clock, src`trace, src`failures, dst, job`state, job`policy, job`clock, job`failures, job`transferred
    ensures src.clock >= old(src.clock) && dst.clock >= old(dst.clock) && job.clock >= old(job.clock)
    ensures CopyKept(old(dst.trace), dst.trace, old(dst.files), dst.files, job.partial, src.files[job.source])
    ensures Nudged(old(job.state), job.state)
    ensures r.Ok? ==> offset < r.value <= |src.files[job.source]|
                      && MayGoOn(dst.files, job.partial, dst.reportsSize, r.value)
    ensures r.Ok? ==> r.value <= offset + ChunkSize(limits.0, limits.1)
    ensures old(job.state) != Running ==> r.Err? && dst.files == old(dst.files)
    ensures old(Smooth(src, dst, job)) && job.total == Some(|src.files[job.source]|) ==>
      r.Ok? && job.state == Running
    ensures r.Ok? ==> unchanged(src`failures, dst`failures, job`failures)
  {
    var running := job.EnsureRunning();
    if running.Err? {
      return Err(running.error);
    }
    var requested := Min(|src.files[job.source]| - offset, ChunkSize(limits.0, limits.1));
    ghost var granted;
    running, granted := Throttle(job, requested);
    if running.Err? {
      return Err(running.error);
    }
    ReadIsASlice(src.files, job.source, offset, requested, src.fault(src.clock));
    var chunk := src.Read(job.source, offset, requested);
    if chunk.Err? {
      return Err(chunk.error);
    }
    if chunk.value == [] || |chunk.value| > requested {
      return Err(Failure(Io));
    }
    r := StoreChunk(dst, job, offset, chunk.value, granted, src.files[job.source]);
  }

  /** The loop of the download and the remote copy; a short read is an error, so it ends only at the end. */
  method PullAll(src: Filesystem, dst: Filesystem, job: ActiveJob, start: nat,
                 limits: nat -> (Option<nat>, Option<nat>))
    returns (r: Result<()>)
    requires src != dst && job.source in src.files && start <= |src.files[job.source]|
    requires start <= SizeOrZero(dst.files, job.partial)
    requires start < |src.files[job.source]| ==> MayGoOn(dst.files, job.partial, dst.reportsSize, start)
    modifies src`clock, src`trace, src`failures, dst, job`state, job`policy, job`clock, job`failures, job`transferred
    ensures src.clock >= old(src.clock) && dst.clock >= old(dst.clock) && job.clock >= old(job.clock)
    ensures CopyKept(old(dst.trace), dst.trace, old(dst.files), dst.files, job.partial, src.files[job.source])
    ensures Nudged(old(job.state), job.state)
    ensures r.Ok? ==> |src.files[job.source]| <= SizeOrZero(dst.files, job.partial)
    ensures src.files[job.source] == [] || old(job.state) != Running ==> dst.files == old(dst.files)
    ensures old(Smooth(src, dst, job)) && job.total == Some(|src.files[job.source]|) ==>
      r.Ok? && job.state == Running
    ensures r.Ok? ==> unchanged(src`failures, dst`failures, job`failures)
  {
    ghost var source := src.files[job.source];
    CopyStepStart(dst.trace, dst.files, job.partial, source);
    var offset := start;
    while offset < |src.files[job.source]|
      invariant offset <= |source| && offset <= SizeOrZero(dst.files, job.partial)
      invariant offset < |source| ==> MayGoOn(dst.files, job.partial, dst.reportsSize, offset)
      invariant source == [] || old(job.state) != Running ==> dst.files == old(dst.files)
      invariant CopyKept(old(dst.trace), dst.trace, old(dst.files), dst.files, job.partial, source)
      invariant Nudged(old(job.state), job.state)
      invariant src.clock >= old(src.clock) && dst.clock >= old(dst.clock) && job.clock >= old(job.clock)
      invariant unchanged(src`failures, dst`failures, job`failures)
      invariant old(Smooth(src, dst, job)) && job.total == Some(|source|) ==> job.state == Running
    {
      ghost var trace, files := dst.trace, dst.files;
      var next := PullChunk(src, dst, job, offset, limits(job.clock));
      CopyInTurn(old(dst.trace), trace, dst.trace, old(dst.files), files, dst.files, job.partial, source);
      if next.Err? {
        return Err(next.error);
      }
      offset := next.value;
    }
    r := Ok(());
  }

  method CopyRemote(src: Filesystem, dst: Filesystem, job: ActiveJob, limits: nat -> (Option<nat>, Option<nat>))
    returns (r: Result<()>)
    requires src != dst && job.source in src.files
    modifies src`clock, src`trace, src`failures, dst, job`state, job`policy, job`clock, job`failures, job`transferred
    ensures src.clock >= old(src.clock) && dst.clock >= old(dst.clock) && job.clock >= old(job.clock)
    ensures CopyKept(old(dst.trace), dst.trace, old(dst.files), dst.files, job.partial, src.files[job.source])
    ensures Nudged(old(job.state), job.state)
    ensures r.Ok? ==> |src.files[job.source]| <= SizeOrZero(dst.files, job.partial)
    ensures r.Ok? && PrefixOrAbsent(old(dst.files), job.partial, src.files[job.source])
            && src.files[job.source] != [] ==>
      At(dst.files, job.partial) == Some(src.files[job.source])
    ensures src.files[job.source] == [] || old(job.state) != Running ==> dst.files == old(dst.files)
    ensures old(Smooth(src, dst, job)) && job.total == Some(|src.files[job.source]|) ==>
      r.Ok? && job.state == Running
    ensures r.Ok? ==> unchanged(src`failures, dst`failures, job`failures)
  {
    ghost var source, trace0 := src.files[job.source], dst.trace;
    CopyStepStart(trace0, dst.files, job.partial, source);
    var resumed := ResumeOffset(dst, job, |src.files[job.source]|);
    CopyStep(trace0, trace0, dst.files, dst.files, dst.files, job.partial, source);
    if resumed.Err? {
      return Err(resumed.error);
    }
    ghost var trace := dst.trace;
    r := PullAll(src, dst, job, resumed.value, limits);
    CopyInTurn(trace0, trace, dst.trace, old(dst.files), old(dst.files), dst.files, job.partial, source);
    WholePrefix(dst.files, job.partial, source);
  }

  /** The download opens its local partial, and first cuts off whatever the source cannot have. */
  method CopyDownload(src: Filesystem, dst: Filesystem, job: ActiveJob, limits: nat -> (Option<nat>, Option<nat>))
    returns (r: Result<()>)
    requires src != dst && job.source in src.files
    modifies src`clock, src`trace, src`failures, dst, job`state, job`policy, job`clock, job`failures, job`transferred
    ensures src.clock >= old(src.clock) && dst.clock >= old(dst.clock) && job.clock >= old(job.clock)
    ensures CopyKept(old(dst.trace), dst.trace, old(dst.files), dst.files, job.partial, src.files[job.source])
    ensures Nudged(old(job.state), job.state)
    ensures r.Ok? ==> job.partial in dst.files && |src.files[job.source]| <= |dst.files[job.partial]|
    ensures r.Ok? && PrefixOrAbsent(old(dst.files), job.partial, src.files[job.source]) ==>
      At(dst.files, job.partial) == Some(src.files[job.source])
    ensures old(Smooth(src, dst, job)) && job.total == Some(|src.files[job.source]|) ==>
      r.Ok? && job.state == Running
    ensures r.Ok? ==> unchanged(src`failures, dst`failures, job`failures)
  {
    ghost var source, trace0 := src.files[job.source], dst.trace;
    CopyStepStart(trace0, dst.files, job.partial, source);
    r := dst.OpenForResume(job.partial, |src.files[job.source]|);
    CopyStep(trace0, trace0, old(dst.files), old(dst.files), dst.files, job.partial, source);
    ghost var trace1 := dst.trace;
    if r.Err? {
      return;
    }
    ghost var cutOff := dst.files;
    r := PullAll(src, dst, job, |dst.files[job.partial]|, limits);
    CopyInTurn(trace0, trace1, dst.trace, old(dst.files), cutOff, dst.files, job.partial, source);
    WholePrefix(dst.files, job.partial, source);
  }

  // ---------------------------------------------------------------------------------------------
  // Verification

  /** Hashing a local file to its end. */
  method HashLocal(fs: Filesystem, path: Path, digest: Bytes -> int) returns (r: Result<int>)
    modifies fs`clock, fs`trace, fs`failures
    ensures old(fs.trace) <= fs.trace && StillSince(fs.trace, |old(fs.trace)|, fs.files) && fs.clock >= old(fs.clock)
    ensures r.Ok? ==> path in fs.files && r.value == digest(fs.files[path])
    ensures old(fs.Healthy()) && path in fs.files ==> r.Ok?
    ensures r.Ok? ==> unchanged(fs`failures)
  {
    var hashed: Bytes := [];
    while true
      invariant old(fs.trace) <= fs.trace && StillSince(fs.trace, |old(fs.trace)|, fs.files)
                && fs.clock >= old(fs.clock) && unchanged(fs`failures)
      invariant hashed != [] ==> path in fs.files
      invariant path in fs.files ==> hashed <= fs.files[path]
      decreases SizeOrZero(fs.files, path) - |hashed|
    {
      if path in fs.files {
        LocalReadIsASlice(fs.files, path, |hashed|, CHUNK_SIZE, fs.fault(fs.clock));
      }
      var chunk := fs.ReadLocal(path, |hashed|, CHUNK_SIZE);
      if chunk.Err? {
        return Err(chunk.error);
      }
      if chunk.value == [] {
        assert hashed == fs.files[path];
        break;
      }
      hashed := hashed + chunk.value;
    }
    r := Ok(digest(hashed));
  }

  /** Hashing the expected number of bytes of a remote file. */
  method HashRemote(fs: Filesystem, path: Path, expected: nat, digest: Bytes -> int) returns (r: Result<int>)
    modifies fs`clock, fs`trace, fs`failures
    ensures old(fs.trace) <= fs.trace && StillSince(fs.trace, |old(fs.trace)|, fs.files) && fs.clock >= old(fs.clock)
    ensures r.Ok? && path in fs.files ==> expected <= |fs.files[path]| && r.value == digest(fs.files[path][..expected])
    ensures old(fs.Healthy()) && path in fs.files && expected <= |fs.files[path]| ==> r.Ok?
    ensures r.Ok? ==> unchanged(fs`failures)
  {
    var hashed: Bytes := [];
    while |hashed| < expected
      invariant old(fs.trace) <= fs.trace && StillSince(fs.trace, |old(fs.trace)|, fs.files)
                && fs.clock >= old(fs.clock) && unchanged(fs`failures)
      invariant |hashed| <= expected
      invariant path in fs.files ==> hashed <= fs.files[path]
      decreases expected - |hashed|
    {
      var chunk := fs.Read(path, |hashed|, Min(expected - |hashed|, CHUNK_SIZE));
      if chunk.Err? {
        return Err(chunk.error);
      }
      if chunk.value == [] {
        return Err(Failure(Io));
      }
      hashed := hashed + chunk.value;
    }
    assert path in fs.files ==> hashed == fs.files[path][..expected];
    r := Ok(digest(hashed));
  }

  /** The size an answer reports, if it reports one. */
  function ReportedSize(answer: Option<Entry>): Option<nat> {
    if answer.Some? then answer.value.size else None
  }

  /** The end of every verification: comparing the digests when they were taken, and recording the result. */
  method Conclude(job: ActiveJob, size: nat, first: Result<int>, second: Result<int>) returns (r: Result<()>)
    modifies job`verification, job`clock, job`failures
    ensures job.clock >= old(job.clock)
    ensures r.Ok? ==> job.verification == VerificationFor(size)
    ensures r.Ok? && size <= MAX_SHA256_VERIFICATION_BYTES ==> first.Ok? && first == second
    ensures old(job.Undisturbed()) && first.Ok? && first == second ==> r.Ok?
    ensures r.Ok? ==> unchanged(job`failures)
  {
    if size <= MAX_SHA256_VERIFICATION_BYTES {
      if first.Err? {
        return Err(first.error);
      }
      if second.Err? {
        return Err(second.error);
      }
      if first.value != second.value {
        return Err(Failure(Conflict));
      }
      r := job.SetVerification(Sha256Verified);
    } else {
      r := job.SetVerification(SizeVerified);
    }
  }

  /** Verifying an upload: the remote size, and up to 64 MiB both digests. */
  method VerifyUpload(src: Filesystem, dst: Filesystem, job: ActiveJob, digest: Bytes -> int) returns (r: Result<()>)
    requires src != dst && job.source in src.files
    modifies src`clock, src`trace, src`failures, dst`clock, dst`trace, dst`failures
    modifies job`verification, job`clock, job`failures
    ensures src.clock >= old(src.clock) && dst.clock >= old(dst.clock) && job.clock >= old(job.clock)
    ensures old(dst.trace) <= dst.trace && StillSince(dst.trace, |old(dst.trace)|, dst.files)
    ensures r.Ok? ==> job.partial in dst.files && Faithful(dst.files[job.partial], src.files[job.source], digest)
                      && job.verification == VerificationFor(|src.files[job.source]|)
    ensures (&& old(Smooth(src, dst, job)) && dst.reportsSize
             && job.partial in dst.files && dst.files[job.partial] == src.files[job.source]) ==> r.Ok?
    ensures old(dst.Healthy()) && job.partial !in dst.files ==> r.Err? && IsOwn(r.error)
    // Beyond 64 MiB nothing is read for a digest.
    ensures |src.files[job.source]| > 67_108_864 ==> src.clock == old(src.clock)
    ensures r.Ok? ==> unchanged(src`failures, dst`failures, job`failures)
  {
    var expected := |src.files[job.source]|;
    var found := dst.Metadata(job.partial);
    if found.Err? {
      return Err(found.error);
    }
    if ReportedSize(found.value) != Some(expected) {
      return Err(Failure(Conflict));
    }
    var first, second: Result<int> := Ok(0), Ok(0);
    if expected <= MAX_SHA256_VERIFICATION_BYTES {
      first := HashLocal(src, job.source, digest);
      second := HashRemote(dst, job.partial, expected, digest);
    }
    assert dst.files[job.partial][..expected] == dst.files[job.partial];
    r := Conclude(job, expected, first, second);
  }

  method VerifyDownload(src: Filesystem, dst: Filesystem, job: ActiveJob, digest: Bytes -> int) returns (r: Result<()>)
    requires src != dst && job.source in src.files
    modifies src`clock, src`trace, src`failures, dst`clock, dst`trace, dst`failures
    modifies job`verification, job`clock, job`failures
    ensures src.clock >= old(src.clock) && dst.clock >= old(dst.clock) && job.clock >= old(job.clock)
    ensures old(dst.trace) <= dst.trace && StillSince(dst.trace, |old(dst.trace)|, dst.files)
    ensures r.Ok? ==> job.partial in dst.files && Faithful(dst.files[job.partial], src.files[job.source], digest)
                      && job.verification == VerificationFor(|src.files[job.source]|)
    ensures (&& old(Smooth(src, dst, job)) && src.reportsSize
             && job.partial in dst.files && dst.files[job.partial] == src.files[job.source]) ==> r.Ok?
    // Beyond 64 MiB nothing is read for a digest.
    ensures |src.files[job.source]| > 67_108_864 ==> dst.clock <= old(dst.clock) + 1
    ensures r.Ok? ==> unchanged(src`failures, dst`failures, job`failures)
  {
    var expected := |src.files[job.source]|;
    var local := dst.Length(job.partial);
    if local.Err? {
      return Err(local.error);
    }
    var found := src.Metadata(job.source);
    if found.Err? {
      return Err(found.error);
    }
    if local.value != expected || ReportedSize(found.value) != Some(expected) {
      return Err(Failure(Conflict));
    }
    var first, second: Result<int> := Ok(0), Ok(0);
    if expected <= MAX_SHA256_VERIFICATION_BYTES {
      first := HashLocal(dst, job.partial, digest);
      second := HashRemote(src, job.source, expected, digest);
    }
    assert src.files[job.source][..expected] == src.files[job.source];
    r := Conclude(job, expected, first, second);
  }

  method VerifyRemote(src: Filesystem, dst: Filesystem, job: ActiveJob, digest: Bytes -> int) returns (r: Result<()>)
    requires src != dst && job.source in src.files
    modifies src`clock, src`trace, src`failures, dst`clock, dst`trace, dst`failures
    modifies job`verification, job`clock, job`failures
    ensures src.clock >= old(src.clock) && dst.clock >= old(dst.clock) && job.clock >= old(job.clock)
    ensures old(dst.trace) <= dst.trace && StillSince(dst.trace, |old(dst.trace)|, dst.files)
    ensures r.Ok? ==> job.partial in dst.files && Faithful(dst.files[job.partial], src.files[job.source], digest)
                      && job.verification == VerificationFor(|src.files[job.source]|)
    ensures (&& old(Smooth(src, dst, job)) && dst.reportsSize
             && job.partial in dst.files && dst.files[job.partial] == src.files[job.source]) ==> r.Ok?
    ensures old(dst.Healthy()) && job.partial !in dst.files ==> r.Err? && IsOwn(r.error)
    // Beyond 64 MiB nothing is read for a digest.
    ensures |src.files[job.source]| > 67_108_864 ==> src.clock == old(src.clock)
    ensures r.Ok? ==> unchanged(src`failures, dst`failures, job`failures)
  {
    var expected := |src.files[job.source]|;
    var found := dst.Metadata(job.partial);
    if found.Err? {
      return Err(found.error);
    }
    if ReportedSize(found.value) != Some(expected) {
      return Err(Failure(Conflict));
    }
    var first, second: Result<int> := Ok(0), Ok(0);
    if expected <= MAX_SHA256_VERIFICATION_BYTES {
      first := HashRemote(src, job.source, expected, digest);
      second := HashRemote(dst, job.partial, expected, digest);
    }
    assert src.files[job.source][..expected] == src.files[job.source];
    assert dst.files[job.partial][..expected] == dst.files[job.partial];
    r := Conclude(job, expected, first, second);
  }

  // ---------------------------------------------------------------------------------------------
  // Delivery

  /** At the destination there is only ever the old content or a faithful copy, whole; while nothing is
      there, the old content is whole at the backup name. */
  predicate NotLost(base: Tree, t: Tree, destination: Path, backup: Path, source: Bytes, digest: Bytes -> int) {
    && (destination in t ==>
          (destination in base && t[destination] == base[destination]) || Faithful(t[destination], source, digest))
    && (destination in base && destination !in t ==> backup in t && t[backup] == base[destination])
    && (destination !in base ==> SameAt(base, t, backup))
  }

  /** What a run keeps, whatever fails and wherever it stops: it touches the partial, the destination and
      the backup alone; a partial that held a prefix of the source holds one at every moment; and the
      destination is never lost, and never holds anything unverified. */
  ghost predicate RunKept(was: seq<Tree>, now: seq<Tree>, base: Tree, files: Tree,
                          destination: Path, id: string, source: Bytes, digest: Bytes -> int) {
    var partial, backup := Names.PartialName(destination, id), Names.BackupName(destination, id);
    && was <= now && LeadsTo(was, now, base, files)
    && OnlyTouches(base, files, {partial, destination, backup})
    && TouchOnly(now, |was|, base, {partial, destination, backup})
    && (PrefixOrAbsent(base, partial, source) ==>
          PrefixOrAbsent(files, partial, source) && PrefixSince(now, |was|, partial, source))
    && NotLost(base, files, destination, backup, source, digest)
    && forall i :: |was| <= i < |now| ==> NotLost(base, now[i], destination, backup, source, digest)
  }

  lemma RunFromStill(was: seq<Tree>, now: seq<Tree>, base: Tree, destination: Path, id: string, source: Bytes,
                     digest: Bytes -> int)
    requires was <= now && StillSince(now, |was|, base)
    ensures RunKept(was, now, base, base, destination, id, source, digest)
  {
  }

  lemma RunFromCopy(was: seq<Tree>, now: seq<Tree>, base: Tree, files: Tree, destination: Path, id: string,
                    source: Bytes, digest: Bytes -> int)
    requires CopyKept(was, now, base, files, Names.PartialName(destination, id), source)
    ensures RunKept(was, now, base, files, destination, id, source, digest)
    ensures SameAt(base, files, destination) && SameAt(base, files, Names.BackupName(destination, id))
  {
    Names.DerivedNamesDiffer(destination, id);
    assert SameAt(base, files, destination);
    forall i | |was| <= i < |now|
      ensures SameAt(base, now[i], destination) && SameAt(base, now[i], Names.BackupName(destination, id))
    {
      assert OnlyTouches(base, now[i], {Names.PartialName(destination, id)});
    }
  }

  /** A stretch that leaves the destination alone, and another one. */
  lemma RunInTurn(t0: seq<Tree>, t1: seq<Tree>, t2: seq<Tree>, f0: Tree, f1: Tree, f2: Tree,
                  destination: Path, id: string, source: Bytes, digest: Bytes -> int)
    requires RunKept(t0, t1, f0, f1, destination, id, source, digest)
    requires RunKept(t1, t2, f1, f2, destination, id, source, digest)
    requires SameAt(f0, f1, destination) && SameAt(f0, f1, Names.BackupName(destination, id))
    ensures RunKept(t0, t2, f0, f2, destination, id, source, digest)
  {
    var partial, backup := Names.PartialName(destination, id), Names.BackupName(destination, id);
    var three := {partial, destination, backup};
    TouchTransitive(f0, f1, f2, three, three);
    TouchInTurn(t1, t2, |t0|, f0, f1, three, three);
    assert three + three == three;
    forall i | |t0| <= i < |t2|
      ensures PrefixOrAbsent(f0, partial, source) ==> PrefixOrAbsent(t2[i], partial, source)
      ensures NotLost(f0, t2[i], destination, backup, source, digest)
    {
      assert i < |t1| ==> t2[i] == t1[i];
    }
  }

  /** A stretch in which nothing changes, and another one. */
  lemma StillThenRun(t0: seq<Tree>, t1: seq<Tree>, t2: seq<Tree>, f0: Tree, f2: Tree,
                     destination: Path, id: string, source: Bytes, digest: Bytes -> int)
    requires t0 <= t1 && StillSince(t1, |t0|, f0)
    requires RunKept(t1, t2, f0, f2, destination, id, source, digest)
    ensures RunKept(t0, t2, f0, f2, destination, id, source, digest)
  {
    RunFromStill(t0, t1, f0, destination, id, source, digest);
    RunInTurn(t0, t1, t2, f0, f0, f2, destination, id, source, digest);
  }

  /** An old backup is in the way of replacing an existing destination, unless it may be overwritten. */
  predicate WayIsFree(files: Tree, destination: Path, backup: Path, overwrites: bool) {
    destination in files && backup in files ==> overwrites
  }

  /** What a completed delivery left behind: a faithful copy, and of whatever size the very source if the partial
      held a prefix of it, or was not there, to begin with. */
  predicate Delivered(base: Tree, files: Tree, destination: Path, id: string, source: Bytes, digest: Bytes -> int,
                      verification: Verification) {
    && destination in files
    && Faithful(files[destination], source, digest)
    && (PrefixOrAbsent(base, Names.PartialName(destination, id), source) ==> files[destination] == source)
    && verification == VerificationFor(|source|)
    && Names.PartialName(destination, id) !in files
    && (if destination in base then Names.BackupName(destination, id) !in files
        else SameAt(base, files, Names.BackupName(destination, id)))
  }

  /** The last steps of every direction: commit, preserve metadata, complete. */
  method Deliver(dst: Filesystem, job: ActiveJob, ghost source: Bytes, digest: Bytes -> int) returns (r: Result<()>)
    requires job.Valid() && job.partial in dst.files && Faithful(dst.files[job.partial], source, digest)
    requires job.verification == VerificationFor(|source|)
    modifies dst, job`state, job`policy, job`clock, job`failures
    ensures job.clock >= old(job.clock) && dst.clock >= old(dst.clock)
    ensures RunKept(old(dst.trace), dst.trace, old(dst.files), dst.files, job.destination, job.id, source, digest)
    ensures Nudged(old(job.state), job.state) || job.state == Completed
    ensures job.state == Completed && old(job.state) != Completed ==>
      Delivered(old(dst.files), dst.files, job.destination, job.id, source, digest, job.verification)
    ensures r.Ok? ==> job.state == Completed && job.destination in dst.files
    ensures old(dst.Healthy() && job.Undisturbed()) && old(job.state) == Running ==>
      (r.Ok? <==> WayIsFree(old(dst.files), job.destination, job.Backup(), dst.overwrites))
    ensures old(dst.Healthy() && job.Undisturbed()) && old(job.state) == Running && r.Err? ==>
      IsOwn(r.error) && job.state == Running
    ensures r.Ok? ==> dst.files[job.destination] == old(dst.files)[job.partial]
    ensures job.state == Completed && old(job.state) != Completed && job.partial in old(dst.synced) ==>
      job.destination in dst.synced
    // Times and permissions are seen to between the commit and the end.
    ensures r.Ok? ==> job.clock == old(job.clock) + 3
    ensures r.Ok? ==> unchanged(dst`failures, job`failures)
  {
    Names.DerivedNamesDiffer(job.destination, job.id);
    ghost var trees;
    r, trees := CommitSafely(dst, job.partial, job.destination, job.Backup());
    RunFromCommit(old(dst.trace), trees, old(dst.files), job.destination, job.id, source, digest);
    if r.Err? {
      return;
    }
    r := job.Attempt();
    if r.Err? {
      return;
    }
    r := job.Transition(Completed);
  }

  lemma RunFromCommit(was: seq<Tree>, trees: seq<Tree>, base: Tree, destination: Path, id: string,
                      source: Bytes, digest: Bytes -> int)
    requires trees != []
    requires var partial, backup := Names.PartialName(destination, id), Names.BackupName(destination, id);
             && partial in base && Faithful(base[partial], source, digest)
             && (forall i :: 0 <= i < |trees| ==> OnlyTouches(base, trees[i], {partial, destination, backup}))
             && (forall i :: 0 <= i < |trees| ==> Guarded(base, trees[i], destination, backup, Some(base[partial])))
             && (forall i :: 0 <= i < |trees| && partial in trees[i] ==> trees[i][partial] == base[partial])
    ensures RunKept(was, was + trees, base, Last(trees), destination, id, source, digest)
  {
    var now := was + trees;
    var partial, backup := Names.PartialName(destination, id), Names.BackupName(destination, id);
    forall i | |was| <= i < |now|
      ensures OnlyTouches(base, now[i], {partial, destination, backup})
      ensures PrefixOrAbsent(base, partial, source) ==> PrefixOrAbsent(now[i], partial, source)
      ensures NotLost(base, now[i], destination, backup, source, digest)
    {
      assert now[i] == trees[i - |was|];
    }
  }

  // ---------------------------------------------------------------------------------------------
  // The three directions

  /** How a run may end without an error or with one. */
  predicate RunState(before: TransferState, after: TransferState) {
    Nudged(before, after) || after == Completed || after == WaitingForConflict
  }

  lemma CopyThenStill(t0: seq<Tree>, t1: seq<Tree>, t2: seq<Tree>, f0: Tree, f1: Tree, partial: Path, source: Bytes)
    requires CopyKept(t0, t1, f0, f1, partial, source) && t1 <= t2 && StillSince(t2, |t1|, f1)
    ensures CopyKept(t0, t2, f0, f1, partial, source)
  {
    assert CopyKept(t1, t2, f1, f1, partial, source);
    CopyInTurn(t0, t1, t2, f0, f1, f1, partial, source);
  }

  /** The source can be resumed onto what is there: the partial is a prefix of it, and is there if the
      source is empty - an empty source writes no chunk that would create it. */
  predicate CanResume(files: Tree, partial: Path, source: Bytes) {
    PrefixOrAbsent(files, partial, source) && (source != [] || partial in files)
  }

  /** Copying, syncing and verifying an upload. */
  method PrepareUpload(src: Filesystem, dst: Filesystem, job: ActiveJob,
                limits: nat -> (Option<nat>, Option<nat>), digest: Bytes -> int) returns (r: Result<()>)
    requires src != dst && job.source in src.files
    modifies src`clock, src`trace, src`failures, dst
    modifies job`state, job`policy, job`clock, job`failures, job`transferred, job`verification
    ensures src.clock >= old(src.clock) && dst.clock >= old(dst.clock) && job.clock >= old(job.clock)
    ensures CopyKept(old(dst.trace), dst.trace, old(dst.files), dst.files, job.partial, src.files[job.source])
    ensures Nudged(old(job.state), job.state)
    ensures r.Ok? ==> job.partial in dst.files && Faithful(dst.files[job.partial], src.files[job.source], digest)
                      && job.verification == VerificationFor(|src.files[job.source]|)
    // An empty source is never verified unless a partial file is already there.
    ensures src.files[job.source] == [] && job.partial !in old(dst.files) ==> r.Err?
    ensures (&& old(Smooth(src, dst, job)) && job.total == Some(|src.files[job.source]|)
             && dst.reportsSize && CanResume(old(dst.files), job.partial, src.files[job.source])) ==>
      r.Ok? && job.state == Running && dst.files[job.partial] == src.files[job.source]
    ensures (&& old(Smooth(src, dst, job)) && job.total == Some(|src.files[job.source]|)
             && src.files[job.source] == [] && job.partial !in old(dst.files)) ==>
      r.Err? && IsOwn(r.error) && job.state == Running
    ensures r.Ok? ==> job.partial in dst.synced
    ensures r.Ok? ==> unchanged(src`failures, dst`failures, job`failures)
  {
    ghost var source, t0, f0 := src.files[job.source], dst.trace, dst.files;
    var copied := CopyUpload(src, dst, job, |src.files[job.source]|, limits);
    ghost var t1 := dst.trace;
    if copied.Err? {
      return Err(copied.error);
    }
    r := dst.Sync(job.partial);
    CopyThenStill(t0, t1, dst.trace, f0, dst.files, job.partial, source);
    if r.Err? {
      return;
    }
    ghost var t2 := dst.trace;
    r := VerifyUpload(src, dst, job, digest);
    CopyThenStill(t0, t2, dst.trace, f0, dst.files, job.partial, source);
  }

  /** The same for a download; its local partial is always created. */
  method PrepareDownload(src: Filesystem, dst: Filesystem, job: ActiveJob,
                limits: nat -> (Option<nat>, Option<nat>), digest: Bytes -> int) returns (r: Result<()>)
    requires src != dst && job.source in src.files
    modifies src`clock, src`trace, src`failures, dst
    modifies job`state, job`policy, job`clock, job`failures, job`transferred, job`verification
    ensures src.clock >= old(src.clock) && dst.clock >= old(dst.clock) && job.clock >= old(job.clock)
    ensures CopyKept(old(dst.trace), dst.trace, old(dst.files), dst.files, job.partial, src.files[job.source])
    ensures Nudged(old(job.state), job.state)
    ensures r.Ok? ==> job.partial in dst.files && Faithful(dst.files[job.partial], src.files[job.source], digest)
                      && job.verification == VerificationFor(|src.files[job.source]|)
    ensures (&& old(Smooth(src, dst, job)) && job.total == Some(|src.files[job.source]|)
             && src.reportsSize && PrefixOrAbsent(old(dst.files), job.partial, src.files[job.source])) ==>
      r.Ok? && job.state == Running && dst.files[job.partial] == src.files[job.source]
    ensures r.Ok? ==> job.partial in dst.synced
    ensures r.Ok? ==> unchanged(src`failures, dst`failures, job`failures)
  {
    ghost var source, t0, f0 := src.files[job.source], dst.trace, dst.files;
    r := CopyDownload(src, dst, job, limits);
    ghost var t1 := dst.trace;
    if r.Err? {
      return;
    }
    r := dst.Sync(job.partial);
    CopyThenStill(t0, t1, dst.trace, f0, dst.files, job.partial, source);
    if r.Err? {
      return;
    }
    ghost var t2 := dst.trace;
    r := VerifyDownload(src, dst, job, digest);
    CopyThenStill(t0, t2, dst.trace, f0, dst.files, job.partial, source);
  }

  /** The same for a copy between two servers. */
  method PrepareRemote(src: Filesystem, dst: Filesystem, job: ActiveJob,
                limits: nat -> (Option<nat>, Option<nat>), digest: Bytes -> int) returns (r: Result<()>)
    requires src != dst && job.source in src.files
    modifies src`clock, src`trace, src`failures, dst
    modifies job`state, job`policy, job`clock, job`failures, job`transferred, job`verification
    ensures src.clock >= old(src.clock) && dst.clock >= old(dst.clock) && job.clock >= old(job.clock)
    ensures CopyKept(old(dst.trace), dst.trace, old(dst.files), dst.files, job.partial, src.files[job.source])
    ensures Nudged(old(job.state), job.state)
    ensures r.Ok? ==> job.partial in dst.files && Faithful(dst.files[job.partial], src.files[job.source], digest)
                      && job.verification == VerificationFor(|src.files[job.source]|)
    // An empty source is never verified unless a partial file is already there.
    ensures src.files[job.source] == [] && job.partial !in old(dst.files) ==> r.Err?
    ensures (&& old(Smooth(src, dst, job)) && job.total == Some(|src.files[job.source]|)
             && dst.reportsSize && CanResume(old(dst.files), job.partial, src.files[job.source])) ==>
      r.Ok? && job.state == Running && dst.files[job.partial] == src.files[job.source]
    ensures (&& old(Smooth(src, dst, job)) && job.total == Some(|src.files[job.source]|)
             && src.files[job.source] == [] && job.partial !in old(dst.files)) ==>
      r.Err? && IsOwn(r.error) && job.state == Running
    ensures r.Ok? ==> job.partial in dst.synced
    ensures r.Ok? ==> unchanged(src`failures, dst`failures, job`failures)
  {
    ghost var source, t0, f0 := src.files[job.source], dst.trace, dst.files;
    r := CopyRemote(src, dst, job, limits);
    ghost var t1 := dst.trace;
    if r.Err? {
      return;
    }
    r := dst.Sync(job.partial);
    CopyThenStill(t0, t1, dst.trace, f0, dst.files, job.partial, source);
    if r.Err? {
      return;
    }
    ghost var t2 := dst.trace;
    r := VerifyRemote(src, dst, job, digest);
    CopyThenStill(t0, t2, dst.trace, f0, dst.files, job.partial, source);
  }

  /** Copying and verifying, in whichever direction: what leads up to the commit. */
  method Prepare(src: Filesystem, dst: Filesystem, job: ActiveJob,
                 limits: nat -> (Option<nat>, Option<nat>), digest: Bytes -> int) returns (r: Result<()>)
    requires src != dst && job.source in src.files
    modifies src`clock, src`trace, src`failures, dst
    modifies job`state, job`policy, job`clock, job`failures, job`transferred, job`verification
    ensures src.clock >= old(src.clock) && dst.clock >= old(dst.clock) && job.clock >= old(job.clock)
    ensures CopyKept(old(dst.trace), dst.trace, old(dst.files), dst.files, job.partial, src.files[job.source])
    ensures Nudged(old(job.state), job.state)
    ensures r.Ok? ==> job.partial in dst.files && Faithful(dst.files[job.partial], src.files[job.source], digest)
                      && job.verification == VerificationFor(|src.files[job.source]|)
    ensures job.direction != Download && src.files[job.source] == [] && job.partial !in old(dst.files) ==> r.Err?
    ensures (&& old(Smooth(src, dst, job)) && job.total == Some(|src.files[job.source]|)
             && src.reportsSize && dst.reportsSize
             && PrefixOrAbsent(old(dst.files), job.partial, src.files[job.source])
             && (job.direction == Download || src.files[job.source] != [] || job.partial in old(dst.files))) ==>
      r.Ok? && job.state == Running && dst.files[job.partial] == src.files[job.source]
    ensures (&& old(Smooth(src, dst, job)) && job.total == Some(|src.files[job.source]|)
             && job.direction != Download && src.files[job.source] == [] && job.partial !in old(dst.files)) ==>
      r.Err? && IsOwn(r.error) && job.state == Running
    // What is prepared has reached the disk.
    ensures r.Ok? ==> job.partial in dst.synced
    ensures r.Ok? ==> unchanged(src`failures, dst`failures, job`failures)
  {
    match job.direction
    case Upload => r := PrepareUpload(src, dst, job, limits, digest);
    case Download => r := PrepareDownload(src, dst, job, limits, digest);
    case RemoteToRemote => r := PrepareRemote(src, dst, job, limits, digest);
  }

  /** The size to expect: local files always have one, remote ones only if the server reports it. */
  method SourceSize(src: Filesystem, job: ActiveJob) returns (r: Result<nat>)
    modifies src`clock, src`trace, src`failures
    ensures src.clock >= old(src.clock)
    ensures r.Ok? ==> job.source in src.files && r.value == |src.files[job.source]|
    ensures old(src.Healthy()) && src.reportsSize && job.source in src.files ==> r.Ok?
    // A local file always has a size, a remote one only if the server reports it.
    ensures old(src.Healthy()) && job.source in src.files && job.direction == Upload ==> r.Ok?
    ensures old(src.Healthy()) && job.source in src.files && job.direction != Upload && !src.reportsSize ==>
      r == Err(Failure(Unsupported))
    ensures r.Ok? ==> unchanged(src`failures)
  {
    if job.direction == Upload {
      r := src.Length(job.source);
      return;
    }
    var found := src.Metadata(job.source);
    if found.Err? {
      return Err(found.error);
    }
    if found.value.None? {
      return Err(Failure(NotFound));
    }
    if found.value.value.size.None? {
      return Err(Failure(Unsupported));
    }
    r := Ok(found.value.value.size.value);
  }

  /** A job finished by skipping: the destination existed and nothing changed. */
  predicate SkippedOver(base: Tree, files: Tree, destination: Path, decided: ConflictPolicy) {
    decided == Skip && destination in base && files == base
  }

  /** A job finished properly. */
  predicate FinishedWell(base: Tree, files: Tree, destination: Path, id: string, decided: ConflictPolicy,
                         source: Option<Bytes>, digest: Bytes -> int, verification: Verification) {
    || SkippedOver(base, files, destination, decided)
    || (source.Some? && Delivered(base, files, destination, id, source.value, digest, verification))
  }

  /** What a run starts from. */
  datatype Setting = Setting(files: Tree, id: Id, direction: Direction, source: Bytes, overwrites: bool)

  /** The constant part of it that belongs to the job. */
  function SettingOf(job: ActiveJob, dst: Filesystem, files: Tree, source: Bytes): Setting {
    Setting(files, job.id, job.direction, source, dst.overwrites)
  }

  /** Whether there is nothing in the way of a copy to that name: an old backup beside an existing file, or an empty
      source, of which nothing would create the partial. */
  predicate CanFinish(s: Setting, to: Path) {
    && (s.direction == Download || s.source != [] || Names.PartialName(to, s.id) in s.files)
    && WayIsFree(s.files, to, Names.BackupName(to, s.id), s.overwrites)
  }

  /** If what is there already can be resumed, the copy is made exactly when nothing is in its way, and then it has the
      source's content. */
  predicate CopiesAsMeant(s: Setting, files: Tree, to: Path, ok: bool, state: TransferState) {
    PrefixOrAbsent(s.files, Names.PartialName(to, s.id), s.source) ==>
      && (ok <==> CanFinish(s, to))
      && (ok ==> state == Completed && to in files && files[to] == s.source)
  }

  /** If what is there already can be resumed, an error is one that does not pass, and the job is still running. */
  predicate FailsByItself(s: Setting, to: Path, r: Result<()>, state: TransferState) {
    r.Err? && PrefixOrAbsent(s.files, Names.PartialName(to, s.id), s.source) ==> IsOwn(r.error) && state == Running
  }

  /** Copying, verifying and delivering, once the destination is settled. The run began at an earlier point of the
      trace, since when nothing has changed. */
  method Move(src: Filesystem, dst: Filesystem, job: ActiveJob, limits: nat -> (Option<nat>, Option<nat>),
              digest: Bytes -> int, ghost was: seq<Tree>) returns (r: Result<()>)
    requires src != dst && job.Valid() && job.source in src.files
    requires was <= dst.trace && StillSince(dst.trace, |was|, dst.files)
    modifies src`clock, src`trace, src`failures, dst
    modifies job`state, job`policy, job`clock, job`failures, job`transferred, job`verification
    ensures src.clock >= old(src.clock) && dst.clock >= old(dst.clock) && job.clock >= old(job.clock)
    ensures RunKept(was, dst.trace, old(dst.files), dst.files, job.destination, job.id, src.files[job.source], digest)
    ensures Nudged(old(job.state), job.state) || job.state == Completed
    ensures job.state == Completed && old(job.state) != Completed ==>
      Delivered(old(dst.files), dst.files, job.destination, job.id, src.files[job.source], digest, job.verification)
    ensures r.Ok? ==> job.state == Completed && job.destination in dst.files
    // Nothing is delivered that has not reached the disk.
    ensures job.state == Completed && old(job.state) != Completed ==> job.destination in dst.synced
    ensures (&& old(Smooth(src, dst, job)) && job.total == Some(|src.files[job.source]|)
             && src.reportsSize && dst.reportsSize) ==>
      && CopiesAsMeant(SettingOf(job, dst, old(dst.files), src.files[job.source]), dst.files, job.destination, r.Ok?,
                       job.state)
      && FailsByItself(SettingOf(job, dst, old(dst.files), src.files[job.source]), job.destination, r, job.state)
    ensures r.Ok? ==> unchanged(src`failures, dst`failures, job`failures)
  {
    ghost var source, t0, f0 := src.files[job.source], dst.trace, dst.files;
    Names.DerivedNamesDiffer(job.destination, job.id);
    r := Prepare(src, dst, job, limits, digest);
    ghost var t1, f1 := dst.trace, dst.files;
    RunFromCopy(t0, t1, f0, f1, job.destination, job.id, source, digest);
    StillThenRun(was, t0, t1, f0, f1, job.destination, job.id, source, digest);
    if r.Err? {
      return;
    }
    assert SameAt(f0, f1, job.Backup());
    r := Deliver(dst, job, source, digest);
    RunInTurn(was, t1, dst.trace, f0, f1, dst.files, job.destination, job.id, source, digest);
  }

  /** How the destination is settled when nobody and nothing comes between: an existing one ends the run, or makes room
      for a numbered copy, as the policy says. */
  ghost predicate IsSettled(files: Tree, from: Path, to: Path, policy: ConflictPolicy, r: Result<bool>,
                            state: TransferState) {
    if from !in files || policy == Overwrite then r == Ok(false) && state == Running && to == from
    else if policy == Ask then r == Ok(true) && state == WaitingForConflict && to == from
    else if policy == Skip then r == Ok(true) && state == Completed && to == from
    else if r.Err? then IsOwn(r.error) && state == Running && AllTaken(files, from) && to == from
    else r == Ok(false) && state == Running && Renumbered(files, from, to)
  }

  /** Where a run ends when nobody and nothing comes between. By the policy an existing destination ends it at once, or
      makes room for a numbered copy if there is a free number; otherwise the source is copied. */
  ghost predicate EndsAsMeant(s: Setting, from: Path, policy: ConflictPolicy, files: Tree, to: Path, ok: bool,
                              state: TransferState) {
    if from in s.files && policy == Ask then ok && state == WaitingForConflict && files == s.files && to == from
    else if from in s.files && policy == Skip then ok && state == Completed && files == s.files && to == from
    else if from in s.files && policy == KeepBoth && AllTaken(s.files, from) then !ok && files == s.files && to == from
    else
      && (if from in s.files && policy == KeepBoth then Renumbered(s.files, from, to) else to == from)
      && CopiesAsMeant(s, files, to, ok, state)
  }

  /** A run that ends while its destination is settled, or goes on to copying. */
  lemma SettledAsMeant(s: Setting, from: Path, to: Path, policy: ConflictPolicy, settled: Result<bool>,
                       between: TransferState, files: Tree, r: Result<()>, state: TransferState)
    requires settled != Ok(false) ==>
      files == s.files && state == between && r == if settled.Ok? then Ok(()) else Err(settled.error)
    ensures IsSettled(s.files, from, to, policy, settled, between)
            && (settled == Ok(false) ==>
                CopiesAsMeant(s, files, to, r.Ok?, state) && FailsByItself(s, to, r, state)) ==>
              EndsAsMeant(s, from, policy, files, to, r.Ok?, state) && FailsByItself(s, to, r, state)
  {
  }

  /** Everything before the first byte moves: the source's size becomes the total, and the destination is settled;
      true ends the run. No file changes. */
  method Settle(src: Filesystem, dst: Filesystem, job: ActiveJob) returns (r: Result<bool>)
    requires src != dst && job.Valid()
    modifies src`clock, src`trace, src`failures, dst`clock, dst`trace, dst`failures
    modifies job`state, job`policy, job`clock, job`failures, job`destination, job`partial, job`decided, job`total
    ensures job.Valid() && src.clock >= old(src.clock) && dst.clock >= old(dst.clock) && job.clock >= old(job.clock)
    ensures old(dst.trace) <= dst.trace && StillSince(dst.trace, |old(dst.trace)|, dst.files)
    ensures job.state == Completed && old(job.state) != Completed ==>
      job.decided == Skip && job.destination == old(job.destination) && job.destination in dst.files
    ensures Nudged(old(job.state), job.state) || job.state == Completed || job.state == WaitingForConflict
    ensures r == Ok(true) ==> job.state == Completed || job.state == WaitingForConflict
    ensures r == Ok(false) ==>
      && job.source in src.files && job.total == Some(|src.files[job.source]|) && Nudged(old(job.state), job.state)
    ensures job.destination == old(job.destination) || Renumbered(dst.files, old(job.destination), job.destination)
    ensures old(Smooth(src, dst, job)) && src.reportsSize && job.source in src.files ==>
      IsSettled(dst.files, old(job.destination), job.destination, old(job.policy), r, job.state)
    ensures old(IsCalm(src, dst, job)) ==> IsCalm(src, dst, job)
    ensures r.Ok? ==> unchanged(src`failures, dst`failures, job`failures)
  {
    var size := SourceSize(src, job);
    if size.Err? {
      return Err(size.error);
    }
    var stored := job.SetTotal(size.value);
    if stored.Err? {
      return Err(stored.error);
    }
    r := HandleConflict(dst, job);
  }

  /** One run of the worker, in any of the three directions. */
  method Transfer(src: Filesystem, dst: Filesystem, job: ActiveJob,
                  limits: nat -> (Option<nat>, Option<nat>), digest: Bytes -> int) returns (r: Result<()>)
    requires src != dst && job.Valid()
    modifies src`clock, src`trace, src`failures, dst
    modifies job`state, job`policy, job`clock, job`failures, job`destination, job`partial, job`decided
    modifies job`total, job`transferred, job`verification
    ensures job.Valid() && src.clock >= old(src.clock) && dst.clock >= old(dst.clock) && job.clock >= old(job.clock)
    ensures RunKept(old(dst.trace), dst.trace, old(dst.files), dst.files, job.destination, job.id,
                    SourceOf(src.files, job), digest)
    ensures job.destination == old(job.destination) || Renumbered(old(dst.files), old(job.destination), job.destination)
    ensures RunState(old(job.state), job.state)
    ensures job.state == Completed && old(job.state) != Completed ==>
      FinishedWell(old(dst.files), dst.files, job.destination, job.id, job.decided,
                   At(src.files, job.source), digest, job.verification)
    ensures r.Ok? ==> job.state == Completed || job.state == WaitingForConflict
    ensures old(Smooth(src, dst, job)) && src.reportsSize && dst.reportsSize && job.source in src.files ==>
      && EndsAsMeant(SettingOf(job, dst, old(dst.files), src.files[job.source]), old(job.destination),
                     old(job.policy), dst.files, job.destination, r.Ok?, job.state)
      && FailsByItself(SettingOf(job, dst, old(dst.files), src.files[job.source]), job.destination, r, job.state)
    ensures r.Ok? ==> unchanged(src`failures, dst`failures, job`failures)
  {
    ghost var files, isCalm := dst.files, Smooth(src, dst, job) && src.reportsSize && dst.reportsSize;
    var settled := Settle(src, dst, job);
    ghost var state := job.state;
    if settled.Ok? && !settled.value {
      r := Move(src, dst, job, limits, digest, old(dst.trace));
    } else {
      RunFromStill(old(dst.trace), dst.trace, files, job.destination, job.id, SourceOf(src.files, job), digest);
      r := if settled.Err? then Err(settled.error) else Ok(());
    }
    if isCalm && job.source in src.files {
      SettledAsMeant(SettingOf(job, dst, files, src.files[job.source]), old(job.destination), job.destination,
                     old(job.policy), settled, state, dst.files, r, job.state);
    }
  }

  /** Different contents have different digests. */
  ghost predicate IsInjective(digest: Bytes -> int) {
    forall x: Bytes, y: Bytes :: digest(x) == digest(y) ==> x == y
  }

  /** Up to 64 MiB, a job that completes without skipping has the very source at its destination. */
  lemma FinishedIsTheSource(base: Tree, files: Tree, destination: Path, id: string, decided: ConflictPolicy,
                            source: Bytes, digest: Bytes -> int, verification: Verification)
    requires FinishedWell(base, files, destination, id, decided, Some(source), digest, verification)
    requires IsInjective(digest) && |source| <= MAX_SHA256_VERIFICATION_BYTES
    ensures SkippedOver(base, files, destination, decided)
            || (At(files, destination) == Some(source) && verification == Sha256Verified)
  {
    if !SkippedOver(base, files, destination, decided) {
      assert digest(files[destination]) == digest(source);
    }
  }

  /** A run for a numbered copy leaves the original alone, its partial and its backup too. */
  lemma KeepingBothSparesTheOriginal(was: seq<Tree>, now: seq<Tree>, base: Tree, files: Tree, original: Path,
                                     destination: Path, id: string, source: Bytes, digest: Bytes -> int)
    requires RunKept(was, now, base, files, destination, id, source, digest) && Names.IsBeside(original, destination)
    ensures AllSame(base, files, original, id)
    ensures forall i :: |was| <= i < |now| ==> AllSame(base, now[i], original, id)
  {
    Names.BesideIsApart(original, destination, id);
    var three := {Names.PartialName(destination, id), destination, Names.BackupName(destination, id)};
    forall i | |was| <= i < |now| ensures AllSame(base, now[i], original, id) {
      assert OnlyTouches(base, now[i], three);
    }
  }

  predicate AllSame(base: Tree, t: Tree, path: Path, id: string) {
    SameAt(base, t, path) && SameAt(base, t, Names.PartialName(path, id)) && SameAt(base, t, Names.BackupName(path, id))
  }

  // ---------------------------------------------------------------------------------------------
  // Retries

  function Power2(n: nat): nat {
    if n == 0 then 1 else 2 * Power2(n - 1)
  }

  /** Seconds before the given attempt: doubling, at most half a minute. */
  function RetryDelay(attempt: nat): (d: nat)
    requires attempt > 0
    ensures 1 <= d <= 30
  {
    PowerIsPositive(attempt - 1);
    Min(Power2(attempt - 1), 30)
  }

  lemma PowerIsPositive(n: nat)
    ensures Power2(n) >= 1
  {
  }

  /** The first delay is a second, and every further one twice the one before, up to half a minute. */
  lemma RetriesBackOff(attempt: nat)
    requires attempt > 0
    ensures RetryDelay(1) == 1 && RetryDelay(attempt + 1) == Min(2 * RetryDelay(attempt), 30)
  {
    assert Power2(attempt) == 2 * Power2(attempt - 1);
  }

  /** Decides about another attempt; the counter never saturates, because it stays below the limit. */
  method PrepareRetry(job: ActiveJob, error: AppError) returns (delay: Option<nat>)
    modifies job`state, job`policy, job`clock, job`failures, job`retryCount
    ensures job.clock >= old(job.clock)
    ensures delay.Some? ==>
      && error.retryable && job.state == Interrupted && old(job.state) == Running
      && job.retryCount == old(job.retryCount) + 1
      && (exists n :: n >= old(job.clock) && old(job.retryCount) < job.retryLimit(n))
      && delay.value == RetryDelay(job.retryCount)
    ensures delay.None? ==> Nudged(old(job.state), job.state) || job.state == Interrupted
    ensures job.state == Completed ==> old(job.state) == Completed
    ensures job.retryCount == old(job.retryCount)
            || (job.retryCount == old(job.retryCount) + 1
                && exists n :: n >= old(job.clock) && old(job.retryCount) < job.retryLimit(n))
    ensures old(job.Undisturbed()) ==>
      (delay.Some? <==> error.retryable && old(job.state) == Running
                        && old(job.retryCount) < job.retryLimit(old(job.clock)))
    ensures old(job.Undisturbed()) && delay.None? ==> job.state == old(job.state)
  {
    if !error.retryable {
      return None;
    }
    var limit := job.retryLimit(job.clock);
    job.Interfere();
    if job.state != Running || job.retryCount >= limit {
      return None;
    }
    var attempt := job.retryCount + 1;
    job.state := Interrupted;
    job.retryCount := attempt;
    var stored := job.Attempt();
    delay := if stored.Err? then None else Some(RetryDelay(attempt));
  }

  /** Giving up: a job that was active is failed, or waits for its user to log in again. */
  method Fail(job: ActiveJob, error: AppError)
    modifies job`state, job`policy, job`clock, job`failures
    ensures job.clock >= old(job.clock)
    ensures job.state != Running && job.state != Interrupted
    ensures job.state == Completed <==> old(job.state) == Completed
    // An active job that nobody stopped fails, unless logging in again may help.
    ensures job.state == Failed && old(job.state) != Failed ==>
      error.code != ConnectionClosed && error.code != AuthenticationFailed
    ensures job.state == WaitingForAuthentication && old(job.state) != WaitingForAuthentication ==>
      error.code == ConnectionClosed || error.code == AuthenticationFailed
    ensures old(job.state) == Running || old(job.state) == Interrupted ==>
      job.state == Failed || job.state == WaitingForAuthentication || job.state == Paused || job.state == Cancelled
    // The end of a job that was active is stored.
    ensures job.state == Failed && old(job.state) != Failed ==> job.clock == old(job.clock) + 2
    ensures old(job.Undisturbed()) ==>
      job.state == if old(job.state) != Running && old(job.state) != Interrupted then old(job.state)
                   else if error.code == ConnectionClosed || error.code == AuthenticationFailed
                   then WaitingForAuthentication else Failed
  {
    job.Interfere();
    if job.state == Paused || job.state == Cancelled || job.state == WaitingForConflict {
      return;
    }
    if job.state == Running || job.state == Interrupted {
      var next := if error.code == ConnectionClosed || error.code == AuthenticationFailed
                  then WaitingForAuthentication else Failed;
      assert IsValidTransition(job.state, next);
      job.state := next;
    }
    var _ := job.Attempt();
  }

  /** Waiting for a permit, and starting the job if it still is to be started. */
  method Begin(job: ActiveJob) returns (r: Result<()>)
    modifies job`state, job`policy, job`clock, job`failures
    ensures job.clock >= old(job.clock)
    ensures job.state != old(job.state) ==> job.state == Running || job.state == Paused || job.state == Cancelled
    ensures r.Ok? ==> job.state != Queued && job.state != Interrupted
    // The permit, the start, the stored job and the session: none of them is left out.
    ensures r.Ok? ==> job.clock == old(job.clock) + 4
    ensures old(job.Undisturbed()) ==>
      && r.Ok? && job.policy == old(job.policy)
      && job.state == if old(job.state) in {Queued, Interrupted} then Running else old(job.state)
    ensures r.Ok? ==> unchanged(job`failures)
  {
    r := job.Attempt();
    if r.Err? {
      return;
    }
    job.Interfere();
    if job.state == Queued || job.state == Interrupted {
      job.state := Running;
    }
    r := job.Attempt();
    if r.Err? {
      return;
    }
    r := job.Attempt();
  }

  /** One run: waiting for a permit, starting the job if it still is to be started, and transferring. */
  method Run(src: Filesystem, dst: Filesystem, job: ActiveJob,
             limits: nat -> (Option<nat>, Option<nat>), digest: Bytes -> int) returns (r: Result<()>)
    requires src != dst && job.Valid()
    modifies src`clock, src`trace, src`failures, dst
    modifies job`state, job`policy, job`clock, job`failures, job`destination, job`partial, job`decided
    modifies job`total, job`transferred, job`verification
    ensures job.Valid() && src.clock >= old(src.clock) && dst.clock >= old(dst.clock) && job.clock >= old(job.clock)
    ensures RunKept(old(dst.trace), dst.trace, old(dst.files), dst.files, job.destination, job.id,
                    SourceOf(src.files, job), digest)
    ensures job.destination == old(job.destination) || Renumbered(old(dst.files), old(job.destination), job.destination)
    ensures job.state == Completed && old(job.state) != Completed ==>
      FinishedWell(old(dst.files), dst.files, job.destination, job.id, job.decided,
                   At(src.files, job.source), digest, job.verification)
    ensures r.Ok? ==> job.state == Completed || job.state == WaitingForConflict
    // A job that is queued or was interrupted is started, and if nothing comes between it ends as it is meant to.
    ensures (&& old(IsCalm(src, dst, job)) && old(job.state) in {Queued, Interrupted, Running}
             && src.reportsSize && dst.reportsSize && job.source in src.files) ==>
      && EndsAsMeant(SettingOf(job, dst, old(dst.files), src.files[job.source]), old(job.destination),
                     old(job.policy), dst.files, job.destination, r.Ok?, job.state)
      && FailsByItself(SettingOf(job, dst, old(dst.files), src.files[job.source]), job.destination, r, job.state)
    ensures r.Ok? ==> unchanged(src`failures, dst`failures, job`failures)
  {
    ghost var t0, f0 := dst.trace, dst.files;
    RunFromStill(t0, t0, f0, job.destination, job.id, SourceOf(src.files, job), digest);
    r := Begin(job);
    if r.Err? {
      return;
    }
    r := Transfer(src, dst, job, limits, digest);
  }

  /** Good content for the destination: what was there when the worker started, or a faithful copy. */
  predicate GoodContent(base: Tree, destination: Path, content: Bytes, source: Bytes, digest: Bytes -> int) {
    (destination in base && content == base[destination]) || Faithful(content, source, digest)
  }

  predicate Good(base: Tree, t: Tree, destination: Path, id: string, source: Bytes, digest: Bytes -> int) {
    var backup := Names.BackupName(destination, id);
    && (destination in t ==> GoodContent(base, destination, t[destination], source, digest))
    && (destination in base && destination !in t ==>
        backup in t && GoodContent(base, destination, t[backup], source, digest))
    && (destination !in base && destination !in t ==>
          SameAt(base, t, backup) || (backup in t && Faithful(t[backup], source, digest)))
    && (PrefixOrAbsent(base, Names.PartialName(destination, id), source) ==>
          PrefixOrAbsent(t, Names.PartialName(destination, id), source))
  }

  /** Any number of runs in a row: at every moment the destination, or while it is missing the backup,
      holds good content, and a resumable partial stays resumable. If the destination was missing at the start, as after
      a crash between the two renames, the backup stays until there is a faithful copy. */
  ghost predicate RunsKept(was: seq<Tree>, now: seq<Tree>, base: Tree, files: Tree,
                           destination: Path, id: string, source: Bytes, digest: Bytes -> int) {
    && was <= now
    && Good(base, files, destination, id, source, digest)
    && forall i :: |was| <= i < |now| ==> Good(base, now[i], destination, id, source, digest)
  }

  lemma AnotherRun(t0: seq<Tree>, t1: seq<Tree>, t2: seq<Tree>, f0: Tree, f1: Tree, f2: Tree,
                   destination: Path, id: string, source: Bytes, digest: Bytes -> int)
    requires RunsKept(t0, t1, f0, f1, destination, id, source, digest)
    requires RunKept(t1, t2, f1, f2, destination, id, source, digest)
    ensures RunsKept(t0, t2, f0, f2, destination, id, source, digest)
  {
    forall i | |t0| <= i < |t2| ensures Good(f0, t2[i], destination, id, source, digest) {
      if i < |t1| {
        assert t2[i] == t1[i];
      } else {
        assert NotLost(f1, t2[i], destination, Names.BackupName(destination, id), source, digest);
      }
    }
  }

  lemma GoodInTurn(f0: Tree, f1: Tree, f2: Tree, destination: Path, id: string, source: Bytes, digest: Bytes -> int)
    requires Good(f0, f1, destination, id, source, digest) && Good(f1, f2, destination, id, source, digest)
    ensures Good(f0, f2, destination, id, source, digest)
  {
  }

  /** What one worker kept and the next one kept, both together kept. */
  lemma AnotherWorker(t0: seq<Tree>, t1: seq<Tree>, t2: seq<Tree>, f0: Tree, f1: Tree, f2: Tree,
                      destination: Path, id: string, source: Bytes, digest: Bytes -> int)
    requires RunsKept(t0, t1, f0, f1, destination, id, source, digest)
    requires RunsKept(t1, t2, f1, f2, destination, id, source, digest)
    ensures RunsKept(t0, t2, f0, f2, destination, id, source, digest)
  {
    GoodInTurn(f0, f1, f2, destination, id, source, digest);
    forall i | |t0| <= i < |t2| ensures Good(f0, t2[i], destination, id, source, digest) {
      if i < |t1| {
        assert t2[i] == t1[i];
      } else {
        GoodInTurn(f0, f1, t2[i], destination, id, source, digest);
      }
    }
  }

  /** A worker may have crashed at any moment, and another one started from what it left. */
  lemma RestartAfterCrash(t0: seq<Tree>, t1: seq<Tree>, t2: seq<Tree>, f0: Tree, f1: Tree, f2: Tree, crash: nat,
                          destination: Path, id: string, source: Bytes, digest: Bytes -> int)
    requires RunsKept(t0, t1, f0, f1, destination, id, source, digest) && |t0| <= crash < |t1|
    requires RunsKept(t1[..crash + 1], t2, t1[crash], f2, destination, id, source, digest)
    ensures RunsKept(t0, t2, f0, f2, destination, id, source, digest)
  {
    AnotherWorker(t0, t1[..crash + 1], t2, f0, t1[crash], f2, destination, id, source, digest);
  }

  /** Another run, but for a numbered copy. */
  lemma AnotherRunBeside(t0: seq<Tree>, t1: seq<Tree>, t2: seq<Tree>, f0: Tree, f1: Tree, f2: Tree, original: Path,
                         destination: Path, id: string, source: Bytes, digest: Bytes -> int)
    requires RunsKept(t0, t1, f0, f1, original, id, source, digest)
    requires RunKept(t1, t2, f1, f2, destination, id, source, digest) && Names.IsBeside(original, destination)
    ensures RunsKept(t0, t2, f0, f2, original, id, source, digest)
  {
    KeepingBothSparesTheOriginal(t1, t2, f1, f2, original, destination, id, source, digest);
    forall i | |t0| <= i < |t2| ensures Good(f0, t2[i], original, id, source, digest) {
      if i < |t1| {
        assert t2[i] == t1[i];
      } else {
        assert AllSame(f1, t2[i], original, id);
      }
    }
  }

  lemma NoRunYet(trace: seq<Tree>, files: Tree, destination: Path, id: string, source: Bytes, digest: Bytes -> int)
    ensures RunsKept(trace, trace, files, files, destination, id, source, digest)
  {
  }

  lemma RenumberedIsBeside(files: Tree, original: Path, from: Path, to: Path)
    requires Renumbered(files, from, to) && (from == original || Names.IsBeside(original, from))
    ensures Names.IsBeside(original, to)
  {
    var index :| IsLeastFree(files, from, to, index);
    Names.NumberedIsBeside(from, index);
    if from != original {
      Names.NumberedAgainIsBeside(original, from, index);
    }
  }

  /** What all runs together keep. The destination may have been chosen on the way: from the tree of that time on
      nothing is lost there, and nothing is ever lost at the first one. */
  ghost predicate AttemptsKept(was: seq<Tree>, now: seq<Tree>, base: Tree, files: Tree, original: Path,
                               chosenAt: seq<Tree>, chosen: Tree, destination: Path,
                               id: string, source: Bytes, digest: Bytes -> int) {
    && RunsKept(was, now, base, files, original, id, source, digest)
    && was <= chosenAt && RunsKept(chosenAt, now, chosen, files, destination, id, source, digest)
    && LeadsTo(was, chosenAt, base, chosen) && LeadsTo(was, now, base, files)
    && (if destination == original then chosenAt == was
        else Names.IsBeside(original, destination) && destination !in chosen)
  }

  /** A run that stayed with its destination. */
  lemma SameDestinationAgain(was: seq<Tree>, now: seq<Tree>, later: seq<Tree>, base: Tree, files: Tree, files': Tree,
                             original: Path, chosenAt: seq<Tree>, chosen: Tree, destination: Path,
                             id: string, source: Bytes, digest: Bytes -> int)
    requires AttemptsKept(was, now, base, files, original, chosenAt, chosen, destination, id, source, digest)
    requires RunKept(now, later, files, files', destination, id, source, digest)
    ensures AttemptsKept(was, later, base, files', original, chosenAt, chosen, destination, id, source, digest)
  {
    AnotherRun(chosenAt, now, later, chosen, files, files', destination, id, source, digest);
    if destination == original {
      AnotherRun(was, now, later, base, files, files', original, id, source, digest);
    } else {
      AnotherRunBeside(was, now, later, base, files, files', original, destination, id, source, digest);
    }
  }

  lemma FirstRunThere(now: seq<Tree>, later: seq<Tree>, files: Tree, files': Tree,
                      destination: Path, id: string, source: Bytes, digest: Bytes -> int)
    requires RunKept(now, later, files, files', destination, id, source, digest)
    ensures now <= later && LeadsTo(now, later, files, files')
    ensures RunsKept(now, later, files, files', destination, id, source, digest)
  {
    NoRunYet(now, files, destination, id, source, digest);
    AnotherRun(now, now, later, files, files, files', destination, id, source, digest);
  }

  lemma LeadsOn(was: seq<Tree>, now: seq<Tree>, later: seq<Tree>, base: Tree, files: Tree, files': Tree)
    requires was <= now <= later && LeadsTo(was, now, base, files) && LeadsTo(now, later, files, files')
    ensures LeadsTo(was, later, base, files')
  {
  }

  lemma RenumberedIsFree(files: Tree, from: Path, to: Path)
    requires Renumbered(files, from, to)
    ensures to !in files
  {
  }

  lemma ApartFromOriginal(original: Path, destination: Path)
    requires Names.IsBeside(original, destination)
    ensures destination != original
  {
    Names.BesideIsApart(original, destination, "");
  }

  /** A run that moved on to a free name. */
  lemma NewDestination(was: seq<Tree>, now: seq<Tree>, later: seq<Tree>, base: Tree, files: Tree, files': Tree,
                       original: Path, from: Path, destination: Path, id: string, source: Bytes, digest: Bytes -> int)
    requires RunsKept(was, now, base, files, original, id, source, digest) && LeadsTo(was, now, base, files)
    requires (from == original || Names.IsBeside(original, from)) && Renumbered(files, from, destination)
    requires RunKept(now, later, files, files', destination, id, source, digest)
    ensures AttemptsKept(was, later, base, files', original, now, files, destination, id, source, digest)
  {
    RenumberedIsBeside(files, original, from, destination);
    RenumberedIsFree(files, from, destination);
    ApartFromOriginal(original, destination);
    FirstRunThere(now, later, files, files', destination, id, source, digest);
    AnotherRunBeside(was, now, later, base, files, files', original, destination, id, source, digest);
    LeadsOn(was, now, later, base, files, files');
  }

  /** After any run, with the same destination or a new one. */
  lemma AfterRun(was: seq<Tree>, now: seq<Tree>, later: seq<Tree>, base: Tree, files: Tree, files': Tree,
                 original: Path, chosenAt: seq<Tree>, chosen: Tree, from: Path, destination: Path,
                 id: string, source: Bytes, digest: Bytes -> int)
    returns (chosenAt': seq<Tree>, chosen': Tree)
    requires AttemptsKept(was, now, base, files, original, chosenAt, chosen, from, id, source, digest)
    requires destination == from || Renumbered(files, from, destination)
    requires RunKept(now, later, files, files', destination, id, source, digest)
    ensures AttemptsKept(was, later, base, files', original, chosenAt', chosen', destination, id, source, digest)
  {
    if destination == from {
      SameDestinationAgain(was, now, later, base, files, files', original, chosenAt, chosen, from, id, source, digest);
      chosenAt', chosen' := chosenAt, chosen;
    } else {
      NewDestination(was, now, later, base, files, files', original, from, destination, id, source, digest);
      chosenAt', chosen' := now, files;
    }
  }

  method Reconnect(job: ActiveJob) returns (fatal: Option<AppError>)
    modifies job`clock, job`failures
    ensures job.clock >= old(job.clock)
    ensures old(job.Undisturbed()) ==> fatal.None?
    // Every profile is tried, until one fails for good.
    ensures fatal.None? ==> job.clock == old(job.clock) + if job.direction == RemoteToRemote then 2 else 1
    ensures fatal.Some? ==> job.clock > old(job.clock) && job.mishap(job.clock - 1) == fatal && !fatal.value.retryable
    ensures forall n :: old(job.clock) <= n < job.clock && job.mishap(n).Some? && !job.mishap(n).value.retryable ==>
              fatal == job.mishap(n)
  {
    var profiles := if job.direction == RemoteToRemote then 2 else 1;
    for i := 0 to profiles
      invariant job.clock == old(job.clock) + i
      invariant forall n :: old(job.clock) <= n < job.clock && job.mishap(n).Some? ==> job.mishap(n).value.retryable
    {
      var attempt := job.Attempt();
      if attempt.Err? && !attempt.error.retryable {
        return Some(attempt.error);
      }
    }
    fatal := None;
  }

  /** What follows a failed run: another attempt with a new session, or the end. */
  method Recover(job: ActiveJob, error: AppError, ghost limit: nat) returns (again: bool)
    requires forall n :: job.retryLimit(n) <= limit
    modifies job`state, job`policy, job`clock, job`failures, job`retryCount
    ensures job.clock >= old(job.clock)
    ensures job.retryCount == old(job.retryCount)
            || (job.retryCount == old(job.retryCount) + 1 && job.retryCount <= limit)
    ensures again ==> job.retryCount == old(job.retryCount) + 1 && job.state == Interrupted && error.retryable
    ensures !again ==> job.state != Running && job.state != Interrupted
    ensures job.state == Completed ==> old(job.state) == Completed
    // Left alone, a running job is tried again exactly after an error that may pass, and below the limit; otherwise it
    // is failed.
    ensures old(job.Undisturbed()) && old(job.state) == Running ==>
      && (again <==> error.retryable && old(job.retryCount) < job.retryLimit(old(job.clock)))
      && (!again && IsOwn(error) ==> job.state == Failed)
    // Not without its sessions.
    ensures again ==>
      var profiles := if job.direction == RemoteToRemote then 2 else 1;
      && job.clock >= old(job.clock) + profiles
      && forall n :: job.clock - profiles <= n < job.clock && job.mishap(n).Some? ==> job.mishap(n).value.retryable
  {
    var delay := PrepareRetry(job, error);
    if delay.None? {
      Fail(job, error);
      return false;
    }
    var fatal := Reconnect(job);
    if fatal.Some? {
      Fail(job, fatal.value);
      return false;
    }
    again := true;
  }

  /** What is there already, under whichever name the run may choose, can be resumed. */
  ghost predicate IsResumable(s: Setting, from: Path) {
    forall to :: to == from || Renumbered(s.files, from, to) ==>
      PrefixOrAbsent(s.files, Names.PartialName(to, s.id), s.source)
  }

  /** One attempt and what follows it. */
  method Try(src: Filesystem, dst: Filesystem, job: ActiveJob, limits: nat -> (Option<nat>, Option<nat>),
             digest: Bytes -> int, ghost limit: nat) returns (again: bool)
    requires src != dst && job.Valid() && job.state != Completed
    requires forall n :: job.retryLimit(n) <= limit
    modifies src`clock, src`trace, src`failures, dst, job
    ensures job.Valid()
    ensures RunKept(old(dst.trace), dst.trace, old(dst.files), dst.files, job.destination, job.id,
                    SourceOf(src.files, job), digest)
    ensures job.destination == old(job.destination) || Renumbered(old(dst.files), old(job.destination), job.destination)
    ensures job.retryCount == old(job.retryCount)
            || (job.retryCount == old(job.retryCount) + 1 && job.retryCount <= limit)
    ensures if again then job.retryCount == old(job.retryCount) + 1 && job.state == Interrupted
            else job.state != Running && job.state != Interrupted
    ensures job.state == Completed ==>
      FinishedWell(old(dst.files), dst.files, job.destination, job.id, job.decided,
                   At(src.files, job.source), digest, job.verification)
    ensures (&& old(IsCalm(src, dst, job)) && old(job.state) in {Queued, Interrupted, Running}
             && src.reportsSize && dst.reportsSize && job.source in src.files
             && IsResumable(SettingOf(job, dst, old(dst.files), src.files[job.source]), old(job.destination))) ==>
      && !again && job.state in {Completed, WaitingForConflict, Failed}
      && EndsAsMeant(SettingOf(job, dst, old(dst.files), src.files[job.source]), old(job.destination),
                     old(job.policy), dst.files, job.destination, job.state != Failed, job.state)
  {
    var r := Run(src, dst, job, limits, digest);
    again := false;
    if r.Err? {
      again := Recover(job, r.error, limit);
    }
  }

  /** The worker of one job, with all its attempts. */
  method Spawn(src: Filesystem, dst: Filesystem, job: ActiveJob, limits: nat -> (Option<nat>, Option<nat>),
               digest: Bytes -> int, ghost limit: nat)
    returns (attempts: nat, ghost base: Tree, ghost chosenAt: seq<Tree>, ghost chosen: Tree)
    requires src != dst && job.Valid() && job.state != Completed
    requires forall n :: job.retryLimit(n) <= limit
    modifies src`clock, src`trace, src`failures, dst, job
    ensures job.Valid()
    // The number of attempts is bounded by the retries that are left.
    ensures 1 <= attempts && attempts - 1 <= job.retryCount - old(job.retryCount)
    ensures job.retryCount == old(job.retryCount) || job.retryCount <= limit
    // No worker leaves its job behind as if somebody were still working on it.
    ensures job.state != Running && job.state != Interrupted
    // A job that ends completed was finished well in its last run.
    ensures job.state == Completed ==>
      FinishedWell(base, dst.files, job.destination, job.id, job.decided, At(src.files, job.source), digest,
                   job.verification)
    // If nothing comes between, a job that is to be started ends in one attempt as it is meant to: completed, waiting
    // for an answer, or failed.
    ensures (&& old(IsCalm(src, dst, job)) && old(job.state) in {Queued, Interrupted, Running}
             && src.reportsSize && dst.reportsSize && job.source in src.files
             && IsResumable(SettingOf(job, dst, old(dst.files), src.files[job.source]), old(job.destination))) ==>
      && attempts == 1 && job.state in {Completed, WaitingForConflict, Failed}
      && EndsAsMeant(SettingOf(job, dst, old(dst.files), src.files[job.source]), old(job.destination),
                     old(job.policy), dst.files, job.destination, job.state != Failed, job.state)
    // Over all the attempts nothing was lost, neither at the first destination nor at the last one.
    ensures AttemptsKept(old(dst.trace), dst.trace, old(dst.files), dst.files, old(job.destination),
                         chosenAt, chosen, job.destination, job.id, SourceOf(src.files, job), digest)
  {
    attempts := 0;
    base, chosenAt, chosen := dst.files, dst.trace, dst.files;
    NoRunYet(dst.trace, dst.files, job.destination, job.id, SourceOf(src.files, job), digest);
    ghost var isLeftAlone := && IsCalm(src, dst, job) && job.state in {Queued, Interrupted, Running}
                             && src.reportsSize && dst.reportsSize && job.source in src.files
                             && IsResumable(SettingOf(job, dst, dst.files, src.files[job.source]), job.destination);
    var again := true;
    while again
      invariant job.Valid() && 0 <= attempts && (!again ==> attempts > 0)
      invariant if again then attempts == job.retryCount - old(job.retryCount) && job.state != Completed
                else (attempts - 1 <= job.retryCount - old(job.retryCount)
                      && job.state != Running && job.state != Interrupted)
      invariant job.retryCount == old(job.retryCount) || job.retryCount <= limit
      invariant job.state == Completed ==>
        FinishedWell(base, dst.files, job.destination, job.id, job.decided, At(src.files, job.source), digest,
                     job.verification)
      invariant attempts == 0 ==> again && unchanged(src) && unchanged(dst) && unchanged(job)
      invariant isLeftAlone && attempts > 0 ==>
        && !again && attempts == 1 && job.state in {Completed, WaitingForConflict, Failed}
        && EndsAsMeant(SettingOf(job, dst, old(dst.files), src.files[job.source]), old(job.destination),
                       old(job.policy), dst.files, job.destination, job.state != Failed, job.state)
      invariant AttemptsKept(old(dst.trace), dst.trace, old(dst.files), dst.files, old(job.destination),
                             chosenAt, chosen, job.destination, job.id, SourceOf(src.files, job), digest)
      decreases again, 256 - job.retryCount
    {
      base := dst.files;
      ghost var trace, from := dst.trace, job.destination;
      again := Try(src, dst, job, limits, digest, limit);
      chosenAt, chosen := AfterRun(old(dst.trace), trace, dst.trace, old(dst.files), base, dst.files,
                                   old(job.destination),
                                   chosenAt, chosen, from, job.destination, job.id, SourceOf(src.files, job), digest);
      attempts := attempts + 1;
    }
  }
}
