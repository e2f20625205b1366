/** A filesystem whose every operation may fail: refused outright, carried out with the answer lost, or
    cut short. The faults are an arbitrary schedule, and a record of the tree after every operation
    stands for the places where the program may crash. */
module Files {
  import opened Prelude

  newtype Byte = x: int | 0 <= x < 256

  type Bytes = seq<Byte>

  type Path = string

  type Tree = map<Path, Bytes>

  datatype Fault =
    | Fine
    | Reject(error: AppError)         // nothing happened
    | Lost(error: AppError)           // it happened, but the answer never arrived
    | Cut(n: nat, error: AppError)    // only the first n bytes were moved

  /** What a listing says about a file; not every server reports sizes. */
  datatype Entry = Entry(size: Option<nat>)

  predicate SameAt(base: Tree, now: Tree, path: Path) {
    (path in base <==> path in now) && (path in base ==> base[path] == now[path])
  }

  /** Nothing but the named paths differs. */
  ghost predicate OnlyTouches(base: Tree, now: Tree, paths: set<Path>) {
    forall p :: p !in paths ==> SameAt(base, now, p)
  }

  function At(files: Tree, path: Path): Option<Bytes> {
    if path in files then Some(files[path]) else None
  }

  function SizeOrZero(files: Tree, path: Path): nat {
    if path in files then |files[path]| else 0
  }

  /** The file is absent or holds the beginning of the source. */
  predicate PrefixOrAbsent(files: Tree, path: Path, source: Bytes) {
    path in files ==> files[path] <= source
  }

  /** Every recorded tree from position n on differs from the base at the named paths only. */
  ghost predicate TouchOnly(trace: seq<Tree>, n: nat, base: Tree, paths: set<Path>) {
    forall i :: n <= i < |trace| ==> OnlyTouches(base, trace[i], paths)
  }

  /** Every recorded tree from position n on holds a prefix of the source at the path, or nothing. */
  ghost predicate PrefixSince(trace: seq<Tree>, n: nat, path: Path, source: Bytes) {
    forall i :: n <= i < |trace| ==> PrefixOrAbsent(trace[i], path, source)
  }

  /** One stretch of a trace after another. */
  lemma TouchInTurn(first: seq<Tree>, both: seq<Tree>, n: nat, base: Tree, mid: Tree, some: set<Path>, more: set<Path>)
    requires first <= both && n <= |first|
    requires TouchOnly(first, n, base, some) && OnlyTouches(base, mid, some)
    requires TouchOnly(both, |first|, mid, more)
    ensures TouchOnly(both, n, base, some + more)
  {
    forall i | n <= i < |both| ensures OnlyTouches(base, both[i], some + more) {
      if i < |first| {
        assert both[i] == first[i];
      } else {
        TouchTransitive(base, mid, both[i], some, more);
      }
    }
  }

  lemma TouchTransitive(base: Tree, mid: Tree, last: Tree, some: set<Path>, more: set<Path>)
    requires OnlyTouches(base, mid, some) && OnlyTouches(mid, last, more)
    ensures OnlyTouches(base, last, some + more)
  {
    forall p | p !in some + more ensures SameAt(base, last, p) {
      assert SameAt(base, mid, p) && SameAt(mid, last, p);
    }
  }

  // ---------------------------------------------------------------------------------------------
  // Effects of the operations

  function MetadataAnswer(files: Tree, path: Path, reportsSize: bool, fault: Fault): Result<Option<Entry>> {
    if !fault.Fine? then Err(fault.error)
    else if path !in files then Ok(None)
    else Ok(Some(Entry(if reportsSize then Some(|files[path]|) else None)))
  }

  function Available(content: Bytes, offset: nat, length: nat): Bytes {
    if offset >= |content| then [] else content[offset..Min(offset + length, |content|)]
  }

  function ReadAnswer(files: Tree, path: Path, offset: nat, length: nat, fault: Fault): Result<Bytes> {
    if fault.Reject? || fault.Lost? then Err(fault.error)
    else if path !in files then Err(Failure(NotFound))
    else
      var bytes := Available(files[path], offset, length);
      Ok(if fault.Cut? then bytes[..Min(fault.n, |bytes|)] else bytes)
  }

  /** Whatever arrives is the right piece of the file. */
  lemma ReadIsASlice(files: Tree, path: Path, offset: nat, length: nat, fault: Fault)
    requires path in files && offset <= |files[path]|
    ensures var r := ReadAnswer(files, path, offset, length, fault);
            r.Ok? ==> |r.value| <= length && offset + |r.value| <= |files[path]|
                      && r.value == files[path][offset..offset + |r.value|]
    ensures fault.Reject? || fault.Lost? ==> ReadAnswer(files, path, offset, length, fault) == Err(fault.error)
  {
  }

  /** A local read comes back empty at the end of the file only. */
  function LocalReadAnswer(files: Tree, path: Path, offset: nat, length: nat, fault: Fault): Result<Bytes> {
    if fault.Reject? || fault.Lost? then Err(fault.error)
    else if path !in files then Err(Failure(NotFound))
    else
      var bytes := Available(files[path], offset, length);
      Ok(if fault.Cut? then bytes[..Min(fault.n + 1, |bytes|)] else bytes)
  }

  lemma LocalReadIsASlice(files: Tree, path: Path, offset: nat, length: nat, fault: Fault)
    requires path in files && offset <= |files[path]|
    ensures var r := LocalReadAnswer(files, path, offset, length, fault);
            r.Ok? ==> |r.value| <= length && offset + |r.value| <= |files[path]|
                      && r.value == files[path][offset..offset + |r.value|]
                      && (length > 0 && offset < |files[path]| ==> r.value != [])
    ensures fault.Reject? || fault.Lost? ==> LocalReadAnswer(files, path, offset, length, fault) == Err(fault.error)
  {
  }

  function LengthAnswer(files: Tree, path: Path, fault: Fault): Result<nat> {
    if !fault.Fine? then Err(fault.error)
    else if path !in files then Err(Failure(NotFound))
    else Ok(|files[path]|)
  }

  /** Writing into a file; a gap before the offset reads as zeros. */
  function Overlay(content: Bytes, offset: nat, data: Bytes): Bytes {
    if offset > |content| then content + seq(offset - |content|, _ => 0) + data
    else content[..offset] + data + (if offset + |data| < |content| then content[offset + |data|..] else [])
  }

  function Written(files: Tree, path: Path, offset: nat, data: Bytes, fault: Fault): Tree {
    var content := if path in files then files[path] else [];
    match fault
    case Reject(_) => files
    case Cut(n, _) => files[path := Overlay(content, offset, data[..Min(n, |data|)])]
    case _ => files[path := Overlay(content, offset, data)]
  }

  function Answer(fault: Fault): Result<()> {
    if fault.Fine? then Ok(()) else Err(fault.error)
  }

  predicate CanRename(files: Tree, from: Path, to: Path, overwrites: bool) {
    from in files && (to !in files || overwrites || from == to)
  }

  predicate TakesEffect(fault: Fault) {
    fault.Fine? || fault.Lost?
  }

  function Renamed(files: Tree, from: Path, to: Path, overwrites: bool, fault: Fault): Tree {
    if TakesEffect(fault) && CanRename(files, from, to, overwrites) && from != to
    then (files - {from})[to := files[from]]
    else files
  }

  function RenameAnswer(files: Tree, from: Path, to: Path, overwrites: bool, fault: Fault): Result<()> {
    if TakesEffect(fault) && !CanRename(files, from, to, overwrites)
    then Err(Failure(if from in files then Io else NotFound))
    else Answer(fault)
  }

  function Removed(files: Tree, path: Path, fault: Fault): Tree {
    if TakesEffect(fault) then files - {path} else files
  }

  function RemoveAnswer(files: Tree, path: Path, fault: Fault): Result<()> {
    if TakesEffect(fault) && path !in files then Err(Failure(NotFound)) else Answer(fault)
  }

  /** Opening a local file for resuming: created when missing, then cut to the given length. */
  function Opened(files: Tree, path: Path, limit: nat, fault: Fault): Tree {
    var content := if path in files then files[path] else [];
    match fault
    case Reject(_) => files
    case Cut(_, _) => files[path := content]
    case _ => files[path := content[..Min(limit, |content|)]]
  }

  /** The files whose content has reached the disk, after a rename: the content moves, and what it replaces is gone. */
  function SyncedAfterRename(synced: set<Path>, files: Tree, from: Path, to: Path, overwrites: bool, fault: Fault)
    : set<Path>
  {
    if TakesEffect(fault) && CanRename(files, from, to, overwrites) && from != to
    then synced - {from, to} + (if from in synced then {to} else {})
    else synced
  }

  class Filesystem {
    /** Whether a rename replaces an existing target; SFTP servers refuse. */
    const overwrites: bool
    const reportsSize: bool
    /** Whether syncing opens the file, and so fails when it does not exist. */
    const syncOpens: bool
    const fault: nat -> Fault

    var files: Tree
    var clock: nat
    ghost var trace: seq<Tree>
    /** The files that were synced after their last change. */
    ghost var synced: set<Path>
    /** How many operations have answered with an error. */
    ghost var failures: nat

    constructor (files: Tree, overwrites: bool, reportsSize: bool, syncOpens: bool, fault: nat -> Fault)
      ensures this.files == files && clock == 0 && trace == [files]
      ensures this.overwrites == overwrites && this.reportsSize == reportsSize
      ensures this.syncOpens == syncOpens && this.fault == fault && synced == {} && failures == 0
    {
      this.files, clock, trace, synced, failures := files, 0, [files], {}, 0;
      this.overwrites, this.reportsSize := overwrites, reportsSize;
      this.syncOpens, this.fault := syncOpens, fault;
    }

    /** No operation from now on fails. */
    ghost predicate Healthy()
      reads this
    {
      forall n :: n >= clock ==> fault(n) == Fine
    }

    method Metadata(path: Path) returns (r: Result<Option<Entry>>)
      modifies this`clock, this`trace, this`failures
      ensures clock == old(clock) + 1 && trace == old(trace) + [files]
      ensures failures == old(failures) + if r.Err? then 1 else 0
      ensures r == MetadataAnswer(files, path, reportsSize, fault(old(clock)))
    {
      r := MetadataAnswer(files, path, reportsSize, fault(clock));
      failures := failures + if r.Err? then 1 else 0;
      clock := clock + 1;
      trace := trace + [files];
    }

    method Read(path: Path, offset: nat, length: nat) returns (r: Result<Bytes>)
      modifies this`clock, this`trace, this`failures
      ensures clock == old(clock) + 1 && trace == old(trace) + [files]
      ensures failures == old(failures) + if r.Err? then 1 else 0
      ensures r == ReadAnswer(files, path, offset, length, fault(old(clock)))
    {
      r := ReadAnswer(files, path, offset, length, fault(clock));
      failures := failures + if r.Err? then 1 else 0;
      clock := clock + 1;
      trace := trace + [files];
    }

    method ReadLocal(path: Path, offset: nat, length: nat) returns (r: Result<Bytes>)
      modifies this`clock, this`trace, this`failures
      ensures clock == old(clock) + 1 && trace == old(trace) + [files]
      ensures failures == old(failures) + if r.Err? then 1 else 0
      ensures r == LocalReadAnswer(files, path, offset, length, fault(old(clock)))
    {
      r := LocalReadAnswer(files, path, offset, length, fault(clock));
      failures := failures + if r.Err? then 1 else 0;
      clock := clock + 1;
      trace := trace + [files];
    }

    method Length(path: Path) returns (r: Result<nat>)
      modifies this`clock, this`trace, this`failures
      ensures clock == old(clock) + 1 && trace == old(trace) + [files]
      ensures failures == old(failures) + if r.Err? then 1 else 0
      ensures r == LengthAnswer(files, path, fault(old(clock)))
    {
      r := LengthAnswer(files, path, fault(clock));
      failures := failures + if r.Err? then 1 else 0;
      clock := clock + 1;
      trace := trace + [files];
    }

    method Write(path: Path, offset: nat, data: Bytes) returns (r: Result<()>)
      modifies this
      ensures files == Written(old(files), path, offset, data, fault(old(clock)))
      ensures synced == old(synced) - {path}
      ensures clock == old(clock) + 1 && trace == old(trace) + [files]
      ensures failures == old(failures) + if r.Err? then 1 else 0
      ensures r == Answer(fault(old(clock)))
    {
      r := Answer(fault(clock));
      files := Written(files, path, offset, data, fault(clock));
      synced := synced - {path};
      failures := failures + if r.Err? then 1 else 0;
      clock := clock + 1;
      trace := trace + [files];
    }

    method Sync(path: Path) returns (r: Result<()>)
      modifies this`clock, this`trace, this`failures, this`synced
      ensures synced == if r.Ok? then old(synced) + {path} else old(synced)
      ensures clock == old(clock) + 1 && trace == old(trace) + [files]
      ensures failures == old(failures) + if r.Err? then 1 else 0
      ensures r == if syncOpens && path !in files && fault(old(clock)).Fine?
                   then Err(Failure(NotFound)) else Answer(fault(old(clock)))
    {
      r := if syncOpens && path !in files && fault(clock).Fine? then Err(Failure(NotFound)) else Answer(fault(clock));
      synced := if r.Ok? then synced + {path} else synced;
      failures := failures + if r.Err? then 1 else 0;
      clock := clock + 1;
      trace := trace + [files];
    }

    method Rename(from: Path, to: Path) returns (r: Result<()>)
      modifies this
      ensures files == Renamed(old(files), from, to, overwrites, fault(old(clock)))
      ensures synced == SyncedAfterRename(old(synced), old(files), from, to, overwrites, fault(old(clock)))
      ensures clock == old(clock) + 1 && trace == old(trace) + [files]
      ensures failures == old(failures) + if r.Err? then 1 else 0
      ensures r == RenameAnswer(old(files), from, to, overwrites, fault(old(clock)))
    {
      r := RenameAnswer(files, from, to, overwrites, fault(clock));
      synced := SyncedAfterRename(synced, files, from, to, overwrites, fault(clock));
      files := Renamed(files, from, to, overwrites, fault(clock));
      failures := failures + if r.Err? then 1 else 0;
      clock := clock + 1;
      trace := trace + [files];
    }

    method Remove(path: Path) returns (r: Result<()>)
      modifies this
      ensures files == Removed(old(files), path, fault(old(clock))) && synced == old(synced) - {path}
      ensures clock == old(clock) + 1 && trace == old(trace) + [files]
      ensures failures == old(failures) + if r.Err? then 1 else 0
      ensures r == RemoveAnswer(old(files), path, fault(old(clock)))
    {
      r := RemoveAnswer(files, path, fault(clock));
      files := Removed(files, path, fault(clock));
      synced := synced - {path};
      failures := failures + if r.Err? then 1 else 0;
      clock := clock + 1;
      trace := trace + [files];
    }

    method OpenForResume(path: Path, limit: nat) returns (r: Result<()>)
      modifies this
      ensures files == Opened(old(files), path, limit, fault(old(clock))) && synced == old(synced) - {path}
      ensures clock == old(clock) + 1 && trace == old(trace) + [files]
      ensures failures == old(failures) + if r.Err? then 1 else 0
      ensures r == Answer(fault(old(clock)))
    {
      r := Answer(fault(clock));
      files := Opened(files, path, limit, fault(clock));
      synced := synced - {path};
      failures := failures + if r.Err? then 1 else 0;
      clock := clock + 1;
      trace := trace + [files];
    }
  }
}
